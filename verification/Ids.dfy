/** Identities built from serial numbers, and the serial allocator. */
module Ids {
  import opened Vocabulary
  import opened GraphState

  const DIGITS := "0123456789"

  predicate IsDigit(c: char) {
    '0' <= c <= '9'
  }

  /** Decimal notation, as Python prints an integer. */
  function Decimal(n: nat): (s: string)
    ensures s != [] && forall k :: 0 <= k < |s| ==> IsDigit(s[k])
    ensures n > 0 ==> s[0] != '0'
  {
    if n < 10 then [DIGITS[n]] else Decimal(n / 10) + [DIGITS[n % 10]]
  }

  /** `int(...)` of a string of digits. */
  function Parse(s: string): nat
    requires forall k :: 0 <= k < |s| ==> IsDigit(s[k])
  {
    if s == [] then 0
    else
      assert IsDigit(s[|s| - 1]);
      10 * Parse(s[..|s| - 1]) + (s[|s| - 1] as int - '0' as int)
  }

  lemma {:induction false} ParseDecimal(n: nat)
    ensures Parse(Decimal(n)) == n
  {
    if n >= 10 {
      ParseDecimal(n / 10);
      assert Decimal(n)[..|Decimal(n)| - 1] == Decimal(n / 10);
    } else {
      assert Decimal(n)[..0] == "";
    }
  }

  /** `f"{base}-{n}"`. */
  function Numbered(base: string, n: nat): string {
    base + "-" + Decimal(n)
  }

  /** A numbered identity gives back its base and its number. */
  lemma {:induction false} NumberedIsInjective(a: string, m: nat, b: string, n: nat)
    requires Numbered(a, m) == Numbered(b, n)
    ensures a == b && m == n
  {
    var s := Numbered(a, m);
    OneDash(a, m);
    OneDash(b, n);
    assert s[..|a|] == a && s[|a| + 1..] == Decimal(m);
    assert s[..|b|] == b && s[|b| + 1..] == Decimal(n);
    ParseDecimal(m);
    ParseDecimal(n);
  }

  /** The last dash of a numbered identity is the one before its number. */
  lemma {:induction false} OneDash(base: string, n: nat)
    ensures var s := Numbered(base, n);
            |base| < |s| && s[|base|] == '-' && forall i :: |base| < i < |s| ==> s[i] != '-'
  {
    var s := Numbered(base, n);
    forall i | |base| < i < |s|
      ensures s[i] != '-'
    {
      assert s[i] == Decimal(n)[i - |base| - 1];
    }
  }

  /** An identity that ends in a letter is not a numbered one. */
  lemma {:induction false} NumberedEndsInDigit(s: string, base: string, n: nat)
    requires s != [] && !IsDigit(s[|s| - 1])
    ensures s != Numbered(base, n)
  {
    var t := Numbered(base, n);
    assert t[|t| - 1] == Decimal(n)[|Decimal(n)| - 1];
  }

  // ---- `_next_serial` ----

  /** The serial of an id of the form `<no slash>/<prefix>-<serial>`, serials having no leading zero. */
  function SerialOf(id: Id, prefix: string): Option<nat> {
    var slash := FirstIndex(id, '/');
    var head := slash + 1 + |prefix| + 1;
    if && 0 < slash && head < |id| && id[slash + 1..head] == prefix + "-"
       && id[head] != '0' && forall k :: head <= k < |id| ==> IsDigit(id[k])
    then Some(Parse(id[head..]))
    else None
  }

  /** One past the highest committed serial. */
  method NextSerial(nodes: set<Id>, prefix: string) returns (serial: nat)
    ensures IsNextSerial(nodes, prefix, serial)
  {
    var highest := 0;
    var pending := nodes;
    while pending != {}
      invariant pending <= nodes
      invariant forall id :: id in nodes && id !in pending && SerialOf(id, prefix).Some? ==>
                  SerialOf(id, prefix).value <= highest
      invariant highest > 0 ==> exists id :: id in nodes && SerialOf(id, prefix) == Some(highest)
    {
      var id :| id in pending;
      pending := pending - {id};
      var found := SerialOf(id, prefix);
      if found.Some? && found.value > highest {
        highest := found.value;
      }
    }
    serial := highest + 1;
  }

  ghost predicate IsNextSerial(nodes: set<Id>, prefix: string, serial: nat) {
    && serial > 0
    && (forall id :: id in nodes && SerialOf(id, prefix).Some? ==> SerialOf(id, prefix).value < serial)
    && (serial > 1 ==> exists id :: id in nodes && SerialOf(id, prefix) == Some((serial - 1) as nat))
  }

  function ScopedId(proofId: string, prefix: string, serial: nat): Id {
    proofId + "/" + Numbered(prefix, serial)
  }

  lemma {:induction false} FirstIndexAfter(a: string, b: string, c: char)
    requires c !in a
    ensures FirstIndex(a + [c] + b, c) == |a|
  {
    if a != [] {
      assert (a + [c] + b)[0] == a[0] && (a + [c] + b)[1..] == a[1..] + [c] + b;
      FirstIndexAfter(a[1..], b, c);
    }
  }

  /** A serial read back from the id made with it. */
  lemma {:induction false} SerialOfScoped(proofId: string, prefix: string, serial: nat)
    requires proofId != "" && '/' !in proofId && serial > 0
    ensures SerialOf(ScopedId(proofId, prefix, serial), prefix) == Some(serial)
  {
    var id := ScopedId(proofId, prefix, serial);
    var number := Decimal(serial);
    assert id == proofId + ['/'] + Numbered(prefix, serial);
    FirstIndexAfter(proofId, Numbered(prefix, serial), '/');
    assert id == (proofId + "/") + (prefix + "-") + number;
    SplitThree(proofId + "/", prefix + "-", number);
    ParseDecimal(serial);
  }

  lemma {:induction false} SplitThree(a: string, b: string, c: string)
    ensures (a + b + c)[|a|..|a| + |b|] == b && (a + b + c)[|a| + |b|..] == c
    ensures forall k :: |a| + |b| <= k < |a + b + c| ==> (a + b + c)[k] == c[k - |a| - |b|]
  {
  }

  /** A minted id is new. */
  lemma {:induction false} MintedIsNew(nodes: set<Id>, proofId: string, prefix: string, serial: nat)
    requires proofId != "" && '/' !in proofId && IsNextSerial(nodes, prefix, serial)
    ensures ScopedId(proofId, prefix, serial) !in nodes
  {
    SerialOfScoped(proofId, prefix, serial);
  }

  /** An id with a slash after its first one, or with nothing before the first, carries no serial. */
  lemma {:induction false} UncountedId(proofId: string, prefix: string, serial: nat)
    requires '/' !in prefix && (proofId == "" || '/' in proofId)
    ensures SerialOf(ScopedId(proofId, prefix, serial), prefix) == None
  {
    var id := ScopedId(proofId, prefix, serial);
    var slash := FirstIndex(id, '/');
    var head := slash + 1 + |prefix| + 1;
    assert id[|proofId|] == '/';
    FirstIndexAtMost(id, '/', |proofId|);
    if proofId != "" {
      var k :| 0 <= k < |proofId| && proofId[k] == '/';
      assert id[k] == '/';
      FirstIndexAtMost(id, '/', k);
      if head <= |proofId| {
        assert !IsDigit(id[|proofId|]);
      } else if head <= |id| {
        SlashInside(id, slash + 1, head, |proofId|);
        assert '/' !in prefix + "-";
      }
    }
  }

  lemma {:induction false} SlashInside(s: string, lo: nat, hi: nat, k: nat)
    requires lo <= k < hi <= |s| && s[k] == '/'
    ensures '/' in s[lo..hi]
  {
    assert s[lo..hi][k - lo] == '/';
  }

  lemma {:induction false} FirstIndexAtMost(s: string, c: char, k: nat)
    requires k < |s| && s[k] == c
    ensures FirstIndex(s, c) <= k
  {
    if k > 0 && s[0] != c {
      FirstIndexAtMost(s[1..], c, k - 1);
    }
  }

  /** The allocator does not see the id it has just minted, and mints it again, exactly when the proof
      id is empty or contains a slash. */
  lemma {:induction false} MintsAgainIff(nodes: set<Id>, proofId: string, prefix: string, serial: nat)
    requires '/' !in prefix && IsNextSerial(nodes, prefix, serial)
    ensures IsNextSerial(nodes + {ScopedId(proofId, prefix, serial)}, prefix, serial) <==>
            proofId == "" || '/' in proofId
  {
    var id := ScopedId(proofId, prefix, serial);
    if proofId == "" || '/' in proofId {
      UncountedId(proofId, prefix, serial);
      if serial > 1 {
        var other :| other in nodes && SerialOf(other, prefix) == Some((serial - 1) as nat);
        assert other in nodes + {id};
      }
    } else {
      SerialOfScoped(proofId, prefix, serial);
      assert id in nodes + {id};
    }
  }
}
