/** What the arity check of `check_subgoal_conservation` amounts to. */
module Obligations {
  import opened Vocabulary
  import opened GraphState
  import opened Rules
  import opened Sorting

  /** `order[k]` is the entry at child position k, and every position is filled. */
  ghost predicate InOrder(entries: seq<Entry>, order: seq<nat>) {
    && |order| == |entries|
    && forall k :: 0 <= k < |order| ==> order[k] < |entries| && entries[order[k]].position == Num(k)
  }

  /** Sorting the recorded positions to 0..n-1 means exactly that the entries can be listed by
      position, with no position missing, repeated or left null. */
  lemma {:induction false} SortsToRangeIffInOrder(entries: seq<Entry>)
    ensures SortsToRange(Positions(entries), |entries|) <==> exists order :: InOrder(entries, order)
  {
    if SortsToRange(Positions(entries), |entries|) {
      RangeGivesOrder(entries);
    }
    if order :| InOrder(entries, order) {
      OrderGivesRange(entries, order);
    }
  }

  lemma {:induction false} PositionsAreThePositions(entries: seq<Entry>)
    ensures forall v :: v in Positions(entries) <==>
              v != Null && exists j :: 0 <= j < |entries| && entries[j].position == v
    ensures (forall j :: 0 <= j < |entries| ==> entries[j].position != Null) ==>
              |Positions(entries)| == |entries| &&
              forall j :: 0 <= j < |entries| ==> Positions(entries)[j] == entries[j].position
  {
    if entries != [] {
      var rest := entries[..|entries| - 1];
      PositionsAreThePositions(rest);
      forall v
        ensures v in Positions(entries) <==>
                v != Null && exists j :: 0 <= j < |entries| && entries[j].position == v
      {
        assert v in Positions(rest) ==> exists j :: 0 <= j < |rest| && rest[j].position == v;
        assert (exists j :: 0 <= j < |entries| && entries[j].position == v) <==>
          (exists j :: 0 <= j < |rest| && rest[j].position == v) ||
          entries[|entries| - 1].position == v;
      }
    }
  }

  ghost function EntryAt(entries: seq<Entry>, k: nat): (j: nat)
    requires exists j :: 0 <= j < |entries| && entries[j].position == Num(k)
    ensures j < |entries| && entries[j].position == Num(k)
  {
    var j :| 0 <= j < |entries| && entries[j].position == Num(k);
    j
  }

  lemma {:induction false} RangeGivesOrder(entries: seq<Entry>)
    requires SortsToRange(Positions(entries), |entries|)
    ensures exists order :: InOrder(entries, order)
  {
    var values, n := Positions(entries), |entries|;
    PositionsAreThePositions(entries);
    SortRearranges(ByNumber(values));
    forall k | 0 <= k < n
      ensures exists j :: 0 <= j < |entries| && entries[j].position == Num(k)
    {
      assert Range(n)[k] in Sort(ByNumber(values));
      assert Keyed(k as real, Num(k)) in ByNumber(values);
      assert Num(k) in values;
    }
    var order := seq(n, k requires 0 <= k < n => EntryAt(entries, k));
    assert InOrder(entries, order);
  }

  function UpTo(n: nat): (r: set<nat>)
    ensures |r| == n && forall i: nat :: i in r <==> i < n
  {
    if n == 0 then {} else UpTo(n - 1) + {n - 1}
  }

  /** An injection of 0..n-1 into itself reaches every index. */
  lemma {:induction false} InjectionIsOnto(order: seq<nat>, j: nat)
    requires forall k :: 0 <= k < |order| ==> order[k] < |order|
    requires NoDuplicates(order) && j < |order|
    ensures j in order
  {
    var image := set k | 0 <= k < |order| :: order[k];
    DistinctLength(order, image);
    if j !in order {
      SubsetSize(image, UpTo(|order|) - {j});
    }
  }

  lemma {:induction false} NoDuplicatesMultiplicity<T>(s: seq<T>, x: T)
    requires NoDuplicates(s)
    ensures multiset(s)[x] == if x in s then 1 else 0
  {
    if s != [] {
      NoDuplicatesMultiplicity(s[..|s| - 1], x);
      SplitLast(s);
    }
  }

  lemma {:induction false} OrderIsOnto(entries: seq<Entry>, order: seq<nat>)
    requires InOrder(entries, order)
    ensures forall i: nat :: i < |entries| ==> i in order
  {
    forall i, j | 0 <= i < j < |order|
      ensures order[i] != order[j]
    {
      assert entries[order[i]].position != entries[order[j]].position;
    }
    forall i: nat | i < |entries|
      ensures i in order
    {
      InjectionIsOnto(order, i);
    }
  }

  lemma {:induction false} KeyedAreDistinct(entries: seq<Entry>, order: seq<nat>)
    requires InOrder(entries, order)
    requires forall i: nat :: i < |entries| ==> i in order
    ensures |Positions(entries)| == |entries|
    ensures NoDuplicates(ByNumber(Positions(entries)))
  {
    if entries == [] {
      assert Positions(entries) == [];
    } else {
      KeyedEntry(entries, order, 0);
    }
    var keyed := ByNumber(Positions(entries));
    forall i, j | 0 <= i < j < |entries|
      ensures keyed[i] != keyed[j]
    {
      KeyedEntry(entries, order, i);
      KeyedEntry(entries, order, j);
    }
  }

  lemma {:induction false} OrderGivesRange(entries: seq<Entry>, order: seq<nat>)
    requires InOrder(entries, order)
    ensures SortsToRange(Positions(entries), |entries|)
  {
    OrderIsOnto(entries, order);
    var keyed, range := ByNumber(Positions(entries)), Range(|entries|);
    SameRearranged(entries, order);
    SortSorts(keyed);
    SortRearranges(keyed);
    OrderedArrangementIsUnique(range, Sort(keyed));
    AllAreNumbers(entries, order);
  }

  lemma {:induction false} SameRearranged(entries: seq<Entry>, order: seq<nat>)
    requires InOrder(entries, order)
    requires forall i: nat :: i < |entries| ==> i in order
    ensures multiset(ByNumber(Positions(entries))) == multiset(Range(|entries|))
  {
    var keyed, range := ByNumber(Positions(entries)), Range(|entries|);
    KeyedAreDistinct(entries, order);
    forall x
      ensures multiset(keyed)[x] == multiset(range)[x]
    {
      NoDuplicatesMultiplicity(keyed, x);
      NoDuplicatesMultiplicity(range, x);
      SameMembers(entries, order, x);
    }
  }

  lemma {:induction false} AllAreNumbers(entries: seq<Entry>, order: seq<nat>)
    requires InOrder(entries, order)
    requires forall i: nat :: i < |entries| ==> i in order
    ensures forall v :: v in Positions(entries) ==> v.Num?
  {
    var keyed := ByNumber(Positions(entries));
    KeyedAreDistinct(entries, order);
    forall v | v in Positions(entries)
      ensures v.Num?
    {
      var j :| 0 <= j < |keyed| && Positions(entries)[j] == v;
      KeyedEntry(entries, order, j);
    }
  }

  lemma {:induction false} KeyedEntry(entries: seq<Entry>, order: seq<nat>, j: nat)
    requires InOrder(entries, order)
    requires forall i: nat :: i < |entries| ==> i in order
    requires j < |entries|
    ensures |Positions(entries)| == |entries|
    ensures exists k :: 0 <= k < |order| && order[k] == j &&
              ByNumber(Positions(entries))[j] == Range(|entries|)[k]
  {
    forall i: nat | i < |entries|
      ensures entries[i].position != Null
    {
      assert i in order;
      var k :| 0 <= k < |order| && order[k] == i;
    }
    PositionsAreThePositions(entries);
    assert j in order;
    var k :| 0 <= k < |order| && order[k] == j;
    assert ByNumber(Positions(entries))[j] == Range(|entries|)[k];
  }

  lemma {:induction false} SameMembers(entries: seq<Entry>, order: seq<nat>, x: Keyed<Value>)
    requires InOrder(entries, order)
    requires forall i: nat :: i < |entries| ==> i in order
    ensures x in ByNumber(Positions(entries)) <==> x in Range(|entries|)
  {
    var keyed := ByNumber(Positions(entries));
    if entries == [] {
      assert Positions(entries) == [];
    } else {
      KeyedEntry(entries, order, 0);
    }
    if x in keyed {
      var j :| 0 <= j < |keyed| && keyed[j] == x;
      KeyedEntry(entries, order, j);
    }
    if x in Range(|entries|) {
      var k :| 0 <= k < |entries| && Range(|entries|)[k] == x;
      KeyedEntry(entries, order, order[k]);
      assert keyed[order[k]] == x;
    }
  }

  /** The arity check passes exactly when the declared count is the number of edges, the targets
      are distinct and the child positions are a permutation of 0..n-1. */
  lemma {:induction false} ArityCheckMeans(declared: Value, entries: seq<Entry>)
    ensures ArityReasons(declared, entries) == {} <==>
            && declared == Num(|entries|)
            && (forall j, k :: 0 <= j < k < |entries| ==> entries[j].target != entries[k].target)
            && exists order :: InOrder(entries, order)
  {
    SortsToRangeIffInOrder(entries);
    var found := ArityReasons(declared, entries);
    assert found == {} <==>
      MissingRequiredField !in found && SubgoalCountMismatch !in found &&
      SubgoalDuplicated !in found && SubgoalIndexInvalid !in found;
  }
}
