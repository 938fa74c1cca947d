/** The hash chain: what verifying it means, and what it fixes.

    SHA-256 over canonical JSON is taken as an injective function of the predecessor hash and the
    body that never yields the genesis hash. */
module Chain {
  import opened Ops
  import opened Ledger

  type ChainHash = (Digest, Proposal) -> Digest

  ghost predicate CollisionFree(hash: ChainHash) {
    && (forall a, p, b, q :: hash(a, p) == hash(b, q) ==> a == b && p == q)
    && (forall a, p :: hash(a, p) != GENESIS)
  }

  function PrevOf(rows: seq<Row>, k: nat): Digest
    requires k <= |rows|
  {
    if k == 0 then GENESIS else rows[k - 1].eventHash
  }

  ghost predicate LinkHolds(hash: ChainHash, rows: seq<Row>, k: nat)
    requires k < |rows|
  {
    && rows[k].revision == k + 1
    && rows[k].prevHash == PrevOf(rows, k)
    && rows[k].eventHash == hash(rows[k].prevHash, rows[k].payload)
  }

  /** Revisions are 1..n and every row hashes onto its predecessor. */
  ghost predicate Chained(hash: ChainHash, rows: seq<Row>) {
    forall k :: 0 <= k < |rows| ==> LinkHolds(hash, rows, k)
  }

  datatype Fault = OutOfSequence | DoesNotLink | BadHash
  datatype Verdict = Intact(count: nat) | Corrupt(revision: int, fault: Fault)

  /** `verify_chain`: walk the rows once and stop at the first whose revision, predecessor or own hash
      is wrong. */
  method VerifyChain(hash: ChainHash, rows: seq<Row>) returns (verdict: Verdict)
    ensures verdict.Intact? <==> Chained(hash, rows)
    ensures verdict.Intact? ==> verdict.count == |rows|
    ensures verdict.Corrupt? ==>
              exists k :: 0 <= k < |rows| && rows[k].revision == verdict.revision &&
                !LinkHolds(hash, rows, k) && forall j :: 0 <= j < k ==> LinkHolds(hash, rows, j)
  {
    var prevHash := GENESIS;
    for k := 0 to |rows|
      invariant prevHash == PrevOf(rows, k)
      invariant forall j :: 0 <= j < k ==> LinkHolds(hash, rows, j)
    {
      var row := rows[k];
      if row.revision != k + 1 {
        assert !LinkHolds(hash, rows, k);
        return Corrupt(row.revision, OutOfSequence);
      }
      if row.prevHash != prevHash {
        assert !LinkHolds(hash, rows, k);
        return Corrupt(row.revision, DoesNotLink);
      }
      if hash(row.prevHash, row.payload) != row.eventHash {
        assert !LinkHolds(hash, rows, k);
        return Corrupt(row.revision, BadHash);
      }
      prevHash := row.eventHash;
    }
    return Intact(|rows|);
  }

  lemma {:induction false} PrefixChained(hash: ChainHash, rows: seq<Row>, n: nat)
    requires Chained(hash, rows) && n <= |rows|
    ensures Chained(hash, rows[..n])
  {
    forall k | 0 <= k < n
      ensures LinkHolds(hash, rows[..n], k)
    {
      assert LinkHolds(hash, rows, k);
    }
  }

  /** A hash fixes history: where the head hash of one verifying journal occurs in another, the
      first journal is a prefix of the second. */
  lemma {:induction false} HeadFixesHistory(hash: ChainHash, a: seq<Row>, b: seq<Row>, k: nat)
    requires CollisionFree(hash) && Chained(hash, a) && Chained(hash, b)
    requires a != [] && k < |b| && b[k].eventHash == a[|a| - 1].eventHash
    ensures k == |a| - 1 && a == b[..k + 1]
  {
    var n := |a| - 1;
    assert LinkHolds(hash, a, n) && LinkHolds(hash, b, k);
    assert a[n].prevHash == b[k].prevHash && a[n].payload == b[k].payload;
    if k > 0 {
      assert LinkHolds(hash, b, k - 1);
    }
    if n > 0 {
      assert LinkHolds(hash, a, n - 1);
    }
    if n > 0 && k > 0 {
      PrefixChained(hash, a, n);
      HeadFixesHistory(hash, a[..n], b, k - 1);
      assert a == a[..n] + [a[n]];
      assert b[..k + 1] == b[..k] + [b[k]];
    }
  }

  /** All event hashes are distinct across revisions and, payloads naming their proof, across
      proofs. */
  lemma {:induction false} HashesAreDistinct(hash: ChainHash, a: seq<Row>, b: seq<Row>, i: nat, j: nat)
    requires CollisionFree(hash) && Chained(hash, a) && Chained(hash, b) && i < |a| && j < |b|
    requires a[i].eventHash == b[j].eventHash
    ensures i == j && a[..i + 1] == b[..j + 1] && a[i].payload.proofId == b[j].payload.proofId
  {
    PrefixChained(hash, a, i + 1);
    HeadFixesHistory(hash, a[..i + 1], b, j);
    assert a[i] == a[..i + 1][i] == b[..j + 1][j] == b[j];
  }

  /** Chaining one more row on keeps the chain. */
  lemma {:induction false} AppendKeepsChain(hash: ChainHash, rows: seq<Row>, p: Proposal, row: Row)
    requires Chained(hash, rows)
    requires row == Row(|rows| + 1, hash(PrevOf(rows, |rows|), p), PrevOf(rows, |rows|), p)
    ensures Chained(hash, rows + [row])
  {
    forall k | 0 <= k < |rows| + 1
      ensures LinkHolds(hash, rows + [row], k)
    {
      if k < |rows| {
        assert LinkHolds(hash, rows, k);
      }
    }
  }
}
