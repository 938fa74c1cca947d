/** What every interleaving of write transactions keeps true of the journal of one proof. */
module JournalRuns {
  import opened Vocabulary
  import opened Ops
  import opened GraphState
  import opened Rules
  import opened Reasons
  import opened Report
  import opened Ledger
  import opened LeaseRuns
  import opened Chain

  /** The journal verifies and holds this proof's events only. */
  ghost predicate JournalSound(hash: ChainHash, proofId: string, rows: seq<Row>) {
    Chained(hash, rows) && forall k :: 0 <= k < |rows| ==> rows[k].payload.proofId == proofId
  }

  lemma {:induction false} HeadOfChain(hash: ChainHash, l: Ledger)
    requires Chained(hash, l.journal)
    ensures HeadRevision(l) == |l.journal| && HeadHash(l) == PrevOf(l.journal, |l.journal|)
  {
    if l.journal != [] {
      assert LinkHolds(hash, l.journal, |l.journal| - 1);
    }
  }

  /** The journal changes only by an append, which adds one row: the payload, at revision base+1. */
  lemma {:induction false} StepGrowsJournal(hash: ChainHash, proofId: string, l: Ledger, tx: Tx,
                                            after: Ledger)
    requires JournalSound(hash, proofId, l.journal) && Steps(hash, proofId, l, tx, after)
    ensures !tx.Append? ==> after.journal == l.journal
    ensures tx.Append? ==>
              exists row: Row :: after.journal == l.journal + [row] && row.payload == tx.payload &&
                row.revision == |l.journal| + 1 &&
                (tx.payload.baseRevision.Some? ==> row.revision == tx.payload.baseRevision.value + 1)
    ensures JournalSound(hash, proofId, after.journal)
  {
    if tx.Append? {
      var p := tx.payload;
      var checked :|
        ChecksLease(l, p, tx.lapseAt, checked) && AppendsFrom(hash, checked, p, after);
      assert checked.journal == l.journal;
      HeadOfChain(hash, l);
      var row := Row(HeadRevision(checked) + 1, hash(HeadHash(checked), p), HeadHash(checked), p);
      AppendKeepsChain(hash, l.journal, p, row);
    }
  }

  /** In every reachable ledger the journal verifies and revisions are exactly 1..n. */
  lemma {:induction false} JournalAlwaysSound(hash: ChainHash, proofId: string, ledgers: seq<Ledger>,
                                              txs: seq<Tx>, n: nat)
    requires IsHistory(hash, proofId, ledgers, txs) && n < |ledgers|
    ensures JournalSound(hash, proofId, ledgers[n].journal)
  {
    if n > 0 {
      JournalAlwaysSound(hash, proofId, ledgers, txs, n - 1);
      StepGrowsJournal(hash, proofId, ledgers[n - 1], txs[n - 1], ledgers[n]);
    }
  }

  /** The UNIQUE constraint on event hashes never fires, in this journal or another proof's. */
  lemma {:induction false} NextHashIsNew(hash: ChainHash, proofId: string, l: Ledger, p: Proposal,
                                         otherId: string, other: seq<Row>)
    requires CollisionFree(hash) && p.proofId == proofId
    requires JournalSound(hash, proofId, l.journal) && JournalSound(hash, otherId, other)
    requires otherId != proofId || other == l.journal
    ensures forall k :: 0 <= k < |other| ==> other[k].eventHash != hash(HeadHash(l), p)
  {
    HeadOfChain(hash, l);
    var row := Row(|l.journal| + 1, hash(HeadHash(l), p), HeadHash(l), p);
    AppendKeepsChain(hash, l.journal, p, row);
    var longer := l.journal + [row];
    forall k | 0 <= k < |other|
      ensures other[k].eventHash != row.eventHash
    {
      if other[k].eventHash == longer[|l.journal|].eventHash {
        HashesAreDistinct(hash, longer, other, |l.journal|, k);
      }
    }
  }

  /** History is only ever extended. */
  lemma {:induction false} JournalIsAppendOnly(hash: ChainHash, proofId: string, ledgers: seq<Ledger>,
                                               txs: seq<Tx>, i: nat, j: nat)
    requires IsHistory(hash, proofId, ledgers, txs) && i <= j < |ledgers|
    ensures ledgers[i].journal <= ledgers[j].journal
    ensures (forall k :: i <= k < j ==> !txs[k].Append?) ==> ledgers[i].journal == ledgers[j].journal
  {
    if i < j {
      JournalIsAppendOnly(hash, proofId, ledgers, txs, i, j - 1);
      JournalAlwaysSound(hash, proofId, ledgers, txs, j - 1);
      StepGrowsJournal(hash, proofId, ledgers[j - 1], txs[j - 1], ledgers[j]);
    }
  }

  /** A client that read the head as its base finds it stale only if someone committed since. */
  lemma {:induction false} StaleMeansSomeoneCommitted(hash: ChainHash, proofId: string,
                                                      ledgers: seq<Ledger>, txs: seq<Tx>, i: nat, j: nat,
                                                      base: int)
    requires IsHistory(hash, proofId, ledgers, txs) && i <= j < |ledgers|
    requires base == HeadRevision(ledgers[i])
    ensures base != HeadRevision(ledgers[j]) <==> exists k :: i <= k < j && txs[k].Append?
  {
    JournalIsAppendOnly(hash, proofId, ledgers, txs, i, j);
    JournalAlwaysSound(hash, proofId, ledgers, txs, i);
    JournalAlwaysSound(hash, proofId, ledgers, txs, j);
    HeadOfChain(hash, ledgers[i]);
    HeadOfChain(hash, ledgers[j]);
    if k :| i <= k < j && txs[k].Append? {
      JournalIsAppendOnly(hash, proofId, ledgers, txs, i, k);
      JournalAlwaysSound(hash, proofId, ledgers, txs, k);
      StepGrowsJournal(hash, proofId, ledgers[k], txs[k], ledgers[k + 1]);
      JournalIsAppendOnly(hash, proofId, ledgers, txs, k + 1, j);
    }
  }

  /** Only the gate appends: every payload was accepted against some committed graph. */
  ghost predicate GateOnly(txs: seq<Tx>) {
    forall k :: 0 <= k < |txs| && txs[k].Append? ==> exists g :: Accepted(txs[k].payload, g)
  }

  /** Some op writes a status, a verdict, or a field whose name ends like one. */
  predicate ChangesStatus(p: Proposal) {
    exists op :: op in p.ops && WritesStatus(op)
  }

  /** An accepted proposal with such an op names a lease and its token. */
  lemma {:induction false} StatusNeedsLease(p: Proposal, g: Graph)
    requires Accepted(p, g) && ChangesStatus(p)
    ensures p.leaseId.Some? && p.fencingToken.Some?
  {
    var first := FirstStatus(p.ops);
    AcceptedIffBlameless(p, g);
    assert !Blamed(p, g, first, MissingConcurrencyToken);
  }

  /** Row `k` of the journal was written by transaction `i`, under a lease live at that moment if
      it names one. */
  ghost predicate WrittenAt(ledgers: seq<Ledger>, txs: seq<Tx>, row: Row, k: nat, i: nat) {
    && i < |txs| && i < |ledgers| && txs[i].Append? && txs[i].payload == row.payload
    && |ledgers[i].journal| == k
    && (NamesLease(row.payload) ==>
          && row.payload.leaseId.Some? && row.payload.leaseId.value in ledgers[i].leases
          && IsLive(ledgers[i].leases[row.payload.leaseId.value], txs[i].lapseAt)
          && row.payload.fencingToken == Some(ledgers[i].leases[row.payload.leaseId.value].token))
  }

  lemma {:induction false} AppendWasLive(hash: ChainHash, l: Ledger, p: Proposal, lapseAt: real,
                                         after: Ledger)
    requires Appends(hash, l, p, lapseAt, after) && NamesLease(p)
    ensures p.leaseId.Some? && p.leaseId.value in l.leases
    ensures IsLive(l.leases[p.leaseId.value], lapseAt)
    ensures p.fencingToken == Some(l.leases[p.leaseId.value].token)
  {
    var checked :| ChecksLease(l, p, lapseAt, checked) && AppendsFrom(hash, checked, p, after);
    var due :| Enumerates(due, DueLeases(l, lapseAt)) &&
      checked == End(l, DueLeases(l, lapseAt), Expired, due);
  }

  /** Every journalled row has its transaction, and every status-class change was committed under a
      lease and token that were live then. */
  lemma {:induction false} CommittedUnderLiveLease(hash: ChainHash, proofId: string,
                                                   ledgers: seq<Ledger>, txs: seq<Tx>, n: nat, k: nat)
    requires IsHistory(hash, proofId, ledgers, txs) && GateOnly(txs)
    requires n < |ledgers| && k < |ledgers[n].journal|
    ensures exists i :: 0 <= i < n && WrittenAt(ledgers, txs, ledgers[n].journal[k], k, i)
    ensures ChangesStatus(ledgers[n].journal[k].payload) ==>
              ledgers[n].journal[k].payload.leaseId.Some? &&
              ledgers[n].journal[k].payload.fencingToken.Some?
  {
    JournalAlwaysSound(hash, proofId, ledgers, txs, n - 1);
    StepGrowsJournal(hash, proofId, ledgers[n - 1], txs[n - 1], ledgers[n]);
    if k < |ledgers[n - 1].journal| {
      CommittedUnderLiveLease(hash, proofId, ledgers, txs, n - 1, k);
      var row := ledgers[n - 1].journal[k];
      assert row == ledgers[n].journal[k];
      var i :| 0 <= i < n - 1 && WrittenAt(ledgers, txs, row, k, i);
    } else {
      var p := txs[n - 1].payload;
      if NamesLease(p) {
        AppendWasLive(hash, ledgers[n - 1], p, txs[n - 1].lapseAt, ledgers[n]);
      }
      assert WrittenAt(ledgers, txs, ledgers[n].journal[k], k, n - 1);
      if ChangesStatus(p) {
        var g :| Accepted(p, g);
        StatusNeedsLease(p, g);
      }
    }
  }
}
