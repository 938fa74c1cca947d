/** The commit gate on top of the store, and the whole system as one state machine. */
module Commit {
  import opened Vocabulary
  import opened Ops
  import opened GraphState
  import opened Apply
  import opened Rules
  import opened Validate
  import opened Gate
  import opened Conservation
  import opened Ledger
  import opened LeaseRuns
  import opened Chain
  import opened JournalRuns
  import opened Store

  datatype CommitResult =
    | Accept(revision: int, eventHash: Digest)
    | Reject(rejections: set<Rejection>)
    | Raised(error: AppendResult)

  function Findings(p: Proposal, g: Graph): set<Rejection> {
    ProposalFindings(p) + ViewFindings(p, g)
  }

  class CommitGate {
    const view: MemoryView
    const store: JournalStore

    constructor (view: MemoryView, store: JournalStore)
      ensures this.view == view && this.store == store
    {
      this.view, this.store := view, store;
    }

    /** `validate`: every rule violation, none exactly when the proposal is accepted. */
    method Validate(p: Proposal) returns (findings: set<Rejection>)
      ensures findings == Findings(p, view.Contents())
      ensures findings == {} <==> Accepted(p, view.Contents())
    {
      findings := ValidateProposal(p, view);
      NoFindingsIffAccepted(p, view.Contents());
    }

    /** Validate, then append; a lost race comes back as a rejection. */
    method CommitProposal(p: Proposal, lapseAt: real, relapseAt: real) returns (r: CommitResult)
      modifies store
      ensures view.Contents() == old(view.Contents())
      ensures !Accepted(p, old(view.Contents())) ==>
                r == Reject(old(Findings(p, view.Contents()))) && store.ledgers == old(store.ledgers)
      ensures r.Accept? ==>
                Accepted(p, old(view.Contents())) &&
                store.ledgers == old(store.ledgers)[p.proofId := store.At(p.proofId)] &&
                Appends(store.hash, old(store.At(p.proofId)), p, lapseAt, store.At(p.proofId)) &&
                (p.baseRevision.Some? ==> r.revision == p.baseRevision.value + 1)
      ensures !r.Accept? ==> forall q :: store.At(q).journal == old(store.At(q)).journal
      ensures r.Reject? ==> r.rejections != {}
      ensures Accepted(p, old(view.Contents())) && r.Reject? ==>
                exists reason :: r.rejections == {Rejection(reason, None)} &&
                  (reason == JournalBusy || AppendAnswers(old(store.At(p.proofId)), p, lapseAt, Refused(reason)))
      ensures old(store.Sound()) ==> !r.Raised? && store.Sound()
    {
      var findings := Validate(p);
      r := Conclude(p, findings, lapseAt, relapseAt);
    }

    /** Refuse what the validators found fault with, append the rest. */
    method Conclude(p: Proposal, findings: set<Rejection>, lapseAt: real, relapseAt: real)
      returns (r: CommitResult)
      modifies store
      ensures findings != {} ==> r == Reject(findings) && store.ledgers == old(store.ledgers)
      ensures r.Accept? ==>
                findings == {} &&
                store.ledgers == old(store.ledgers)[p.proofId := store.At(p.proofId)] &&
                Appends(store.hash, old(store.At(p.proofId)), p, lapseAt, store.At(p.proofId)) &&
                (p.baseRevision.Some? ==> r.revision == p.baseRevision.value + 1)
      ensures !r.Accept? ==> forall q :: store.At(q).journal == old(store.At(q)).journal
      ensures r.Reject? ==> r.rejections != {}
      ensures findings == {} && r.Reject? ==>
                exists reason :: r.rejections == {Rejection(reason, None)} &&
                  (reason == JournalBusy || AppendAnswers(old(store.At(p.proofId)), p, lapseAt, Refused(reason)))
      ensures old(store.Sound()) ==> !r.Raised? && store.Sound()
    {
      if findings != {} {
        Audit(p.proofId, findings);
        r := Reject(findings);
      } else {
        r := AppendValidated(p, lapseAt, relapseAt);
      }
    }

    /** The second half of `commit`: append what the validators let through. */
    method AppendValidated(p: Proposal, lapseAt: real, relapseAt: real) returns (r: CommitResult)
      modifies store
      ensures r.Accept? ==>
                store.ledgers == old(store.ledgers)[p.proofId := store.At(p.proofId)] &&
                Appends(store.hash, old(store.At(p.proofId)), p, lapseAt, store.At(p.proofId)) &&
                (p.baseRevision.Some? ==> r.revision == p.baseRevision.value + 1) &&
                store.rejections == old(store.rejections)
      ensures !r.Accept? ==> forall q :: store.At(q).journal == old(store.At(q)).journal
      ensures r.Reject? ==> r.rejections != {}
      ensures r.Reject? ==>
                exists reason :: r.rejections == {Rejection(reason, None)} &&
                  (reason == JournalBusy || AppendAnswers(old(store.At(p.proofId)), p, lapseAt, Refused(reason)))
      ensures old(store.Sound()) ==> !r.Raised? && store.Sound()
      ensures old(store.rejections) <= store.rejections
    {
      var appended := store.Append(p, lapseAt, relapseAt);
      match appended {
        case Committed(revision, eventHash) =>
          r := Accept(revision, eventHash);
        case Refused(reason) =>
          Audit(p.proofId, {Rejection(reason, None)});
          r := Reject({Rejection(reason, None)});
          assert Rejection(reason, None) in r.rejections;
        case _ =>
          r := Raised(appended);
      }
    }

    /** Copy refusals into the audit log; give up silently when the log is busy. */
    method Audit(proofId: string, rejections: set<Rejection>)
      modifies store`rejections
      ensures old(store.rejections) <= store.rejections
      ensures old(store.Sound()) ==> store.Sound()
    {
      var pending := rejections;
      while pending != {}
        invariant old(store.rejections) <= store.rejections
      {
        var x :| x in pending;
        pending := pending - {x};
        var busy := store.RecordRejection(proofId, x.reason);
        if busy {
          return;
        }
      }
    }
  }

  // ---- the system: ledger and view together ----

  /** One proof's ledger and the view the gate validates against. */
  datatype System = System(ledger: Ledger, graph: Graph)

  /** A transaction of the system. A commit journals the row and then applies it to the view, in one
      step; the application may raise half way, and the row stays journalled. */
  ghost predicate SystemSteps(hash: ChainHash, proofId: string, s: System, tx: Tx, after: System) {
    && Steps(hash, proofId, s.ledger, tx, after.ledger)
    && (if tx.Append? then Commits(s.graph, tx.payload, after.graph) else after.graph == s.graph)
  }

  ghost predicate IsSystemRun(hash: ChainHash, proofId: string, states: seq<System>, txs: seq<Tx>) {
    && |states| == |txs| + 1
    && states[0] == System(EMPTY_LEDGER, EMPTY_GRAPH)
    && forall k :: 0 <= k < |txs| ==> SystemSteps(hash, proofId, states[k], txs[k], states[k + 1])
  }

  function Payloads(rows: seq<Row>): (r: seq<Proposal>)
    ensures |r| == |rows| && forall k :: 0 <= k < |rows| ==> r[k] == rows[k].payload
  {
    seq(|rows|, k requires 0 <= k < |rows| => rows[k].payload)
  }

  /** Every op of a journal, in revision order. */
  function AllOps(rows: seq<Row>): seq<Op> {
    if rows == [] then [] else AllOps(rows[..|rows| - 1]) + rows[|rows| - 1].payload.ops
  }

  /** Transaction `i` appended this proposal when the view was `g`. */
  ghost predicate Wrote(states: seq<System>, txs: seq<Tx>, p: Proposal, g: Graph, i: nat) {
    i < |txs| && i < |states| && txs[i].Append? && txs[i].payload == p && states[i].graph == g
  }

  ghost predicate WasWritten(states: seq<System>, txs: seq<Tx>, p: Proposal, g: Graph) {
    exists i :: Wrote(states, txs, p, g, i)
  }

  ghost predicate AllWritten(states: seq<System>, txs: seq<Tx>, rows: seq<Row>, graphs: seq<Graph>)
    requires |graphs| == |rows| + 1
  {
    forall k :: 0 <= k < |rows| ==> WasWritten(states, txs, rows[k].payload, graphs[k])
  }

  /** Whatever transactions interleave, the journal is a run of the gate and the view is its last
      graph. Replaying the journal from the empty graph succeeds exactly when every journalled
      proposal set only what existed by then, and then it rebuilds the view. */
  lemma {:induction false} ViewIsReplayedJournal(hash: ChainHash, proofId: string, states: seq<System>,
                                                 txs: seq<Tx>, n: nat)
    returns (graphs: seq<Graph>)
    requires IsSystemRun(hash, proofId, states, txs) && n < |states|
    ensures JournalSound(hash, proofId, states[n].ledger.journal)
    ensures IsRun(graphs, Payloads(states[n].ledger.journal))
    ensures graphs[|graphs| - 1] == states[n].graph
    ensures AllWritten(states, txs, states[n].ledger.journal, graphs)
    ensures ApplyOps(EMPTY_GRAPH, AllOps(states[n].ledger.journal)).ok <==>
            SetsFollowThroughout(graphs, Payloads(states[n].ledger.journal))
    ensures ApplyOps(EMPTY_GRAPH, AllOps(states[n].ledger.journal)).ok ==>
            ApplyOps(EMPTY_GRAPH, AllOps(states[n].ledger.journal)).graph == states[n].graph
  {
    graphs := JournalIsARun(hash, proofId, states, txs, n);
    ReplayOfRun(graphs, states[n].ledger.journal);
  }

  lemma {:induction false} JournalIsARun(hash: ChainHash, proofId: string, states: seq<System>,
                                         txs: seq<Tx>, n: nat)
    returns (graphs: seq<Graph>)
    requires IsSystemRun(hash, proofId, states, txs) && n < |states|
    ensures JournalSound(hash, proofId, states[n].ledger.journal)
    ensures IsRun(graphs, Payloads(states[n].ledger.journal))
    ensures graphs[|graphs| - 1] == states[n].graph
    ensures AllWritten(states, txs, states[n].ledger.journal, graphs)
  {
    if n == 0 {
      graphs := [EMPTY_GRAPH];
    } else {
      var s, tx, after := states[n - 1], txs[n - 1], states[n];
      graphs := JournalIsARun(hash, proofId, states, txs, n - 1);
      assert SystemSteps(hash, proofId, s, tx, after);
      StepGrowsJournal(hash, proofId, s.ledger, tx, after.ledger);
      if tx.Append? {
        var row: Row :| after.ledger.journal == s.ledger.journal + [row] && row.payload == tx.payload;
        assert Wrote(states, txs, row.payload, s.graph, n - 1);
        RunGrows(graphs, Payloads(s.ledger.journal), row.payload, after.graph);
        PayloadsExtend(s.ledger.journal, row);
        WrittenExtends(states, txs, s.ledger.journal, graphs, row, after.graph, n - 1);
        graphs := graphs + [after.graph];
      }
    }
  }

  lemma {:induction false} WrittenExtends(states: seq<System>, txs: seq<Tx>, rows: seq<Row>,
                                          graphs: seq<Graph>, row: Row, after: Graph, i: nat)
    requires |graphs| == |rows| + 1 && AllWritten(states, txs, rows, graphs)
    requires Wrote(states, txs, row.payload, graphs[|rows|], i)
    ensures AllWritten(states, txs, rows + [row], graphs + [after])
  {
    var more, longer := rows + [row], graphs + [after];
    forall k | 0 <= k < |more|
      ensures WasWritten(states, txs, more[k].payload, longer[k])
    {
      if k < |rows| {
        assert WasWritten(states, txs, rows[k].payload, graphs[k]);
      }
    }
  }

  lemma {:induction false} ReplayOfRun(graphs: seq<Graph>, rows: seq<Row>)
    requires IsRun(graphs, Payloads(rows))
    ensures var replay := ApplyOps(EMPTY_GRAPH, AllOps(rows));
            && (replay.ok <==> SetsFollowThroughout(graphs, Payloads(rows)))
            && (replay.ok ==> replay.graph == graphs[|rows|])
  {
    if rows != [] {
      var n := |rows| - 1;
      var before, row := rows[..n], rows[n];
      assert rows == before + [row] && graphs == graphs[..n + 1] + [graphs[n + 1]];
      RunPrefix(graphs, Payloads(rows));
      assert Payloads(rows)[..n] == Payloads(before);
      ReplayOfRun(graphs[..n + 1], before);
      ReplayExtends(graphs[..n + 1], before, row, graphs[n + 1]);
    }
  }

  lemma {:induction false} ReplayExtends(graphs: seq<Graph>, rows: seq<Row>, row: Row, after: Graph)
    requires |graphs| == |rows| + 1 && Commits(graphs[|rows|], row.payload, after)
    requires var replay := ApplyOps(EMPTY_GRAPH, AllOps(rows));
             && (replay.ok <==> SetsFollowThroughout(graphs, Payloads(rows)))
             && (replay.ok ==> replay.graph == graphs[|rows|])
    ensures var replay := ApplyOps(EMPTY_GRAPH, AllOps(rows + [row]));
            && (replay.ok <==> SetsFollowThroughout(graphs + [after], Payloads(rows + [row])))
            && (replay.ok ==> replay.graph == after)
  {
    assert (rows + [row])[..|rows|] == rows;
    ApplyConcat(EMPTY_GRAPH, AllOps(rows), row.payload.ops);
    AppliesIffSetsFollowUpserts(graphs[|rows|], row.payload.ops);
    SetsFollowOneMore(graphs, rows, row, after);
  }

  lemma {:induction false} SetsFollowOneMore(graphs: seq<Graph>, rows: seq<Row>, row: Row, after: Graph)
    requires |graphs| == |rows| + 1
    ensures SetsFollowThroughout(graphs + [after], Payloads(rows + [row])) <==>
            SetsFollowThroughout(graphs, Payloads(rows)) &&
            SetsFollowUpserts(row.payload.ops, graphs[|rows|])
  {
    var longer, payloads := graphs + [after], Payloads(rows + [row]);
    assert forall k :: 0 <= k < |rows| ==> payloads[k] == Payloads(rows)[k] && longer[k] == graphs[k];
    assert payloads[|rows|] == row.payload && longer[|rows|] == graphs[|rows|];
  }

  /** Through any interleaving of clients, expiries and rollbacks, disciplined commits keep every
      obligation in the view. */
  lemma {:induction false} ViewAlwaysConserved(hash: ChainHash, proofId: string, states: seq<System>,
                                               txs: seq<Tx>, n: nat)
    requires IsSystemRun(hash, proofId, states, txs) && n < |states|
    requires forall k :: 0 <= k < |txs| && txs[k].Append? ==>
               Disciplined(txs[k].payload, states[k].graph) &&
               SetsFollowUpserts(txs[k].payload.ops, states[k].graph)
    ensures ObligationsHold(states[n].graph)
  {
    var graphs := ViewIsReplayedJournal(hash, proofId, states, txs, n);
    var rows := states[n].ledger.journal;
    forall k | 0 <= k < |rows|
      ensures Disciplined(Payloads(rows)[k], graphs[k]) && SetsFollowUpserts(Payloads(rows)[k].ops, graphs[k])
    {
      assert WasWritten(states, txs, rows[k].payload, graphs[k]);
      var i :| Wrote(states, txs, rows[k].payload, graphs[k], i);
    }
    ConservationOverRuns(graphs, Payloads(rows), |rows|);
  }

  // ---- every run of the gate is a run of the system ----

  /** Proposals as clients that follow the head make them: each names the revision it was made at, and,
      if it names a lease, one write lock taken at the start. */
  ghost predicate FollowTheHead(proposals: seq<Proposal>, proofId: string, lease: LeaseId) {
    forall k :: 0 <= k < |proposals| ==> FollowsHead(proposals[k], proofId, lease, k)
  }

  predicate FollowsHead(p: Proposal, proofId: string, lease: LeaseId, k: nat) {
    && p.proofId == proofId && p.baseRevision == Some(k as int)
    && (NamesLease(p) ==> p.leaseId == Some(lease) && p.fencingToken == Some(1))
  }

  function Journalled(hash: ChainHash, l: Ledger, p: Proposal): Ledger {
    AppendRow(l, Row(HeadRevision(l) + 1, hash(HeadHash(l), p), HeadHash(l), p))
  }

  lemma {:induction false} LockedAppend(hash: ChainHash, l: Ledger, p: Proposal, lease: LeaseId)
    requires l.leases == map[lease := Held(1)]
    requires HeadRevision(l) >= 0 && FollowsHead(p, p.proofId, lease, HeadRevision(l))
    ensures Appends(hash, l, p, 0.0, Journalled(hash, l, p))
  {
    assert DueLeases(l, 0.0) == {};
    NothingDueLapses(l, 0.0);
    assert ChecksLease(l, p, 0.0, l) && AppendsFrom(hash, l, p, Journalled(hash, l, p));
  }

  function LockedLedger(lease: LeaseId): Ledger {
    Ledger([], map[lease := Held(1)], [Issued(lease, 1, None, None)], 0)
  }

  lemma {:induction false} LockTaken(lease: LeaseId)
    ensures Acquires(EMPTY_LEDGER, lease, 0.0, 0.0, 0.0, LockedLedger(lease), 1)
  {
    AcquiredIsAStep(EMPTY_LEDGER, lease, 1, [], LockedLedger(lease));
  }

  /** Take the lock, then commit the proposals in turn: the journal holds exactly them, and the view ends
      at the last graph of the run. */
  lemma {:induction false} RunIsASystemRun(hash: ChainHash, proofId: string, lease: LeaseId,
                                           graphs: seq<Graph>, proposals: seq<Proposal>)
    returns (states: seq<System>, txs: seq<Tx>)
    requires IsRun(graphs, proposals) && FollowTheHead(proposals, proofId, lease)
    ensures IsSystemRun(hash, proofId, states, txs)
    ensures states[|txs|].graph == graphs[|proposals|]
    ensures Payloads(states[|txs|].ledger.journal) == proposals
    ensures states[|txs|].ledger.leases == map[lease := Held(1)]
    decreases |proposals|
  {
    if proposals == [] {
      LockTaken(lease);
      states := [System(EMPTY_LEDGER, EMPTY_GRAPH), System(LockedLedger(lease), EMPTY_GRAPH)];
      txs := [Acquire(lease, 0.0, 0.0, 0.0, 1)];
    } else {
      var n := |proposals| - 1;
      var p := proposals[n];
      RunPrefix(graphs, proposals);
      states, txs := RunIsASystemRun(hash, proofId, lease, graphs[..n + 1], proposals[..n]);
      assert FollowsHead(p, proofId, lease, n);
      states, txs := OneMoreCommit(hash, proofId, lease, states, txs, p, graphs[n + 1]);
      assert proposals == proposals[..n] + [p];
    }
  }

  lemma {:induction false} OneMoreCommit(hash: ChainHash, proofId: string, lease: LeaseId, states: seq<System>,
                                         txs: seq<Tx>, p: Proposal, h: Graph)
    returns (longer: seq<System>, more: seq<Tx>)
    requires IsSystemRun(hash, proofId, states, txs) && Commits(states[|txs|].graph, p, h)
    requires states[|txs|].ledger.leases == map[lease := Held(1)]
    requires FollowsHead(p, proofId, lease, |states[|txs|].ledger.journal|)
    ensures IsSystemRun(hash, proofId, longer, more)
    ensures longer[|more|].graph == h && longer[|more|].ledger.leases == map[lease := Held(1)]
    ensures Payloads(longer[|more|].ledger.journal) == Payloads(states[|txs|].ledger.journal) + [p]
  {
    var l := states[|txs|].ledger;
    var earlier := JournalIsARun(hash, proofId, states, txs, |txs|);
    HeadOfChain(hash, l);
    LockedAppend(hash, l, p, lease);
    var next := System(Journalled(hash, l, p), h);
    PayloadsExtend(l.journal, next.ledger.journal[|l.journal|]);
    SystemRunExtends(hash, proofId, states, txs, Append(p, 0.0), next);
    longer, more := states + [next], txs + [Append(p, 0.0)];
  }

  lemma {:induction false} PayloadsExtend(rows: seq<Row>, row: Row)
    ensures Payloads(rows + [row]) == Payloads(rows) + [row.payload]
  {
  }

  lemma {:induction false} SystemRunExtends(hash: ChainHash, proofId: string, states: seq<System>,
                                            txs: seq<Tx>, tx: Tx, next: System)
    requires IsSystemRun(hash, proofId, states, txs)
    requires SystemSteps(hash, proofId, states[|txs|], tx, next)
    ensures IsSystemRun(hash, proofId, states + [next], txs + [tx])
  {
    var more, longer := states + [next], txs + [tx];
    forall k | 0 <= k < |longer|
      ensures SystemSteps(hash, proofId, more[k], longer[k], more[k + 1])
    {
      if k < |txs| {
        assert SystemSteps(hash, proofId, states[k], txs[k], states[k + 1]);
      }
    }
  }

  // ---- validating before the lock is taken ----

  /** The gate validates against the view at some earlier moment `seen`, without comparing the base, and
      appends later, when the base is compared under the lock and nothing else. */
  ghost predicate LooseSteps(hash: ChainHash, proofId: string, states: seq<System>, tx: Tx, k: nat, seen: nat)
    requires k + 1 < |states|
  {
    && Steps(hash, proofId, states[k].ledger, tx, states[k + 1].ledger)
    && if !tx.Append? then states[k + 1].graph == states[k].graph
       else
         && seen <= k && Accepted(tx.payload, states[seen].graph)
         && states[k + 1].graph == ApplyOps(states[k].graph, tx.payload.ops).graph
  }

  ghost predicate IsLooseRun(hash: ChainHash, proofId: string, states: seq<System>, txs: seq<Tx>,
                             seen: seq<nat>)
  {
    && |states| == |txs| + 1 && |seen| == |txs|
    && states[0] == System(EMPTY_LEDGER, EMPTY_GRAPH)
    && forall k :: 0 <= k < |txs| ==> LooseSteps(hash, proofId, states, txs[k], k, seen[k])
  }

  function Ledgers(states: seq<System>): (ls: seq<Ledger>)
    ensures |ls| == |states| && forall k :: 0 <= k < |ls| ==> ls[k] == states[k].ledger
  {
    seq(|states|, k requires 0 <= k < |states| => states[k].ledger)
  }

  lemma {:induction false} GraphWaits(hash: ChainHash, proofId: string, states: seq<System>, txs: seq<Tx>,
                                      seen: seq<nat>, i: nat, j: nat)
    requires IsLooseRun(hash, proofId, states, txs, seen) && i <= j < |states|
    requires forall k :: i <= k < j ==> !txs[k].Append?
    ensures states[i].graph == states[j].graph
    decreases j
  {
    if i < j {
      GraphWaits(hash, proofId, states, txs, seen, i, j - 1);
      assert LooseSteps(hash, proofId, states, txs[j - 1], j - 1, seen[j - 1]);
    }
  }

  lemma {:induction false} LedgersAreAHistory(hash: ChainHash, proofId: string, states: seq<System>,
                                              txs: seq<Tx>, seen: seq<nat>)
    requires IsLooseRun(hash, proofId, states, txs, seen)
    ensures IsHistory(hash, proofId, Ledgers(states), txs)
  {
    forall k | 0 <= k < |txs|
      ensures Steps(hash, proofId, Ledgers(states)[k], txs[k], Ledgers(states)[k + 1])
    {
      assert LooseSteps(hash, proofId, states, txs[k], k, seen[k]);
    }
  }

  /** The base the proposal names is not ahead of the head it was validated at. */
  predicate BaseNotAhead(states: seq<System>, p: Proposal, seen: nat) {
    seen < |states| && p.baseRevision.Some? && p.baseRevision.value <= HeadRevision(states[seen].ledger)
  }

  /** Comparing the base is enough for a proposal whose base is not ahead of the head at validation: what
      was accepted then is still accepted when it is appended. */
  lemma {:induction false} LateAppendStillAccepted(hash: ChainHash, proofId: string, states: seq<System>,
                                                   txs: seq<Tx>, seen: seq<nat>, k: nat)
    requires IsLooseRun(hash, proofId, states, txs, seen) && k < |txs| && txs[k].Append?
    requires BaseNotAhead(states, txs[k].payload, seen[k])
    ensures states[seen[k]].graph == states[k].graph && Accepted(txs[k].payload, states[k].graph)
  {
    var tx, i := txs[k], seen[k];
    assert LooseSteps(hash, proofId, states, tx, k, i);
    LedgersAreAHistory(hash, proofId, states, txs, seen);
    BaseIsHead(hash, states[k].ledger, tx.payload, tx.lapseAt, states[k + 1].ledger);
    HeadNeverFalls(hash, proofId, Ledgers(states), txs, i, k);
    StaleMeansSomeoneCommitted(hash, proofId, Ledgers(states), txs, i, k, HeadRevision(states[i].ledger));
    GraphWaits(hash, proofId, states, txs, seen, i, k);
  }

  lemma {:induction false} HeadNeverFalls(hash: ChainHash, proofId: string, ledgers: seq<Ledger>,
                                          txs: seq<Tx>, i: nat, j: nat)
    requires IsHistory(hash, proofId, ledgers, txs) && i <= j < |ledgers|
    ensures HeadRevision(ledgers[i]) <= HeadRevision(ledgers[j])
  {
    JournalIsAppendOnly(hash, proofId, ledgers, txs, i, j);
    JournalAlwaysSound(hash, proofId, ledgers, txs, i);
    JournalAlwaysSound(hash, proofId, ledgers, txs, j);
    HeadOfChain(hash, ledgers[i]);
    HeadOfChain(hash, ledgers[j]);
  }

  lemma {:induction false} BaseIsHead(hash: ChainHash, l: Ledger, p: Proposal, lapseAt: real, after: Ledger)
    requires Appends(hash, l, p, lapseAt, after)
    ensures p.baseRevision.Some? ==> p.baseRevision.value == HeadRevision(l)
  {
    var checked :| ChecksLease(l, p, lapseAt, checked) && AppendsFrom(hash, checked, p, after);
    assert checked.journal == l.journal;
  }

  lemma {:induction false} LooseRunIsSystemRun(hash: ChainHash, proofId: string, states: seq<System>,
                                               txs: seq<Tx>, seen: seq<nat>)
    requires IsLooseRun(hash, proofId, states, txs, seen)
    requires forall k :: 0 <= k < |txs| && txs[k].Append? ==> BaseNotAhead(states, txs[k].payload, seen[k])
    ensures IsSystemRun(hash, proofId, states, txs)
  {
    forall k | 0 <= k < |txs|
      ensures SystemSteps(hash, proofId, states[k], txs[k], states[k + 1])
    {
      assert LooseSteps(hash, proofId, states, txs[k], k, seen[k]);
      if txs[k].Append? {
        LateAppendStillAccepted(hash, proofId, states, txs, seen, k);
      }
    }
  }
}
