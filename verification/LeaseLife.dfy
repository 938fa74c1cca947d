/** How long a granted lease lasts, row by row: what each transaction does to every row, what ends a
    grant, and when its holder may append. */
module LeaseLife {
  import opened Vocabulary
  import opened Ops
  import opened Ids
  import opened Ledger
  import opened LeaseRuns

  // ---- what a transaction leaves in each row ----

  /** The row as it is once everything due at this reading has lapsed. */
  function Lapsed(lease: Lease, t: real): Lease {
    if lease.status == Active && lease.expiresAt.Some? && lease.expiresAt.value <= t
    then lease.(status := Expired) else lease
  }

  function Ousted(lease: Lease): Lease {
    if lease.status == Active then lease.(status := LeaseStatus.Superseded) else lease
  }

  lemma {:induction false} LapsesMeans(l: Ledger, t: real, after: Ledger)
    requires Lapses(l, t, after)
    ensures after.journal == l.journal && after.serial == l.serial && after.leases.Keys == l.leases.Keys
    ensures forall id :: id in l.leases ==> after.leases[id] == Lapsed(l.leases[id], t)
    ensures l.events <= after.events
  {
  }

  /** Taking the write lock ousts every other active row. */
  lemma {:induction false} AcquireMeans(l: Ledger, id: LeaseId, ttl: real, lapseAt: real, now: real, after: Ledger,
                                        token: nat)
    requires Acquires(l, id, ttl, lapseAt, now, after, token)
    ensures after.journal == l.journal && after.serial == l.serial
    ensures after.leases.Keys == l.leases.Keys + {id}
    ensures forall other :: other in l.leases && other != id ==>
              after.leases[other] == Ousted(Lapsed(l.leases[other], lapseAt))
    ensures IsLock(after.leases[id], token, HeadRevision(l), ttl, now)
    ensures after.events != [] && after.events[|after.events| - 1] == Issued(id, token, None, None)
  {
    var lapsed, logged :| Lapses(l, lapseAt, lapsed) && AcquiresFrom(lapsed, id, ttl, now, logged, after, token);
    LapsesMeans(l, lapseAt, lapsed);
  }

  /** A row of the write lock: no move, no worker, and no end unless a positive ttl was asked for. */
  predicate IsLock(lease: Lease, token: nat, base: int, ttl: real, now: real) {
    && lease.workerClass == "" && lease.move == None && lease.token == token && lease.baseRevision == base
    && lease.ttl == ttl && lease.issuedAt == now && lease.status == Active
    && (lease.expiresAt == None <==> ttl <= 0.0)
    && (lease.expiresAt.Some? ==> lease.expiresAt.value == now + ttl)
  }

  /** A row on a move. */
  predicate IsGrant(lease: Lease, worker: string, move: Option<Move>, token: nat, base: int, ttl: real, now: real) {
    && lease.workerClass == worker && lease.move == move && lease.token == token && lease.baseRevision == base
    && lease.ttl == ttl && lease.issuedAt == now && lease.status == Active
    && lease.expiresAt.Some? && lease.expiresAt.value - now == ttl
  }

  /** Issuing ousts the active rows on the same move, and only those. */
  lemma {:induction false} IssueMeans(l: Ledger, proofId: string, given: Option<LeaseId>, worker: string,
                                      move: Option<Move>, base: Option<int>, ttl: real, lapseAt: real, now: real,
                                      after: Ledger, id: LeaseId, token: nat)
    requires Issues(l, proofId, given, worker, move, base, ttl, lapseAt, now, after, id, token)
    ensures after.journal == l.journal && after.serial == l.serial + (if given == None then 1 else 0)
    ensures given.Some? ==> id == given.value
    ensures after.leases.Keys == l.leases.Keys + {id}
    ensures forall other :: other in l.leases && other != id ==>
              var row := Lapsed(l.leases[other], lapseAt);
              after.leases[other] == if move.Some? && row.move == move then Ousted(row) else row
    ensures IsGrant(after.leases[id], worker, move, token, if base.Some? then base.value else HeadRevision(l), ttl, now)
    ensures after.events != [] && after.events[|after.events| - 1] == Issued(id, token, Some(worker), move)
  {
    var lapsed, logged :| Lapses(l, lapseAt, lapsed) &&
      IssuesFrom(MintUnless(lapsed, given), id, worker, move, base, ttl, now, logged, after, token);
    LapsesMeans(l, lapseAt, lapsed);
    IssuedFrom(MintUnless(lapsed, given), id, worker, move, base, ttl, now, logged, after, token);
  }

  lemma {:induction false} IssuedFrom(l: Ledger, id: LeaseId, worker: string, move: Option<Move>, base: Option<int>,
                                      ttl: real, now: real, logged: seq<LeaseId>, after: Ledger, token: nat)
    requires IssuesFrom(l, id, worker, move, base, ttl, now, logged, after, token)
    ensures after.journal == l.journal && after.serial == l.serial && after.leases.Keys == l.leases.Keys + {id}
    ensures forall other :: other in l.leases && other != id ==>
              after.leases[other] ==
              if move.Some? && l.leases[other].move == move then Ousted(l.leases[other]) else l.leases[other]
    ensures IsGrant(after.leases[id], worker, move, token, if base.Some? then base.value else HeadRevision(l), ttl, now)
    ensures after.events != [] && after.events[|after.events| - 1] == Issued(id, token, Some(worker), move)
  {
  }

  /** Dispatching ousts nobody, and grants the first ranked move no active row covers. */
  lemma {:induction false} DispatchMeans(l: Ledger, proofId: string, ranked: seq<Move>, worker: string, ttl: real,
                                         lapseAt: real, now: real, after: Ledger, move: Move, token: nat)
    requires Dispatches(l, proofId, ranked, worker, ttl, lapseAt, now, after, move, token)
    ensures after.journal == l.journal && after.serial == l.serial + 1
    ensures var id := MintedId(proofId, l.serial + 1);
            && id !in l.leases && after.leases.Keys == l.leases.Keys + {id}
            && (forall other :: other in l.leases ==> after.leases[other] == Lapsed(l.leases[other], lapseAt))
            && IsGrant(after.leases[id], worker, Some(move), token, HeadRevision(l), ttl, now)
            && after.events != [] && after.events[|after.events| - 1] == Issued(id, token, Some(worker), Some(move))
    ensures exists k :: 0 <= k < |ranked| && ranked[k] == move &&
              (forall j :: 0 <= j < k ==> Covered(l, ranked[j], lapseAt)) && !Covered(l, move, lapseAt)
  {
    var lapsed :| Lapses(l, lapseAt, lapsed) &&
      DispatchesFrom(lapsed, proofId, ranked, worker, ttl, now, after, move, token);
    LapsesMeans(l, lapseAt, lapsed);
    forall m
      ensures IsTaken(lapsed, m) <==> Covered(l, m, lapseAt)
    {
      TakenIsCovered(l, lapseAt, lapsed, m);
    }
  }

  /** Some row on this move is live at this reading. */
  predicate Covered(l: Ledger, move: Move, t: real) {
    exists id :: id in l.leases && l.leases[id].move == Some(move) && IsLive(l.leases[id], t)
  }

  lemma {:induction false} TakenIsCovered(l: Ledger, t: real, lapsed: Ledger, move: Move)
    requires Lapses(l, t, lapsed)
    ensures IsTaken(lapsed, move) <==> Covered(l, move, t)
  {
    LapsesMeans(l, t, lapsed);
    if id :| id in lapsed.leases && lapsed.leases[id].status == Active && lapsed.leases[id].move == Some(move) {
      assert IsLive(l.leases[id], t);
    }
    if id :| id in l.leases && l.leases[id].move == Some(move) && IsLive(l.leases[id], t) {
      assert lapsed.leases[id].status == Active;
    }
  }

  /** Releasing ends one active row and nothing else. */
  lemma {:induction false} ReleaseMeans(l: Ledger, id: LeaseId)
    ensures Release(l, id).journal == l.journal && Release(l, id).serial == l.serial
    ensures Release(l, id).leases.Keys == l.leases.Keys
    ensures forall other :: other in l.leases ==>
              Release(l, id).leases[other] ==
              if other == id && l.leases[id].status == Active then l.leases[id].(status := Released)
              else l.leases[other]
  {
  }

  /** Appending adds one row to the journal, and lapses rows only when it has a lease to check. */
  lemma {:induction false} AppendMeans(hash: (Digest, Proposal) -> Digest, l: Ledger, p: Proposal, lapseAt: real,
                                       after: Ledger)
    requires Appends(hash, l, p, lapseAt, after)
    ensures after.journal == l.journal + [Row(HeadRevision(l) + 1, hash(HeadHash(l), p), HeadHash(l), p)]
    ensures after.serial == l.serial && after.leases.Keys == l.leases.Keys
    ensures forall id :: id in l.leases ==>
              after.leases[id] == if p.leaseId.Some? || p.fencingToken.Some? then Lapsed(l.leases[id], lapseAt)
                                  else l.leases[id]
  {
    var checked :| ChecksLease(l, p, lapseAt, checked) && AppendsFrom(hash, checked, p, after);
    if NamesLease(p) {
      LapsesMeans(l, lapseAt, checked);
    }
  }

  // ---- how long a grant lasts ----

  /** A lease that was issued or dispatched at `now` is live at exactly the times before `now + ttl`; the
      write lock with a ttl of zero or less is live at any time. */
  lemma {:induction false} GrantIsLiveIff(lease: Lease, worker: string, move: Option<Move>, token: nat, base: int,
                                          ttl: real, now: real, t: real)
    ensures IsGrant(lease, worker, move, token, base, ttl, now) ==> (IsLive(lease, t) <==> t < now + ttl)
    ensures IsLock(lease, token, base, ttl, now) ==> (IsLive(lease, t) <==> ttl <= 0.0 || t < now + ttl)
  {
  }

  /** The row holds this grant: the token, the move and the end it was given, and still active. */
  predicate Keeps(l: Ledger, id: LeaseId, grant: Lease) {
    && id in l.leases && l.leases[id].status == Active && l.leases[id].token == grant.token
    && l.leases[id].move == grant.move && l.leases[id].expiresAt == grant.expiresAt
  }

  predicate RunsOut(grant: Lease, t: real) {
    grant.expiresAt.Some? && grant.expiresAt.value <= t
  }

  /** The transaction ends a grant: it releases or re-issues the lease, takes the write lock, issues the
      same move to another, or lapses rows at a reading at or after its end. */
  predicate EndsGrant(tx: Tx, id: LeaseId, grant: Lease) {
    match tx
    case RolledBack => false
    case Lapse(now) => RunsOut(grant, now)
    case Acquire(_, _, _, _, _) => true
    case Issue(_, _, move, _, _, lapseAt, _, other, _) =>
      other == id || (move.Some? && move == grant.move) || RunsOut(grant, lapseAt)
    case Dispatch(_, _, _, lapseAt, _, _, _) => RunsOut(grant, lapseAt)
    case Finish(other) => other == id
    case Append(p, lapseAt) => (p.leaseId.Some? || p.fencingToken.Some?) && RunsOut(grant, lapseAt)
  }

  lemma {:induction false} StepKeepsIff(hash: (Digest, Proposal) -> Digest, proofId: string, l: Ledger, tx: Tx,
                                        after: Ledger, id: LeaseId, grant: Lease)
    requires Steps(hash, proofId, l, tx, after) && Keeps(l, id, grant)
    ensures Keeps(after, id, grant) <==> !EndsGrant(tx, id, grant)
  {
    match tx {
      case RolledBack =>
      case Lapse(now) => LapsesMeans(l, now, after);
      case Acquire(_, _, _, _, _) => AcquireEnds(hash, proofId, l, tx, after, id, grant);
      case Issue(_, _, _, _, _, _, _, _, _) => IssueEndsIff(hash, proofId, l, tx, after, id, grant);
      case Dispatch(ranked, worker, ttl, lapseAt, now, move, token) =>
        DispatchMeans(l, proofId, ranked, worker, ttl, lapseAt, now, after, move, token);
      case Finish(other) => ReleaseMeans(l, other);
      case Append(p, lapseAt) => AppendMeans(hash, l, p, lapseAt, after);
    }
  }

  lemma {:induction false} AcquireEnds(hash: (Digest, Proposal) -> Digest, proofId: string, l: Ledger, tx: Tx,
                                       after: Ledger, id: LeaseId, grant: Lease)
    requires Steps(hash, proofId, l, tx, after) && Keeps(l, id, grant) && tx.Acquire?
    ensures !Keeps(after, id, grant)
  {
    AcquireMeans(l, tx.id, tx.ttl, tx.lapseAt, tx.now, after, tx.token);
    if tx.id == id {
      TokenIsNew(hash, proofId, l, tx, after, id);
    }
  }

  lemma {:induction false} IssueEndsIff(hash: (Digest, Proposal) -> Digest, proofId: string, l: Ledger, tx: Tx,
                                        after: Ledger, id: LeaseId, grant: Lease)
    requires Steps(hash, proofId, l, tx, after) && Keeps(l, id, grant) && tx.Issue?
    ensures Keeps(after, id, grant) <==> !EndsGrant(tx, id, grant)
  {
    IssueMeans(l, proofId, tx.given, tx.workerClass, tx.move, tx.base, tx.ttl, tx.lapseAt, tx.now, after, tx.id,
               tx.token);
    if tx.id == id {
      TokenIsNew(hash, proofId, l, tx, after, id);
    }
  }

  /** A re-issued row has a larger token. */
  lemma {:induction false} TokenIsNew(hash: (Digest, Proposal) -> Digest, proofId: string, l: Ledger, tx: Tx,
                                      after: Ledger, id: LeaseId)
    requires Steps(hash, proofId, l, tx, after) && id in l.leases
    requires (tx.Acquire? && tx.id == id) || (tx.Issue? && tx.id == id)
    ensures id in after.leases && l.leases[id].token < after.leases[id].token
  {
    if tx.Acquire? {
      var lapsed, logged :| Lapses(l, tx.lapseAt, lapsed) &&
        AcquiresFrom(lapsed, id, tx.ttl, tx.now, logged, after, tx.token);
      LapsesMeans(l, tx.lapseAt, lapsed);
    } else {
      var lapsed, logged :| Lapses(l, tx.lapseAt, lapsed) &&
        IssuesFrom(MintUnless(lapsed, tx.given), id, tx.workerClass, tx.move, tx.base, tx.ttl, tx.now, logged,
                   after, tx.token);
      LapsesMeans(l, tx.lapseAt, lapsed);
    }
  }

  lemma {:induction false} EndedStaysEnded(hash: (Digest, Proposal) -> Digest, proofId: string,
                                           ledgers: seq<Ledger>, txs: seq<Tx>, i: nat, j: nat, id: LeaseId,
                                           grant: Lease)
    requires IsHistory(hash, proofId, ledgers, txs) && i < j < |ledgers|
    requires Keeps(ledgers[i], id, grant) && !Keeps(ledgers[i + 1], id, grant)
    ensures !Keeps(ledgers[j], id, grant)
  {
    assert Steps(hash, proofId, ledgers[i], txs[i], ledgers[i + 1]);
    StepAges(hash, proofId, ledgers[i], txs[i], ledgers[i + 1]);
    StepKeepsMove(hash, proofId, ledgers[i], txs[i], ledgers[i + 1], id);
    assert id in ledgers[i].leases;
    assert IsDead(ledgers[i + 1], id, grant.token);
    DeadForever(hash, proofId, ledgers, txs, i + 1, j, id, grant.token);
  }

  /** A row keeps its move as long as it keeps its token. */
  lemma {:induction false} StepKeepsMove(hash: (Digest, Proposal) -> Digest, proofId: string, l: Ledger, tx: Tx,
                                         after: Ledger, id: LeaseId)
    requires Steps(hash, proofId, l, tx, after) && id in l.leases
    ensures id in after.leases && l.leases[id].token <= after.leases[id].token
    ensures l.leases[id].token == after.leases[id].token ==> l.leases[id].move == after.leases[id].move
  {
    match tx {
      case RolledBack =>
      case Lapse(now) => LapsesMeans(l, now, after);
      case Acquire(_, _, _, _, _) => GrantKeepsMove(hash, proofId, l, tx, after, id);
      case Issue(_, _, _, _, _, _, _, _, _) => GrantKeepsMove(hash, proofId, l, tx, after, id);
      case Dispatch(ranked, worker, ttl, lapseAt, now, move, token) =>
        DispatchMeans(l, proofId, ranked, worker, ttl, lapseAt, now, after, move, token);
      case Finish(other) => ReleaseMeans(l, other);
      case Append(p, lapseAt) => AppendMeans(hash, l, p, lapseAt, after);
    }
  }

  lemma {:induction false} GrantKeepsMove(hash: (Digest, Proposal) -> Digest, proofId: string, l: Ledger, tx: Tx,
                                          after: Ledger, id: LeaseId)
    requires Steps(hash, proofId, l, tx, after) && id in l.leases && (tx.Acquire? || tx.Issue?)
    ensures id in after.leases && l.leases[id].token <= after.leases[id].token
    ensures l.leases[id].token == after.leases[id].token ==> l.leases[id].move == after.leases[id].move
  {
    if tx.id == id {
      TokenIsNew(hash, proofId, l, tx, after, id);
    } else if tx.Acquire? {
      AcquireMeans(l, tx.id, tx.ttl, tx.lapseAt, tx.now, after, tx.token);
    } else {
      IssueMeans(l, proofId, tx.given, tx.workerClass, tx.move, tx.base, tx.ttl, tx.lapseAt, tx.now, after, tx.id,
                 tx.token);
    }
  }

  /** A grant is still there later exactly when no transaction in between ended it. */
  lemma {:induction false} GrantLastsIff(hash: (Digest, Proposal) -> Digest, proofId: string,
                                         ledgers: seq<Ledger>, txs: seq<Tx>, i: nat, j: nat, id: LeaseId,
                                         grant: Lease)
    requires IsHistory(hash, proofId, ledgers, txs) && i <= j < |ledgers| && Keeps(ledgers[i], id, grant)
    ensures Keeps(ledgers[j], id, grant) <==> forall k :: i <= k < j ==> !EndsGrant(txs[k], id, grant)
  {
    if i < j {
      GrantLastsIff(hash, proofId, ledgers, txs, i, j - 1, id, grant);
      if Keeps(ledgers[j - 1], id, grant) {
        assert Steps(hash, proofId, ledgers[j - 1], txs[j - 1], ledgers[j]);
        StepKeepsIff(hash, proofId, ledgers[j - 1], txs[j - 1], ledgers[j], id, grant);
      } else {
        var k := WhereEnded(ledgers, i, j - 1, id, grant);
        EndedStaysEnded(hash, proofId, ledgers, txs, k, j, id, grant);
      }
    }
  }

  lemma {:induction false} WhereEnded(ledgers: seq<Ledger>, i: nat, j: nat, id: LeaseId, grant: Lease)
    returns (k: nat)
    requires i <= j < |ledgers| && Keeps(ledgers[i], id, grant) && !Keeps(ledgers[j], id, grant)
    ensures i <= k < j && Keeps(ledgers[k], id, grant) && !Keeps(ledgers[k + 1], id, grant)
  {
    k := i;
    while Keeps(ledgers[k + 1], id, grant)
      invariant i <= k < j && Keeps(ledgers[k], id, grant)
      decreases j - k
    {
      k := k + 1;
    }
  }

  // ---- who may append ----

  /** The proposal names a row with its token, and the row is live at this reading. */
  predicate NamesLive(l: Ledger, p: Proposal, t: real) {
    && p.leaseId.Some? && p.leaseId.value in l.leases && IsLive(l.leases[p.leaseId.value], t)
    && p.fencingToken.Some? && p.fencingToken.value == l.leases[p.leaseId.value].token
  }

  lemma {:induction false} Listing(ids: set<LeaseId>) returns (order: seq<LeaseId>)
    ensures Enumerates(order, ids)
  {
    order := [];
    var pending := ids;
    while pending != {}
      invariant pending <= ids && Enumerates(order, ids - pending)
    {
      var id :| id in pending;
      pending := pending - {id};
      order := order + [id];
    }
  }

  /** An append goes through exactly when the base it names, if any, is the head, and the lease it names,
      if any, is live at the reading under the token it names. */
  lemma {:induction false} AppendsIff(hash: (Digest, Proposal) -> Digest, l: Ledger, p: Proposal, t: real)
    ensures (exists after :: Appends(hash, l, p, t, after)) <==>
            && (p.baseRevision.Some? ==> p.baseRevision.value == HeadRevision(l))
            && (p.leaseId.Some? || p.fencingToken.Some? ==> NamesLive(l, p, t))
  {
    if after :| Appends(hash, l, p, t, after) {
      var checked :| ChecksLease(l, p, t, checked) && AppendsFrom(hash, checked, p, after);
      if NamesLease(p) {
        LapsesMeans(l, t, checked);
      }
    }
    if p.baseRevision.Some? ==> p.baseRevision.value == HeadRevision(l) {
      if p.leaseId.Some? || p.fencingToken.Some? ==> NamesLive(l, p, t) {
        MayAppend(hash, l, p, t);
      }
    }
  }

  lemma {:induction false} MayAppend(hash: (Digest, Proposal) -> Digest, l: Ledger, p: Proposal, t: real)
    requires p.baseRevision.Some? ==> p.baseRevision.value == HeadRevision(l)
    requires p.leaseId.Some? || p.fencingToken.Some? ==> NamesLive(l, p, t)
    ensures exists after :: Appends(hash, l, p, t, after)
  {
    var due := Listing(DueLeases(l, t));
    var checked := if NamesLease(p) then End(l, DueLeases(l, t), Expired, due) else l;
    if NamesLease(p) {
      assert Lapses(l, t, checked);
      LapsesMeans(l, t, checked);
    }
    assert ChecksLease(l, p, t, checked);
    var after := AppendRow(checked, Row(HeadRevision(l) + 1, hash(HeadHash(l), p), HeadHash(l), p));
    assert AppendsFrom(hash, checked, p, after);
    assert Appends(hash, l, p, t, after);
  }

  /** From the transaction that made the grant on: the holder, with the head as base and a reading before
      the end of the grant, may append exactly when nothing in between ended the grant. */
  lemma {:induction false} HolderMayAppendIff(hash: (Digest, Proposal) -> Digest, proofId: string,
                                              ledgers: seq<Ledger>, txs: seq<Tx>, i: nat, j: nat, id: LeaseId,
                                              grant: Lease, p: Proposal, t: real)
    requires IsHistory(hash, proofId, ledgers, txs) && i <= j < |ledgers| && Keeps(ledgers[i], id, grant)
    requires p.leaseId == Some(id) && p.fencingToken == Some(grant.token) && !RunsOut(grant, t)
    requires p.baseRevision == Some(HeadRevision(ledgers[j]))
    ensures (exists after :: Appends(hash, ledgers[j], p, t, after)) <==>
            forall k :: i <= k < j ==> !EndsGrant(txs[k], id, grant)
  {
    GrantLastsIff(hash, proofId, ledgers, txs, i, j, id, grant);
    AppendsIff(hash, ledgers[j], p, t);
    HistoryAges(hash, proofId, ledgers, txs, i, j);
    MovesStay(hash, proofId, ledgers, txs, i, j, id);
  }

  lemma {:induction false} MovesStay(hash: (Digest, Proposal) -> Digest, proofId: string, ledgers: seq<Ledger>,
                                     txs: seq<Tx>, i: nat, j: nat, id: LeaseId)
    requires IsHistory(hash, proofId, ledgers, txs) && i <= j < |ledgers| && id in ledgers[i].leases
    ensures id in ledgers[j].leases && ledgers[i].leases[id].token <= ledgers[j].leases[id].token
    ensures ledgers[i].leases[id].token == ledgers[j].leases[id].token ==>
              ledgers[i].leases[id].move == ledgers[j].leases[id].move
  {
    if i < j {
      MovesStay(hash, proofId, ledgers, txs, i, j - 1, id);
      assert Steps(hash, proofId, ledgers[j - 1], txs[j - 1], ledgers[j]);
      StepKeepsMove(hash, proofId, ledgers[j - 1], txs[j - 1], ledgers[j], id);
    }
  }

  /** A dispatched lease, from its dispatch on: the holder may append before `now + ttl` exactly when
      nothing in between ended the grant. */
  lemma {:induction false} DispatchedMayAppendIff(hash: (Digest, Proposal) -> Digest, proofId: string,
                                                  ledgers: seq<Ledger>, txs: seq<Tx>, i: nat, j: nat,
                                                  p: Proposal, t: real)
    requires IsHistory(hash, proofId, ledgers, txs) && i < j < |ledgers| && txs[i].Dispatch?
    requires p.leaseId == Some(MintedId(proofId, ledgers[i].serial + 1)) && p.fencingToken == Some(txs[i].token)
    requires p.baseRevision == Some(HeadRevision(ledgers[j])) && t < txs[i].now + txs[i].ttl
    ensures p.leaseId.value in ledgers[i + 1].leases
    ensures (exists after :: Appends(hash, ledgers[j], p, t, after)) <==>
            forall k :: i < k < j ==> !EndsGrant(txs[k], p.leaseId.value, ledgers[i + 1].leases[p.leaseId.value])
  {
    var tx := txs[i];
    assert Steps(hash, proofId, ledgers[i], tx, ledgers[i + 1]);
    DispatchMeans(ledgers[i], proofId, tx.ranked, tx.workerClass, tx.ttl, tx.lapseAt, tx.now, ledgers[i + 1],
                  tx.chosen, tx.token);
    HolderMayAppendIff(hash, proofId, ledgers, txs, i + 1, j, p.leaseId.value,
                       ledgers[i + 1].leases[p.leaseId.value], p, t);
  }

  /** The same for an issued lease. */
  lemma {:induction false} IssuedMayAppendIff(hash: (Digest, Proposal) -> Digest, proofId: string,
                                              ledgers: seq<Ledger>, txs: seq<Tx>, i: nat, j: nat, p: Proposal,
                                              t: real)
    requires IsHistory(hash, proofId, ledgers, txs) && i < j < |ledgers| && txs[i].Issue?
    requires p.leaseId == Some(txs[i].id) && p.fencingToken == Some(txs[i].token)
    requires p.baseRevision == Some(HeadRevision(ledgers[j])) && t < txs[i].now + txs[i].ttl
    ensures txs[i].id in ledgers[i + 1].leases
    ensures (exists after :: Appends(hash, ledgers[j], p, t, after)) <==>
            forall k :: i < k < j ==> !EndsGrant(txs[k], txs[i].id, ledgers[i + 1].leases[txs[i].id])
  {
    var tx := txs[i];
    assert Steps(hash, proofId, ledgers[i], tx, ledgers[i + 1]);
    IssueMeans(ledgers[i], proofId, tx.given, tx.workerClass, tx.move, tx.base, tx.ttl, tx.lapseAt, tx.now,
               ledgers[i + 1], tx.id, tx.token);
    HolderMayAppendIff(hash, proofId, ledgers, txs, i + 1, j, tx.id, ledgers[i + 1].leases[tx.id], p, t);
  }

  /** And for the write lock, which runs out only if it was given a positive ttl. */
  lemma {:induction false} LockedMayAppendIff(hash: (Digest, Proposal) -> Digest, proofId: string,
                                              ledgers: seq<Ledger>, txs: seq<Tx>, i: nat, j: nat, p: Proposal,
                                              t: real)
    requires IsHistory(hash, proofId, ledgers, txs) && i < j < |ledgers| && txs[i].Acquire?
    requires p.leaseId == Some(txs[i].id) && p.fencingToken == Some(txs[i].token)
    requires p.baseRevision == Some(HeadRevision(ledgers[j]))
    requires txs[i].ttl <= 0.0 || t < txs[i].now + txs[i].ttl
    ensures txs[i].id in ledgers[i + 1].leases
    ensures (exists after :: Appends(hash, ledgers[j], p, t, after)) <==>
            forall k :: i < k < j ==> !EndsGrant(txs[k], txs[i].id, ledgers[i + 1].leases[txs[i].id])
  {
    var tx := txs[i];
    assert Steps(hash, proofId, ledgers[i], tx, ledgers[i + 1]);
    AcquireMeans(ledgers[i], tx.id, tx.ttl, tx.lapseAt, tx.now, ledgers[i + 1], tx.token);
    HolderMayAppendIff(hash, proofId, ledgers, txs, i + 1, j, tx.id, ledgers[i + 1].leases[tx.id], p, t);
  }

  // ---- minted ids ----

  /** A minted lease id tells its serial, and lies under the proof. */
  lemma {:induction false} MintedIdsDiffer(proofId: string, m: nat, n: nat)
    ensures MintedId(proofId, m) == MintedId(proofId, n) <==> m == n
    ensures proofId + "/" <= MintedId(proofId, m)
  {
    if MintedId(proofId, m) == MintedId(proofId, n) {
      var a, b := proofId + "/ls-" + Decimal(m), proofId + "/ls-" + Decimal(n);
      assert a[|proofId| + 4..] == Decimal(m) && b[|proofId| + 4..] == Decimal(n);
      ParseDecimal(m);
      ParseDecimal(n);
    }
  }

  /** Serials only move on, so no id is minted twice in a history. */
  lemma {:induction false} SerialsMoveOn(hash: (Digest, Proposal) -> Digest, proofId: string, ledgers: seq<Ledger>,
                                         txs: seq<Tx>, i: nat, j: nat)
    requires IsHistory(hash, proofId, ledgers, txs) && i <= j < |ledgers|
    ensures ledgers[i].serial <= ledgers[j].serial
    ensures i < j && (txs[i].Dispatch? || (txs[i].Issue? && txs[i].given == None)) ==>
              ledgers[i].serial < ledgers[j].serial
  {
    if i < j {
      SerialsMoveOn(hash, proofId, ledgers, txs, i, j - 1);
      assert Steps(hash, proofId, ledgers[j - 1], txs[j - 1], ledgers[j]);
      StepMovesSerial(hash, proofId, ledgers[j - 1], txs[j - 1], ledgers[j]);
    }
  }

  lemma {:induction false} StepMovesSerial(hash: (Digest, Proposal) -> Digest, proofId: string, l: Ledger, tx: Tx,
                                           after: Ledger)
    requires Steps(hash, proofId, l, tx, after)
    ensures after.serial == l.serial + if tx.Dispatch? || (tx.Issue? && tx.given == None) then 1 else 0
  {
    match tx {
      case RolledBack =>
      case Lapse(now) => LapsesMeans(l, now, after);
      case Acquire(other, ttl, lapseAt, now, token) =>
        AcquireMeans(l, other, ttl, lapseAt, now, after, token);
      case Issue(given, worker, move, base, ttl, lapseAt, now, other, token) =>
        IssueMeans(l, proofId, given, worker, move, base, ttl, lapseAt, now, after, other, token);
      case Dispatch(ranked, worker, ttl, lapseAt, now, move, token) =>
        DispatchMeans(l, proofId, ranked, worker, ttl, lapseAt, now, after, move, token);
      case Finish(other) => ReleaseMeans(l, other);
      case Append(p, lapseAt) => AppendMeans(hash, l, p, lapseAt, after);
    }
  }
}
