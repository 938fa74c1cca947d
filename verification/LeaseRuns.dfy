/** What every interleaving of write transactions keeps true of the leases of one proof. */
module LeaseRuns {
  import opened Vocabulary
  import opened Ops
  import opened Ledger

  /** One write transaction; `RolledBack` is any transaction that failed or never got the lock. */
  datatype Tx =
    | RolledBack
    | Lapse(now: real)
    | Acquire(id: LeaseId, ttl: real, lapseAt: real, now: real, token: nat)
    | Issue(given: Option<LeaseId>, workerClass: string, move: Option<Move>, base: Option<int>,
            ttl: real, lapseAt: real, now: real, id: LeaseId, token: nat)
    | Dispatch(ranked: seq<Move>, workerClass: string, ttl: real, lapseAt: real, now: real,
               chosen: Move, token: nat)
    | Finish(id: LeaseId)
    | Append(payload: Proposal, lapseAt: real)

  ghost predicate Steps(hash: (Digest, Proposal) -> Digest, proofId: string, l: Ledger, tx: Tx,
                        after: Ledger)
  {
    match tx
    case RolledBack => after == l
    case Lapse(now) => Lapses(l, now, after)
    case Acquire(id, ttl, lapseAt, now, token) => Acquires(l, id, ttl, lapseAt, now, after, token)
    case Issue(given, workerClass, move, base, ttl, lapseAt, now, id, token) =>
      Issues(l, proofId, given, workerClass, move, base, ttl, lapseAt, now, after, id, token)
    case Dispatch(ranked, workerClass, ttl, lapseAt, now, chosen, token) =>
      Dispatches(l, proofId, ranked, workerClass, ttl, lapseAt, now, after, chosen, token)
    case Finish(id) => after == Release(l, id)
    case Append(payload, lapseAt) =>
      payload.proofId == proofId && Appends(hash, l, payload, lapseAt, after)
  }

  /** Any interleaving of any clients' transactions on one proof, from an empty ledger. */
  ghost predicate IsHistory(hash: (Digest, Proposal) -> Digest, proofId: string, ledgers: seq<Ledger>,
                            txs: seq<Tx>)
  {
    && |ledgers| == |txs| + 1
    && ledgers[0] == EMPTY_LEDGER
    && forall k :: 0 <= k < |txs| ==> Steps(hash, proofId, ledgers[k], txs[k], ledgers[k + 1])
  }

  // ---- the invariant ----

  datatype Shadow = Shadow(status: LeaseStatus, token: nat, move: Option<Move>)

  function ShadowOf(lease: Lease): Shadow {
    Shadow(lease.status, lease.token, lease.move)
  }

  /** Fold the audit trail: an issue sets everything, any other event overwrites the status. */
  function Rebuild(events: seq<LeaseEvent>): map<LeaseId, Shadow> {
    if events == [] then map[]
    else
      var before := Rebuild(events[..|events| - 1]);
      match events[|events| - 1]
      case Issued(id, token, _, move) => before[id := Shadow(Active, token, move)]
      case Ended(id, status) => if id in before then before[id := before[id].(status := status)] else before
  }

  /** The lease rows as the audit trail should rebuild them. */
  function Shadows(leases: map<LeaseId, Lease>): map<LeaseId, Shadow> {
    map id | id in leases :: ShadowOf(leases[id])
  }

  /** The tokens issued on this proof, in the order they were issued. */
  function TokensIssued(events: seq<LeaseEvent>): seq<nat> {
    if events == [] then []
    else
      var before := TokensIssued(events[..|events| - 1]);
      var event := events[|events| - 1];
      if event.Issued? then before + [event.token] else before
  }

  ghost predicate FaithfulLog(l: Ledger) {
    Rebuild(l.events) == Shadows(l.leases)
  }

  /** The k-th token issued is k, and the largest token on record is the number issued. */
  ghost predicate TokensCount(l: Ledger) {
    var tokens := TokensIssued(l.events);
    && (forall k :: 0 <= k < |tokens| ==> tokens[k] == k + 1)
    && (forall id :: id in l.leases ==> 0 < l.leases[id].token <= |tokens|)
    && (tokens != [] ==> exists id :: id in l.leases && l.leases[id].token == |tokens|)
  }

  predicate Covers(l: Ledger, id: LeaseId) {
    id in l.leases && l.leases[id].status == Active && l.leases[id].move.Some?
  }

  /** No move is covered by two active leases. */
  ghost predicate ExclusiveMoves(l: Ledger) {
    forall a, b :: Covers(l, a) && Covers(l, b) && l.leases[a].move == l.leases[b].move ==> a == b
  }

  ghost predicate LeasesConsistent(l: Ledger) {
    FaithfulLog(l) && TokensCount(l) && ExclusiveMoves(l)
  }

  // ---- the primitives keep it ----

  /** Logging a status for leases that now have it leaves the log faithful. */
  lemma {:induction false} RebuildEnded(events: seq<LeaseEvent>, order: seq<LeaseId>, status: LeaseStatus)
    ensures Rebuild(events + EndAll(order, status)) ==
            (var before := Rebuild(events);
             map id | id in before :: if id in order then before[id].(status := status) else before[id])
    ensures TokensIssued(events + EndAll(order, status)) == TokensIssued(events)
  {
    if order == [] {
      assert events + EndAll(order, status) == events;
    } else {
      var rest, last := order[..|order| - 1], order[|order| - 1];
      var longer := events + EndAll(order, status);
      assert longer[..|longer| - 1] == events + EndAll(rest, status);
      assert longer[|longer| - 1] == Ended(last, status);
      RebuildEnded(events, rest, status);
      assert forall id :: id in order <==> id in rest || id == last;
    }
  }

  lemma {:induction false} EndKeepsFaithful(l: Ledger, ids: set<LeaseId>, status: LeaseStatus,
                                            logged: seq<LeaseId>)
    requires FaithfulLog(l)
    requires forall id :: id in ids ==> id in logged
    requires forall id :: id in logged ==> id in l.leases && (id in ids || l.leases[id].status == status)
    ensures FaithfulLog(End(l, ids, status, logged))
  {
    RebuildEnded(l.events, logged, status);
    var after := End(l, ids, status, logged);
    assert Rebuild(l.events).Keys == l.leases.Keys;
    forall id | id in l.leases
      ensures Rebuild(after.events)[id] == ShadowOf(after.leases[id])
    {
      assert Rebuild(l.events)[id] == Shadows(l.leases)[id];
    }
  }

  lemma {:induction false} EndKeepsTokens(l: Ledger, ids: set<LeaseId>, status: LeaseStatus,
                                          logged: seq<LeaseId>)
    requires TokensCount(l)
    ensures TokensCount(End(l, ids, status, logged))
  {
    RebuildEnded(l.events, logged, status);
    var after := End(l, ids, status, logged);
    var tokens := TokensIssued(l.events);
    if tokens != [] {
      var id :| id in l.leases && l.leases[id].token == |tokens|;
      assert id in after.leases && after.leases[id].token == |tokens|;
    }
  }

  /** Ending leases, with an honest log, keeps the invariant. */
  lemma {:induction false} EndKeepsConsistent(l: Ledger, ids: set<LeaseId>, status: LeaseStatus,
                                              logged: seq<LeaseId>)
    requires LeasesConsistent(l) && status != Active
    requires forall id :: id in ids ==> id in logged
    requires forall id :: id in logged ==> id in l.leases && (id in ids || l.leases[id].status == status)
    ensures LeasesConsistent(End(l, ids, status, logged))
  {
    EndKeepsFaithful(l, ids, status, logged);
    EndKeepsTokens(l, ids, status, logged);
  }

  lemma {:induction false} LapseKeepsConsistent(l: Ledger, now: real, after: Ledger)
    requires LeasesConsistent(l) && Lapses(l, now, after)
    ensures LeasesConsistent(after)
  {
    var due :| Enumerates(due, DueLeases(l, now)) && after == End(l, DueLeases(l, now), Expired, due);
    EndKeepsConsistent(l, DueLeases(l, now), Expired, due);
  }

  /** The next token is one past the number issued so far. */
  lemma {:induction false} NextTokenIsCount(l: Ledger, token: nat)
    requires TokensCount(l) && IsNextToken(l.leases, token)
    ensures token == |TokensIssued(l.events)| + 1
  {
  }

  lemma {:induction false} GrantKeepsConsistent(l: Ledger, id: LeaseId, lease: Lease,
                                                workerClass: Option<string>)
    requires LeasesConsistent(l) && lease.status == Active && IsNextToken(l.leases, lease.token)
    requires forall other :: Covers(l, other) && l.leases[other].move == lease.move ==> other == id
    ensures LeasesConsistent(Grant(l, id, lease, workerClass))
  {
    var after := Grant(l, id, lease, workerClass);
    NextTokenIsCount(l, lease.token);
    assert after.events[..|after.events| - 1] == l.events;
    assert Rebuild(after.events) == Rebuild(l.events)[id := ShadowOf(lease)];
    assert Shadows(after.leases) == Shadows(l.leases)[id := ShadowOf(lease)];
    assert id in after.leases && after.leases[id].token == |TokensIssued(after.events)|;
  }

  /** Supersede some active leases, then grant: the common shape of acquiring and issuing. */
  lemma {:induction false} SupersedeAndGrant(l: Ledger, victims: set<LeaseId>, logged: seq<LeaseId>,
                                             id: LeaseId, lease: Lease, workerClass: Option<string>)
    requires LeasesConsistent(l) && lease.status == Active && IsNextToken(l.leases, lease.token)
    requires forall v :: v in victims ==> v in logged && v in l.leases
    requires forall v :: v in logged ==>
               v in l.leases && (v in victims || l.leases[v].status == LeaseStatus.Superseded)
    requires forall other :: Covers(l, other) && l.leases[other].move == lease.move ==>
               other == id || other in victims
    ensures LeasesConsistent(Grant(Supersede(l, victims, logged), id, lease, workerClass))
  {
    EndKeepsConsistent(l, victims, LeaseStatus.Superseded, logged);
    var ended := Supersede(l, victims, logged);
    assert IsNextToken(ended.leases, lease.token) by {
      if lease.token > 1 {
        var top :| top in l.leases && l.leases[top].token == lease.token - 1;
        assert top in ended.leases && ended.leases[top].token == lease.token - 1;
      }
    }
    GrantKeepsConsistent(ended, id, lease, workerClass);
  }

  lemma {:induction false} AcquireKeepsConsistent(l: Ledger, id: LeaseId, ttl: real, lapseAt: real,
                                                  now: real, after: Ledger, token: nat)
    requires LeasesConsistent(l) && Acquires(l, id, ttl, lapseAt, now, after, token)
    ensures LeasesConsistent(after)
  {
    var lapsed, logged :|
      Lapses(l, lapseAt, lapsed) && AcquiresFrom(lapsed, id, ttl, now, logged, after, token);
    LapseKeepsConsistent(l, lapseAt, lapsed);
    SupersedeAndGrant(lapsed, Others(lapsed, id, Active), logged, id,
                      WriteLock(token, HeadRevision(lapsed), ttl, now), None);
  }

  lemma {:induction false} IssueKeepsConsistent(lapsed: Ledger, id: LeaseId, workerClass: string,
                                                move: Option<Move>, base: Option<int>, ttl: real,
                                                now: real, logged: seq<LeaseId>, after: Ledger,
                                                token: nat)
    requires LeasesConsistent(lapsed)
    requires IssuesFrom(lapsed, id, workerClass, move, base, ttl, now, logged, after, token)
    ensures LeasesConsistent(after)
  {
    SupersedeAndGrant(lapsed, Rivals(lapsed, id, move, Active), logged, id,
                      DispatchRow(workerClass, move, token,
                                  if base.Some? then base.value else HeadRevision(lapsed), ttl, now),
                      Some(workerClass));
  }

  lemma {:induction false} DispatchKeepsConsistent(lapsed: Ledger, proofId: string, ranked: seq<Move>,
                                                   workerClass: string, ttl: real, now: real,
                                                   after: Ledger, move: Move, token: nat)
    requires LeasesConsistent(lapsed)
    requires DispatchesFrom(lapsed, proofId, ranked, workerClass, ttl, now, after, move, token)
    ensures LeasesConsistent(after)
  {
    GrantKeepsConsistent(Mint(lapsed), MintedId(proofId, lapsed.serial + 1),
                         DispatchRow(workerClass, Some(move), token, HeadRevision(lapsed), ttl, now),
                         Some(workerClass));
  }

  lemma {:induction false} LapseThenIssue(l: Ledger, proofId: string, given: Option<LeaseId>,
                                          workerClass: string, move: Option<Move>, base: Option<int>,
                                          ttl: real, lapseAt: real, now: real, after: Ledger, id: LeaseId,
                                          token: nat)
    requires LeasesConsistent(l)
    requires Issues(l, proofId, given, workerClass, move, base, ttl, lapseAt, now, after, id, token)
    ensures LeasesConsistent(after)
  {
    var lapsed, logged :| Lapses(l, lapseAt, lapsed) &&
      IssuesFrom(MintUnless(lapsed, given), id, workerClass, move, base, ttl, now, logged, after, token);
    LapseKeepsConsistent(l, lapseAt, lapsed);
    IssueKeepsConsistent(MintUnless(lapsed, given), id, workerClass, move, base, ttl, now, logged, after,
                         token);
  }

  lemma {:induction false} ReleaseKeepsConsistent(l: Ledger, id: LeaseId)
    requires LeasesConsistent(l)
    ensures LeasesConsistent(Release(l, id))
  {
    if id in l.leases && l.leases[id].status == Active {
      EndKeepsConsistent(l, {id}, Released, [id]);
    }
  }

  lemma {:induction false} StepKeepsConsistent(hash: (Digest, Proposal) -> Digest, proofId: string,
                                               l: Ledger, tx: Tx, after: Ledger)
    requires LeasesConsistent(l) && Steps(hash, proofId, l, tx, after)
    ensures LeasesConsistent(after)
  {
    match tx {
      case RolledBack =>
      case Lapse(now) =>
        LapseKeepsConsistent(l, now, after);
      case Acquire(id, ttl, lapseAt, now, token) =>
        AcquireKeepsConsistent(l, id, ttl, lapseAt, now, after, token);
      case Issue(given, workerClass, move, base, ttl, lapseAt, now, id, token) =>
        LapseThenIssue(l, proofId, given, workerClass, move, base, ttl, lapseAt, now, after, id, token);
      case Dispatch(ranked, workerClass, ttl, lapseAt, now, chosen, token) =>
        var lapsed :| Lapses(l, lapseAt, lapsed) &&
          DispatchesFrom(lapsed, proofId, ranked, workerClass, ttl, now, after, chosen, token);
        LapseKeepsConsistent(l, lapseAt, lapsed);
        DispatchKeepsConsistent(lapsed, proofId, ranked, workerClass, ttl, now, after, chosen, token);
      case Finish(id) =>
        ReleaseKeepsConsistent(l, id);
      case Append(payload, lapseAt) =>
        AppendKeepsConsistent(hash, l, payload, lapseAt, after);
    }
  }

  lemma {:induction false} AppendKeepsConsistent(hash: (Digest, Proposal) -> Digest, l: Ledger,
                                                 p: Proposal, lapseAt: real, after: Ledger)
    requires LeasesConsistent(l) && Appends(hash, l, p, lapseAt, after)
    ensures LeasesConsistent(after)
  {
    var checked :| ChecksLease(l, p, lapseAt, checked) && AppendsFrom(hash, checked, p, after);
    if NamesLease(p) {
      LapseKeepsConsistent(l, lapseAt, checked);
    }
  }

  /** In every reachable ledger the audit trail rebuilds every lease row, the k-th token issued is
      k, and no move is leased twice. */
  lemma {:induction false} LeasesAlwaysConsistent(hash: (Digest, Proposal) -> Digest, proofId: string,
                                                  ledgers: seq<Ledger>, txs: seq<Tx>, n: nat)
    requires IsHistory(hash, proofId, ledgers, txs) && n < |ledgers|
    ensures LeasesConsistent(ledgers[n])
  {
    if n > 0 {
      LeasesAlwaysConsistent(hash, proofId, ledgers, txs, n - 1);
      StepKeepsConsistent(hash, proofId, ledgers[n - 1], txs[n - 1], ledgers[n]);
    }
  }

  // ---- does every entry of the audit trail record a change ----

  /** Each of these entries, in turn, gives its lease a status the trail did not give it before. */
  ghost predicate EachChanges(trail: seq<LeaseEvent>, order: seq<LeaseId>, status: LeaseStatus) {
    forall j :: 0 <= j < |order| ==> Changes(trail + EndAll(order[..j], status), order[j], status)
  }

  predicate Changes(trail: seq<LeaseEvent>, id: LeaseId, status: LeaseStatus) {
    id in Rebuild(trail) && Rebuild(trail)[id].status != status
  }

  lemma {:induction false} EachChangesIff(l: Ledger, ids: set<LeaseId>, order: seq<LeaseId>, status: LeaseStatus)
    requires FaithfulLog(l) && Enumerates(order, ids) && ids <= l.leases.Keys
    ensures EachChanges(l.events, order, status) <==> forall id :: id in ids ==> l.leases[id].status != status
  {
    forall j | 0 <= j < |order|
      ensures Changes(l.events + EndAll(order[..j], status), order[j], status) <==>
              l.leases[order[j]].status != status
    {
      RebuildEnded(l.events, order[..j], status);
      assert order[j] in ids && order[j] in Shadows(l.leases);
    }
  }

  /** The superseded entries of an acquire all record a change exactly when no row of the proof was
      superseded before: every row superseded long ago is logged again. */
  lemma {:induction false} AcquireLogsChangesIff(lapsed: Ledger, id: LeaseId, ttl: real, now: real,
                                                 logged: seq<LeaseId>, after: Ledger, token: nat)
    requires FaithfulLog(lapsed) && AcquiresFrom(lapsed, id, ttl, now, logged, after, token)
    ensures EachChanges(lapsed.events, logged, LeaseStatus.Superseded) <==> AllSuperseded(lapsed) == {}
  {
    var rows := AllSuperseded(lapsed) + Others(lapsed, id, Active);
    EachChangesIff(lapsed, rows, logged, LeaseStatus.Superseded);
    forall other | other in AllSuperseded(lapsed)
      ensures other in rows && lapsed.leases[other].status == LeaseStatus.Superseded
    {
    }
  }

  /** The same for issuing a lease: the rows superseded before on its move are logged again. */
  lemma {:induction false} IssueLogsChangesIff(lapsed: Ledger, id: LeaseId, workerClass: string,
                                               move: Option<Move>, base: Option<int>, ttl: real, now: real,
                                               logged: seq<LeaseId>, after: Ledger, token: nat)
    requires FaithfulLog(lapsed)
    requires IssuesFrom(lapsed, id, workerClass, move, base, ttl, now, logged, after, token)
    ensures EachChanges(lapsed.events, logged, LeaseStatus.Superseded) <==>
            Rivals(lapsed, id, move, LeaseStatus.Superseded) == {}
  {
    var rows := Rivals(lapsed, id, move, LeaseStatus.Superseded) + Rivals(lapsed, id, move, Active);
    EachChangesIff(lapsed, rows, logged, LeaseStatus.Superseded);
    forall other | other in Rivals(lapsed, id, move, LeaseStatus.Superseded)
      ensures other in rows && lapsed.leases[other].status == LeaseStatus.Superseded
    {
    }
  }

  lemma {:induction false} EndingNothing(l: Ledger)
    ensures End(l, {}, Expired, []) == l
  {
    assert End(l, {}, Expired, []).leases == l.leases;
    assert End(l, {}, Expired, []).events == l.events;
  }

  lemma {:induction false} NothingDueLapses(l: Ledger, now: real)
    requires DueLeases(l, now) == {}
    ensures Lapses(l, now, l)
  {
    EndingNothing(l);
    assert Enumerates([], DueLeases(l, now)) && l == End(l, DueLeases(l, now), Expired, []);
  }

  lemma {:induction false} AcquiredIsAStep(l: Ledger, id: LeaseId, token: nat, logged: seq<LeaseId>,
                                           after: Ledger)
    requires DueLeases(l, 0.0) == {} && IsNextToken(l.leases, token)
    requires Enumerates(logged, AllSuperseded(l) + Others(l, id, Active))
    requires var ended := Supersede(l, Others(l, id, Active), logged);
             && after.journal == l.journal && after.serial == l.serial
             && after.leases == ended.leases[id := WriteLock(token, HeadRevision(l), 0.0, 0.0)]
             && after.events == ended.events + [Issued(id, token, None, None)]
    ensures Acquires(l, id, 0.0, 0.0, 0.0, after, token)
  {
    NothingDueLapses(l, 0.0);
    assert AcquiresFrom(l, id, 0.0, 0.0, logged, after, token);
  }

  function Held(token: nat): Lease {
    WriteLock(token, 0, 0.0, 0.0)
  }

  function Past(token: nat): Lease {
    Held(token).(status := LeaseStatus.Superseded)
  }

  const ONE_LOCK := Ledger([], map["a" := Held(1)], [Issued("a", 1, None, None)], 0)
  const TWO_LOCKS := Ledger([], map["a" := Past(1), "b" := Held(2)],
                            ONE_LOCK.events + [Ended("a", LeaseStatus.Superseded), Issued("b", 2, None, None)], 0)
  const THREE_LOCKS := Ledger([], map["a" := Past(1), "b" := Past(2), "c" := Held(3)],
                              TWO_LOCKS.events + [Ended("a", LeaseStatus.Superseded),
                                                  Ended("b", LeaseStatus.Superseded),
                                                  Issued("c", 3, None, None)], 0)

  lemma {:induction false} FirstLock()
    ensures Acquires(EMPTY_LEDGER, "a", 0.0, 0.0, 0.0, ONE_LOCK, 1)
  {
    AcquiredIsAStep(EMPTY_LEDGER, "a", 1, [], ONE_LOCK);
  }

  lemma {:induction false} SecondLock()
    ensures Acquires(ONE_LOCK, "b", 0.0, 0.0, 0.0, TWO_LOCKS, 2)
  {
    var l := ONE_LOCK;
    assert l.leases["a"].token == 1;
    assert Others(l, "b", Active) == {"a"} && AllSuperseded(l) == {};
    assert EndAll(["a"], LeaseStatus.Superseded) == [Ended("a", LeaseStatus.Superseded)];
    AcquiredIsAStep(l, "b", 2, ["a"], TWO_LOCKS);
  }

  lemma {:induction false} ThirdLock()
    ensures Acquires(TWO_LOCKS, "c", 0.0, 0.0, 0.0, THREE_LOCKS, 3)
  {
    var l := TWO_LOCKS;
    assert l.leases["b"].token == 2;
    assert Others(l, "c", Active) == {"b"} && AllSuperseded(l) == {"a"};
    assert EndAll(["a", "b"], LeaseStatus.Superseded) ==
           [Ended("a", LeaseStatus.Superseded), Ended("b", LeaseStatus.Superseded)];
    AcquiredIsAStep(l, "c", 3, ["a", "b"], THREE_LOCKS);
  }

  const LOCKS := [EMPTY_LEDGER, ONE_LOCK, TWO_LOCKS, THREE_LOCKS]
  const LOCK_TXS := [Acquire("a", 0.0, 0.0, 0.0, 1), Acquire("b", 0.0, 0.0, 0.0, 2),
                     Acquire("c", 0.0, 0.0, 0.0, 3)]

  lemma {:induction false} LocksAreAHistory(hash: (Digest, Proposal) -> Digest, proofId: string)
    ensures IsHistory(hash, proofId, LOCKS, LOCK_TXS)
  {
    FirstLock();
    SecondLock();
    ThirdLock();
    forall k | 0 <= k < 3
      ensures Steps(hash, proofId, LOCKS[k], LOCK_TXS[k], LOCKS[k + 1])
    {
      assert k == 0 || k == 1 || k == 2;
    }
  }

  /** Three clients take the write lock in turn, and the third logs the first as superseded again. */
  lemma {:induction false} SupersededTwice(hash: (Digest, Proposal) -> Digest, proofId: string)
    ensures IsHistory(hash, proofId, LOCKS, LOCK_TXS)
    ensures !Changes(TWO_LOCKS.events, "a", LeaseStatus.Superseded)
    ensures THREE_LOCKS.events[|TWO_LOCKS.events|] == Ended("a", LeaseStatus.Superseded)
  {
    LocksAreAHistory(hash, proofId);
    LeasesAlwaysConsistent(hash, proofId, LOCKS, LOCK_TXS, 2);
    assert FaithfulLog(TWO_LOCKS);
    assert "a" in Shadows(TWO_LOCKS.leases);
  }

  // ---- fencing ----

  /** This lease id was once issued this token. */
  ghost predicate WasIssued(l: Ledger, id: LeaseId, token: nat) {
    exists event :: event in l.events && event.Issued? && event.leaseId == id && event.token == token
  }

  /** The pair has expired, been released, superseded or re-issued. */
  predicate IsDead(l: Ledger, id: LeaseId, token: nat) {
    id in l.leases &&
    (token < l.leases[id].token || (token == l.leases[id].token && l.leases[id].status != Active))
  }

  /** The log's latest issue of a lease carries its largest token. */
  lemma {:induction false} LatestIssueWins(events: seq<LeaseEvent>)
    requires forall k :: 0 <= k < |TokensIssued(events)| ==> TokensIssued(events)[k] == k + 1
    ensures forall event :: event in events && event.Issued? ==>
              event.leaseId in Rebuild(events) && event.token <= Rebuild(events)[event.leaseId].token
    ensures forall id :: id in Rebuild(events) ==> Rebuild(events)[id].token <= |TokensIssued(events)|
  {
    if events != [] {
      var before, last := events[..|events| - 1], events[|events| - 1];
      assert forall k :: 0 <= k < |TokensIssued(before)| ==>
        TokensIssued(before)[k] == TokensIssued(events)[k];
      LatestIssueWins(before);
      assert events == before + [last];
      if last.Issued? {
        assert TokensIssued(events)[|TokensIssued(before)|] == last.token;
      }
    }
  }

  /** In every reachable ledger, a pair that was issued either still holds its lease or is dead. */
  lemma {:induction false} IssuedIsHeldOrDead(l: Ledger, id: LeaseId, token: nat)
    requires LeasesConsistent(l) && WasIssued(l, id, token)
    ensures IsDead(l, id, token) <==> !HoldsLease(l, Some(id), Some(token))
  {
    LatestIssueWins(l.events);
    var event :| event in l.events && event.Issued? && event.leaseId == id && event.token == token;
    assert id in Rebuild(l.events) && id in Shadows(l.leases);
    assert Rebuild(l.events)[id] == Shadows(l.leases)[id];
  }

  /** Rows are never deleted; a row keeps its token until it is issued a larger one, and while it
      keeps it, its expiry time is fixed and an ended row stays ended. */
  ghost predicate Ages(l: Ledger, after: Ledger) {
    forall id :: id in l.leases ==>
      && id in after.leases
      && l.leases[id].token <= after.leases[id].token
      && (l.leases[id].token == after.leases[id].token ==>
            && after.leases[id].expiresAt == l.leases[id].expiresAt
            && (l.leases[id].status != Active ==> after.leases[id].status != Active))
  }

  lemma {:induction false} AgesTransitive(a: Ledger, b: Ledger, c: Ledger)
    requires Ages(a, b) && Ages(b, c)
    ensures Ages(a, c)
  {
    forall id | id in a.leases
      ensures id in c.leases && a.leases[id].token <= c.leases[id].token
      ensures a.leases[id].token == c.leases[id].token ==>
                c.leases[id].expiresAt == a.leases[id].expiresAt &&
                (a.leases[id].status != Active ==> c.leases[id].status != Active)
    {
      assert id in b.leases;
    }
  }

  lemma {:induction false} LapseAges(l: Ledger, now: real, after: Ledger)
    requires Lapses(l, now, after)
    ensures Ages(l, after)
  {
  }

  lemma {:induction false} GrantAges(l: Ledger, victims: set<LeaseId>, logged: seq<LeaseId>, id: LeaseId,
                                     lease: Lease, workerClass: Option<string>)
    requires IsNextToken(l.leases, lease.token)
    ensures Ages(l, Grant(Supersede(l, victims, logged), id, lease, workerClass))
    ensures Ages(l, Grant(l, id, lease, workerClass))
  {
  }

  lemma {:induction false} StepAges(hash: (Digest, Proposal) -> Digest, proofId: string, l: Ledger,
                                    tx: Tx, after: Ledger)
    requires Steps(hash, proofId, l, tx, after)
    ensures Ages(l, after)
  {
    match tx {
      case RolledBack =>
      case Lapse(now) =>
        LapseAges(l, now, after);
      case Acquire(id, ttl, lapseAt, now, token) =>
        var lapsed, logged :|
          Lapses(l, lapseAt, lapsed) && AcquiresFrom(lapsed, id, ttl, now, logged, after, token);
        LapseAges(l, lapseAt, lapsed);
        GrantAges(lapsed, Others(lapsed, id, Active), logged, id,
                  WriteLock(token, HeadRevision(lapsed), ttl, now), None);
        AgesTransitive(l, lapsed, after);
      case Issue(given, workerClass, move, base, ttl, lapseAt, now, id, token) =>
        var lapsed, logged :| Lapses(l, lapseAt, lapsed) &&
          IssuesFrom(MintUnless(lapsed, given), id, workerClass, move, base, ttl, now, logged, after,
                     token);
        LapseAges(l, lapseAt, lapsed);
        var minted := MintUnless(lapsed, given);
        GrantAges(minted, Rivals(minted, id, move, Active), logged, id,
                  DispatchRow(workerClass, move, token,
                              if base.Some? then base.value else HeadRevision(minted), ttl, now),
                  Some(workerClass));
        AgesTransitive(l, lapsed, after);
      case Dispatch(ranked, workerClass, ttl, lapseAt, now, chosen, token) =>
        var lapsed :| Lapses(l, lapseAt, lapsed) &&
          DispatchesFrom(lapsed, proofId, ranked, workerClass, ttl, now, after, chosen, token);
        LapseAges(l, lapseAt, lapsed);
        GrantAges(Mint(lapsed), {}, [], MintedId(proofId, lapsed.serial + 1),
                  DispatchRow(workerClass, Some(chosen), token, HeadRevision(lapsed), ttl, now),
                  Some(workerClass));
        AgesTransitive(l, lapsed, after);
      case Finish(id) =>
      case Append(payload, lapseAt) =>
        var checked :|
          ChecksLease(l, payload, lapseAt, checked) && AppendsFrom(hash, checked, payload, after);
        if NamesLease(payload) {
          LapseAges(l, lapseAt, checked);
        }
    }
  }

  lemma {:induction false} HistoryAges(hash: (Digest, Proposal) -> Digest, proofId: string,
                                       ledgers: seq<Ledger>, txs: seq<Tx>, i: nat, j: nat)
    requires IsHistory(hash, proofId, ledgers, txs) && i <= j < |ledgers|
    ensures Ages(ledgers[i], ledgers[j])
  {
    if i < j {
      HistoryAges(hash, proofId, ledgers, txs, i, j - 1);
      StepAges(hash, proofId, ledgers[j - 1], txs[j - 1], ledgers[j]);
      AgesTransitive(ledgers[i], ledgers[j - 1], ledgers[j]);
    }
  }

  lemma {:induction false} DeadStaysDead(l: Ledger, after: Ledger, id: LeaseId, token: nat)
    requires Ages(l, after) && IsDead(l, id, token)
    ensures IsDead(after, id, token)
  {
  }

  /** Fencing is permanent: once a pair is dead, in every later ledger it is dead, and no append
      that names it commits, even if its lease id becomes active again. */
  lemma {:induction false} DeadForever(hash: (Digest, Proposal) -> Digest, proofId: string,
                                       ledgers: seq<Ledger>, txs: seq<Tx>, i: nat, j: nat, id: LeaseId,
                                       token: nat)
    requires IsHistory(hash, proofId, ledgers, txs) && i <= j < |ledgers|
    requires IsDead(ledgers[i], id, token)
    ensures IsDead(ledgers[j], id, token)
    ensures j < |txs| && txs[j].Append? ==>
              txs[j].payload.leaseId != Some(id) || txs[j].payload.fencingToken != Some(token)
  {
    HistoryAges(hash, proofId, ledgers, txs, i, j);
    DeadStaysDead(ledgers[i], ledgers[j], id, token);
    if j < |txs| && txs[j].Append? {
      assert Steps(hash, proofId, ledgers[j], txs[j], ledgers[j + 1]);
      DeadCannotAppend(hash, ledgers[j], txs[j].payload, txs[j].lapseAt, ledgers[j + 1], id, token);
    }
  }

  lemma {:induction false} DeadCannotAppend(hash: (Digest, Proposal) -> Digest, l: Ledger, p: Proposal,
                                            lapseAt: real, after: Ledger, id: LeaseId, token: nat)
    requires IsDead(l, id, token) && Appends(hash, l, p, lapseAt, after)
    ensures p.leaseId != Some(id) || p.fencingToken != Some(token)
  {
    var checked :| ChecksLease(l, p, lapseAt, checked) && AppendsFrom(hash, checked, p, after);
    if NamesLease(p) {
      LapseAges(l, lapseAt, checked);
    }
  }

  // ---- expiry by the clock ----

  /** At time `t` the pair is dead, or its lease has run out, whether or not any transaction has
      marked the row yet. */
  predicate IsOver(l: Ledger, id: LeaseId, token: nat, t: real) {
    IsDead(l, id, token) || (id in l.leases && l.leases[id].token == token && IsDue(l.leases[id], t))
  }

  /** At any time an issued pair is either over, or the row is live under this very token. */
  lemma {:induction false} IssuedIsLiveOrOver(l: Ledger, id: LeaseId, token: nat, t: real)
    requires LeasesConsistent(l) && WasIssued(l, id, token)
    ensures id in l.leases
    ensures IsOver(l, id, token, t) <==> !(l.leases[id].token == token && IsLive(l.leases[id], t))
  {
    IssuedIsHeldOrDead(l, id, token);
    LatestIssueWins(l.events);
    var event :| event in l.events && event.Issued? && event.leaseId == id && event.token == token;
    assert id in Rebuild(l.events) && id in Shadows(l.leases);
  }

  /** Every append from transaction `i` on reads the clock at `t` or later. */
  predicate AppendsReadFrom(txs: seq<Tx>, i: nat, t: real) {
    forall k :: i <= k < |txs| && txs[k].Append? ==> txs[k].lapseAt >= t
  }

  lemma {:induction false} OverStaysOver(l: Ledger, after: Ledger, id: LeaseId, token: nat, t: real)
    requires Ages(l, after) && IsOver(l, id, token, t)
    ensures IsOver(after, id, token, t)
  {
  }

  lemma {:induction false} OverCannotAppend(hash: (Digest, Proposal) -> Digest, l: Ledger, p: Proposal,
                                            lapseAt: real, after: Ledger, id: LeaseId, token: nat, t: real)
    requires IsOver(l, id, token, t) && t <= lapseAt && Appends(hash, l, p, lapseAt, after)
    ensures p.leaseId != Some(id) || p.fencingToken != Some(token)
  {
    if IsDead(l, id, token) {
      DeadCannotAppend(hash, l, p, lapseAt, after, id, token);
    } else {
      var checked :| ChecksLease(l, p, lapseAt, checked) && AppendsFrom(hash, checked, p, after);
      assert id in DueLeases(l, lapseAt);
    }
  }

  /** A lease that has run out at `t`, marked or not, is over in every later ledger, and with a clock
      that does not run backwards no later append that names the pair commits. */
  lemma {:induction false} ExpiredForever(hash: (Digest, Proposal) -> Digest, proofId: string,
                                          ledgers: seq<Ledger>, txs: seq<Tx>, i: nat, j: nat, id: LeaseId,
                                          token: nat, t: real)
    requires IsHistory(hash, proofId, ledgers, txs) && i <= j < |ledgers|
    requires IsOver(ledgers[i], id, token, t)
    ensures IsOver(ledgers[j], id, token, t)
    ensures AppendsReadFrom(txs, i, t) && j < |txs| && txs[j].Append? ==>
              txs[j].payload.leaseId != Some(id) || txs[j].payload.fencingToken != Some(token)
  {
    HistoryAges(hash, proofId, ledgers, txs, i, j);
    OverStaysOver(ledgers[i], ledgers[j], id, token, t);
    if AppendsReadFrom(txs, i, t) && j < |txs| && txs[j].Append? {
      assert Steps(hash, proofId, ledgers[j], txs[j], ledgers[j + 1]);
      OverCannotAppend(hash, ledgers[j], txs[j].payload, txs[j].lapseAt, ledgers[j + 1], id, token, t);
    }
  }

  /** The write lock is exclusive at the moment it is taken. */
  lemma {:induction false} AcquireIsExclusive(l: Ledger, id: LeaseId, ttl: real, lapseAt: real,
                                              now: real, after: Ledger, token: nat)
    requires Acquires(l, id, ttl, lapseAt, now, after, token)
    ensures forall other :: other in after.leases ==>
              (after.leases[other].status == Active <==> other == id)
    ensures HoldsLease(after, Some(id), Some(token))
  {
  }
}
