/** Leasing through the scheduler: best first, each move once. */
module Leasing {
  import opened Vocabulary
  import opened GraphState
  import opened Sorting
  import opened Ledger
  import opened LeaseRuns
  import opened Store
  import opened Scheduler

  ghost predicate IsFrontier(g: Graph, proofId: string, frontier: seq<Scheduler.Candidate>) {
    forall c :: c in frontier <==> OnFrontier(g, proofId, c)
  }

  /** What one answered call saw: the frontier in the order built, its clock readings, the token it
      was given and the move it leased, if any. */
  datatype Call = Call(
    frontier: seq<Scheduler.Candidate>, readAt: real, lapseAt: real, now: real, token: nat, got: Option<Move>)

  /** The call moved the ledger from `l` to `after`. */
  ghost predicate Answers(proofId: string, policy: Policy, worker: string, ttl: real, l: Ledger, call: Call,
                          after: Ledger)
  {
    exists seen :: Lapses(l, call.readAt, seen) &&
      AnswersFrom(proofId, policy, worker, ttl, seen, call, after)
  }

  ghost predicate AnswersFrom(proofId: string, policy: Policy, worker: string, ttl: real, seen: Ledger,
                              call: Call, after: Ledger)
  {
    var ranked := Ranked(policy, worker, call.frontier, ActiveMoves(seen));
    if call.got.Some? then
      Dispatches(seen, proofId, ranked, worker, ttl, call.lapseAt, call.now, after, call.got.value, call.token)
    else
      Lapses(seen, call.lapseAt, after) && forall k :: 0 <= k < |ranked| ==> IsTaken(after, ranked[k])
  }

  class GlobalScheduler {
    const view: MemoryView
    const store: JournalStore
    const policy: Policy

    constructor (view: MemoryView, store: JournalStore, policy: Policy)
      ensures this.view == view && this.store == store && this.policy == policy
    {
      this.view, this.store, this.policy := view, store, policy;
    }

    /** The moves under an active lease. */
    method ReadActive(proofId: string, readAt: real) returns (active: set<Move>, busy: bool)
      modifies store`ledgers
      ensures forall q :: q != proofId ==> store.At(q) == old(store.At(q))
      ensures busy ==> store.At(proofId) == old(store.At(proofId))
      ensures !busy ==>
                Lapses(old(store.At(proofId)), readAt, store.At(proofId)) &&
                active == ActiveMoves(store.At(proofId))
    {
      ghost var l := store.At(proofId);
      var rows;
      rows, busy := store.ActiveLeases(proofId, readAt);
      active := set id | id in rows && rows[id].move.Some? :: rows[id].move.value;
      if !busy {
        SeenMoves(l, readAt, store.At(proofId), rows);
      }
    }

    /** `lease_next`. The moves are ranked on a snapshot; `dispatch_lease` looks again under its lock.
        A call that is refused or finds the store busy has at most lapsed due leases. */
    method LeaseNext(proofId: string, worker: string, ttl: real, readAt: real, lapseAt: real, now: real)
      returns (r: LeaseResult, call: Call)
      requires view.Valid()
      modifies store`ledgers
      ensures IsFrontier(view.Contents(), proofId, call.frontier)
      ensures call.readAt == readAt && call.lapseAt == lapseAt && call.now == now
      ensures r.Granted? ==> call.got.Some? && r.move == call.got && r.token == call.token
      ensures r == NothingFree ==> call.got.None?
      ensures r.Granted? || r == NothingFree ==>
                Answers(proofId, policy, worker, ttl, old(store.At(proofId)), call, store.At(proofId))
      ensures !r.Granted? && r != NothingFree ==>
                store.At(proofId) == old(store.At(proofId)) ||
                Lapses(old(store.At(proofId)), readAt, store.At(proofId))
      ensures forall q :: q != proofId ==> store.At(q) == old(store.At(q))
    {
      ghost var g := view.Contents();
      var frontier := BuildFrontier(view, proofId);
      r, call := LeaseFrom(proofId, worker, ttl, Call(frontier, readAt, lapseAt, now, 0, None));
      assert view.Contents() == g && call.frontier == frontier;
    }

    /** The part of `lease_next` that goes to the store. */
    method LeaseFrom(proofId: string, worker: string, ttl: real, call: Call)
      returns (r: LeaseResult, answered: Call)
      requires call.got.None?
      modifies store`ledgers
      ensures answered == call.(token := answered.token, got := answered.got)
      ensures r.Granted? ==> answered.got.Some? && r.move == answered.got && r.token == answered.token
      ensures r == NothingFree ==> answered.got.None?
      ensures r.Granted? || r == NothingFree ==>
                Answers(proofId, policy, worker, ttl, old(store.At(proofId)), answered, store.At(proofId))
      ensures !r.Granted? && r != NothingFree ==>
                store.At(proofId) == old(store.At(proofId)) ||
                Lapses(old(store.At(proofId)), call.readAt, store.At(proofId))
      ensures forall q :: q != proofId ==> store.At(q) == old(store.At(q))
    {
      var active, busy := ReadActive(proofId, call.readAt);
      if busy {
        return Busy, call;
      }
      r, answered := DispatchBest(proofId, worker, ttl, active, call);
    }

    /** Rank the candidates that are not active and dispatch the best still free. */
    method DispatchBest(proofId: string, worker: string, ttl: real, active: set<Move>, call: Call)
      returns (r: LeaseResult, answered: Call)
      requires active == ActiveMoves(store.At(proofId)) && call.got.None?
      modifies store`ledgers
      ensures answered == call.(token := answered.token, got := answered.got)
      ensures r.Granted? ==> answered.got.Some? && r.move == answered.got && r.token == answered.token
      ensures r == NothingFree ==> answered.got.None?
      ensures r.Granted? || r == NothingFree ==>
                AnswersFrom(proofId, policy, worker, ttl, old(store.At(proofId)), answered,
                            store.At(proofId))
      ensures !r.Granted? && r != NothingFree ==> store.At(proofId) == old(store.At(proofId))
      ensures forall q :: q != proofId ==> store.At(q) == old(store.At(q))
    {
      var ranked := Ranked(policy, worker, call.frontier, active);
      r := store.DispatchLease(proofId, ranked, worker, ttl, call.lapseAt, call.now);
      answered := if r.Granted? then call.(token := r.token, got := r.move) else call;
    }
  }

  lemma {:induction false} SeenMoves(l: Ledger, now: real, seen: Ledger, rows: map<LeaseId, Lease>)
    requires Lapses(l, now, seen)
    requires rows == map id | id in l.leases && IsLive(l.leases[id], now) :: l.leases[id]
    ensures (set id | id in rows && rows[id].move.Some? :: rows[id].move.value) == ActiveMoves(seen)
  {
    var found := set id | id in rows && rows[id].move.Some? :: rows[id].move.value;
    forall m | m in found
      ensures m in ActiveMoves(seen)
    {
      var id :| id in rows && rows[id].move == Some(m);
      assert seen.leases[id] == l.leases[id];
    }
    forall m | m in ActiveMoves(seen)
      ensures m in found
    {
      var id :| id in seen.leases && seen.leases[id].status == Active && seen.leases[id].move == Some(m);
      assert id in rows && rows[id].move == Some(m);
    }
  }

  // ---- a quiet run ----

  /** Nothing expired: what the store was before the call is what the call saw. */
  ghost predicate QuietCall(g: Graph, proofId: string, policy: Policy, worker: string, ttl: real, l: Ledger,
                            call: Call, after: Ledger)
  {
    && IsFrontier(g, proofId, call.frontier)
    && DueLeases(l, call.readAt) == {} && DueLeases(l, call.lapseAt) == {}
    && Answers(proofId, policy, worker, ttl, l, call, after)
  }

  /** Calls answered one after the other, with nobody else writing. */
  ghost predicate IsQuietRun(g: Graph, proofId: string, policy: Policy, worker: string, ttl: real,
                             ls: seq<Ledger>, calls: seq<Call>)
  {
    && |ls| == |calls| + 1
    && forall i :: 0 <= i < |calls| ==> QuietAt(g, proofId, policy, worker, ttl, ls, calls, i)
  }

  ghost predicate QuietAt(g: Graph, proofId: string, policy: Policy, worker: string, ttl: real,
                          ls: seq<Ledger>, calls: seq<Call>, i: nat)
    requires |ls| == |calls| + 1 && i < |calls|
  {
    QuietCall(g, proofId, policy, worker, ttl, ls[i], calls[i], ls[i + 1])
  }

  /** The frontier moves no active lease covers. */
  function FreeMoves(frontier: seq<Scheduler.Candidate>, l: Ledger): set<Move> {
    Moves(frontier) - ActiveMoves(l)
  }

  lemma {:induction false} NothingLapses(l: Ledger, now: real, after: Ledger)
    requires DueLeases(l, now) == {} && Lapses(l, now, after)
    ensures after == l
  {
    var due :| Enumerates(due, DueLeases(l, now)) && after == End(l, DueLeases(l, now), Expired, due);
    EmptyOrInhabited(due);
    EndingNothing(l);
  }

  lemma {:induction false} TakenIsActive(l: Ledger, m: Move)
    ensures IsTaken(l, m) <==> m in ActiveMoves(l)
  {
    if m in ActiveMoves(l) {
      var id :| id in l.leases && l.leases[id].status == Active && l.leases[id].move == Some(m);
    }
  }

  lemma {:induction false} RankedIsFree(policy: Policy, worker: string, frontier: seq<Scheduler.Candidate>,
                                        l: Ledger, m: Move)
    requires m in Ranked(policy, worker, frontier, ActiveMoves(l))
    ensures m in FreeMoves(frontier, l)
  {
    var scored := Scored(policy, worker, frontier, ActiveMoves(l));
    var ranked := Ranked(policy, worker, frontier, ActiveMoves(l));
    SortRearranges(scored);
    var k :| 0 <= k < |ranked| && ranked[k] == m;
    assert Sort(scored)[k] in Sort(scored);
  }

  lemma {:induction false} FreeIsRanked(policy: Policy, worker: string, frontier: seq<Scheduler.Candidate>,
                                        l: Ledger, m: Move)
    requires m in FreeMoves(frontier, l)
    ensures m in Ranked(policy, worker, frontier, ActiveMoves(l))
  {
    var scored := Scored(policy, worker, frontier, ActiveMoves(l));
    var sorted := Sort(scored);
    SortRearranges(scored);
    var c :| c in frontier && c.move == m;
    var x := Keyed(-Priority(policy, worker, c), c);
    assert x in scored && x in sorted;
    var k :| 0 <= k < |sorted| && sorted[k] == x;
    assert MovesOf(sorted)[k] == m;
  }

  lemma {:induction false} RankedAreFree(policy: Policy, worker: string, frontier: seq<Scheduler.Candidate>,
                                         l: Ledger)
    ensures forall m :: m in Ranked(policy, worker, frontier, ActiveMoves(l)) <==> m in FreeMoves(frontier, l)
  {
    forall m
      ensures m in Ranked(policy, worker, frontier, ActiveMoves(l)) <==> m in FreeMoves(frontier, l)
    {
      if m in FreeMoves(frontier, l) {
        FreeIsRanked(policy, worker, frontier, l, m);
      }
      if m in Ranked(policy, worker, frontier, ActiveMoves(l)) {
        RankedIsFree(policy, worker, frontier, l, m);
      }
    }
  }

  /** No free candidate outranks the one offered first. */
  lemma {:induction false} FirstRankedIsBest(g: Graph, proofId: string, policy: Policy, worker: string,
                                             frontier: seq<Scheduler.Candidate>, l: Ledger, c: Scheduler.Candidate,
                                             d: Scheduler.Candidate)
    requires IsFrontier(g, proofId, frontier) && c in frontier && d in frontier
    requires var ranked := Ranked(policy, worker, frontier, ActiveMoves(l));
             ranked != [] && c.move == ranked[0]
    requires d.move !in ActiveMoves(l)
    ensures Priority(policy, worker, c) >= Priority(policy, worker, d)
  {
    var scored := Scored(policy, worker, frontier, ActiveMoves(l));
    var sorted := Sort(scored);
    SortRearranges(scored);
    SortSorts(scored);
    var x := Keyed(-Priority(policy, worker, d), d);
    assert x in scored && x in sorted;
    var k :| 0 <= k < |sorted| && sorted[k] == x;
    assert sorted[0] in sorted && sorted[0] in scored;
    MoveDeterminesCandidate(g, proofId, c, sorted[0].item);
    assert sorted[0].key <= sorted[k].key;
  }

  /** No candidate for one of these moves outranks the candidate for `m`. */
  ghost predicate IsBest(policy: Policy, worker: string, frontier: seq<Scheduler.Candidate>, m: Move,
                         among: set<Move>)
  {
    forall c, d | c in frontier && c.move == m && d in frontier && d.move in among ::
      Priority(policy, worker, c) >= Priority(policy, worker, d)
  }

  /** One quiet call: it leases the best free move, and answers None exactly when none is free. */
  lemma {:induction false} QuietCallLeasesBest(g: Graph, proofId: string, policy: Policy, worker: string,
                                               ttl: real, l: Ledger, call: Call, after: Ledger)
    requires QuietCall(g, proofId, policy, worker, ttl, l, call, after)
    ensures call.got.None? <==> FreeMoves(call.frontier, l) == {}
    ensures call.got.None? ==> after == l
    ensures call.got.Some? ==>
              call.got.value in FreeMoves(call.frontier, l) &&
              ActiveMoves(after) == ActiveMoves(l) + {call.got.value} &&
              IsBest(policy, worker, call.frontier, call.got.value, FreeMoves(call.frontier, l))
  {
    var seen :| Lapses(l, call.readAt, seen) && AnswersFrom(proofId, policy, worker, ttl, seen, call, after);
    NothingLapses(l, call.readAt, seen);
    var ranked := Ranked(policy, worker, call.frontier, ActiveMoves(l));
    RankedAreFree(policy, worker, call.frontier, l);
    if call.got.Some? {
      QuietDispatch(l, proofId, ranked, worker, ttl, call, after);
      FirstIsFree(call.frontier, l, ranked);
      forall c, d | c in call.frontier && c.move == call.got.value && d in call.frontier &&
                    d.move in FreeMoves(call.frontier, l)
        ensures Priority(policy, worker, c) >= Priority(policy, worker, d)
      {
        FirstRankedIsBest(g, proofId, policy, worker, call.frontier, l, c, d);
      }
    } else {
      NothingLapses(l, call.lapseAt, after);
      AllTaken(call.frontier, l, ranked);
    }
  }

  lemma {:induction false} FirstIsFree(frontier: seq<Scheduler.Candidate>, l: Ledger, ranked: seq<Move>)
    requires forall m :: m in ranked <==> m in FreeMoves(frontier, l)
    ensures ranked != [] ==> FirstFree(l, ranked) == 0 && ranked[0] in FreeMoves(frontier, l)
  {
    if ranked != [] {
      assert ranked[0] in ranked;
      TakenIsActive(l, ranked[0]);
    }
  }

  lemma {:induction false} AllTaken(frontier: seq<Scheduler.Candidate>, l: Ledger, ranked: seq<Move>)
    requires forall m :: m in ranked <==> m in FreeMoves(frontier, l)
    requires forall k :: 0 <= k < |ranked| ==> IsTaken(l, ranked[k])
    ensures FreeMoves(frontier, l) == {}
  {
    forall m | m in Moves(frontier)
      ensures m in ActiveMoves(l)
    {
      TakenIsActive(l, m);
      assert m in ranked ==> IsTaken(l, m);
    }
  }

  lemma {:induction false} QuietDispatch(l: Ledger, proofId: string, ranked: seq<Move>, worker: string, ttl: real,
                                         call: Call, after: Ledger)
    requires DueLeases(l, call.lapseAt) == {} && call.got.Some?
    requires Dispatches(l, proofId, ranked, worker, ttl, call.lapseAt, call.now, after, call.got.value,
                        call.token)
    ensures FirstFree(l, ranked) < |ranked| && call.got.value == ranked[FirstFree(l, ranked)]
    ensures ActiveMoves(after) == ActiveMoves(l) + {call.got.value}
  {
    var lapsed :| Lapses(l, call.lapseAt, lapsed) &&
      DispatchesFrom(lapsed, proofId, ranked, worker, ttl, call.now, after, call.got.value, call.token);
    NothingLapses(l, call.lapseAt, lapsed);
    var id := MintedId(proofId, l.serial + 1);
    assert forall other :: other in l.leases ==> other in after.leases && after.leases[other] == l.leases[other];
    forall m
      ensures m in ActiveMoves(after) <==> m in ActiveMoves(l) || m == call.got.value
    {
      TakenIsActive(after, m);
      TakenIsActive(l, m);
      if IsTaken(l, m) {
        var other :| other in l.leases && l.leases[other].status == Active && l.leases[other].move == Some(m);
        assert after.leases[other].move == Some(m);
      }
      assert id in after.leases && after.leases[id].move == call.got && after.leases[id].status == Active;
    }
  }

  lemma {:induction false} SameMoves(g: Graph, proofId: string, a: seq<Scheduler.Candidate>,
                                     b: seq<Scheduler.Candidate>)
    requires IsFrontier(g, proofId, a) && IsFrontier(g, proofId, b)
    ensures Moves(a) == Moves(b)
    ensures forall c :: c in a <==> c in b
  {
    assert forall c :: c in a <==> c in b;
  }

  function Minus(k: nat, n: nat): nat {
    if n <= k then k - n else 0
  }

  /** Each set but the first loses one element, as long as there is one to lose. */
  ghost predicate LosesOne(frees: seq<set<Move>>, n: nat)
    requires n + 1 < |frees|
  {
    if frees[n] == {} then frees[n + 1] == {}
    else exists m :: m in frees[n] && frees[n + 1] == frees[n] - {m}
  }

  lemma {:induction false} CountDown(frees: seq<set<Move>>, n: nat)
    requires n < |frees| && forall i: nat :: i + 1 < |frees| ==> LosesOne(frees, i)
    ensures |frees[n]| == Minus(|frees[0]|, n)
    decreases n
  {
    if n > 0 {
      CountDown(frees, n - 1);
      assert LosesOne(frees, n - 1);
    }
  }

  lemma {:induction false} OneCall(g: Graph, proofId: string, policy: Policy, worker: string, ttl: real,
                                   ls: seq<Ledger>, calls: seq<Call>, frontier: seq<Scheduler.Candidate>, n: nat)
    requires IsQuietRun(g, proofId, policy, worker, ttl, ls, calls) && IsFrontier(g, proofId, frontier)
    requires n < |calls|
    ensures calls[n].got.None? <==> FreeMoves(frontier, ls[n]) == {}
    ensures calls[n].got.None? ==> ls[n + 1] == ls[n]
    ensures calls[n].got.Some? ==>
              calls[n].got.value in FreeMoves(frontier, ls[n]) &&
              FreeMoves(frontier, ls[n + 1]) == FreeMoves(frontier, ls[n]) - {calls[n].got.value}
  {
    assert QuietAt(g, proofId, policy, worker, ttl, ls, calls, n);
    SameMoves(g, proofId, frontier, calls[n].frontier);
    QuietCallLeasesBest(g, proofId, policy, worker, ttl, ls[n], calls[n], ls[n + 1]);
  }

  /** Every call takes one free move while there is one. */
  lemma {:induction false} FreeAfter(g: Graph, proofId: string, policy: Policy, worker: string, ttl: real,
                                     ls: seq<Ledger>, calls: seq<Call>,
                                     frontier: seq<Scheduler.Candidate>, n: nat)
    requires IsQuietRun(g, proofId, policy, worker, ttl, ls, calls) && IsFrontier(g, proofId, frontier)
    requires n < |ls|
    ensures |FreeMoves(frontier, ls[n])| == Minus(|FreeMoves(frontier, ls[0])|, n)
  {
    var frees := seq(|ls|, i requires 0 <= i < |ls| => FreeMoves(frontier, ls[i]));
    forall i: nat | i + 1 < |frees|
      ensures LosesOne(frees, i)
    {
      OneCall(g, proofId, policy, worker, ttl, ls, calls, frontier, i);
    }
    CountDown(frees, n);
  }

  /** A call takes a free move, or answers None and takes nothing. */
  predicate Takes(frees: seq<set<Move>>, gots: seq<Option<Move>>, i: nat)
    requires i < |gots| && |frees| == |gots| + 1
  {
    match gots[i]
    case None => frees[i + 1] == frees[i]
    case Some(m) => m in frees[i] && frees[i + 1] == frees[i] - {m}
  }

  lemma {:induction false} TakenSets(frees: seq<set<Move>>, gots: seq<Option<Move>>, m: nat, n: nat)
    requires |frees| == |gots| + 1 && forall i: nat :: i < |gots| ==> Takes(frees, gots, i)
    requires m <= n <= |gots|
    ensures frees[n] <= frees[m]
    decreases n
  {
    if m < n {
      TakenSets(frees, gots, m, n - 1);
      assert Takes(frees, gots, n - 1);
    }
  }

  /** A frontier of k moves none of which is leased is handed out over the first k calls; every later
      call answers None. */
  lemma {:induction false} FrontierIsHandedOut(g: Graph, proofId: string, policy: Policy, worker: string,
                                               ttl: real, ls: seq<Ledger>, calls: seq<Call>,
                                               frontier: seq<Scheduler.Candidate>, n: nat)
    requires IsQuietRun(g, proofId, policy, worker, ttl, ls, calls) && IsFrontier(g, proofId, frontier)
    requires Moves(frontier) !! ActiveMoves(ls[0]) && n < |calls|
    ensures calls[n].got.Some? <==> n < |Moves(frontier)|
    ensures calls[n].got.Some? ==> calls[n].got.value in Moves(frontier)
  {
    assert FreeMoves(frontier, ls[0]) == Moves(frontier);
    FreeAfter(g, proofId, policy, worker, ttl, ls, calls, frontier, n);
    OneCall(g, proofId, policy, worker, ttl, ls, calls, frontier, n);
  }

  /** Each move is handed out once, in an order in which the score never rises. */
  lemma {:induction false} HandedOutOnceBestFirst(g: Graph, proofId: string, policy: Policy, worker: string,
                                                  ttl: real, ls: seq<Ledger>, calls: seq<Call>,
                                                  m: nat, n: nat, c: Scheduler.Candidate, d: Scheduler.Candidate)
    requires IsQuietRun(g, proofId, policy, worker, ttl, ls, calls) && m < n < |calls|
    requires calls[m].got == Some(c.move) && calls[n].got == Some(d.move)
    requires OnFrontier(g, proofId, c) && OnFrontier(g, proofId, d)
    ensures c.move != d.move
    ensures Priority(policy, worker, c) >= Priority(policy, worker, d)
  {
    assert QuietAt(g, proofId, policy, worker, ttl, ls, calls, m);
    var frontier := calls[m].frontier;
    var free := FreeMoves(frontier, ls[m]);
    QuietCallLeasesBest(g, proofId, policy, worker, ttl, ls[m], calls[m], ls[m + 1]);
    StillFree(g, proofId, policy, worker, ttl, ls, calls, m, n);
    assert c in frontier && d in frontier;
  }

  /** What a later call hands out was free, and not the move handed out now. */
  lemma {:induction false} StillFree(g: Graph, proofId: string, policy: Policy, worker: string, ttl: real,
                                     ls: seq<Ledger>, calls: seq<Call>, m: nat, n: nat)
    requires IsQuietRun(g, proofId, policy, worker, ttl, ls, calls) && m < n < |calls|
    requires calls[m].got.Some? && calls[n].got.Some?
    ensures calls[n].got.value in FreeMoves(calls[m].frontier, ls[m]) - {calls[m].got.value}
  {
    assert QuietAt(g, proofId, policy, worker, ttl, ls, calls, m);
    var frontier := calls[m].frontier;
    var frees, gots := TakesOfRun(g, proofId, policy, worker, ttl, ls, calls, frontier);
    TakenSets(frees, gots, m + 1, n);
    assert Takes(frees, gots, m) && Takes(frees, gots, n);
  }

  lemma {:induction false} TakesOfRun(g: Graph, proofId: string, policy: Policy, worker: string, ttl: real,
                                      ls: seq<Ledger>, calls: seq<Call>, frontier: seq<Scheduler.Candidate>)
    returns (frees: seq<set<Move>>, gots: seq<Option<Move>>)
    requires IsQuietRun(g, proofId, policy, worker, ttl, ls, calls) && IsFrontier(g, proofId, frontier)
    ensures |gots| == |calls| && |frees| == |calls| + 1
    ensures forall i :: 0 <= i < |calls| ==> gots[i] == calls[i].got
    ensures forall i :: 0 <= i <= |calls| ==> frees[i] == FreeMoves(frontier, ls[i])
    ensures forall i: nat :: i < |gots| ==> Takes(frees, gots, i)
  {
    frees := seq(|ls|, i requires 0 <= i < |ls| => FreeMoves(frontier, ls[i]));
    gots := seq(|calls|, i requires 0 <= i < |calls| => calls[i].got);
    forall i: nat | i < |gots|
      ensures Takes(frees, gots, i)
    {
      OneCall(g, proofId, policy, worker, ttl, ls, calls, frontier, i);
    }
  }
}
