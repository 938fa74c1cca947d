/** AND/OR closure: the bounded loop of set updates, and the least fixpoint it computes.

    One proof's states and moves with their statuses, the PROPOSES edges from states to moves and
    the REQUIRES edges from moves to subgoal states. Each Cypher statement is a simultaneous update
    of everything it matches. */
module Closure {
  import opened Vocabulary
  import opened GraphState

  /** The default of `max_iter`. */
  const MAX_ROUNDS: nat := 64

  datatype Search = Search(
    states: map<Id, Token>,
    moves: map<Id, Token>,
    proposes: set<(Id, Id)>,
    requirements: set<(Id, Id)>)

  predicate StateClosed(g: Search, s: Id) {
    s in g.states && g.states[s] == FormallyClosed
  }

  predicate StateReopened(g: Search, s: Id) {
    s in g.states && g.states[s] == Reopened
  }

  predicate MoveClosed(g: Search, m: Id) {
    m in g.moves && g.moves[m] == Closed
  }

  /** The subgoal states a move requires. */
  function Subgoals(g: Search, m: Id): set<Id> {
    set edge | edge in g.requirements && edge.0 == m && edge.1 in g.states :: edge.1
  }

  /** The AND rule as the loop has it: a reopened subgoal does not hold a move back, and a move
      with no subgoal is complete. */
  predicate Complete(g: Search, m: Id) {
    forall s :: s in Subgoals(g, m) ==> StateClosed(g, s) || StateReopened(g, s)
  }

  /** The OR rule: some proposed move is closed. */
  predicate Solved(g: Search, s: Id) {
    exists m :: m in g.moves && (s, m) in g.proposes && MoveClosed(g, m)
  }

  /** What the first and the second statement of a round match. */
  function ReadyMoves(g: Search): set<Id> {
    set m | m in g.moves && g.moves[m] != Closed && Complete(g, m)
  }

  function SolvedStates(g: Search): set<Id> {
    set s | s in g.states && !StateClosed(g, s) && !StateReopened(g, s) && Solved(g, s)
  }

  function AndPass(g: Search): Search {
    g.(moves := map m | m in g.moves :: if m in ReadyMoves(g) then Closed else g.moves[m])
  }

  function OrPass(g: Search): Search {
    g.(states := map s | s in g.states :: if s in SolvedStates(g) then FormallyClosed else g.states[s])
  }

  function Round(g: Search): Search {
    OrPass(AndPass(g))
  }

  function Rounds(g: Search, n: nat): Search
    decreases n
  {
    if n == 0 then g else Rounds(Round(g), n - 1)
  }

  predicate Quiescent(g: Search) {
    ReadyMoves(g) == {} && SolvedStates(g) == {}
  }

  // ---- the loop ----

  class SearchGraph {
    var states: map<Id, Token>
    var moves: map<Id, Token>
    const proposes: set<(Id, Id)>
    const requirements: set<(Id, Id)>

    function Contents(): Search
      reads this
    {
      Search(states, moves, proposes, requirements)
    }

    constructor (g: Search)
      ensures Contents() == g
    {
      states, moves, proposes, requirements := g.states, g.moves, g.proposes, g.requirements;
    }

    /** `_propagate_closures_tx`: rounds until nothing changes, at most `maxIter`. */
    method PropagateClosures(maxIter: nat)
      modifies this
      ensures Contents() == Rounds(old(Contents()), maxIter)
    {
      ghost var start := Contents();
      for i := 0 to maxIter
        invariant Rounds(Contents(), maxIter - i) == Rounds(start, maxIter)
      {
        ghost var before := Contents();
        var matched := OneRound();
        if !matched {
          StillQuiescent(before, maxIter - i);
          return;
        }
      }
    }

    /** The two statements of one round; whether either matched anything. */
    method OneRound() returns (matched: bool)
      modifies this
      ensures Contents() == Round(old(Contents()))
      ensures !matched ==> Contents() == old(Contents())
    {
      ghost var before := Contents();
      var ready := ReadyMoves(Contents());
      moves := map m | m in moves :: if m in ready then Closed else moves[m];
      assert Contents() == AndPass(before);
      var solved := SolvedStates(Contents());
      states := map s | s in states :: if s in solved then FormallyClosed else states[s];
      matched := |ready| != 0 || |solved| != 0;
      if !matched {
        NothingMatched(before);
      }
    }

    /** `close_state`: close the state and the moves it proposes, then propagate. While fewer than 64
        states are open, what ends closed is exactly what follows from that. */
    method CloseState(id: Id)
      modifies this
      ensures Contents() == Rounds(Marked(old(Contents()), id), MAX_ROUNDS)
      ensures ClosesAtLeast(old(Contents()), id, Contents())
      ensures |OpenStates(old(Contents()))| < 64 ==> ClosesExactly(old(Contents()), id, Contents())
    {
      ghost var g := Contents();
      if id in states {
        states := states[id := FormallyClosed];
        moves := map m | m in moves :: if (id, m) in proposes then Closed else moves[m];
      }
      PropagateClosures(MAX_ROUNDS);
      ClosingMeans(g, id, MAX_ROUNDS);
    }
  }

  /** The state named by the caller closed, with the moves it proposes. */
  function Marked(g: Search, id: Id): Search {
    if id !in g.states then g
    else
      g.(states := g.states[id := FormallyClosed],
         moves := map m | m in g.moves :: if (id, m) in g.proposes then Closed else g.moves[m])
  }

  lemma {:induction false} NothingMatched(g: Search)
    requires ReadyMoves(g) == {} && SolvedStates(AndPass(g)) == {}
    ensures Quiescent(g) && Round(g) == g
  {
    assert AndPass(g).moves == g.moves;
    assert AndPass(g) == g;
    assert OrPass(g).states == g.states;
  }

  lemma {:induction false} StillQuiescent(g: Search, n: nat)
    requires Round(g) == g
    ensures Rounds(g, n) == g
  {
    if n > 0 {
      StillQuiescent(g, n - 1);
    }
  }

  // ---- what rounds keep ----

  /** Rounds only close: nothing is unclosed, nothing reopened is closed, nothing else changes. */
  ghost predicate Extends(g: Search, h: Search) {
    && h.proposes == g.proposes && h.requirements == g.requirements
    && h.states.Keys == g.states.Keys && h.moves.Keys == g.moves.Keys
    && (forall s :: s in g.states && h.states[s] != g.states[s] ==>
          h.states[s] == FormallyClosed && g.states[s] != Reopened)
    && (forall m :: m in g.moves && h.moves[m] != g.moves[m] ==> h.moves[m] == Closed)
  }

  /** What one round does, statement by statement. */
  ghost predicate IsRound(g: Search, h: Search) {
    && Extends(g, h)
    && (forall m :: MoveClosed(h, m) <==> MoveClosed(g, m) || (m in g.moves && Complete(g, m)))
    && (forall s :: StateClosed(h, s) <==> StateClosed(g, s) || ClosesBy(g, h, s))
  }

  /** Some move of the state is closed, and the state may be closed by it. */
  ghost predicate ClosesBy(g: Search, h: Search, s: Id) {
    exists m :: MayClose(g, s, m) && MoveClosed(h, m)
  }

  predicate MayClose(g: Search, s: Id, m: Id) {
    s in g.states && !StateReopened(g, s) && m in g.moves && (s, m) in g.proposes
  }

  lemma {:induction false} RoundIsRound(g: Search)
    ensures IsRound(g, Round(g))
  {
    var a, h := AndPass(g), Round(g);
    forall m
      ensures MoveClosed(h, m) <==> MoveClosed(g, m) || (m in g.moves && Complete(g, m))
    {
    }
    forall s
      ensures StateClosed(h, s) <==> StateClosed(g, s) || ClosesBy(g, h, s)
    {
      SolvedMeans(g, s);
    }
  }

  lemma {:induction false} SolvedMeans(g: Search, s: Id)
    ensures s in SolvedStates(AndPass(g)) <==> !StateClosed(g, s) && ClosesBy(g, Round(g), s)
  {
    var a, h := AndPass(g), Round(g);
    if m :| MayClose(g, s, m) && MoveClosed(h, m) {
      assert m in a.moves && (s, m) in a.proposes && MoveClosed(a, m);
    }
    if Solved(a, s) && s in g.states && !StateReopened(g, s) {
      var m :| m in a.moves && (s, m) in a.proposes && MoveClosed(a, m);
      assert MayClose(g, s, m) && MoveClosed(h, m);
    }
  }

  lemma {:induction false} SubgoalsKept(g: Search, h: Search, m: Id)
    requires Extends(g, h)
    ensures Subgoals(h, m) == Subgoals(g, m)
  {
  }

  /** What was complete stays complete. */
  lemma {:induction false} CompleteKept(g: Search, h: Search, m: Id)
    requires Extends(g, h) && Complete(g, m)
    ensures Complete(h, m)
  {
    SubgoalsKept(g, h, m);
  }

  lemma {:induction false} LastRound(g: Search, n: nat)
    ensures Rounds(g, n + 1) == Round(Rounds(g, n))
    decreases n
  {
    if n > 0 {
      LastRound(Round(g), n - 1);
    }
  }

  // ---- the rounds as a list ----

  ghost predicate RoundAt(hs: seq<Search>, i: nat)
    requires i + 1 < |hs|
  {
    IsRound(hs[i], hs[i + 1])
  }

  ghost predicate IsTrace(hs: seq<Search>) {
    |hs| > 0 && forall i: nat :: i + 1 < |hs| ==> RoundAt(hs, i)
  }

  lemma {:induction false} Trace(g: Search, n: nat) returns (hs: seq<Search>)
    ensures |hs| == n + 1 && hs[0] == g && IsTrace(hs)
    ensures forall i :: 0 <= i <= n ==> hs[i] == Rounds(g, i)
  {
    hs := seq(n + 1, i requires 0 <= i <= n => Rounds(g, i));
    forall i: nat | i + 1 < |hs|
      ensures RoundAt(hs, i)
    {
      LastRound(g, i);
      RoundIsRound(Rounds(g, i));
    }
  }

  lemma {:induction false} TraceExtends(hs: seq<Search>, i: nat, j: nat)
    requires IsTrace(hs) && i <= j < |hs|
    ensures Extends(hs[i], hs[j])
    decreases j
  {
    if i < j {
      TraceExtends(hs, i, j - 1);
      assert RoundAt(hs, j - 1);
      ExtendsTwice(hs[i], hs[j - 1], hs[j]);
    }
  }

  lemma {:induction false} ExtendsTwice(a: Search, b: Search, c: Search)
    requires Extends(a, b) && Extends(b, c)
    ensures Extends(a, c)
  {
  }

  lemma {:induction false} RoundsExtend(g: Search, n: nat)
    ensures Extends(g, Rounds(g, n))
  {
    var hs := Trace(g, n);
    TraceExtends(hs, 0, n);
  }

  // ---- least fixpoint ----

  /** A pair of sets closed under the loop's two rules; reopened states are left alone. */
  ghost predicate RuleClosed(g: Search, moves: set<Id>, states: set<Id>) {
    && (forall m :: m in g.moves && AllMet(g, m, states) ==> m in moves)
    && (forall s, m :: MayClose(g, s, m) && m in moves ==> s in states)
  }

  predicate AllMet(g: Search, m: Id, states: set<Id>) {
    forall s :: s in Subgoals(g, m) ==> s in states || StateReopened(g, s)
  }

  function ClosedMoves(g: Search): set<Id> {
    set m | m in g.moves && MoveClosed(g, m)
  }

  function ClosedStates(g: Search): set<Id> {
    set s | s in g.states && StateClosed(g, s)
  }

  /** Such a pair that contains everything already closed. */
  ghost predicate IsModel(g: Search, moves: set<Id>, states: set<Id>) {
    ClosedMoves(g) <= moves && ClosedStates(g) <= states && RuleClosed(g, moves, states)
  }

  lemma {:induction false} RoundStaysBelow(g: Search, h: Search, moves: set<Id>, states: set<Id>)
    requires IsRound(g, h) && IsModel(g, moves, states)
    ensures IsModel(h, moves, states)
  {
    forall m | m in h.moves
      ensures MoveClosed(h, m) || AllMet(h, m, states) ==> m in moves
    {
      MoveStaysBelow(g, h, moves, states, m);
    }
    forall s | s in h.states && StateClosed(h, s)
      ensures s in states
    {
      StateStaysBelow(g, h, moves, states, s);
    }
    forall s, m | MayClose(h, s, m)
      ensures MayClose(g, s, m)
    {
      MightClose(g, h, s, m);
    }
  }

  lemma {:induction false} MoveStaysBelow(g: Search, h: Search, moves: set<Id>, states: set<Id>, m: Id)
    requires IsRound(g, h) && IsModel(g, moves, states) && m in h.moves
    ensures MoveClosed(h, m) || AllMet(h, m, states) ==> m in moves
  {
    SubgoalsKept(g, h, m);
    if MoveClosed(g, m) {
      assert m in ClosedMoves(g);
    } else if MoveClosed(h, m) || AllMet(h, m, states) {
      assert Complete(g, m) || AllMet(h, m, states);
      CompleteIsMet(g, m, states);
      assert AllMet(g, m, states);
    }
  }

  lemma {:induction false} StateStaysBelow(g: Search, h: Search, moves: set<Id>, states: set<Id>, s: Id)
    requires IsRound(g, h) && IsModel(g, moves, states) && StateClosed(h, s)
    ensures s in states
  {
    if StateClosed(g, s) {
      assert s in ClosedStates(g);
    } else {
      var m := ClosingMove(g, h, s);
      MoveStaysBelow(g, h, moves, states, m);
    }
  }

  lemma {:induction false} CompleteIsMet(g: Search, m: Id, states: set<Id>)
    requires ClosedStates(g) <= states
    ensures Complete(g, m) ==> AllMet(g, m, states)
  {
    assert forall s :: StateClosed(g, s) ==> s in ClosedStates(g);
  }

  /** Whatever is closed after some rounds lies in every rule-closed pair above the start. */
  lemma {:induction false} RoundsStayBelow(g: Search, n: nat, moves: set<Id>, states: set<Id>)
    requires IsModel(g, moves, states)
    ensures IsModel(Rounds(g, n), moves, states)
    decreases n
  {
    if n > 0 {
      RoundIsRound(g);
      RoundStaysBelow(g, Round(g), moves, states);
      RoundsStayBelow(Round(g), n - 1, moves, states);
    }
  }

  /** At quiescence the closed sets are the least pair that contains what was closed and is closed
      under the two rules. */
  lemma {:induction false} QuiescenceIsLeastFixpoint(g: Search, n: nat)
    requires Quiescent(Rounds(g, n))
    ensures var h := Rounds(g, n);
            && IsModel(g, ClosedMoves(h), ClosedStates(h))
            && forall moves, states :: IsModel(g, moves, states) ==>
                 ClosedMoves(h) <= moves && ClosedStates(h) <= states
  {
    var h := Rounds(g, n);
    RoundsExtend(g, n);
    forall m | m in g.moves && AllMet(g, m, ClosedStates(h))
      ensures m in ClosedMoves(h)
    {
      SubgoalsKept(g, h, m);
      assert Complete(h, m);
      assert m !in ReadyMoves(h);
    }
    forall s, m | MayClose(g, s, m) && m in ClosedMoves(h)
      ensures s in ClosedStates(h)
    {
      assert Solved(h, s);
      assert s !in SolvedStates(h);
    }
    forall moves, states | IsModel(g, moves, states)
      ensures ClosedMoves(h) <= moves && ClosedStates(h) <= states
    {
      RoundsStayBelow(g, n, moves, states);
    }
  }

  // ---- closing with nothing proved ----

  /** A state may be closed by a move whose known subgoals are all reopened, or which has none. */
  ghost predicate ClosesUnproved(g: Search) {
    exists s, m :: MayClose(g, s, m) && AllMet(g, m, {})
  }

  /** Where nothing is closed yet, the first round closes a state exactly when some move needs nothing
      proved; if no move does, no number of rounds ever closes a state. */
  lemma {:induction false} FirstRoundClosesIff(g: Search, n: nat)
    requires ClosedStates(g) == {} && ClosedMoves(g) == {}
    ensures ClosedStates(Round(g)) != {} <==> ClosesUnproved(g)
    ensures n > 0 ==> (ClosedStates(Rounds(g, n)) != {} <==> ClosesUnproved(g))
  {
    if ClosesUnproved(g) {
      UnprovedCloses(g);
      if n > 0 {
        RoundsExtend(Round(g), n - 1);
        assert ClosedStates(Round(g)) <= ClosedStates(Rounds(g, n));
      }
    } else {
      NothingEverCloses(g, 1);
      assert Rounds(g, 1) == Rounds(Round(g), 0);
      NothingEverCloses(g, n);
    }
  }

  lemma {:induction false} UnprovedCloses(g: Search)
    requires ClosesUnproved(g)
    ensures ClosedStates(Round(g)) != {}
  {
    var s, m :| MayClose(g, s, m) && AllMet(g, m, {});
    RoundIsRound(g);
    assert Complete(g, m) && MoveClosed(Round(g), m);
    assert ClosesBy(g, Round(g), s) && s in ClosedStates(Round(g));
  }

  lemma {:induction false} NothingEverCloses(g: Search, n: nat)
    requires ClosedStates(g) == {} && ClosedMoves(g) == {} && !ClosesUnproved(g)
    ensures ClosedStates(Rounds(g, n)) == {}
  {
    var unheld := set m | m in g.moves && AllMet(g, m, {});
    assert IsModel(g, unheld, {});
    RoundsStayBelow(g, n, unheld, {});
  }

  // ---- derivations ----

  /** Why a state is closed: it already was, or one of its moves is, given why the subgoals are. */
  datatype Derivation =
    | Given(state: Id)
    | ByMove(state: Id, move: Id, subs: seq<Derivation>)

  function Height(d: Derivation): nat {
    match d
    case Given(_) => 0
    case ByMove(_, _, subs) => 1 + Tallest(subs)
  }

  function Tallest(ds: seq<Derivation>): (t: nat)
    ensures forall d :: d in ds ==> Height(d) <= t
  {
    if ds == [] then 0
    else
      var rest := Tallest(ds[1..]);
      if Height(ds[0]) > rest then Height(ds[0]) else rest
  }

  ghost predicate Concludes(ds: seq<Derivation>, s: Id) {
    exists d :: d in ds && d.state == s
  }

  /** A finite proof from the starting graph by the loop's two rules. Being a finite tree, it is
      well-founded even when the graph has cycles. */
  ghost predicate Proves(g: Search, d: Derivation) {
    match d
    case Given(s) => StateClosed(g, s)
    case ByMove(s, m, subs) =>
      && s in g.states && !StateReopened(g, s)
      && m in g.moves && (s, m) in g.proposes
      && (forall sub :: sub in subs ==> Proves(g, sub))
      && (MoveClosed(g, m) ||
          forall t :: t in Subgoals(g, m) ==> StateReopened(g, t) || Concludes(subs, t))
  }

  ghost predicate Derivable(g: Search, s: Id, n: nat) {
    exists d :: Proves(g, d) && d.state == s && Height(d) <= n
  }

  /** A move closed by round n was closed from the start, or complete one round earlier. */
  lemma {:induction false} MoveClosedBecause(hs: seq<Search>, m: Id, n: nat)
    requires IsTrace(hs) && n < |hs| && MoveClosed(hs[n], m)
    ensures MoveClosed(hs[0], m) || (n > 0 && m in hs[0].moves && Complete(hs[n - 1], m))
    decreases n
  {
    if n > 0 {
      assert RoundAt(hs, n - 1);
      TraceExtends(hs, 0, n - 1);
      if MoveClosed(hs[n - 1], m) {
        MoveClosedBecause(hs, m, n - 1);
        if n > 1 && Complete(hs[n - 2], m) {
          assert RoundAt(hs, n - 2);
          CompleteKept(hs[n - 2], hs[n - 1], m);
        }
      }
    }
  }

  /** Collect one derivation for each member of a set of states. */
  lemma {:induction false} CollectDerivations(g: Search, states: set<Id>, n: nat)
    returns (ds: seq<Derivation>)
    requires forall s :: s in states ==> Derivable(g, s, n)
    ensures forall s :: s in states ==> Concludes(ds, s)
    ensures forall d :: d in ds ==> Proves(g, d) && Height(d) <= n
    decreases |states|
  {
    if states == {} {
      ds := [];
    } else {
      var s :| s in states;
      var d := DerivationOf(g, s, n);
      var rest := CollectDerivations(g, states - {s}, n);
      ds := [d] + rest;
      forall t | t in states
        ensures Concludes(ds, t)
      {
        OneMoreConcludes(d, rest, t);
      }
    }
  }

  lemma {:induction false} DerivationOf(g: Search, s: Id, n: nat) returns (d: Derivation)
    requires Derivable(g, s, n)
    ensures Proves(g, d) && d.state == s && Height(d) <= n
  {
    d :| Proves(g, d) && d.state == s && Height(d) <= n;
  }

  lemma {:induction false} OneMoreConcludes(d: Derivation, rest: seq<Derivation>, s: Id)
    requires d.state == s || Concludes(rest, s)
    ensures Concludes([d] + rest, s)
  {
    if e :| e in rest && e.state == s {
      assert e in [d] + rest;
    } else {
      assert d in [d] + rest;
    }
  }

  lemma {:induction false} TallestBound(ds: seq<Derivation>, n: nat)
    requires forall d :: d in ds ==> Height(d) <= n
    ensures Tallest(ds) <= n
  {
    if ds != [] {
      TallestBound(ds[1..], n);
    }
  }

  lemma {:induction false} ClosedIsDerivable(hs: seq<Search>, s: Id, n: nat)
    requires IsTrace(hs) && n < |hs| && StateClosed(hs[n], s)
    ensures Derivable(hs[0], s, n)
    decreases n, 1
  {
    if StateClosed(hs[0], s) {
      GivenIsDerivable(hs[0], s, n);
    } else if n > 0 && StateClosed(hs[n - 1], s) {
      ClosedIsDerivable(hs, s, n - 1);
      DerivableLater(hs[0], s, n - 1);
    } else {
      var m := ClosingMoveAt(hs, s, n);
      DeriveByMove(hs, s, m, n);
    }
  }

  lemma {:induction false} GivenIsDerivable(g: Search, s: Id, n: nat)
    requires StateClosed(g, s)
    ensures Derivable(g, s, n)
  {
    assert Proves(g, Given(s)) && Height(Given(s)) == 0;
  }

  /** The move that closed a state in round n, and why that move was closed. */
  lemma {:induction false} ClosingMoveAt(hs: seq<Search>, s: Id, n: nat) returns (m: Id)
    requires IsTrace(hs) && 0 < n < |hs| && StateClosed(hs[n], s) && !StateClosed(hs[n - 1], s)
    ensures MayClose(hs[0], s, m)
    ensures MoveClosed(hs[0], m) || Complete(hs[n - 1], m)
  {
    m := ClosingMoveBefore(hs, s, n);
    TraceExtends(hs, 0, n - 1);
    MightClose(hs[0], hs[n - 1], s, m);
    MoveClosedBecause(hs, m, n);
  }

  lemma {:induction false} ClosingMoveBefore(hs: seq<Search>, s: Id, n: nat) returns (m: Id)
    requires IsTrace(hs) && 0 < n < |hs| && StateClosed(hs[n], s) && !StateClosed(hs[n - 1], s)
    ensures MayClose(hs[n - 1], s, m) && MoveClosed(hs[n], m)
  {
    assert RoundAt(hs, n - 1);
    m := ClosingMove(hs[n - 1], hs[n], s);
  }

  lemma {:induction false} MightClose(g: Search, h: Search, s: Id, m: Id)
    requires Extends(g, h) && MayClose(h, s, m)
    ensures MayClose(g, s, m)
  {
  }

  lemma {:induction false} ClosingMove(g: Search, h: Search, s: Id) returns (m: Id)
    requires IsRound(g, h) && StateClosed(h, s) && !StateClosed(g, s)
    ensures MayClose(g, s, m) && MoveClosed(h, m)
  {
    assert ClosesBy(g, h, s);
    m :| MayClose(g, s, m) && MoveClosed(h, m);
  }

  lemma {:induction false} DerivableLater(g: Search, s: Id, n: nat)
    requires Derivable(g, s, n)
    ensures Derivable(g, s, n + 1)
  {
    var d :| Proves(g, d) && d.state == s && Height(d) <= n;
    assert Height(d) <= n + 1;
  }

  lemma {:induction false} DeriveByMove(hs: seq<Search>, s: Id, m: Id, n: nat)
    requires IsTrace(hs) && 0 < n < |hs| && MayClose(hs[0], s, m)
    requires MoveClosed(hs[0], m) || Complete(hs[n - 1], m)
    ensures Derivable(hs[0], s, n)
    decreases n, 0
  {
    var subs := [];
    if !MoveClosed(hs[0], m) {
      subs := DeriveSubgoals(hs, m, n - 1);
      TallestBound(subs, n - 1);
    }
    var d := ByMove(s, m, subs);
    assert Proves(hs[0], d) && d.state == s && Height(d) <= n;
  }

  lemma {:induction false} DeriveSubgoals(hs: seq<Search>, m: Id, n: nat) returns (subs: seq<Derivation>)
    requires IsTrace(hs) && n < |hs| && Complete(hs[n], m)
    ensures forall t :: t in Subgoals(hs[0], m) ==> StateReopened(hs[0], t) || Concludes(subs, t)
    ensures forall d :: d in subs ==> Proves(hs[0], d) && Height(d) <= n
    decreases n, 2
  {
    TraceExtends(hs, 0, n);
    SubgoalsKept(hs[0], hs[n], m);
    var needed := set t | t in Subgoals(hs[0], m) && !StateReopened(hs[0], t);
    forall t | t in needed
      ensures Derivable(hs[0], t, n)
    {
      ClosedIsDerivable(hs, t, n);
    }
    subs := CollectDerivations(hs[0], needed, n);
  }

  lemma {:induction false} DerivedIsClosed(hs: seq<Search>, d: Derivation, n: nat)
    requires IsTrace(hs) && n < |hs| && Proves(hs[0], d) && Height(d) <= n
    ensures StateClosed(hs[n], d.state)
    decreases d, 1
  {
    TraceExtends(hs, 0, n);
    if d.ByMove? {
      if !MoveClosed(hs[0], d.move) {
        DerivedCompletes(hs, d, n);
      }
      ClosesAt(hs, d.state, d.move, n);
    }
  }

  /** A state closes in the round after its move is closed or complete. */
  lemma {:induction false} ClosesAt(hs: seq<Search>, s: Id, m: Id, n: nat)
    requires IsTrace(hs) && 0 < n < |hs| && MayClose(hs[0], s, m)
    requires MoveClosed(hs[0], m) || Complete(hs[n - 1], m)
    ensures StateClosed(hs[n], s)
  {
    TraceExtends(hs, 0, n - 1);
    assert RoundAt(hs, n - 1);
    ClosesNext(hs[0], hs[n - 1], hs[n], s, m);
  }

  lemma {:induction false} ClosesNext(start: Search, g: Search, h: Search, s: Id, m: Id)
    requires Extends(start, g) && IsRound(g, h) && MayClose(start, s, m)
    requires MoveClosed(start, m) || Complete(g, m)
    ensures StateClosed(h, s)
  {
    assert MoveClosed(h, m);
    assert MayClose(g, s, m) || StateClosed(g, s);
  }

  /** The subgoals of the derivation's move are settled one round before. */
  lemma {:induction false} DerivedCompletes(hs: seq<Search>, d: Derivation, n: nat)
    requires IsTrace(hs) && n < |hs| && Proves(hs[0], d) && Height(d) <= n
    requires d.ByMove? && !MoveClosed(hs[0], d.move)
    ensures n > 0 && Complete(hs[n - 1], d.move)
    decreases d, 0
  {
    var h := hs[n - 1];
    TraceExtends(hs, 0, n - 1);
    SubgoalsKept(hs[0], h, d.move);
    forall t | t in Subgoals(h, d.move)
      ensures StateClosed(h, t) || StateReopened(h, t)
    {
      if !StateReopened(hs[0], t) {
        var sub := SubFor(hs[0], d, t);
        DerivedIsClosed(hs, sub, n - 1);
      }
    }
  }

  lemma {:induction false} SubFor(g: Search, d: Derivation, t: Id) returns (sub: Derivation)
    requires Proves(g, d) && d.ByMove? && !MoveClosed(g, d.move)
    requires t in Subgoals(g, d.move) && !StateReopened(g, t)
    ensures sub in d.subs && sub.state == t && Proves(g, sub) && Height(sub) < Height(d)
  {
    assert Concludes(d.subs, t);
    sub :| sub in d.subs && sub.state == t;
  }

  /** A run cut off after n rounds has closed exactly the states with a derivation of height at
      most n. */
  lemma {:induction false} ClosedIffDerivable(g: Search, s: Id, n: nat)
    ensures StateClosed(Rounds(g, n), s) <==> Derivable(g, s, n)
  {
    var hs := Trace(g, n);
    if StateClosed(hs[n], s) {
      ClosedIsDerivable(hs, s, n);
    }
    if Derivable(g, s, n) {
      var d :| Proves(g, d) && d.state == s && Height(d) <= n;
      DerivedIsClosed(hs, d, n);
    }
  }

  // ---- the AND rule as documented ----

  /** The rule as `move_is_complete` has it: every subgoal is closed. */
  predicate MoveIsComplete(g: Search, m: Id) {
    forall s :: s in Subgoals(g, m) ==> StateClosed(g, s)
  }

  /** Where the loop has closed a move, all subgoals of the move are closed exactly when none of them was
      reopened at the start. */
  lemma {:induction false} ClosedMoveIsCompleteIff(g: Search, n: nat, m: Id)
    requires MoveClosed(Rounds(g, n), m) && !MoveClosed(g, m)
    ensures MoveIsComplete(Rounds(g, n), m) <==> forall s :: s in Subgoals(g, m) ==> !StateReopened(g, s)
  {
    ClosedOrComplete(g, n, m);
    RoundsExtend(g, n);
    SubgoalsKept(g, Rounds(g, n), m);
  }

  /** A state closes over a subgoal that stays reopened. */
  lemma {:induction false} ClosesOverReopened() returns (g: Search, goal: Id, m: Id, sub: Id)
    ensures (goal, m) in g.proposes && sub in Subgoals(g, m) && OpenStates(g) == {goal} && !MoveClosed(g, m)
    ensures StateClosed(Rounds(g, 1), goal) && MoveClosed(Rounds(g, 1), m)
    ensures !MoveIsComplete(Rounds(g, 1), m)
  {
    goal, m, sub := "g", "m", "s";
    g := OverReopened(goal, m, sub);
    OneRoundCloses(g, goal, m);
    ClosedMoveIsCompleteIff(g, 1, m);
  }

  lemma {:induction false} OverReopened(goal: Id, m: Id, sub: Id) returns (g: Search)
    requires goal != sub
    ensures MayClose(g, goal, m) && !MoveClosed(g, m) && Complete(g, m)
    ensures sub in Subgoals(g, m) && StateReopened(g, sub) && OpenStates(g) == {goal}
  {
    g := Search(map[goal := Token.Open, sub := Reopened], map[m := Token.Open], {(goal, m)}, {(m, sub)});
    assert (m, sub) in g.requirements;
  }

  lemma {:induction false} OneRoundCloses(g: Search, s: Id, m: Id)
    requires MayClose(g, s, m) && Complete(g, m)
    ensures StateClosed(Rounds(g, 1), s) && MoveClosed(Rounds(g, 1), m)
  {
    assert Rounds(g, 1) == Rounds(Round(g), 0);
    RoundIsRound(g);
    assert ClosesBy(g, Round(g), s);
  }

  // ---- how many rounds ----

  function OpenStates(g: Search): set<Id> {
    set s | s in g.states && !StateClosed(g, s) && !StateReopened(g, s)
  }

  /** A round that solves no state was the last that could change anything. */
  lemma {:induction false} UnsolvedRoundIsLast(g: Search)
    requires SolvedStates(AndPass(g)) == {}
    ensures Quiescent(Round(g))
  {
    var a := AndPass(g);
    assert OrPass(a).states == a.states;
    assert Round(g) == a;
    assert forall m :: m in g.moves ==> Subgoals(a, m) == Subgoals(g, m);
    assert forall m :: m in g.moves ==> (Complete(a, m) <==> Complete(g, m));
  }

  lemma {:induction false} QuiescentIsFixed(g: Search)
    requires Quiescent(g)
    ensures Round(g) == g
  {
    assert AndPass(g).moves == g.moves;
    assert AndPass(g) == g;
    assert OrPass(g).states == g.states;
  }

  /** With k states neither closed nor reopened, k+1 rounds are enough. */
  lemma {:induction false} EnoughRounds(g: Search, n: nat)
    requires |OpenStates(g)| < n
    ensures Quiescent(Rounds(g, n))
  {
    var hs := Trace(g, n);
    forall i: nat | i < n
      ensures Progresses(hs[i], hs[i + 1])
    {
      RoundsProgress(g, i);
    }
    QuietBy(hs, n);
  }

  ghost predicate Progresses(g: Search, h: Search) {
    if Quiescent(g) then h == g else Quiescent(h) || |OpenStates(h)| < |OpenStates(g)|
  }

  lemma {:induction false} RoundsProgress(g: Search, i: nat)
    ensures Progresses(Rounds(g, i), Rounds(g, i + 1))
  {
    LastRound(g, i);
    RoundProgresses(Rounds(g, i));
    if Quiescent(Rounds(g, i)) {
      QuiescentIsFixed(Rounds(g, i));
    }
  }

  lemma {:induction false} QuietBy(hs: seq<Search>, i: nat)
    requires i < |hs| && forall j: nat :: j < i ==> Progresses(hs[j], hs[j + 1])
    ensures Quiescent(hs[i]) || |OpenStates(hs[i])| + i <= |OpenStates(hs[0])|
    decreases i
  {
    if i > 0 {
      QuietBy(hs, i - 1);
      assert Progresses(hs[i - 1], hs[i]);
    }
  }

  /** A round leaves nothing to do, or fewer states open. */
  lemma {:induction false} RoundProgresses(g: Search)
    ensures Quiescent(Round(g)) || |OpenStates(Round(g))| < |OpenStates(g)|
  {
    if SolvedStates(AndPass(g)) == {} {
      UnsolvedRoundIsLast(g);
    } else {
      SolvingRoundShrinks(g);
    }
  }

  lemma {:induction false} SolvingRoundShrinks(g: Search)
    requires SolvedStates(AndPass(g)) != {}
    ensures |OpenStates(Round(g))| < |OpenStates(g)|
  {
    var s :| s in SolvedStates(AndPass(g));
    assert OpenStates(Round(g)) <= OpenStates(g) - {s};
    SubsetSize(OpenStates(Round(g)), OpenStates(g) - {s});
  }

  /** Once quiescent, every state with a derivation of any height is closed. */
  lemma {:induction false} QuiescentHasClosedAll(g: Search, k: nat, s: Id, n: nat)
    requires Quiescent(Rounds(g, k)) && Derivable(g, s, n)
    ensures StateClosed(Rounds(g, k), s)
  {
    ClosedIffDerivable(g, s, n);
    if n <= k {
      var hs := Trace(g, k);
      TraceExtends(hs, n, k);
      assert hs[n] == Rounds(g, n);
    } else {
      QuiescentStays(g, k, n);
    }
  }

  lemma {:induction false} QuiescentStays(g: Search, k: nat, n: nat)
    requires Quiescent(Rounds(g, k)) && k <= n
    ensures Rounds(g, n) == Rounds(g, k)
    decreases n
  {
    if k < n {
      QuiescentStays(g, k, n - 1);
      LastRound(g, n - 1);
      QuiescentIsFixed(Rounds(g, k));
    }
  }

  /** A cap above the number of states still open never truncates: all that can be derived has been
      closed. With the default of 64 that is every proof with at most 63 such states. */
  lemma {:induction false} CapNeverTruncates(g: Search, cap: nat, s: Id)
    requires |OpenStates(g)| < cap
    ensures Quiescent(Rounds(g, cap))
    ensures StateClosed(Rounds(g, cap), s) <==> exists n: nat :: Derivable(g, s, n)
  {
    EnoughRounds(g, cap);
    ClosedIffDerivable(g, s, cap);
    if n: nat :| Derivable(g, s, n) {
      QuiescentHasClosedAll(g, cap, s, n);
    }
  }

  // ---- what closing one state amounts to ----

  /** Why a state is closed once the state `id` has been: it is that state, or was closed before, or is
      closed by a move that was closed, that `id` proposes, or whose subgoals are closed or reopened. */
  ghost predicate ProvesFrom(g: Search, id: Id, d: Derivation) {
    match d
    case Given(s) => s in g.states && (s == id || g.states[s] == FormallyClosed)
    case ByMove(s, m, subs) =>
      && s in g.states && (s == id || g.states[s] != Reopened)
      && m in g.moves && (s, m) in g.proposes
      && (forall sub :: sub in subs ==> ProvesFrom(g, id, sub))
      && (|| g.moves[m] == Closed || (id in g.states && (id, m) in g.proposes)
          || forall t :: (m, t) in g.requirements && t in g.states ==>
               (t != id && g.states[t] == Reopened) || Concludes(subs, t))
  }

  ghost predicate FollowsFrom(g: Search, id: Id, s: Id) {
    exists d :: ProvesFrom(g, id, d) && d.state == s
  }

  /** The state is closed, nothing is unclosed, and whatever changes becomes closed. */
  ghost predicate ClosesAtLeast(g: Search, id: Id, h: Search) {
    && h.proposes == g.proposes && h.requirements == g.requirements
    && h.states.Keys == g.states.Keys && h.moves.Keys == g.moves.Keys
    && (id in g.states ==> h.states[id] == FormallyClosed)
    && (forall s :: s in g.states ==> h.states[s] == g.states[s] || h.states[s] == FormallyClosed)
    && (forall m :: m in g.moves ==> h.moves[m] == g.moves[m] || h.moves[m] == Closed)
  }

  /** A state ends closed exactly when that follows, and a move exactly when it was closed, the state
      proposes it, or its subgoals are reopened or end closed. */
  ghost predicate ClosesExactly(g: Search, id: Id, h: Search) {
    && ClosesAtLeast(g, id, h)
    && (forall s :: s in g.states ==> (h.states[s] == FormallyClosed <==> FollowsFrom(g, id, s)))
    && (forall m :: m in g.moves ==> (h.moves[m] == Closed <==> MoveFollows(g, id, h, m)))
  }

  ghost predicate MoveFollows(g: Search, id: Id, h: Search, m: Id)
    requires m in g.moves && h.states.Keys == g.states.Keys
  {
    g.moves[m] == Closed || (id in g.states && (id, m) in g.proposes) || MetAtEnd(g, id, h, m)
  }

  predicate MetAtEnd(g: Search, id: Id, h: Search, m: Id)
    requires h.states.Keys == g.states.Keys
  {
    forall t :: t in g.states && (m, t) in g.requirements ==>
      (t != id && g.states[t] == Reopened) || h.states[t] == FormallyClosed
  }

  lemma {:induction false} ClosingMeans(g: Search, id: Id, cap: nat)
    ensures ClosesAtLeast(g, id, Rounds(Marked(g, id), cap))
    ensures |OpenStates(g)| < cap ==> ClosesExactly(g, id, Rounds(Marked(g, id), cap))
  {
    ClosesSome(g, id, cap);
    if |OpenStates(g)| < cap {
      FewOpen(g, id);
      forall s | s in g.states
        ensures StateClosed(Rounds(Marked(g, id), cap), s) <==> FollowsFrom(g, id, s)
      {
        StateFollowsIff(g, id, cap, s);
      }
      forall m | m in g.moves
        ensures MoveClosed(Rounds(Marked(g, id), cap), m) <==> MoveFollows(g, id, Rounds(Marked(g, id), cap), m)
      {
        MoveFollowsAfter(g, id, cap, m);
      }
    }
  }

  lemma {:induction false} ClosesSome(g: Search, id: Id, cap: nat)
    ensures ClosesAtLeast(g, id, Rounds(Marked(g, id), cap))
  {
    RoundsExtend(Marked(g, id), cap);
    ExtendsMarked(g, id, Rounds(Marked(g, id), cap));
  }

  lemma {:induction false} ExtendsMarked(g: Search, id: Id, h: Search)
    requires Extends(Marked(g, id), h)
    ensures ClosesAtLeast(g, id, h)
  {
  }

  lemma {:induction false} MoveFollowsAfter(g: Search, id: Id, cap: nat, m: Id)
    requires |OpenStates(Marked(g, id))| < cap && m in g.moves
    ensures var h := Rounds(Marked(g, id), cap);
            && h.states.Keys == g.states.Keys && h.moves.Keys == g.moves.Keys
            && (MoveClosed(h, m) <==> MoveFollows(g, id, h, m))
  {
    var h := Rounds(Marked(g, id), cap);
    RoundsExtend(Marked(g, id), cap);
    EnoughRounds(Marked(g, id), cap);
    if MoveClosed(h, m) {
      ClosedOrComplete(Marked(g, id), cap, m);
    }
    MoveFollowsIff(g, id, h, m);
  }

  lemma {:induction false} FewOpen(g: Search, id: Id)
    ensures |OpenStates(Marked(g, id))| <= |OpenStates(g)|
  {
    assert OpenStates(Marked(g, id)) <= OpenStates(g);
    SubsetSize(OpenStates(Marked(g, id)), OpenStates(g));
  }

  lemma {:induction false} StateFollowsIff(g: Search, id: Id, cap: nat, s: Id)
    requires |OpenStates(Marked(g, id))| < cap
    ensures StateClosed(Rounds(Marked(g, id), cap), s) <==> FollowsFrom(g, id, s)
  {
    CapNeverTruncates(Marked(g, id), cap, s);
    FollowsIff(g, id, s);
  }

  lemma {:induction false} MarkedIs(g: Search, id: Id)
    ensures forall s :: StateClosed(Marked(g, id), s) <==> s in g.states && (s == id || g.states[s] == FormallyClosed)
    ensures forall s :: StateReopened(Marked(g, id), s) <==> s in g.states && s != id && g.states[s] == Reopened
    ensures forall m :: MoveClosed(Marked(g, id), m) <==>
              m in g.moves && (g.moves[m] == Closed || (id in g.states && (id, m) in g.proposes))
    ensures forall m, t :: t in Subgoals(Marked(g, id), m) <==> (m, t) in g.requirements && t in g.states
  {
    var h := Marked(g, id);
    forall m, t
      ensures t in Subgoals(h, m) <==> (m, t) in g.requirements && t in g.states
    {
      if t in Subgoals(h, m) {
        var e :| e in h.requirements && e.0 == m && e.1 == t;
        assert e == (m, t);
      }
      if (m, t) in g.requirements && t in g.states {
        assert (m, t).1 in h.states;
      }
    }
  }

  lemma {:induction false} ProvesFromIff(g: Search, id: Id, d: Derivation)
    ensures Proves(Marked(g, id), d) <==> ProvesFrom(g, id, d)
  {
    MarkedIs(g, id);
    if d.ByMove? {
      forall sub | sub in d.subs
        ensures Proves(Marked(g, id), sub) <==> ProvesFrom(g, id, sub)
      {
        ProvesFromIff(g, id, sub);
      }
    }
  }

  lemma {:induction false} FollowsIff(g: Search, id: Id, s: Id)
    ensures FollowsFrom(g, id, s) <==> exists n: nat :: Derivable(Marked(g, id), s, n)
  {
    if d :| ProvesFrom(g, id, d) && d.state == s {
      ProvesFromIff(g, id, d);
      assert Derivable(Marked(g, id), s, Height(d));
    }
    if n: nat :| Derivable(Marked(g, id), s, n) {
      var d :| Proves(Marked(g, id), d) && d.state == s && Height(d) <= n;
      ProvesFromIff(g, id, d);
    }
  }

  lemma {:induction false} MoveFollowsIff(g: Search, id: Id, h: Search, m: Id)
    requires Extends(Marked(g, id), h) && Quiescent(h) && m in g.moves
    requires MoveClosed(h, m) ==> MoveClosed(Marked(g, id), m) || Complete(h, m)
    ensures h.states.Keys == g.states.Keys && h.moves.Keys == g.moves.Keys
    ensures h.moves[m] == Closed <==> MoveFollows(g, id, h, m)
  {
    QuietMove(Marked(g, id), h, m);
    MetIff(g, id, h, m);
    FollowsBy(g, id, h, m);
  }

  lemma {:induction false} FollowsBy(g: Search, id: Id, h: Search, m: Id)
    requires m in g.moves && m in h.moves && h.states.Keys == g.states.Keys
    requires MoveClosed(h, m) <==> MoveClosed(Marked(g, id), m) || Complete(h, m)
    requires Complete(h, m) <==> MetAtEnd(g, id, h, m)
    ensures h.moves[m] == Closed <==> MoveFollows(g, id, h, m)
  {
  }

  lemma {:induction false} QuietMove(g: Search, h: Search, m: Id)
    requires Extends(g, h) && Quiescent(h) && m in g.moves
    requires MoveClosed(h, m) ==> MoveClosed(g, m) || Complete(h, m)
    ensures MoveClosed(h, m) <==> MoveClosed(g, m) || Complete(h, m)
  {
    assert m !in ReadyMoves(h);
  }

  lemma {:induction false} MetIff(g: Search, id: Id, h: Search, m: Id)
    requires Extends(Marked(g, id), h)
    ensures h.states.Keys == g.states.Keys
    ensures Complete(h, m) <==> MetAtEnd(g, id, h, m)
  {
    forall t | t in g.states
      ensures t in Subgoals(h, m) <==> (m, t) in g.requirements
      ensures StateClosed(h, t) || StateReopened(h, t) <==>
              (t != id && g.states[t] == Reopened) || h.states[t] == FormallyClosed
    {
      SubgoalIs(h, m, t);
    }
  }

  lemma {:induction false} SubgoalIs(h: Search, m: Id, t: Id)
    ensures t in Subgoals(h, m) <==> (m, t) in h.requirements && t in h.states
  {
    if (m, t) in h.requirements && t in h.states {
      assert (m, t).1 in h.states;
    }
  }

  lemma {:induction false} ClosedOrComplete(g: Search, n: nat, m: Id)
    requires MoveClosed(Rounds(g, n), m)
    ensures MoveClosed(g, m) || Complete(Rounds(g, n), m)
  {
    var hs := Trace(g, n);
    MoveClosedBecause(hs, m, n);
    if !MoveClosed(g, m) {
      TraceExtends(hs, n - 1, n);
      CompleteKept(hs[n - 1], hs[n], m);
    }
  }
}
