/** The cap on the rounds of closure is reached by a chain of states. */
module ClosureCap {
  import opened Vocabulary
  import opened Ids
  import opened Closure

  /** A chain of states: each but the first proposes one move, which requires the state before it. */
  function Link(i: nat): Id {
    Numbered("s", i)
  }

  function Step(i: nat): Id {
    Numbered("m", i)
  }

  function Chain(n: nat): Search {
    Search(map i: nat | i <= n :: Link(i) := Token.Open, map i: nat | 1 <= i <= n :: Step(i) := Token.Open,
           set i: nat | 1 <= i <= n :: (Link(i), Step(i)), set i: nat | 1 <= i <= n :: (Step(i), Link(i - 1)))
  }

  lemma {:induction false} LinksDiffer(i: nat, j: nat)
    ensures Link(i) == Link(j) <==> i == j
    ensures Step(i) == Step(j) <==> i == j
  {
    if Link(i) == Link(j) {
      NumberedIsInjective("s", i, "s", j);
    }
    if Step(i) == Step(j) {
      NumberedIsInjective("m", i, "m", j);
    }
  }

  /** The states and moves of the chain up to the r-th are closed. */
  ghost predicate ClosedUpTo(h: Search, n: nat, r: nat) {
    && (forall i: nat :: i <= n ==> (StateClosed(h, Link(i)) <==> i <= r) && !StateReopened(h, Link(i)))
    && (forall i: nat :: 1 <= i <= n ==> (MoveClosed(h, Step(i)) <==> i <= r))
  }

  lemma {:induction false} ChainStarts(n: nat)
    ensures ClosedUpTo(Marked(Chain(n), Link(0)), n, 0)
  {
    var g := Chain(n);
    MarkedIs(g, Link(0));
    forall i: nat | i <= n
      ensures Link(i) in g.states && g.states[Link(i)] == Token.Open && (Link(i) == Link(0) <==> i == 0)
    {
      LinksDiffer(i, 0);
    }
    forall i: nat | 1 <= i <= n
      ensures Step(i) in g.moves && g.moves[Step(i)] == Token.Open && (Link(0), Step(i)) !in g.proposes
    {
      FirstProposesNone(n, i);
    }
  }

  lemma {:induction false} FirstProposesNone(n: nat, i: nat)
    requires 1 <= i <= n
    ensures Step(i) in Chain(n).moves && (Link(0), Step(i)) !in Chain(n).proposes
  {
    if j: nat :| 1 <= j <= n && (Link(0), Step(i)) == (Link(j), Step(j)) {
      LinksDiffer(0, j);
    }
  }

  lemma {:induction false} ChainEdges(n: nat, i: nat)
    requires 1 <= i <= n
    ensures Step(i) in Chain(n).moves && (Link(i), Step(i)) in Chain(n).proposes
    ensures forall m :: (Link(i), m) in Chain(n).proposes ==> m == Step(i)
    ensures Subgoals(Chain(n), Step(i)) == {Link(i - 1)}
  {
    var g := Chain(n);
    forall m | (Link(i), m) in g.proposes
      ensures m == Step(i)
    {
      var j: nat :| 1 <= j <= n && (Link(i), m) == (Link(j), Step(j));
      LinksDiffer(i, j);
    }
    forall t
      ensures t in Subgoals(g, Step(i)) <==> t == Link(i - 1)
    {
      if t in Subgoals(g, Step(i)) {
        var e :| e in g.requirements && e.0 == Step(i) && e.1 == t;
        var j: nat :| 1 <= j <= n && e == (Step(j), Link(j - 1));
        LinksDiffer(i, j);
      }
      assert (Step(i), Link(i - 1)) in g.requirements;
    }
  }

  lemma {:induction false} OneSubgoal(h: Search, next: Search, m: Id, t: Id)
    requires IsRound(h, next) && m in h.moves && Subgoals(h, m) == {t} && !StateReopened(h, t)
    ensures MoveClosed(next, m) <==> MoveClosed(h, m) || StateClosed(h, t)
  {
    assert Complete(h, m) <==> StateClosed(h, t);
  }

  lemma {:induction false} OneMove(h: Search, next: Search, s: Id, m: Id)
    requires IsRound(h, next) && s in h.states && !StateReopened(h, s) && m in h.moves && (s, m) in h.proposes
    requires forall other :: (s, other) in h.proposes ==> other == m
    ensures StateClosed(next, s) <==> StateClosed(h, s) || MoveClosed(next, m)
    ensures !StateReopened(next, s)
  {
    assert MayClose(h, s, m);
    assert ClosesBy(h, next, s) <==> MoveClosed(next, m);
  }

  /** What the chain looks like in a later round. */
  lemma {:induction false} ChainLater(h: Search, n: nat, i: nat)
    requires Extends(Marked(Chain(n), Link(0)), h) && 1 <= i <= n
    ensures Link(i) in h.states && Step(i) in h.moves && (Link(i), Step(i)) in h.proposes
    ensures forall m :: (Link(i), m) in h.proposes ==> m == Step(i)
    ensures Subgoals(h, Step(i)) == {Link(i - 1)}
  {
    ChainEdges(n, i);
    MarkedKeeps(Chain(n), Link(0));
    SubgoalsKept(Marked(Chain(n), Link(0)), h, Step(i));
    assert Link(i) in Chain(n).states;
  }

  lemma {:induction false} MarkedKeeps(g: Search, id: Id)
    ensures Marked(g, id).states.Keys == g.states.Keys && Marked(g, id).moves.Keys == g.moves.Keys
    ensures Marked(g, id).proposes == g.proposes
    ensures forall m :: Subgoals(Marked(g, id), m) == Subgoals(g, m)
  {
  }

  lemma {:induction false} MoveInTurn(h: Search, next: Search, n: nat, r: nat, i: nat)
    requires Extends(Marked(Chain(n), Link(0)), h) && IsRound(h, next) && ClosedUpTo(h, n, r) && 1 <= i <= n
    ensures MoveClosed(next, Step(i)) <==> i <= r + 1
  {
    ChainLater(h, n, i);
    OneSubgoal(h, next, Step(i), Link(i - 1));
  }

  lemma {:induction false} StateInTurn(h: Search, next: Search, n: nat, r: nat, i: nat)
    requires Extends(Marked(Chain(n), Link(0)), h) && IsRound(h, next) && ClosedUpTo(h, n, r) && 1 <= i <= n
    ensures StateClosed(next, Link(i)) <==> i <= r + 1
    ensures !StateReopened(next, Link(i))
  {
    ChainLater(h, n, i);
    MoveInTurn(h, next, n, r, i);
    OneMove(h, next, Link(i), Step(i));
  }

  lemma {:induction false} ChainRound(h: Search, next: Search, n: nat, r: nat)
    requires Extends(Marked(Chain(n), Link(0)), h) && IsRound(h, next) && ClosedUpTo(h, n, r)
    ensures ClosedUpTo(next, n, r + 1)
  {
    forall i: nat | 1 <= i <= n
      ensures MoveClosed(next, Step(i)) <==> i <= r + 1
    {
      MoveInTurn(h, next, n, r, i);
    }
    forall i: nat | i <= n
      ensures StateClosed(next, Link(i)) <==> i <= r + 1
      ensures !StateReopened(next, Link(i))
    {
      if 0 < i {
        StateInTurn(h, next, n, r, i);
      }
    }
  }

  /** Each round closes one more state of the chain. */
  lemma {:induction false} ChainClosesInTurn(n: nat, r: nat)
    ensures ClosedUpTo(Rounds(Marked(Chain(n), Link(0)), r), n, r)
  {
    var g := Marked(Chain(n), Link(0));
    if r == 0 {
      ChainStarts(n);
    } else {
      ChainClosesInTurn(n, r - 1);
      LastRound(g, r - 1);
      RoundIsRound(Rounds(g, r - 1));
      RoundsExtend(g, r - 1);
      ChainRound(Rounds(g, r - 1), Rounds(g, r), n, r - 1);
    }
  }

  /** The cap of 64 is reached: closing the first of a longer chain closes the next 64 states and leaves
      the others open, though they follow. */
  lemma {:induction false} CapCanTruncate(n: nat, i: nat)
    requires i <= n
    ensures StateClosed(Rounds(Marked(Chain(n), Link(0)), MAX_ROUNDS), Link(i)) <==> i <= 64
    ensures FollowsFrom(Chain(n), Link(0), Link(i))
  {
    var g := Marked(Chain(n), Link(0));
    ChainClosesInTurn(n, MAX_ROUNDS);
    ChainClosesInTurn(n, n);
    ClosedIffDerivable(g, Link(i), n);
    FollowsIff(Chain(n), Link(0), Link(i));
  }
}
