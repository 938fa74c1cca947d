/** The MeTTa rules over the projected atoms of one proof: reachability by recursion, the cycle
    detector, the taint cone and the states it affects.

    A collapsed match is a list with possible repeats; only membership matters, so it is a set. */
module Mork {
  import opened Vocabulary
  import opened Reach

  /** The atoms the rules match: claim and state nodes, committed layers, DEPENDS_ON and USES_CLAIM
      edges, and status fields. */
  datatype Space = Space(
    claims: set<Id>,
    states: set<Id>,
    committed: set<Id>,
    dependsOn: set<(Id, Id)>,
    usesClaim: set<(Id, Id)>,
    status: set<(Id, Token)>)

  predicate HasStatus(s: Space, id: Id, token: Token) {
    (id, token) in s.status
  }

  /** The edges the rules can follow: those that leave a committed node. */
  function Followed(s: Space): set<(Id, Id)> {
    set e | e in s.dependsOn && e.0 in s.committed
  }

  /** `direct-depends?` */
  predicate DirectDepends(s: Space, a: Id, b: Id) {
    a in s.claims && a in s.committed && (a, b) in s.dependsOn
  }

  /** `deps-of` */
  function DepsOf(s: Space, x: Id): set<Id> {
    set e | e in s.dependsOn && e.0 == x && x in s.committed :: e.1
  }

  lemma {:induction false} DepsAreBelow(s: Space, x: Id)
    requires Acyclic(Followed(s))
    ensures forall m :: m in DepsOf(s, x) ==>
              (x, m) in Followed(s) && Below(Followed(s), m) < Below(Followed(s), x)
  {
    forall m | m in DepsOf(s, x)
      ensures (x, m) in Followed(s) && Below(Followed(s), m) < Below(Followed(s), x)
    {
      BelowShrinks(Followed(s), x, m);
    }
  }

  /** `reaches?`, with `reaches-via?` and `any-reaching`. The recursion ends on acyclic graphs. */
  predicate ReachesAtom(s: Space, x: Id, b: Id)
    requires Acyclic(Followed(s))
    decreases Below(Followed(s), x)
  {
    DepsAreBelow(s, x);
    x == b || DirectDepends(s, x, b) || exists m :: m in DepsOf(s, x) && ReachesAtom(s, m, b)
  }

  /** On an acyclic graph the recursion computes the reflexive-transitive closure. */
  lemma {:induction false} ReachesAtomIsReachability(s: Space, x: Id, b: Id)
    requires Acyclic(Followed(s))
    ensures ReachesAtom(s, x, b) <==> ReachesOrIs(Followed(s), x, b)
    decreases Below(Followed(s), x)
  {
    DepsAreBelow(s, x);
    forall m | m in DepsOf(s, x)
      ensures ReachesAtom(s, m, b) <==> ReachesOrIs(Followed(s), m, b)
    {
      ReachesAtomIsReachability(s, m, b);
    }
    if ReachesOrIs(Followed(s), x, b) && x != b {
      var next := FirstEdge(Followed(s), x, b);
      assert (x, next).1 in DepsOf(s, x);
    }
    if ReachesAtom(s, x, b) && x != b {
      if DirectDepends(s, x, b) {
        EdgeReaches(Followed(s), x, b);
      } else {
        var m :| m in DepsOf(s, x) && ReachesAtom(s, m, b);
        EdgeThenReaches(Followed(s), x, m, b);
      }
    }
  }

  /** `would-cycle?` */
  predicate WouldCycle(s: Space, dependent: Id, dependsOn: Id)
    requires Acyclic(Followed(s))
  {
    ReachesAtom(s, dependsOn, dependent)
  }

  /** The detector is exact: it fires when and only when the new edge would close a cycle, also
      for the self-edge; for distinct claims it is the Cypher path check. */
  lemma {:induction false} WouldCycleIsExact(s: Space, dependent: Id, dependsOn: Id)
    requires Acyclic(Followed(s)) && dependent in s.committed
    ensures WouldCycle(s, dependent, dependsOn) <==>
            !Acyclic(Followed(s.(dependsOn := s.dependsOn + {(dependent, dependsOn)})))
    ensures dependent != dependsOn ==>
              (WouldCycle(s, dependent, dependsOn) <==> Reaches(Followed(s), dependsOn, dependent))
  {
    ReachesAtomIsReachability(s, dependsOn, dependent);
    assert Followed(s.(dependsOn := s.dependsOn + {(dependent, dependsOn)})) ==
           Followed(s) + {(dependent, dependsOn)};
    AcyclicWithEdge(Followed(s), dependent, dependsOn);
  }

  /** `is-dependent?` */
  predicate IsDependent(s: Space, c: Id, root: Id)
    requires Acyclic(Followed(s))
  {
    c != root && ReachesAtom(s, c, root)
  }

  /** `taint-cone` */
  function TaintCone(s: Space, root: Id): set<Id>
    requires Acyclic(Followed(s))
  {
    if HasStatus(s, root, Refuted) then
      set c | c in s.claims && c in s.committed && IsDependent(s, c, root)
    else {}
  }

  /** `uses-tainted-claim?` */
  predicate UsesTaintedClaim(s: Space, state: Id, root: Id)
    requires Acyclic(Followed(s))
  {
    HasStatus(s, root, Refuted) &&
    exists e :: e in s.usesClaim && e.0 == state && IsDependent(s, e.1, root)
  }

  /** `affected-states` */
  function AffectedStates(s: Space, root: Id): set<Id>
    requires Acyclic(Followed(s))
  {
    set state | state in s.states && state in s.committed &&
                HasStatus(s, state, FormallyClosed) && UsesTaintedClaim(s, state, root)
  }
}
