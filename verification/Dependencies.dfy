/** Guarded insertion of DEPENDS_ON edges, and the same reachability as MORK computes it. */
module Dependencies {
  import opened Vocabulary
  import opened Reach

  /** A claim node is found by its id and its proof. */
  datatype ClaimRef = ClaimRef(proofId: string, id: Id)

  /** DEPENDS_ON edges carry an edge id, so two claims may be joined more than once. */
  datatype DependencyEdge = DependencyEdge(src: ClaimRef, dst: ClaimRef, eid: Id)

  function Pairs(edges: set<DependencyEdge>): set<(ClaimRef, ClaimRef)> {
    set e | e in edges :: (e.src, e.dst)
  }

  /** The claims a MATCH on id, and on proof unless it is empty, finds. */
  function Matching(claims: set<ClaimRef>, id: Id, proofId: string): set<ClaimRef> {
    set c | c in claims && c.id == id && (proofId == "" || c.proofId == proofId)
  }

  /** The edges the MERGE makes: one for every pair of matches. */
  function Merged(claims: set<ClaimRef>, dependent: Id, dependsOn: Id, proofId: string, eid: Id)
    : set<DependencyEdge>
  {
    set a, b | a in Matching(claims, dependent, proofId) && b in Matching(claims, dependsOn, proofId)
      :: DependencyEdge(a, b, eid)
  }

  class ClaimGraph {
    var claims: set<ClaimRef>
    var edges: set<DependencyEdge>

    ghost predicate IsAcyclic()
      reads this
    {
      Acyclic(Pairs(edges))
    }

    constructor (claims: set<ClaimRef>)
      ensures this.claims == claims && edges == {}
    {
      this.claims, edges := claims, {};
    }

    /** `_cycle_exists`: a path of one edge or more from the dependency back to the dependent. */
    method CycleExists(dependent: Id, dependsOn: Id, proofId: string) returns (found: bool)
      ensures found <==>
              ClaimRef(proofId, dependent) in claims && ClaimRef(proofId, dependsOn) in claims &&
              Reaches(Pairs(edges), ClaimRef(proofId, dependsOn), ClaimRef(proofId, dependent))
    {
      var above := Dependents(Pairs(edges), ClaimRef(proofId, dependent));
      found := ClaimRef(proofId, dependent) in claims && ClaimRef(proofId, dependsOn) in claims &&
               ClaimRef(proofId, dependsOn) in above;
    }

    /** `add_claim_dependency`; false where the program raises ValueError. With a proof id, what
        was acyclic stays so exactly when the claim is not made to depend on itself: the guard
        looks for a path of at least one edge and so misses the self-edge. */
    method AddClaimDependency(dependent: Id, dependsOn: Id, proofId: string, eid: Id) returns (ok: bool)
      modifies this
      ensures claims == old(claims)
      ensures edges == old(edges) + if ok then Merged(claims, dependent, dependsOn, proofId, eid) else {}
      ensures !ok <==>
              proofId != "" && ClaimRef(proofId, dependent) in claims &&
              ClaimRef(proofId, dependsOn) in claims &&
              Reaches(Pairs(old(edges)), ClaimRef(proofId, dependsOn), ClaimRef(proofId, dependent))
      ensures old(IsAcyclic()) && proofId != "" ==>
                (IsAcyclic() <==> !(dependent == dependsOn && ClaimRef(proofId, dependent) in claims))
    {
      if proofId != "" {
        var cyclic := CycleExists(dependent, dependsOn, proofId);
        if cyclic {
          NoPathToItself(Pairs(edges), ClaimRef(proofId, dependent));
          return false;
        }
        GuardedMerge(claims, edges, dependent, dependsOn, proofId, eid);
      }
      edges := edges + Merged(claims, dependent, dependsOn, proofId, eid);
      return true;
    }
  }

  lemma {:induction false} NoPathToItself(edges: set<(ClaimRef, ClaimRef)>, a: ClaimRef)
    ensures Acyclic(edges) ==> !Reaches(edges, a, a)
  {
  }

  /** With a proof id the MERGE makes at most one edge. */
  lemma {:induction false} GuardedMerge(claims: set<ClaimRef>, edges: set<DependencyEdge>, dependent: Id,
                                        dependsOn: Id, proofId: string, eid: Id)
    requires proofId != ""
    requires ClaimRef(proofId, dependent) in claims && ClaimRef(proofId, dependsOn) in claims ==>
               !Reaches(Pairs(edges), ClaimRef(proofId, dependsOn), ClaimRef(proofId, dependent))
    ensures Acyclic(Pairs(edges)) ==>
              (Acyclic(Pairs(edges + Merged(claims, dependent, dependsOn, proofId, eid))) <==>
               !(dependent == dependsOn && ClaimRef(proofId, dependent) in claims))
  {
    var a, b := ClaimRef(proofId, dependent), ClaimRef(proofId, dependsOn);
    var more := edges + Merged(claims, dependent, dependsOn, proofId, eid);
    if a in claims && b in claims {
      assert Matching(claims, dependent, proofId) == {a} && Matching(claims, dependsOn, proofId) == {b};
      assert Merged(claims, dependent, dependsOn, proofId, eid) == {DependencyEdge(a, b, eid)};
      assert Pairs(more) == Pairs(edges) + {(a, b)};
      if Acyclic(Pairs(edges)) {
        AcyclicWithEdge(Pairs(edges), a, b);
      }
    } else {
      assert Merged(claims, dependent, dependsOn, proofId, eid) == {};
      assert more == edges;
    }
  }

  /** Without a proof id nothing is checked, and a two-cycle goes in. */
  lemma {:induction false} EmptyProofIdIsUnguarded()
    returns (claims: set<ClaimRef>, edges: set<DependencyEdge>)
    ensures Acyclic(Pairs(edges))
    ensures !Acyclic(Pairs(edges + Merged(claims, "b", "a", "", "e2")))
  {
    var a, b := ClaimRef("p", "a"), ClaimRef("p", "b");
    claims := {a, b};
    edges := {DependencyEdge(a, b, "e1")};
    assert Pairs(edges) == {} + {(a, b)};
    AcyclicWithEdge({}, a, b) by {
      assert Acyclic<ClaimRef>({}) by {
        forall x: ClaimRef
          ensures !Reaches({}, x, x)
        {
          if Reaches({}, x, x) {
            var next := FirstEdge({}, x, x);
          }
        }
      }
    }
    assert !ReachesOrIs({}, b, a) by {
      if Reaches({}, b, a) {
        var next := FirstEdge({}, b, a);
      }
    }
    var more := edges + Merged(claims, "b", "a", "", "e2");
    assert b in Matching(claims, "b", "") && a in Matching(claims, "a", "");
    assert DependencyEdge(b, a, "e2") in more && DependencyEdge(a, b, "e1") in more;
    assert (b, a) in Pairs(more) && (a, b) in Pairs(more);
    EdgeReaches(Pairs(more), b, a);
    EdgeThenReaches(Pairs(more), a, b, a);
  }
}
