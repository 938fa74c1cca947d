/** Taint propagation: refute a claim, taint what depends on it, reopen what used that. */
module Taint {
  import opened Vocabulary
  import opened Reach
  import opened Mork

  /** The claims and states of one proof with their statuses, DEPENDS_ON edges between claims and
      USES_CLAIM edges from states to claims. */
  datatype Knowledge = Knowledge(
    claims: map<Id, Token>,
    states: map<Id, Token>,
    dependsOn: set<(Id, Id)>,
    usesClaim: set<(Id, Id)>)

  ghost predicate WellFormed(k: Knowledge) {
    && (forall e :: e in k.dependsOn ==> e.0 in k.claims && e.1 in k.claims)
    && (forall e :: e in k.usesClaim ==> e.0 in k.states && e.1 in k.claims)
  }

  /** The claims with a path of one dependency or more to the root. */
  ghost function Cone(k: Knowledge, root: Id): set<Id> {
    set c | c in k.claims && root in k.claims && Reaches(k.dependsOn, c, root)
  }

  function ClosedUsers(k: Knowledge, tainted: set<Id>): set<Id> {
    set e | e in k.usesClaim && e.1 in tainted && e.0 in k.states && k.states[e.0] == FormallyClosed
      :: e.0
  }

  /** What the three statements leave behind. */
  ghost function AfterTaint(k: Knowledge, root: Id): Knowledge {
    var cone := Cone(k, root);
    var users := ClosedUsers(k, cone);
    k.(claims := map c | c in k.claims ::
                   if c in cone then Tainted else if c == root then Refuted else k.claims[c],
       states := map s | s in k.states :: if s in users then Reopened else k.states[s])
  }

  ghost predicate UsesOneOf(usesClaim: set<(Id, Id)>, s: Id, claims: set<Id>) {
    exists e :: e in usesClaim && e.0 == s && e.1 in claims
  }

  /** The statuses left behind, one by one. */
  lemma {:induction false} AfterTaintIs(k: Knowledge, root: Id)
    ensures var after := AfterTaint(k, root);
            var tainted, reopened := Cone(k, root), ClosedUsers(k, Cone(k, root));
            && after.claims.Keys == k.claims.Keys && after.states.Keys == k.states.Keys
            && (forall s :: s in reopened <==>
                  s in k.states && k.states[s] == FormallyClosed && UsesOneOf(k.usesClaim, s, tainted))
            && (forall c :: c in k.claims ==>
                  after.claims[c] == if c in tainted then Tainted else if c == root then Refuted else k.claims[c])
            && (forall s :: s in k.states ==>
                  after.states[s] == if s in reopened then Reopened else k.states[s])
  {
    var tainted := Cone(k, root);
    forall s
      ensures s in ClosedUsers(k, tainted) <==>
              s in k.states && k.states[s] == FormallyClosed && UsesOneOf(k.usesClaim, s, tainted)
    {
      if s in k.states && k.states[s] == FormallyClosed && UsesOneOf(k.usesClaim, s, tainted) {
        var e :| e in k.usesClaim && e.0 == s && e.1 in tainted;
        assert e.0 in ClosedUsers(k, tainted);
      }
    }
  }

  lemma {:induction false} SameUsers(k: Knowledge, claims: map<Id, Token>, tainted: set<Id>)
    ensures ClosedUsers(k.(claims := claims), tainted) == ClosedUsers(k, tainted)
    ensures tainted == {} ==> ClosedUsers(k, tainted) == {}
  {
  }

  class KnowledgeGraph {
    var claims: map<Id, Token>
    var states: map<Id, Token>
    const dependsOn: set<(Id, Id)>
    const usesClaim: set<(Id, Id)>

    function Contents(): Knowledge
      reads this
    {
      Knowledge(claims, states, dependsOn, usesClaim)
    }

    constructor (k: Knowledge)
      ensures Contents() == k
    {
      claims, states, dependsOn, usesClaim := k.claims, k.states, k.dependsOn, k.usesClaim;
    }

    /** `taint_cone` */
    method ReadCone(root: Id) returns (cone: set<Id>)
      ensures cone == Cone(Contents(), root)
    {
      var above := Dependents(dependsOn, root);
      cone := if root in claims then set c | c in above && c in claims else {};
    }

    /** `propagate_taint`: the root ends refuted unless it depends on itself, exactly its strict
        transitive dependents end tainted, exactly the closed states using one of those are reopened,
        and nothing else changes. */
    method PropagateTaint(root: Id) returns (tainted: set<Id>, reopened: set<Id>)
      modifies this
      ensures claims.Keys == old(claims.Keys) && states.Keys == old(states.Keys)
      ensures forall c :: c in tainted <==> c in claims && root in claims && Reaches(dependsOn, c, root)
      ensures forall s :: s in reopened <==>
                s in states && old(states)[s] == FormallyClosed && UsesOneOf(usesClaim, s, tainted)
      ensures forall c :: c in claims ==>
                claims[c] == if c in tainted then Tainted else if c == root then Refuted else old(claims)[c]
      ensures forall s :: s in states ==> states[s] == if s in reopened then Reopened else old(states)[s]
      ensures Contents() == AfterTaint(old(Contents()), root)
    {
      ghost var before := Contents();
      AfterTaintIs(before, root);
      tainted, reopened := RunStatements(root);
    }

    /** The three statements, one after the other. */
    method RunStatements(root: Id) returns (tainted: set<Id>, reopened: set<Id>)
      modifies this
      ensures Contents() == AfterTaint(old(Contents()), root)
      ensures tainted == Cone(old(Contents()), root)
      ensures reopened == ClosedUsers(old(Contents()), tainted)
    {
      ghost var before := Contents();
      if root in claims {
        claims := claims[root := Refuted];
      }
      assert Cone(Contents(), root) == Cone(before, root);
      tainted := ReadCone(root);
      claims := map c | c in claims :: if c in tainted then Tainted else claims[c];
      assert claims == AfterTaint(before, root).claims;
      SameUsers(before, claims, tainted);
      reopened := {};
      if tainted != {} {
        reopened := ClosedUsers(Contents(), tainted);
        states := map s | s in states :: if s in reopened then Reopened else states[s];
      }
    }
  }

  // ---- the promise that nothing closed is left relying on the refuted claim ----

  /** No closed state uses one of these claims. */
  ghost predicate NoneRelies(k: Knowledge, claims: set<Id>) {
    forall s :: s in k.states && k.states[s] == FormallyClosed ==> !UsesOneOf(k.usesClaim, s, claims)
  }

  /** After a call no closed state relies on the root or on what depends on it exactly when every closed
      state that used the root also used a strict dependent of it. */
  lemma {:induction false} NoneReliesIff(k: Knowledge, root: Id)
    requires root in k.claims
    ensures NoneRelies(AfterTaint(k, root), Cone(k, root) + {root}) <==>
            forall s :: s in k.states && k.states[s] == FormallyClosed && (s, root) in k.usesClaim ==>
              UsesOneOf(k.usesClaim, s, Cone(k, root))
  {
    var cone, after := Cone(k, root), AfterTaint(k, root);
    AfterTaintIs(k, root);
    forall s | s in k.states
      ensures UsesOneOf(k.usesClaim, s, cone + {root}) <==>
              UsesOneOf(k.usesClaim, s, cone) || (s, root) in k.usesClaim
    {
      if (s, root) in k.usesClaim {
        assert (s, root).1 in cone + {root};
      }
      if UsesOneOf(k.usesClaim, s, cone) {
        var e :| e in k.usesClaim && e.0 == s && e.1 in cone;
        assert e.1 in cone + {root};
      }
    }
    assert forall s :: s in k.states ==>
      (after.states[s] == FormallyClosed <==>
         k.states[s] == FormallyClosed && !UsesOneOf(k.usesClaim, s, cone));
  }

  /** A closed state that uses only the root stays closed. */
  lemma {:induction false} ClosedStateKeepsRelying() returns (k: Knowledge, root: Id, s: Id)
    ensures WellFormed(k) && Acyclic(k.dependsOn) && root in k.claims
    ensures AfterTaint(k, root).claims[root] == Refuted
    ensures s in k.states && AfterTaint(k, root).states[s] == FormallyClosed && (s, root) in k.usesClaim
    ensures !NoneRelies(AfterTaint(k, root), Cone(k, root) + {root})
  {
    root, s := "r", "s";
    k := Knowledge(map[root := LeanVerified], map[s := FormallyClosed], {}, {(s, root)});
    forall a, b
      ensures !Reaches(k.dependsOn, a, b)
    {
      if Reaches(k.dependsOn, a, b) {
        var next := FirstEdge(k.dependsOn, a, b);
      }
    }
    assert Cone(k, root) == {};
    AfterTaintIs(k, root);
    NoneReliesIff(k, root);
  }

  /** A second call changes no status, cyclic or not. */
  lemma {:induction false} TaintIsIdempotent(k: Knowledge, root: Id)
    ensures AfterTaint(AfterTaint(k, root), root) == AfterTaint(k, root)
  {
    var once := AfterTaint(k, root);
    assert Cone(once, root) == Cone(k, root);
    var cone := Cone(k, root);
    forall e | e in k.usesClaim && e.1 in cone && e.0 in k.states
      ensures once.states[e.0] != FormallyClosed
    {
      assert k.states[e.0] == FormallyClosed ==> e.0 in ClosedUsers(k, cone);
    }
    assert ClosedUsers(once, cone) == {};
    assert AfterTaint(once, root).claims == once.claims;
    assert AfterTaint(once, root).states == once.states;
  }

  /** The graph as the MORK rules see it, every node being committed. A claim and a state of one id
      share their field atoms. */
  function Projected(k: Knowledge): Space {
    Space(k.claims.Keys, k.states.Keys, k.claims.Keys + k.states.Keys, k.dependsOn, k.usesClaim,
          (set c | c in k.claims :: (c, k.claims[c])) + (set s | s in k.states :: (s, k.states[s])))
  }

  /** No open state that uses one of these claims passes for closed because a claim of the same id is
      formally closed. */
  ghost predicate NoneMistaken(k: Knowledge, claims: set<Id>) {
    forall s :: s in k.states && k.states[s] != FormallyClosed && PassesForClosed(k, s) ==>
      !UsesOneOf(k.usesClaim, s, claims)
  }

  /** Once the root is refuted and before anything else is written, MORK's `taint-cone` is the set of
      claims `propagate_taint` goes on to write; its `affected-states` are the states it goes on to
      write exactly when none is mistaken for closed. */
  lemma {:induction false} MorkAgrees(k: Knowledge, root: Id)
    requires WellFormed(k) && Acyclic(k.dependsOn)
    requires root in k.claims && k.claims[root] == Refuted
    ensures Acyclic(Followed(Projected(k)))
    ensures TaintCone(Projected(k), root) == Cone(k, root)
    ensures AffectedStates(Projected(k), root) == ClosedUsers(k, Cone(k, root)) <==>
            NoneMistaken(k, Cone(k, root))
  {
    var space := Projected(k);
    assert Followed(space) == k.dependsOn;
    assert (root, k.claims[root]) in space.status;
    forall c
      ensures IsDependent(space, c, root) <==> Reaches(k.dependsOn, c, root)
    {
      ReachesAtomIsReachability(space, c, root);
    }
    assert TaintCone(space, root) == Cone(k, root);
    forall s
      ensures s in AffectedStates(space, root) <==>
              s in k.states && PassesForClosed(k, s) && UsesOneOf(k.usesClaim, s, Cone(k, root))
    {
      AffectedMeans(k, root, s);
    }
    AfterTaintIs(k, root);
  }

  /** What `has-field?` says of the status of a state. */
  predicate PassesForClosed(k: Knowledge, s: Id) {
    (s in k.states && k.states[s] == FormallyClosed) || (s in k.claims && k.claims[s] == FormallyClosed)
  }

  lemma {:induction false} AffectedMeans(k: Knowledge, root: Id, s: Id)
    requires WellFormed(k) && Acyclic(Followed(Projected(k)))
    requires root in k.claims && k.claims[root] == Refuted
    requires forall c :: IsDependent(Projected(k), c, root) <==> Reaches(k.dependsOn, c, root)
    ensures s in AffectedStates(Projected(k), root) <==>
            s in k.states && PassesForClosed(k, s) && UsesOneOf(k.usesClaim, s, Cone(k, root))
  {
    var space := Projected(k);
    assert (root, k.claims[root]) in space.status;
    if s in k.states {
      assert HasStatus(space, s, FormallyClosed) <==> PassesForClosed(k, s) by {
        assert (s, k.states[s]) in space.status;
        assert s in k.claims ==> (s, k.claims[s]) in space.status;
      }
      assert forall e :: e in k.usesClaim ==> (e.1 in Cone(k, root) <==> IsDependent(space, e.1, root));
    }
  }

  /** The summary of a call, in MORK's terms. */
  lemma {:induction false} TaintMatchesMork(k: Knowledge, root: Id)
    requires WellFormed(k) && Acyclic(k.dependsOn) && root in k.claims
    ensures var refuted := k.(claims := k.claims[root := Refuted]);
            && Acyclic(Followed(Projected(refuted)))
            && Cone(k, root) == TaintCone(Projected(refuted), root)
            && (ClosedUsers(k, Cone(k, root)) == AffectedStates(Projected(refuted), root) <==>
                  NoneMistaken(refuted, Cone(k, root)))
  {
    var refuted := k.(claims := k.claims[root := Refuted]);
    MorkAgrees(refuted, root);
    assert Cone(refuted, root) == Cone(k, root);
  }
}
