/** Subgoal conservation over every run: no goal Lean produced is ever lost. */
module Conservation {
  import opened Vocabulary
  import opened Ops
  import opened Transitions
  import opened GraphState
  import opened Apply
  import opened Rules
  import opened Obligations
  import opened Gate

  predicate IsChild(e: Edge, tactic: Id) {
    e.rel == FormalRequires && e.src == tactic
  }

  /** `order` lists every required child edge of the tactic, at its own `child_index`, and no
      two of them have the same target. */
  ghost predicate ChildrenInOrder(g: Graph, tactic: Id, order: seq<Id>) {
    && (forall k :: 0 <= k < |order| ==>
          order[k] in g.edges && IsChild(g.edges[order[k]], tactic) &&
          Get(g.edges[order[k]].fields, ChildIndex) == Num(k))
    && (forall e :: e in g.edges && IsChild(g.edges[e], tactic) ==> e in order)
    && (forall j, k :: 0 <= j < k < |order| ==> g.edges[order[j]].dst != g.edges[order[k]].dst)
  }

  /** The tactic has exactly `subgoal_count` children, indexed 0..n-1. */
  ghost predicate Conserved(g: Graph, tactic: Id)
    requires tactic in g.nodes
  {
    exists order :: ChildrenInOrder(g, tactic, order) &&
      Get(g.nodes[tactic].fields, SubgoalCount) == Num(|order|)
  }

  predicate IsTacticNode(g: Graph, id: Id) {
    id in g.nodes && g.nodes[id].lab == TacticApplication
  }

  ghost predicate ObligationsHold(g: Graph) {
    && (forall t :: IsTacticNode(g, t) ==> Conserved(g, t))
    && (forall e :: e in g.edges && g.edges[e].rel == FormalRequires ==>
          IsTacticNode(g, g.edges[e].src))
  }

  /** Every required-child edge the proposal adds takes effect as written, and none that is
      committed is lost. `apply_ops` skips a taken id silently, and `get_rel` believes the
      proposal's own edges, so acceptance alone does not give this. */
  predicate ObligationEdgesLand(ops: seq<Op>, g: Graph) {
    && (forall op :: op in ops && IsEdge(op, FormalRequires) ==>
          EdgeFate(ops, op.eid, EdgeOf(g, op.eid)) == Some(Edge(op.rel, op.src, op.dst, op.fields)))
    && (forall e :: e in g.edges && g.edges[e].rel == FormalRequires ==>
          EdgeFate(ops, e, EdgeOf(g, e)) == EdgeOf(g, e))
  }

  /** In every graph a disciplined run reaches, every tactic keeps exactly its subgoals. */
  lemma {:induction false} ConservationOverRuns(graphs: seq<Graph>, proposals: seq<Proposal>, n: nat)
    requires IsSmoothRun(graphs, proposals) && n < |graphs|
    requires forall k :: 0 <= k < |proposals| ==> Disciplined(proposals[k], graphs[k])
    ensures ObligationsHold(graphs[n])
  {
    if n > 0 {
      ConservationOverRuns(graphs, proposals, n - 1);
      SmoothStep(graphs, proposals, n - 1);
      FreshIdsLand(graphs[n - 1], proposals[n - 1], graphs[n]);
      ConservationIffEdgesLand(graphs[n - 1], proposals[n - 1], graphs[n]);
    }
  }

  /** Fresh, distinct edge ids are enough for every obligation to land. */
  lemma {:induction false} FreshIdsLand(g: Graph, p: Proposal, h: Graph)
    requires Step(g, p, h) && EdgeIdsFresh(p.ops, g)
    ensures ObligationEdgesLand(p.ops, g)
  {
    assert forall op :: op in p.ops ==> !RemovesObligation(op);
    EdgesOfTypeAfter(p, g, h, FormalRequires);
    forall e
      ensures EdgeOf(h, e) == EdgeFate(p.ops, e, EdgeOf(g, e))
    {
      EdgeAfter(g, p.ops, e);
    }
  }

  /** One accepted step keeps conservation exactly when the obligation edges land. */
  lemma {:induction false} ConservationIffEdgesLand(g: Graph, p: Proposal, h: Graph)
    requires Step(g, p, h) && NodesDisciplined(p, g) && TacticsFresh(p.ops, g) && ObligationsHold(g)
    ensures ObligationsHold(h) <==> ObligationEdgesLand(p.ops, g)
  {
    if ObligationEdgesLand(p.ops, g) {
      LandedKeepsObligations(g, p, h);
    }
    if ObligationsHold(h) {
      forall e | e in g.edges && g.edges[e].rel == FormalRequires
        ensures EdgeFate(p.ops, e, EdgeOf(g, e)) == EdgeOf(g, e)
      {
        CommittedChildSurvives(g, p, h, e);
        EdgeAfter(g, p.ops, e);
      }
      forall op | op in p.ops && IsEdge(op, FormalRequires)
        ensures EdgeFate(p.ops, op.eid, EdgeOf(g, op.eid)) ==
                Some(Edge(op.rel, op.src, op.dst, op.fields))
      {
        AddedChildLanded(g, p, h, op);
        EdgeAfter(g, p.ops, op.eid);
      }
    }
  }

  /** When the obligations land, the required-child edges are the old ones and the added ones. */
  lemma {:induction false} ChildEdgesAfter(g: Graph, p: Proposal, h: Graph)
    requires Step(g, p, h) && ObligationEdgesLand(p.ops, g)
    ensures forall e :: e in g.edges && g.edges[e].rel == FormalRequires ==>
              e in h.edges && h.edges[e] == g.edges[e]
    ensures forall op :: op in p.ops && IsEdge(op, FormalRequires) ==>
              op.eid in h.edges && h.edges[op.eid] == Edge(FormalRequires, op.src, op.dst, op.fields)
  {
    forall e
      ensures EdgeOf(h, e) == EdgeFate(p.ops, e, EdgeOf(g, e))
    {
      EdgeAfter(g, p.ops, e);
    }
    forall op | op in p.ops && IsEdge(op, FormalRequires)
      ensures op.eid in h.edges && h.edges[op.eid] == Edge(FormalRequires, op.src, op.dst, op.fields)
    {
      assert EdgeOf(h, op.eid) == EdgeFate(p.ops, op.eid, EdgeOf(g, op.eid));
    }
    forall e | e in g.edges && g.edges[e].rel == FormalRequires
      ensures e in h.edges && h.edges[e] == g.edges[e]
    {
      assert EdgeOf(h, e) == EdgeFate(p.ops, e, EdgeOf(g, e));
    }
  }

  /** A required-child edge of the result was committed as it is, or comes from an added one. */
  lemma {:induction false} ChildHasSource(g: Graph, p: Proposal, h: Graph, e: Id)
    requires Step(g, p, h) && e in h.edges && h.edges[e].rel == FormalRequires
    ensures (e in g.edges && g.edges[e] == h.edges[e]) ||
            exists op :: op in p.ops && IsEdge(op, FormalRequires) && op.eid == e &&
              h.edges[e] == Edge(op.rel, op.src, op.dst, op.fields)
  {
    EdgeHasSource(p, g, h, e);
  }

  // ---- the exact condition, with no discipline on nodes ----

  predicate WillBeTactic(g: Graph, ops: seq<Op>, t: Id) {
    Origin(g, ops, t).Some? && Origin(g, ops, t).value.lab == TacticApplication
  }

  function Children(g: Graph, t: Id): set<Id> {
    set e | e in g.edges && IsChild(g.edges[e], t)
  }

  function AddedChildren(ops: seq<Op>, t: Id): set<Id> {
    set op | op in ops && IsEdgeOf(op, FormalRequires, t) :: op.eid
  }

  /** The count the tactic ends with is that of its committed and added children together, and the
      ones do not come on top of the others. */
  predicate CountsAgree(g: Graph, ops: seq<Op>, t: Id)
    requires WillBeTactic(g, ops, t)
  {
    var was, more := Children(g, t), AddedChildren(ops, t);
    (was <= more || more <= was) && FinalValue(g, ops, t, SubgoalCount) == Num(|was + more|)
  }

  ghost predicate ObligationsAddUp(g: Graph, ops: seq<Op>) {
    && (forall t :: WillBeTactic(g, ops, t) ==> CountsAgree(g, ops, t))
    && (forall op :: op in ops && IsEdge(op, FormalRequires) ==> WillBeTactic(g, ops, op.src))
  }

  /** Where the obligation edges land, one accepted step keeps conservation exactly when the counts add
      up and every added child hangs off a tactic, whatever upserts repeat or relabel. */
  lemma {:induction false} ConservationIffCountsAgree(g: Graph, p: Proposal, h: Graph)
    requires Step(g, p, h) && ObligationsHold(g) && ObligationEdgesLand(p.ops, g)
    ensures ObligationsHold(h) <==> ObligationsAddUp(g, p.ops)
  {
    forall t
      ensures IsTacticNode(h, t) <==> WillBeTactic(g, p.ops, t)
      ensures IsTacticNode(h, t) ==> (Conserved(h, t) <==> CountsAgree(g, p.ops, t))
    {
      NodeAfter(g, p.ops, t);
      if IsTacticNode(h, t) {
        ConservedIffCountsAgree(g, p, h, t);
      }
    }
    SourcesAreTactics(g, p, h);
  }

  lemma {:induction false} SourcesAreTactics(g: Graph, p: Proposal, h: Graph)
    requires Step(g, p, h) && ObligationsHold(g) && ObligationEdgesLand(p.ops, g)
    ensures (forall e :: e in h.edges && h.edges[e].rel == FormalRequires ==> IsTacticNode(h, h.edges[e].src)) <==>
            (forall op :: op in p.ops && IsEdge(op, FormalRequires) ==> WillBeTactic(g, p.ops, op.src))
  {
    ChildEdgesAfter(g, p, h);
    forall op | op in p.ops && IsEdge(op, FormalRequires)
      ensures op.eid in h.edges && h.edges[op.eid].src == op.src
      ensures WillBeTactic(g, p.ops, op.src) <==> IsTacticNode(h, op.src)
    {
      NodeAfter(g, p.ops, op.src);
    }
    forall e | e in h.edges && h.edges[e].rel == FormalRequires
      ensures IsTacticNode(h, h.edges[e].src) ||
              exists op :: op in p.ops && IsEdge(op, FormalRequires) && op.src == h.edges[e].src
    {
      ChildHasSource(g, p, h, e);
      NodeAfter(g, p.ops, h.edges[e].src);
    }
  }

  /** `order` lists these child edges of the tactic, each at its own `child_index`. */
  ghost predicate Lists(h: Graph, ids: set<Id>, t: Id, order: seq<Id>) {
    && (forall k :: 0 <= k < |order| ==>
          order[k] in h.edges && IsChild(h.edges[order[k]], t) &&
          Get(h.edges[order[k]].fields, ChildIndex) == Num(k))
    && (forall e :: e in order <==> e in ids)
    && (forall j, k :: 0 <= j < k < |order| ==> h.edges[order[j]].dst != h.edges[order[k]].dst)
  }

  lemma {:induction false} ListsLength(h: Graph, ids: set<Id>, t: Id, order: seq<Id>)
    requires Lists(h, ids, t, order)
    ensures |order| == |ids|
  {
    forall j, k | 0 <= j < k < |order|
      ensures order[j] != order[k]
    {
      assert h.edges[order[j]].dst != h.edges[order[k]].dst;
    }
    DistinctLength(order, ids);
  }

  /** A shorter listing of children lies inside a longer one. */
  lemma {:induction false} ListsNest(h: Graph, t: Id, a: set<Id>, b: set<Id>, some: seq<Id>, all: seq<Id>,
                                     whole: seq<Id>)
    requires Lists(h, a, t, some) && Lists(h, b, t, all) && |some| <= |all|
    requires ChildrenInOrder(h, t, whole)
    ensures a <= b
  {
    InWhole(h, t, a, some, whole);
    InWhole(h, t, b, all, whole);
    forall e | e in a
      ensures e in b
    {
      var k :| 0 <= k < |some| && some[k] == e;
      assert all[k] in all && all[k] == whole[k];
    }
  }

  lemma {:induction false} InWhole(h: Graph, t: Id, ids: set<Id>, order: seq<Id>, whole: seq<Id>)
    requires Lists(h, ids, t, order) && ChildrenInOrder(h, t, whole)
    ensures |order| <= |whole| && forall k :: 0 <= k < |order| ==> order[k] == whole[k]
  {
    forall k | 0 <= k < |order|
      ensures k < |whole| && order[k] == whole[k]
    {
      assert order[k] in whole;
      var j :| 0 <= j < |whole| && whole[j] == order[k];
    }
    if order != [] {
      var last := order[|order| - 1];
    }
  }

  lemma {:induction false} ChildrenAfter(g: Graph, p: Proposal, h: Graph, t: Id)
    requires Step(g, p, h) && ObligationEdgesLand(p.ops, g)
    ensures Children(h, t) == Children(g, t) + AddedChildren(p.ops, t)
  {
    ChildEdgesAfter(g, p, h);
    forall e | e in Children(h, t)
      ensures e in Children(g, t) + AddedChildren(p.ops, t)
    {
      ChildHasSource(g, p, h, e);
      if op :| op in p.ops && IsEdge(op, FormalRequires) && op.eid == e &&
               h.edges[e] == Edge(op.rel, op.src, op.dst, op.fields) {
        assert op.eid in AddedChildren(p.ops, t);
      }
    }
    forall e | e in AddedChildren(p.ops, t)
      ensures e in Children(h, t)
    {
      var op :| op in p.ops && IsEdgeOf(op, FormalRequires, t) && op.eid == e;
    }
  }

  lemma {:induction false} CommittedLists(g: Graph, p: Proposal, h: Graph, t: Id) returns (order: seq<Id>)
    requires Step(g, p, h) && ObligationEdgesLand(p.ops, g) && ObligationsHold(g)
    ensures Lists(h, Children(g, t), t, order)
  {
    ChildEdgesAfter(g, p, h);
    if IsTacticNode(g, t) {
      assert Conserved(g, t);
      order :| ChildrenInOrder(g, t, order) && Get(g.nodes[t].fields, SubgoalCount) == Num(|order|);
    } else {
      order := [];
      assert forall e :: e in g.edges && IsChild(g.edges[e], t) ==> IsTacticNode(g, g.edges[e].src);
    }
  }

  lemma {:induction false} AddedLists(g: Graph, p: Proposal, h: Graph, t: Id) returns (order: seq<Id>)
    requires Step(g, p, h) && ObligationEdgesLand(p.ops, g)
    ensures Lists(h, AddedChildren(p.ops, t), t, order)
    ensures LastTactic(p.ops, t).Some? ==>
              Get(LastTactic(p.ops, t).value.fields, SubgoalCount) == Num(|order|)
  {
    var entries := EdgesOf(p.ops, FormalRequires, t);
    EntriesAreTheEdges(p.ops, FormalRequires, t);
    if LastTactic(p.ops, t).None? {
      order := [];
      assert SubgoalRejections(p.ops, t) == {};
      OrphansAreReported(p.ops, FormalRequires, OrphanSubgoalEdge, t);
      assert entries == [];
    } else {
      var fields := LastTactic(p.ops, t).value.fields;
      ArityPasses(p.ops, t, fields);
      ArityCheckMeans(Get(fields, SubgoalCount), entries);
      var positions :| InOrder(entries, positions);
      order := seq(|positions|, k requires 0 <= k < |positions| => p.ops[entries[positions[k]].index].eid);
      ListedEntries(g, p, h, t, positions, order);
    }
  }

  lemma {:induction false} ListedEntries(g: Graph, p: Proposal, h: Graph, t: Id, positions: seq<nat>,
                                         order: seq<Id>)
    requires Step(g, p, h) && ObligationEdgesLand(p.ops, g)
    requires var entries := EdgesOf(p.ops, FormalRequires, t);
             && InOrder(entries, positions) && |order| == |positions|
             && (forall j, k :: 0 <= j < k < |entries| ==> entries[j].target != entries[k].target)
             && (forall k :: 0 <= k < |order| ==>
                   && entries[positions[k]].index < |p.ops|
                   && p.ops[entries[positions[k]].index].AddEdge?
                   && order[k] == p.ops[entries[positions[k]].index].eid)
    ensures Lists(h, AddedChildren(p.ops, t), t, order)
  {
    var entries := EdgesOf(p.ops, FormalRequires, t);
    EntriesAreTheEdges(p.ops, FormalRequires, t);
    ChildEdgesAfter(g, p, h);
    forall k | 0 <= k < |order|
      ensures order[k] in h.edges && IsChild(h.edges[order[k]], t)
      ensures Get(h.edges[order[k]].fields, ChildIndex) == Num(k)
      ensures h.edges[order[k]].dst == entries[positions[k]].target
      ensures order[k] in AddedChildren(p.ops, t)
    {
      var op := p.ops[entries[positions[k]].index];
      assert op in p.ops && IsEdgeOf(op, FormalRequires, t);
    }
    forall j, k | 0 <= j < k < |order|
      ensures h.edges[order[j]].dst != h.edges[order[k]].dst
    {
      assert entries[positions[j]].position != entries[positions[k]].position;
    }
    AllEntriesListed(p.ops, t, positions, order);
  }

  lemma {:induction false} AllEntriesListed(ops: seq<Op>, t: Id, positions: seq<nat>, order: seq<Id>)
    requires var entries := EdgesOf(ops, FormalRequires, t);
             && InOrder(entries, positions) && |order| == |positions|
             && (forall k :: 0 <= k < |order| ==>
                   && entries[positions[k]].index < |ops|
                   && ops[entries[positions[k]].index].AddEdge?
                   && order[k] == ops[entries[positions[k]].index].eid)
    ensures forall e :: e in AddedChildren(ops, t) ==> e in order
  {
    var entries := EdgesOf(ops, FormalRequires, t);
    EntriesAreTheEdges(ops, FormalRequires, t);
    OrderIsOnto(entries, positions);
    forall e | e in AddedChildren(ops, t)
      ensures e in order
    {
      var op :| op in ops && IsEdgeOf(op, FormalRequires, t) && op.eid == e;
      var i :| 0 <= i < |entries| && ops[entries[i].index] == op;
      assert i in positions;
      var k :| 0 <= k < |positions| && positions[k] == i;
      assert order[k] == e;
    }
  }

  lemma {:induction false} ConservedIffCountsAgree(g: Graph, p: Proposal, h: Graph, t: Id)
    requires Step(g, p, h) && ObligationEdgesLand(p.ops, g) && ObligationsHold(g)
    requires IsTacticNode(h, t) && WillBeTactic(g, p.ops, t)
    ensures Conserved(h, t) <==> CountsAgree(g, p.ops, t)
  {
    ChildrenAfter(g, p, h, t);
    FinalValueHolds(g, p.ops, t, SubgoalCount);
    var a := CommittedLists(g, p, h, t);
    var b := AddedLists(g, p, h, t);
    TwoListings(h, t, Children(g, t), AddedChildren(p.ops, t), a, b);
  }

  /** A tactic whose children are two listed sets is conserved exactly when one set holds the other
      and the count is that of both. */
  lemma {:induction false} TwoListings(h: Graph, t: Id, was: set<Id>, more: set<Id>, a: seq<Id>, b: seq<Id>)
    requires IsTacticNode(h, t) && Children(h, t) == was + more
    requires Lists(h, was, t, a) && Lists(h, more, t, b)
    ensures Conserved(h, t) <==>
            (was <= more || more <= was) && Get(h.nodes[t].fields, SubgoalCount) == Num(|was + more|)
  {
    if was <= more {
      assert was + more == more;
      ListedIsConserved(h, t, b);
    } else if more <= was {
      assert was + more == was;
      ListedIsConserved(h, t, a);
    } else if Conserved(h, t) {
      ConservedNests(h, t, was, more, a, b);
      assert false;
    }
  }

  lemma {:induction false} ListedIsConserved(h: Graph, t: Id, order: seq<Id>)
    requires IsTacticNode(h, t) && Lists(h, Children(h, t), t, order)
    ensures Conserved(h, t) <==> Get(h.nodes[t].fields, SubgoalCount) == Num(|Children(h, t)|)
  {
    ListsLength(h, Children(h, t), t, order);
    assert ChildrenInOrder(h, t, order);
    if Conserved(h, t) {
      var now :| ChildrenInOrder(h, t, now) && Get(h.nodes[t].fields, SubgoalCount) == Num(|now|);
      WholeLists(h, t, now);
      ListsLength(h, Children(h, t), t, now);
    }
  }

  lemma {:induction false} ConservedNests(h: Graph, t: Id, was: set<Id>, more: set<Id>, a: seq<Id>, b: seq<Id>)
    requires IsTacticNode(h, t) && Conserved(h, t)
    requires Lists(h, was, t, a) && Lists(h, more, t, b)
    ensures was <= more || more <= was
  {
    var now :| ChildrenInOrder(h, t, now) && Get(h.nodes[t].fields, SubgoalCount) == Num(|now|);
    if |a| <= |b| {
      ListsNest(h, t, was, more, a, b, now);
    } else {
      ListsNest(h, t, more, was, b, a, now);
    }
  }

  lemma {:induction false} WholeLists(h: Graph, t: Id, order: seq<Id>)
    requires ChildrenInOrder(h, t, order)
    ensures Lists(h, Children(h, t), t, order)
  {
  }

  // ---- under the discipline the counts agree ----

  lemma {:induction false} LandedKeepsObligations(g: Graph, p: Proposal, h: Graph)
    requires Step(g, p, h) && NodesDisciplined(p, g) && TacticsFresh(p.ops, g) && ObligationsHold(g)
    requires ObligationEdgesLand(p.ops, g)
    ensures ObligationsHold(h)
  {
    forall t | WillBeTactic(g, p.ops, t)
      ensures CountsAgree(g, p.ops, t)
    {
      if t in g.nodes {
        OldCountAgrees(g, p, h, t);
      } else {
        NewCountAgrees(g, p, h, t);
      }
    }
    forall op | op in p.ops && IsEdge(op, FormalRequires)
      ensures WillBeTactic(g, p.ops, op.src)
    {
      AcceptedAddition(p, g, op);
      LabelIsLabelAfter(p, g, h, op.src);
      NodeAfter(g, p.ops, op.src);
    }
    ConservationIffCountsAgree(g, p, h);
  }

  lemma {:induction false} OldCountAgrees(g: Graph, p: Proposal, h: Graph, t: Id)
    requires Step(g, p, h) && NodesDisciplined(p, g) && TacticsFresh(p.ops, g) && ObligationsHold(g)
    requires WillBeTactic(g, p.ops, t) && t in g.nodes
    ensures CountsAgree(g, p.ops, t)
  {
    NoOrphans(p, g, t);
    assert AddedChildren(p.ops, t) == {};
    assert Children(g, t) + {} == Children(g, t);
    assert SubgoalCount in ImmutableFields(TacticApplication);
    ImmutableKept(p, g, h, t);
    assert Lookup(h.nodes[t].fields, SubgoalCount) == Lookup(g.nodes[t].fields, SubgoalCount);
    FinalValueHolds(g, p.ops, t, SubgoalCount);
    assert IsTacticNode(g, t) && Conserved(g, t);
    var order :| ChildrenInOrder(g, t, order) && Get(g.nodes[t].fields, SubgoalCount) == Num(|order|);
    WholeLists(g, t, order);
    ListsLength(g, Children(g, t), t, order);
  }

  lemma {:induction false} NewCountAgrees(g: Graph, p: Proposal, h: Graph, t: Id)
    requires Step(g, p, h) && NodesDisciplined(p, g) && TacticsFresh(p.ops, g) && ObligationsHold(g)
    requires ObligationEdgesLand(p.ops, g) && WillBeTactic(g, p.ops, t) && t !in g.nodes
    ensures CountsAgree(g, p.ops, t)
  {
    NodeAfter(g, p.ops, t);
    FinalValueHolds(g, p.ops, t, SubgoalCount);
    DeclaredCountHolds(g, p, h, t);
    AddedAreEntries(g, p, h, t);
    assert Children(g, t) == {} by {
      assert forall e :: e in Children(g, t) ==> IsTacticNode(g, g.edges[e].src);
    }
    assert {} + AddedChildren(p.ops, t) == AddedChildren(p.ops, t);
  }

  /** The orphan check: a tactic this proposal does not create gains no child. */
  lemma {:induction false} NoOrphans(p: Proposal, g: Graph, tactic: Id)
    requires Accepted(p, g) && TacticsFresh(p.ops, g) && tactic in g.nodes
    ensures forall op :: op in p.ops ==> !IsEdgeOf(op, FormalRequires, tactic)
  {
    LastTacticIsAnUpsert(p.ops, tactic);
    assert SubgoalRejections(p.ops, tactic) == {};
    OrphansAreReported(p.ops, FormalRequires, OrphanSubgoalEdge, tactic);
    EntriesAreTheEdges(p.ops, FormalRequires, tactic);
  }

  lemma {:induction false} ParentIsNew(p: Proposal, g: Graph, op: Op)
    requires Accepted(p, g) && TacticsFresh(p.ops, g) && op in p.ops && IsEdge(op, FormalRequires)
    ensures op.src !in g.nodes
  {
    if op.src in g.nodes {
      NoOrphans(p, g, op.src);
      assert false;
    }
  }

  lemma {:induction false} OrphansAreReported(ops: seq<Op>, rel: Rel, reason: Reason, id: Id)
    ensures LastTactic(ops, id).None? && EdgesOf(ops, rel, id) != [] ==>
              OrphanRejections(ops, rel, reason, id) != {}
  {
    if LastTactic(ops, id).None? && EdgesOf(ops, rel, id) != [] {
      assert Rejection(reason, Some(EdgesOf(ops, rel, id)[0].index)) in
        OrphanRejections(ops, rel, reason, id);
    }
  }

  /** The entries collected for a source are its added edges of that type, one entry for each
      op and in op order. */
  lemma {:induction false} EntriesAreTheEdges(ops: seq<Op>, rel: Rel, src: Id)
    ensures var entries := EdgesOf(ops, rel, src);
            && (forall k :: 0 <= k < |entries| ==>
                  entries[k].index < |ops| && IsEdgeOf(ops[entries[k].index], rel, src) &&
                  entries[k].target == ops[entries[k].index].dst &&
                  entries[k].position == Get(ops[entries[k].index].fields, ChildIndex))
            && (forall j, k :: 0 <= j < k < |entries| ==> entries[j].index < entries[k].index)
            && (forall op :: op in ops && IsEdgeOf(op, rel, src) ==>
                  exists k :: 0 <= k < |entries| && ops[entries[k].index] == op)
  {
    if ops != [] {
      var before := ops[..|ops| - 1];
      EntriesAreTheEdges(before, rel, src);
      var prior, entries := EdgesOf(before, rel, src), EdgesOf(ops, rel, src);
      forall op | op in ops && IsEdgeOf(op, rel, src)
        ensures exists k :: 0 <= k < |entries| && ops[entries[k].index] == op
      {
        if op in before {
          var k :| 0 <= k < |prior| && before[prior[k].index] == op;
          assert entries[k] == prior[k] && ops[prior[k].index] == op;
        } else {
          assert entries[|prior|].index == |ops| - 1;
        }
      }
    }
  }

  lemma {:induction false} ArityPasses(ops: seq<Op>, t: Id, fields: Fields)
    requires SubgoalClean(ops)
    requires LastTactic(ops, t).Some? && LastTactic(ops, t).value.fields == fields
    ensures ArityReasons(Get(fields, SubgoalCount), EdgesOf(ops, FormalRequires, t)) == {}
  {
    var reasons := ArityReasons(Get(fields, SubgoalCount), EdgesOf(ops, FormalRequires, t));
    assert SubgoalRejections(ops, t) == {};
    forall r | r in reasons
      ensures Rejection(r, Some(LastTactic(ops, t).value.index)) in SubgoalRejections(ops, t)
    {
    }
  }

  lemma {:induction false} AddedAreEntries(g: Graph, p: Proposal, h: Graph, t: Id)
    requires Step(g, p, h) && ObligationEdgesLand(p.ops, g) && LastTactic(p.ops, t).Some?
    ensures |AddedChildren(p.ops, t)| == |EdgesOf(p.ops, FormalRequires, t)|
  {
    var order := AddedLists(g, p, h, t);
    ListsLength(h, AddedChildren(p.ops, t), t, order);
    var fields := LastTactic(p.ops, t).value.fields;
    ArityPasses(p.ops, t, fields);
    ArityCheckMeans(Get(fields, SubgoalCount), EdgesOf(p.ops, FormalRequires, t));
  }

  // ---- necessity: conservation afterwards means the edges landed ----

  lemma {:induction false} OrderIsDistinct(g: Graph, t: Id, order: seq<Id>)
    requires ChildrenInOrder(g, t, order)
    ensures NoDuplicates(order)
  {
    forall j, k | 0 <= j < k < |order|
      ensures order[j] != order[k]
    {
      assert g.edges[order[j]].dst != g.edges[order[k]].dst;
    }
  }

  /** A sequence of distinct members of a set as large as the set reaches every member. */
  lemma {:induction false} DistinctFillsSet<T>(s: seq<T>, all: set<T>, x: T)
    requires NoDuplicates(s) && (forall y :: y in s ==> y in all)
    requires |all| <= |s| && x in all
    ensures x in s
  {
    var image := set y | y in s;
    DistinctLength(s, image);
    if x !in s {
      SubsetSize(image, all - {x});
    }
  }

  lemma {:induction false} CommittedChildSurvives(g: Graph, p: Proposal, h: Graph, e: Id)
    requires Step(g, p, h) && NodesDisciplined(p, g) && TacticsFresh(p.ops, g)
    requires ObligationsHold(g) && ObligationsHold(h)
    requires e in g.edges && g.edges[e].rel == FormalRequires
    ensures EdgeOf(h, e) == EdgeOf(g, e)
  {
    var t := g.edges[e].src;
    assert IsTacticNode(g, t) && Conserved(g, t);
    ImmutableKept(p, g, h, t);
    assert SubgoalCount in ImmutableFields(TacticApplication);
    assert Lookup(h.nodes[t].fields, SubgoalCount) == Lookup(g.nodes[t].fields, SubgoalCount);
    assert IsTacticNode(h, t) && Conserved(h, t);
    var was :| ChildrenInOrder(g, t, was) && Get(g.nodes[t].fields, SubgoalCount) == Num(|was|);
    var now :| ChildrenInOrder(h, t, now) && Get(h.nodes[t].fields, SubgoalCount) == Num(|now|);
    NoOrphans(p, g, t);
    forall k | 0 <= k < |now|
      ensures now[k] in was && g.edges[now[k]] == h.edges[now[k]]
    {
      ChildHasSource(g, p, h, now[k]);
    }
    OrderIsDistinct(g, t, was);
    OrderIsDistinct(h, t, now);
    DistinctLength(was, (set x | x in was));
    DistinctFillsSet(now, (set x | x in was), e);
  }

  lemma {:induction false} AddedChildLanded(g: Graph, p: Proposal, h: Graph, op: Op)
    requires Step(g, p, h) && NodesDisciplined(p, g) && TacticsFresh(p.ops, g)
    requires ObligationsHold(g) && ObligationsHold(h)
    requires op in p.ops && IsEdge(op, FormalRequires)
    ensures EdgeOf(h, op.eid) == Some(Edge(op.rel, op.src, op.dst, op.fields))
  {
    var t := op.src;
    AcceptedAddition(p, g, op);
    LabelIsLabelAfter(p, g, h, t);
    ParentIsNew(p, g, op);
    assert IsTacticNode(h, t) && Conserved(h, t);
    var now :| ChildrenInOrder(h, t, now) && Get(h.nodes[t].fields, SubgoalCount) == Num(|now|);
    var entries := EdgesOf(p.ops, FormalRequires, t);
    assert |entries| == |now| by {
      DeclaredCountHolds(g, p, h, t);
    }
    EntriesAreTheEdges(p.ops, FormalRequires, t);
    var j :| 0 <= j < |entries| && p.ops[entries[j].index] == op;
    LandedEntry(g, p, h, t, now, j);
  }

  lemma {:induction false} DeclaredCountHolds(g: Graph, p: Proposal, h: Graph, t: Id)
    requires Step(g, p, h) && NodesDisciplined(p, g) && IsTacticNode(h, t) && t !in g.nodes
    ensures LastTactic(p.ops, t).Some?
    ensures Get(h.nodes[t].fields, SubgoalCount) == Num(|EdgesOf(p.ops, FormalRequires, t)|)
  {
    var up := NewNode(p, g, h, t);
    LastTacticIsAnUpsert(p.ops, t);
    var last :| last in p.ops && IsTactic(last) && last.id == t &&
      last.fields == LastTactic(p.ops, t).value.fields;
    OneUpsert(p.ops, up, last);
    ArityPasses(p.ops, t, up.fields);
    ArityCheckMeans(Get(up.fields, SubgoalCount), EdgesOf(p.ops, FormalRequires, t));
    assert SubgoalCount in ImmutableFields(TacticApplication);
    assert Lookup(h.nodes[t].fields, SubgoalCount) == Lookup(up.fields, SubgoalCount);
  }

  ghost function LandedAs(p: Proposal, h: Graph, t: Id, e: Id): (j: nat)
    requires exists j :: IsLanded(p, h, t, e, j)
    ensures IsLanded(p, h, t, e, j)
  {
    var j :| IsLanded(p, h, t, e, j);
    j
  }

  /** Edge `e` of the result is the j-th required child the proposal gives tactic `t`. */
  ghost predicate IsLanded(p: Proposal, h: Graph, t: Id, e: Id, j: nat) {
    var entries := EdgesOf(p.ops, FormalRequires, t);
    && j < |entries| && entries[j].index < |p.ops| && e in h.edges
    && var op := p.ops[entries[j].index];
       op.AddEdge? && op.eid == e && h.edges[e] == Edge(op.rel, op.src, op.dst, op.fields)
  }

  lemma {:induction false} LandedEntry(g: Graph, p: Proposal, h: Graph, t: Id, now: seq<Id>, j: nat)
    requires Step(g, p, h) && ObligationsHold(g) && t !in g.nodes
    requires ChildrenInOrder(h, t, now) && |EdgesOf(p.ops, FormalRequires, t)| == |now|
    requires j < |now|
    ensures exists k :: 0 <= k < |now| && IsLanded(p, h, t, now[k], j)
  {
    forall k | 0 <= k < |now|
      ensures exists i :: IsLanded(p, h, t, now[k], i)
    {
      ChildHasSource(g, p, h, now[k]);
      var op :| op in p.ops && IsEdge(op, FormalRequires) && op.eid == now[k] &&
        h.edges[now[k]] == Edge(op.rel, op.src, op.dst, op.fields);
      EntriesAreTheEdges(p.ops, FormalRequires, t);
      var entries := EdgesOf(p.ops, FormalRequires, t);
      var i :| 0 <= i < |entries| && p.ops[entries[i].index] == op;
      assert IsLanded(p, h, t, now[k], i);
    }
    var landed := seq(|now|, k requires 0 <= k < |now| => LandedAs(p, h, t, now[k]));
    OrderIsDistinct(h, t, now);
    assert NoDuplicates(landed);
    InjectionIsOnto(landed, j);
  }
}
