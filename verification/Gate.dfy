/** The gate as a transition system: validate against the committed graph, then apply. */
module Gate {
  import opened Vocabulary
  import opened Ops
  import opened Transitions
  import opened GraphState
  import opened Apply
  import opened Rules

  /** The gate accepts a proposal against `g` and the view becomes `h`: what the loop built, or what it
      had built when a SetField raised. */
  ghost predicate Commits(g: Graph, p: Proposal, h: Graph) {
    Accepted(p, g) && h == ApplyOps(g, p.ops).graph
  }

  /** A commit whose application did not raise. */
  ghost predicate Step(g: Graph, p: Proposal, h: Graph) {
    Accepted(p, g) && ApplyOps(g, p.ops) == Outcome(h, true)
  }

  /** The graphs of a run, from the empty graph, and the proposals committed between them. */
  ghost predicate IsRun(graphs: seq<Graph>, proposals: seq<Proposal>) {
    && |graphs| == |proposals| + 1
    && graphs[0] == EMPTY_GRAPH
    && forall k :: 0 <= k < |proposals| ==> Commits(graphs[k], proposals[k], graphs[k + 1])
  }

  lemma {:induction false} RunPrefix(graphs: seq<Graph>, proposals: seq<Proposal>)
    requires IsRun(graphs, proposals) && proposals != []
    ensures IsRun(graphs[..|proposals|], proposals[..|proposals| - 1])
    ensures Commits(graphs[|proposals| - 1], proposals[|proposals| - 1], graphs[|proposals|])
  {
    var n := |proposals| - 1;
    forall k | 0 <= k < n
      ensures Commits(graphs[..n + 1][k], proposals[..n][k], graphs[..n + 1][k + 1])
    {
      assert Commits(graphs[k], proposals[k], graphs[k + 1]);
    }
    assert Commits(graphs[n], proposals[n], graphs[n + 1]);
  }

  lemma {:induction false} RunGrows(graphs: seq<Graph>, proposals: seq<Proposal>, p: Proposal, h: Graph)
    requires IsRun(graphs, proposals) && Commits(graphs[|proposals|], p, h)
    ensures IsRun(graphs + [h], proposals + [p])
  {
    var longer, more := graphs + [h], proposals + [p];
    forall k | 0 <= k < |more|
      ensures Commits(longer[k], more[k], longer[k + 1])
    {
      if k < |proposals| {
        assert longer[k] == graphs[k] && longer[k + 1] == graphs[k + 1] && more[k] == proposals[k];
      } else {
        assert longer[k] == graphs[|proposals|] && longer[k + 1] == h && more[k] == p;
      }
    }
  }

  // ---- the discipline the code leaves to proposers ----

  predicate UpsertsOnce(ops: seq<Op>) {
    forall i, j :: 0 <= i < j < |ops| && ops[i].UpsertNode? && ops[j].UpsertNode? ==>
      ops[i].id != ops[j].id
  }

  predicate LabelsKept(ops: seq<Op>, g: Graph) {
    forall op :: op in ops && op.UpsertNode? && op.id in g.nodes ==> op.lab == g.nodes[op.id].lab
  }

  predicate TacticsFresh(ops: seq<Op>, g: Graph) {
    forall op :: op in ops && IsTactic(op) ==> op.id !in g.nodes
  }

  predicate EdgeIdsFresh(ops: seq<Op>, g: Graph) {
    && (forall op :: op in ops && op.AddEdge? ==> op.eid !in g.edges)
    && (forall i, j :: 0 <= i < j < |ops| && ops[i].AddEdge? && ops[j].AddEdge? ==>
          ops[i].eid != ops[j].eid)
  }

  /** Evidence edges do not point at content-addressed ids, which may be unknown when linked. */
  predicate EvidenceLocal(ops: seq<Op>) {
    forall op :: op in ops && (IsEdge(op, ProvedBy) || IsEdge(op, ReplayedBy)) ==>
      !IsContentAddressed(op.dst)
  }

  /** Discipline on nodes alone, and with the discipline on edges. */
  predicate NodesDisciplined(p: Proposal, g: Graph) {
    UpsertsOnce(p.ops) && LabelsKept(p.ops, g)
  }

  predicate Disciplined(p: Proposal, g: Graph) {
    NodesDisciplined(p, g) && TacticsFresh(p.ops, g) && EdgeIdsFresh(p.ops, g)
  }

  /** A SetField names a committed node or one upserted earlier in the proposal. */
  predicate SetsFollowUpserts(ops: seq<Op>, g: Graph) {
    forall i :: 0 <= i < |ops| && ops[i].SetField? ==>
      ops[i].id in g.nodes || exists j :: 0 <= j < i && Upserts(ops[j], ops[i].id)
  }

  /** Every proposal of the run sets only what exists by then. */
  predicate SetsFollowThroughout(graphs: seq<Graph>, proposals: seq<Proposal>)
    requires |graphs| == |proposals| + 1
  {
    forall k :: 0 <= k < |proposals| ==> SetsFollowUpserts(proposals[k].ops, graphs[k])
  }

  /** A run in which no application raises. */
  ghost predicate IsSmoothRun(graphs: seq<Graph>, proposals: seq<Proposal>) {
    IsRun(graphs, proposals) && SetsFollowThroughout(graphs, proposals)
  }

  /** A commit is a step exactly when its sets follow their upserts. */
  lemma {:induction false} StepIffSetsFollow(g: Graph, p: Proposal, h: Graph)
    ensures Step(g, p, h) <==> Commits(g, p, h) && SetsFollowUpserts(p.ops, g)
  {
    AppliesIffSetsFollowUpserts(g, p.ops);
  }

  lemma {:induction false} SmoothStep(graphs: seq<Graph>, proposals: seq<Proposal>, k: nat)
    requires IsSmoothRun(graphs, proposals) && k < |proposals|
    ensures Step(graphs[k], proposals[k], graphs[k + 1])
  {
    assert Commits(graphs[k], proposals[k], graphs[k + 1]);
    StepIffSetsFollow(graphs[k], proposals[k], graphs[k + 1]);
  }

  // ---- facts every invariant uses ----

  lemma {:induction false} CreatedLabelIsAnUpsert(ops: seq<Op>, id: Id)
    ensures CreatedLabel(ops, id).Some? <==> exists op :: op in ops && Upserts(op, id)
    ensures CreatedLabel(ops, id).Some? ==>
              exists op :: op in ops && Upserts(op, id) && op.lab == CreatedLabel(ops, id).value
  {
    if ops != [] {
      CreatedLabelIsAnUpsert(ops[..|ops| - 1], id);
      assert ops == ops[..|ops| - 1] + [ops[|ops| - 1]];
    }
  }

  lemma {:induction false} AddedRelIsAnAddition(ops: seq<Op>, eid: Id)
    ensures AddedRel(ops, eid).Some? <==> exists op :: op in ops && Adds(op, eid)
    ensures AddedRel(ops, eid).Some? ==>
              exists op :: op in ops && Adds(op, eid) && op.rel == AddedRel(ops, eid).value
  {
    if ops != [] {
      AddedRelIsAnAddition(ops[..|ops| - 1], eid);
      assert ops == ops[..|ops| - 1] + [ops[|ops| - 1]];
    }
  }

  lemma {:induction false} LastTacticIsAnUpsert(ops: seq<Op>, id: Id)
    ensures LastTactic(ops, id).Some? <==> exists op :: op in ops && IsTactic(op) && op.id == id
    ensures LastTactic(ops, id).Some? ==>
              exists op :: op in ops && IsTactic(op) && op.id == id &&
                op.fields == LastTactic(ops, id).value.fields
  {
    if ops != [] {
      LastTacticIsAnUpsert(ops[..|ops| - 1], id);
      assert ops == ops[..|ops| - 1] + [ops[|ops| - 1]];
    }
  }

  lemma {:induction false} OneUpsert(ops: seq<Op>, a: Op, b: Op)
    requires UpsertsOnce(ops) && a in ops && b in ops
    requires a.UpsertNode? && b.UpsertNode? && a.id == b.id
    ensures a == b
  {
    var i :| 0 <= i < |ops| && ops[i] == a;
    var j :| 0 <= j < |ops| && ops[j] == b;
  }

  lemma {:induction false} OneAddition(ops: seq<Op>, g: Graph, a: Op, b: Op)
    requires EdgeIdsFresh(ops, g) && a in ops && b in ops
    requires a.AddEdge? && b.AddEdge? && a.eid == b.eid
    ensures a == b
  {
    var i :| 0 <= i < |ops| && ops[i] == a;
    var j :| 0 <= j < |ops| && ops[j] == b;
  }

  /** Every op of an accepted proposal is clean. */
  lemma {:induction false} AcceptedOp(p: Proposal, g: Graph, op: Op) returns (i: nat)
    requires Accepted(p, g) && op in p.ops
    ensures i < |p.ops| && p.ops[i] == op
    ensures StatelessDefects(p, i) == {} && StatefulDefects(p, g, i) == {}
    ensures ReferenceDefects(p.ops, g, i) == {}
  {
    i :| 0 <= i < |p.ops| && p.ops[i] == op;
    assert StatelessDefects(p, i) == {};
    assert ReferenceDefects(p.ops, g, i) <= StatefulDefects(p, g, i);
  }

  /** An accepted SetField names a known node by its label, and a mutable field. */
  lemma {:induction false} AcceptedSet(p: Proposal, g: Graph, op: Op)
    requires Accepted(p, g) && op in p.ops && op.SetField?
    ensures LabelOf(p.ops, g, op.id) == Some(op.lab)
    ensures op.field !in ImmutableFields(op.lab)
    ensures TransitionDefects(g, op) == {} && ReplayDefects(p.ops, g, op) == {}
    ensures AlignmentDefects(p.ops, g, op) == {}
  {
    var i := AcceptedOp(p, g, op);
    assert UnknownNode !in ReferenceDefects(p.ops, g, i);
    assert NodeAlreadyExistsWithLabel !in ReferenceDefects(p.ops, g, i);
    assert ImmutableFieldOverwrite !in StatefulDefects(p, g, i);
    assert TransitionDefects(g, op) <= StatefulDefects(p, g, i);
    assert ReplayDefects(p.ops, g, op) <= StatefulDefects(p, g, i);
    assert AlignmentDefects(p.ops, g, op) <= StatefulDefects(p, g, i);
  }

  /** An accepted AddEdge joins known ends, of the labels its type requires. */
  lemma {:induction false} AcceptedAddition(p: Proposal, g: Graph, op: Op)
    requires Accepted(p, g) && op in p.ops && op.AddEdge?
    ensures LabelOf(p.ops, g, op.src).Some?
    ensures LabelOf(p.ops, g, op.dst).Some? || IsContentAddressed(op.dst)
    ensures EndpointsOf(op.rel).Some? ==>
              && LabelOf(p.ops, g, op.src).value == EndpointsOf(op.rel).value.0
              && (LabelOf(p.ops, g, op.dst).Some? ==>
                    LabelOf(p.ops, g, op.dst).value == EndpointsOf(op.rel).value.1)
    ensures SelfCertificationDefects(p.ops, g, op) == {}
  {
    var i := AcceptedOp(p, g, op);
    assert UnknownNode !in ReferenceDefects(p.ops, g, i);
    assert EdgeEndpointTypeInvalid !in ReferenceDefects(p.ops, g, i);
    assert SelfCertificationDefects(p.ops, g, op) <= StatefulDefects(p, g, i);
  }

  /** What the validator takes a node's label to be is its label afterwards. */
  lemma {:induction false} LabelIsLabelAfter(p: Proposal, g: Graph, h: Graph, id: Id)
    requires Step(g, p, h) && NodesDisciplined(p, g)
    ensures LabelOf(p.ops, g, id) == if id in h.nodes then Some(h.nodes[id].lab) else None
  {
    NodeAfter(g, p.ops, id);
    CreatedLabelIsAnUpsert(p.ops, id);
    FirstUpsertIsAnOp(p.ops, id);
    if CreatedLabel(p.ops, id).Some? {
      var a :| a in p.ops && Upserts(a, id) && a.lab == CreatedLabel(p.ops, id).value;
      var b :| b in p.ops && Upserts(b, id) && Node(b.lab, b.fields) == FirstUpsert(p.ops, id).value;
      OneUpsert(p.ops, a, b);
    }
  }

  lemma {:induction false} KeptLabelIsKnown(p: Proposal, g: Graph, id: Id)
    requires LabelsKept(p.ops, g) && id in g.nodes
    ensures LabelOf(p.ops, g, id) == Some(g.nodes[id].lab)
  {
    CreatedLabelIsAnUpsert(p.ops, id);
  }

  lemma {:induction false} CommittedStays(p: Proposal, g: Graph, h: Graph, id: Id)
    requires Commits(g, p, h) && id in g.nodes
    ensures id in h.nodes && h.nodes[id].lab == g.nodes[id].lab
  {
    var done := AppliedPrefix(g, p.ops);
    NodeAfter(g, done, id);
  }

  /** Wherever an application stops, a node there has the label it started with, and a field ends as it
      started or as some op wrote it. */
  lemma {:induction false} FieldAfterCommit(p: Proposal, g: Graph, h: Graph, id: Id, name: Field)
    requires Commits(g, p, h) && id in h.nodes
    ensures Origin(g, p.ops, id).Some? && h.nodes[id].lab == Origin(g, p.ops, id).value.lab
    ensures Lookup(h.nodes[id].fields, name) == Lookup(Origin(g, p.ops, id).value.fields, name) ||
            exists op :: op in p.ops && Sets(op, id, name) &&
              Lookup(h.nodes[id].fields, name) == Some(op.value)
  {
    var done := AppliedPrefix(g, p.ops);
    NodeAfter(g, done, id);
    FirstUpsertOfPrefix(done, p.ops, id);
    if LastSet(done, id, name).Some? {
      LastSetIsAnOp(done, id, name);
      var op :| op in done && Sets(op, id, name) && op.value == LastSet(done, id, name).value;
      assert op in p.ops;
    }
  }

  lemma {:induction false} FirstUpsertOfPrefix(done: seq<Op>, ops: seq<Op>, id: Id)
    requires done <= ops
    ensures FirstUpsert(done, id).Some? ==> FirstUpsert(ops, id) == FirstUpsert(done, id)
  {
    if done != ops {
      FirstUpsertOfPrefix(done, ops[..|ops| - 1], id);
    }
  }

  /** Under the node rules, the label the validators assume is the label of the node, if it got there. */
  lemma {:induction false} LabelAfterCommit(p: Proposal, g: Graph, h: Graph, id: Id)
    requires Commits(g, p, h) && NodesDisciplined(p, g) && id in h.nodes
    ensures LabelOf(p.ops, g, id) == Some(h.nodes[id].lab)
  {
    FieldAfterCommit(p, g, h, id, Status);
    CreatedLabelIsAnUpsert(p.ops, id);
    FirstUpsertIsAnOp(p.ops, id);
    if id !in g.nodes {
      var a :| a in p.ops && Upserts(a, id) && a.lab == CreatedLabel(p.ops, id).value;
      var b :| b in p.ops && Upserts(b, id) && Node(b.lab, b.fields) == FirstUpsert(p.ops, id).value;
      OneUpsert(p.ops, a, b);
    }
  }

  /** A committed node stays and keeps its label and its immutable fields, whatever ids are upserted
      twice and wherever the application raises, as long as upserts name the committed label. */
  lemma {:induction false} ImmutableKept(p: Proposal, g: Graph, h: Graph, id: Id)
    requires Commits(g, p, h) && LabelsKept(p.ops, g) && id in g.nodes
    ensures id in h.nodes && h.nodes[id].lab == g.nodes[id].lab
    ensures forall name :: name in ImmutableFields(g.nodes[id].lab) ==>
              Lookup(h.nodes[id].fields, name) == Lookup(g.nodes[id].fields, name)
  {
    KeptLabelIsKnown(p, g, id);
    CommittedStays(p, g, h, id);
    forall name | name in ImmutableFields(g.nodes[id].lab)
      ensures Lookup(h.nodes[id].fields, name) == Lookup(g.nodes[id].fields, name)
    {
      FieldAfterCommit(p, g, h, id, name);
      forall op | op in p.ops
        ensures !Sets(op, id, name)
      {
        if Sets(op, id, name) {
          AcceptedSet(p, g, op);
        }
      }
    }
  }

  /** With no rule at all: an immutable field of a committed node is kept exactly when the last write to
      it, if there is one, writes what it holds, and the gate lets a write through only where the last
      upsert of the node names another label. */
  lemma {:induction false} ImmutableIffNotRewritten(p: Proposal, g: Graph, h: Graph, id: Id, name: Field)
    requires Step(g, p, h) && id in g.nodes && name in ImmutableFields(g.nodes[id].lab)
    ensures id in h.nodes
    ensures Lookup(h.nodes[id].fields, name) == Lookup(g.nodes[id].fields, name) <==>
            (LastSet(p.ops, id, name).Some? ==> LastSet(p.ops, id, name) == Lookup(g.nodes[id].fields, name))
    ensures LastSet(p.ops, id, name).Some? ==>
              CreatedLabel(p.ops, id).Some? && CreatedLabel(p.ops, id).value != g.nodes[id].lab
  {
    NodeAfter(g, p.ops, id);
    if LastSet(p.ops, id, name).Some? {
      LastSetIsAnOp(p.ops, id, name);
      var op :| op in p.ops && Sets(op, id, name) && op.value == LastSet(p.ops, id, name).value;
      AcceptedSet(p, g, op);
    }
  }

  /** A node new in `h` carries its upsert's label and immutable fields. */
  lemma {:induction false} NewNode(p: Proposal, g: Graph, h: Graph, id: Id) returns (up: Op)
    requires Commits(g, p, h) && NodesDisciplined(p, g) && id in h.nodes && id !in g.nodes
    ensures up in p.ops && Upserts(up, id) && up.lab == h.nodes[id].lab
    ensures FirstUpsert(p.ops, id) == Some(Node(up.lab, up.fields))
    ensures forall name :: name in ImmutableFields(up.lab) ==>
              Lookup(h.nodes[id].fields, name) == Lookup(up.fields, name)
  {
    FieldAfterCommit(p, g, h, id, Status);
    LabelAfterCommit(p, g, h, id);
    FirstUpsertIsAnOp(p.ops, id);
    up :| up in p.ops && Upserts(up, id) && Node(up.lab, up.fields) == FirstUpsert(p.ops, id).value;
    forall name | name in ImmutableFields(up.lab)
      ensures Lookup(h.nodes[id].fields, name) == Lookup(up.fields, name)
    {
      FieldAfterCommit(p, g, h, id, name);
      forall op | op in p.ops
        ensures !Sets(op, id, name)
      {
        if Sets(op, id, name) {
          AcceptedSet(p, g, op);
        }
      }
    }
  }

  /** A removal removes an edge of the type it names. */
  lemma {:induction false} RemovalNamesTheType(p: Proposal, g: Graph, op: Op)
    requires Accepted(p, g) && EdgeIdsFresh(p.ops, g) && op in p.ops && op.RemoveEdge?
    ensures op.eid in g.edges ==> g.edges[op.eid].rel == op.rel
    ensures forall add :: add in p.ops && Adds(add, op.eid) ==> add.rel == op.rel
  {
    var i := AcceptedOp(p, g, op);
    assert UnknownEdge !in ReferenceDefects(p.ops, g, i);
    AddedRelIsAnAddition(p.ops, op.eid);
    forall add | add in p.ops && Adds(add, op.eid)
      ensures add.rel == op.rel
    {
      var other :| other in p.ops && Adds(other, op.eid) && other.rel == AddedRel(p.ops, op.eid).value;
      OneAddition(p.ops, g, add, other);
    }
  }

  /** When nothing removes edges of a type, the edges of that type are the old ones and the
      added ones. */
  lemma {:induction false} EdgesOfTypeAfter(p: Proposal, g: Graph, h: Graph, rel: Rel)
    requires Step(g, p, h) && EdgeIdsFresh(p.ops, g)
    requires forall op :: op in p.ops && op.RemoveEdge? ==> op.rel != rel
    ensures forall e :: e in g.edges && g.edges[e].rel == rel ==> e in h.edges && h.edges[e] == g.edges[e]
    ensures forall op :: op in p.ops && IsEdge(op, rel) ==>
              op.eid in h.edges && h.edges[op.eid] == Edge(rel, op.src, op.dst, op.fields)
    ensures forall e :: e in h.edges && h.edges[e].rel == rel && e !in g.edges ==>
              exists op :: op in p.ops && IsEdge(op, rel) && op.eid == e
    ensures forall e :: e in h.edges && h.edges[e].rel == rel && e in g.edges ==> h.edges[e] == g.edges[e]
  {
    forall e | e in g.edges && g.edges[e].rel == rel
      ensures e in h.edges && h.edges[e] == g.edges[e]
    {
      forall op | op in p.ops
        ensures !Removes(op, e)
      {
        if Removes(op, e) {
          RemovalNamesTheType(p, g, op);
        }
      }
      EdgeAfter(g, p.ops, e);
      EdgeSurvives(p.ops, e, EdgeOf(g, e));
    }
    forall add | add in p.ops && IsEdge(add, rel)
      ensures add.eid in h.edges && h.edges[add.eid] == Edge(rel, add.src, add.dst, add.fields)
    {
      AddedEdgeAppears(p, g, h, add);
    }
    forall e | e in h.edges && h.edges[e].rel == rel
      ensures e !in g.edges ==> exists op :: op in p.ops && IsEdge(op, rel) && op.eid == e
      ensures e in g.edges ==> h.edges[e] == g.edges[e]
    {
      EdgeAfter(g, p.ops, e);
      EdgeIsCommittedOrAdded(p.ops, e, EdgeOf(g, e));
    }
  }

  lemma {:induction false} AddedEdgeAppears(p: Proposal, g: Graph, h: Graph, add: Op)
    requires Step(g, p, h) && EdgeIdsFresh(p.ops, g) && add in p.ops && add.AddEdge?
    requires forall op :: op in p.ops && op.RemoveEdge? ==> op.rel != add.rel
    ensures add.eid in h.edges && h.edges[add.eid] == Edge(add.rel, add.src, add.dst, add.fields)
  {
    forall op | op in p.ops
      ensures !Removes(op, add.eid)
    {
      if Removes(op, add.eid) {
        RemovalNamesTheType(p, g, op);
      }
    }
    EdgeAfter(g, p.ops, add.eid);
    EdgeSurvives(p.ops, add.eid, EdgeOf(g, add.eid));
    assert Adds(add, add.eid);
    EdgeIsCommittedOrAdded(p.ops, add.eid, EdgeOf(g, add.eid));
    var op :| op in p.ops && Adds(op, add.eid) &&
      EdgeFate(p.ops, add.eid, None) == Some(Edge(op.rel, op.src, op.dst, op.fields));
    OneAddition(p.ops, g, add, op);
  }

  /** Whatever is removed, an edge of the result was committed as it is or added as it is. */
  lemma {:induction false} EdgeHasSource(p: Proposal, g: Graph, h: Graph, e: Id)
    requires Step(g, p, h) && e in h.edges
    ensures (e in g.edges && g.edges[e] == h.edges[e]) ||
            exists op :: op in p.ops && Adds(op, e) &&
              h.edges[e] == Edge(op.rel, op.src, op.dst, op.fields)
  {
    EdgeAfter(g, p.ops, e);
    EdgeIsCommittedOrAdded(p.ops, e, EdgeOf(g, e));
  }

  /** Ops apply without an error exactly when each SetField names a node that is committed or upserted
      before it. */
  lemma {:induction false} AppliesIffSetsFollowUpserts(g: Graph, ops: seq<Op>)
    ensures ApplyOps(g, ops).ok <==> SetsFollowUpserts(ops, g)
  {
    if ops != [] {
      var before, op := ops[..|ops| - 1], ops[|ops| - 1];
      AppliesIffSetsFollowUpserts(g, before);
      if ApplyOps(g, before).ok && op.SetField? {
        NodeAfter(g, before, op.id);
        FirstUpsertIsAnOp(before, op.id);
        assert op.id in ApplyOps(g, before).graph.nodes <==>
          op.id in g.nodes || exists j :: 0 <= j < |before| && Upserts(ops[j], op.id);
      }
      assert SetsFollowUpserts(ops, g) ==> SetsFollowUpserts(before, g) by {
        if SetsFollowUpserts(ops, g) {
          forall i | 0 <= i < |before| && before[i].SetField?
            ensures before[i].id in g.nodes || exists j :: 0 <= j < i && Upserts(before[j], before[i].id)
          {
            assert ops[i] == before[i];
          }
        }
      }
    }
  }
}
