/** Applying ops to a view, and where every node, field and edge of the result comes from. */
module Apply {
  import opened Vocabulary
  import opened Ops
  import opened GraphState

  /** `ok` is false when a SetField met an unknown node; `graph` is then what was built so far. */
  datatype Outcome = Outcome(graph: Graph, ok: bool)

  function ApplyOp(g: Graph, op: Op): Outcome {
    match op
    case UpsertNode(lab, id, fields) =>
      Outcome(if id in g.nodes then g else g.(nodes := g.nodes[id := Node(lab, fields)]), true)
    case SetField(_, id, name, value, _) =>
      if id !in g.nodes then Outcome(g, false)
      else
        Outcome(g.(nodes := g.nodes[id :=
                  Node(g.nodes[id].lab, g.nodes[id].fields[name := value])]), true)
    case AddEdge(rel, src, dst, eid, fields) =>
      Outcome(if eid in g.edges then g
              else g.(edges := g.edges[eid := Edge(rel, src, dst, fields)]), true)
    case RemoveEdge(_, eid) => Outcome(g.(edges := g.edges - {eid}), true)
  }

  function ApplyOps(g: Graph, ops: seq<Op>): Outcome {
    if ops == [] then Outcome(g, true)
    else
      var before := ApplyOps(g, ops[..|ops| - 1]);
      if !before.ok then before else ApplyOp(before.graph, ops[|ops| - 1])
  }

  /** `apply_ops`: `ok` is false where the program raises ValueError. */
  method ApplyToView(view: MemoryView, ops: seq<Op>) returns (ok: bool)
    requires view.Valid()
    modifies view
    ensures view.Valid()
    ensures Outcome(view.Contents(), ok) == ApplyOps(old(view.Contents()), ops)
  {
    ghost var start := view.Contents();
    for i := 0 to |ops|
      invariant view.Valid()
      invariant ApplyOps(start, ops[..i]) == Outcome(view.Contents(), true)
    {
      assert ops[..i + 1][..i] == ops[..i];
      match ops[i] {
        case UpsertNode(lab, id, fields) =>
          if id !in view.nodes {
            view.AddNode(id, lab, fields);
          }
        case SetField(_, id, name, value, _) =>
          if id !in view.nodes {
            FailureSticks(start, ops, i + 1);
            return false;
          }
          view.SetField(id, name, value);
        case AddEdge(rel, src, dst, eid, fields) =>
          if eid !in view.edges {
            view.AddEdge(rel, src, dst, eid, fields);
          }
        case RemoveEdge(_, eid) =>
          view.RemoveEdge(eid);
      }
    }
    assert ops[..|ops|] == ops;
    return true;
  }

  lemma {:induction false} FailureSticks(g: Graph, ops: seq<Op>, n: nat)
    requires n <= |ops| && !ApplyOps(g, ops[..n]).ok
    ensures ApplyOps(g, ops) == ApplyOps(g, ops[..n])
  {
    if n < |ops| {
      assert ops[..|ops| - 1][..n] == ops[..n];
      FailureSticks(g, ops[..|ops| - 1], n);
    } else {
      assert ops[..n] == ops;
    }
  }

  /** The ops that took effect: all of them, or those before the one that raised. */
  lemma {:induction false} AppliedPrefix(g: Graph, ops: seq<Op>) returns (done: seq<Op>)
    ensures done <= ops && ApplyOps(g, done) == Outcome(ApplyOps(g, ops).graph, true)
  {
    if ApplyOps(g, ops).ok {
      done := ops;
    } else {
      done := AppliedPrefix(g, ops[..|ops| - 1]);
    }
  }

  lemma {:induction false} ApplyConcat(g: Graph, a: seq<Op>, b: seq<Op>)
    ensures ApplyOps(g, a + b) ==
            (var first := ApplyOps(g, a); if first.ok then ApplyOps(first.graph, b) else first)
  {
    if b == [] {
      assert a + b == a;
    } else {
      assert (a + b)[..|a + b| - 1] == a + b[..|b| - 1];
      ApplyConcat(g, a, b[..|b| - 1]);
    }
  }

  // ---- where things come from ----

  /** The first upsert of a node: the one `apply_ops` acts on when the node is new. */
  function FirstUpsert(ops: seq<Op>, id: Id): Option<Node> {
    if ops == [] then None
    else
      var before := FirstUpsert(ops[..|ops| - 1], id);
      var op := ops[|ops| - 1];
      if before.None? && Upserts(op, id) then Some(Node(op.lab, op.fields)) else before
  }

  /** The last value written to a field. */
  function LastSet(ops: seq<Op>, id: Id, name: Field): Option<Value> {
    if ops == [] then None
    else if Sets(ops[|ops| - 1], id, name) then Some(ops[|ops| - 1].value)
    else LastSet(ops[..|ops| - 1], id, name)
  }

  /** What becomes of one edge id. */
  function EdgeFate(ops: seq<Op>, eid: Id, start: Option<Edge>): Option<Edge> {
    if ops == [] then start
    else
      var before := EdgeFate(ops[..|ops| - 1], eid, start);
      var op := ops[|ops| - 1];
      if Adds(op, eid) && before.None? then Some(Edge(op.rel, op.src, op.dst, op.fields))
      else if Removes(op, eid) then None
      else before
  }

  /** The node a batch of ops starts writing fields on: the committed one, else the upserted one. */
  function Origin(g: Graph, ops: seq<Op>, id: Id): Option<Node> {
    if id in g.nodes then Some(g.nodes[id]) else FirstUpsert(ops, id)
  }

  /** The value a field ends with: the last one written, else the one the node starts with. */
  function FinalValue(g: Graph, ops: seq<Op>, id: Id, name: Field): Value
    requires Origin(g, ops, id).Some?
  {
    match LastSet(ops, id, name)
    case Some(v) => v
    case None => Get(Origin(g, ops, id).value.fields, name)
  }

  lemma {:induction false} FinalValueHolds(g: Graph, ops: seq<Op>, id: Id, name: Field)
    requires ApplyOps(g, ops).ok && Origin(g, ops, id).Some?
    ensures id in ApplyOps(g, ops).graph.nodes
    ensures Get(ApplyOps(g, ops).graph.nodes[id].fields, name) == FinalValue(g, ops, id, name)
  {
    NodeAfter(g, ops, id);
    var field := Lookup(ApplyOps(g, ops).graph.nodes[id].fields, name);
  }

  /** A node of the result is committed or upserted, keeps its first label, and each of its
      fields holds the last value written, or what the node started with. */
  lemma {:induction false} NodeAfter(g: Graph, ops: seq<Op>, id: Id)
    requires ApplyOps(g, ops).ok
    ensures var after := ApplyOps(g, ops).graph;
            var origin := Origin(g, ops, id);
            && (id in after.nodes <==> origin.Some?)
            && (id in after.nodes ==>
                  && after.nodes[id].lab == origin.value.lab
                  && forall name :: Lookup(after.nodes[id].fields, name) ==
                       (match LastSet(ops, id, name)
                        case Some(v) => Some(v)
                        case None => Lookup(origin.value.fields, name)))
    ensures id !in ApplyOps(g, ops).graph.nodes ==> forall name :: LastSet(ops, id, name).None?
  {
    if ops != [] {
      NodeAfter(g, ops[..|ops| - 1], id);
    }
  }

  lemma {:induction false} EdgeAfter(g: Graph, ops: seq<Op>, eid: Id)
    requires ApplyOps(g, ops).ok
    ensures EdgeOf(ApplyOps(g, ops).graph, eid) == EdgeFate(ops, eid, EdgeOf(g, eid))
  {
    if ops != [] {
      EdgeAfter(g, ops[..|ops| - 1], eid);
    }
  }

  lemma {:induction false} NeverSet(ops: seq<Op>, id: Id, name: Field)
    requires forall op :: op in ops ==> !Sets(op, id, name)
    ensures LastSet(ops, id, name).None?
  {
    if ops != [] {
      assert ops[|ops| - 1] in ops;
      NeverSet(ops[..|ops| - 1], id, name);
    }
  }

  lemma {:induction false} LastSetIsAnOp(ops: seq<Op>, id: Id, name: Field)
    requires LastSet(ops, id, name).Some?
    ensures exists op :: op in ops && Sets(op, id, name) && op.value == LastSet(ops, id, name).value
  {
    if Sets(ops[|ops| - 1], id, name) {
      assert ops[|ops| - 1] in ops;
    } else {
      LastSetIsAnOp(ops[..|ops| - 1], id, name);
    }
  }

  lemma {:induction false} FirstUpsertIsAnOp(ops: seq<Op>, id: Id)
    ensures FirstUpsert(ops, id).Some? <==> exists op :: op in ops && Upserts(op, id)
    ensures FirstUpsert(ops, id).Some? ==>
              exists op :: op in ops && Upserts(op, id) &&
                           Node(op.lab, op.fields) == FirstUpsert(ops, id).value
  {
    if ops != [] {
      FirstUpsertIsAnOp(ops[..|ops| - 1], id);
      assert ops == ops[..|ops| - 1] + [ops[|ops| - 1]];
    }
  }

  /** An edge of the result was committed, or some op added exactly it. */
  lemma {:induction false} EdgeIsCommittedOrAdded(ops: seq<Op>, eid: Id, start: Option<Edge>)
    requires EdgeFate(ops, eid, start).Some?
    ensures EdgeFate(ops, eid, start) == start ||
            exists op :: op in ops && Adds(op, eid) &&
              EdgeFate(ops, eid, start) == Some(Edge(op.rel, op.src, op.dst, op.fields))
  {
    if ops != [] {
      var before := EdgeFate(ops[..|ops| - 1], eid, start);
      var op := ops[|ops| - 1];
      if Adds(op, eid) && before.None? {
        assert op in ops;
      } else {
        EdgeIsCommittedOrAdded(ops[..|ops| - 1], eid, start);
      }
    }
  }

  /** An edge nobody removes stays; one that is added on a free id and never removed appears. */
  lemma {:induction false} EdgeSurvives(ops: seq<Op>, eid: Id, start: Option<Edge>)
    requires forall op :: op in ops ==> !Removes(op, eid)
    ensures start.Some? ==> EdgeFate(ops, eid, start) == start
    ensures start.None? ==> (EdgeFate(ops, eid, start).Some? <==> exists op :: op in ops && Adds(op, eid))
  {
    if ops != [] {
      assert ops[|ops| - 1] in ops;
      EdgeSurvives(ops[..|ops| - 1], eid, start);
      assert ops == ops[..|ops| - 1] + [ops[|ops| - 1]];
    }
  }

  // ---- replay ----

  /** A second pass over the same ops changes nothing. */
  lemma {:induction false} ReplayIsIdempotent(g: Graph, ops: seq<Op>)
    requires ApplyOps(g, ops).ok
    ensures ApplyOps(ApplyOps(g, ops).graph, ops) == ApplyOps(g, ops)
  {
    var once := ApplyOps(g, ops).graph;
    SecondPassSucceeds(g, once, ops);
    var twice := ApplyOps(once, ops).graph;
    forall id
      ensures id in once.nodes <==> id in twice.nodes
      ensures id in once.nodes ==> once.nodes[id] == twice.nodes[id]
    {
      NodeAfter(g, ops, id);
      NodeAfter(once, ops, id);
      if id in once.nodes {
        SameFields(once.nodes[id].fields, twice.nodes[id].fields);
      }
    }
    assert once.nodes == twice.nodes;
    forall eid
      ensures EdgeOf(once, eid) == EdgeOf(twice, eid)
    {
      EdgeAfter(g, ops, eid);
      EdgeAfter(once, ops, eid);
      EdgeFateIdempotent(ops, eid, EdgeOf(g, eid));
    }
    SameEdges(once, twice);
  }

  /** Replaying a journal from the start over any already-applied prefix gives the same graph. */
  lemma {:induction false} ReplayOverPrefix(g: Graph, done: seq<Op>, rest: seq<Op>)
    requires ApplyOps(g, done).ok
    ensures ApplyOps(ApplyOps(g, done).graph, done + rest) == ApplyOps(g, done + rest)
  {
    var middle := ApplyOps(g, done).graph;
    ReplayIsIdempotent(g, done);
    ApplyConcat(g, done, rest);
    ApplyConcat(middle, done, rest);
  }

  lemma {:induction false} SameFields(a: Fields, b: Fields)
    requires forall name :: Lookup(a, name) == Lookup(b, name)
    ensures a == b
  {
    forall name
      ensures name in a <==> name in b
      ensures name in a ==> a[name] == b[name]
    {
      assert Lookup(a, name) == Lookup(b, name);
    }
  }

  lemma {:induction false} SameEdges(a: Graph, b: Graph)
    requires forall eid :: EdgeOf(a, eid) == EdgeOf(b, eid)
    ensures a.edges == b.edges
  {
    forall eid
      ensures eid in a.edges <==> eid in b.edges
      ensures eid in a.edges ==> a.edges[eid] == b.edges[eid]
    {
      assert EdgeOf(a, eid) == EdgeOf(b, eid);
    }
  }

  /** Ops that succeed from `g` succeed from any graph with at least those nodes. */
  lemma {:induction false} SecondPassSucceeds(g: Graph, h: Graph, ops: seq<Op>)
    requires ApplyOps(g, ops).ok
    requires ApplyOps(g, ops).graph.nodes.Keys <= h.nodes.Keys
    ensures ApplyOps(h, ops).ok
    ensures h.nodes.Keys <= ApplyOps(h, ops).graph.nodes.Keys
  {
    if ops != [] {
      SecondPassSucceeds(g, h, ops[..|ops| - 1]);
    }
  }

  /** On one edge id, a batch either fixes the outcome or supplies a default. */
  lemma {:induction false} EdgeFateShape(ops: seq<Op>, eid: Id, start: Option<Edge>)
    ensures EdgeFate(ops, eid, start) == EdgeFate(ops, eid, None) ||
            (start.Some? && EdgeFate(ops, eid, start) == start &&
             forall other: Edge :: EdgeFate(ops, eid, Some(other)) == Some(other))
  {
    if ops != [] {
      EdgeFateShape(ops[..|ops| - 1], eid, start);
    }
  }

  lemma {:induction false} EdgeFateIdempotent(ops: seq<Op>, eid: Id, start: Option<Edge>)
    ensures EdgeFate(ops, eid, EdgeFate(ops, eid, start)) == EdgeFate(ops, eid, start)
  {
    EdgeFateShape(ops, eid, start);
    EdgeFateShape(ops, eid, EdgeFate(ops, eid, start));
  }
}
