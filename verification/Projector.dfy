/** The projector: a collecting pass over the journal, then atoms; against step-by-step replay. */
module Projector {
  import opened Vocabulary
  import opened Ops
  import opened GraphState
  import opened Apply
  import opened Sorting

  datatype Event = Event(revision: int, ops: seq<Op>)

  /** Atoms as tuples; the text of a command and its escaping are not modelled. */
  datatype Atom =
    | NodeAtom(proof: string, local: string, lab: Label)
    | LayerAtom(proof: string, local: string)
    | FieldAtom(proof: string, local: string, name: Field, value: Value)
    | EdgeAtom(proof: string, eid: string, rel: Rel, src: string, dst: string)
    | RevEdgeAtom(proof: string, dst: string, rel: Rel, src: string, eid: string)
    | EdgeLayerAtom(proof: string, eid: string)
    | EdgeFieldAtom(proof: string, eid: string, name: Field, value: Value)

  function Slash(id: Id): (k: nat)
    ensures k <= |id|
  {
    FirstIndex(id, '/')
  }

  /** `extract_proof_id` and `extract_local_id`: split at the first slash, if there is one. */
  function ProofOf(id: Id): string {
    id[..Slash(id)]
  }

  function LocalOf(id: Id): string {
    if Slash(id) == |id| then id else id[Slash(id) + 1..]
  }

  // ---- the first pass ----

  /** `self.nodes`, `self.edges` and `self.removed_edge_ids`. */
  datatype Collected = Collected(nodes: map<Id, Node>, edges: seq<(Id, Edge)>, removed: set<Id>)

  const NOTHING := Collected(map[], [], {})

  /** `_collect_operation`: a later upsert replaces the node, a set on an unknown node is ignored,
      a removal marks the id for good. */
  function CollectOp(c: Collected, op: Op): Collected {
    match op
    case UpsertNode(lab, id, fields) => c.(nodes := c.nodes[id := Node(lab, fields)])
    case SetField(_, id, name, value, _) =>
      if id !in c.nodes then c
      else c.(nodes := c.nodes[id := Node(c.nodes[id].lab, c.nodes[id].fields[name := value])])
    case AddEdge(rel, src, dst, eid, fields) =>
      c.(edges := c.edges + [(eid, Edge(rel, src, dst, fields))])
    case RemoveEdge(_, eid) => c.(removed := c.removed + {eid})
  }

  function Collect(ops: seq<Op>): Collected {
    if ops == [] then NOTHING else CollectOp(Collect(ops[..|ops| - 1]), ops[|ops| - 1])
  }

  /** The edges that will be emitted. */
  function LiveEdges(c: Collected): set<(Id, Edge)> {
    set e | e in c.edges && e.0 !in c.removed
  }

  function EdgeSet(g: Graph): set<(Id, Edge)> {
    set eid | eid in g.edges :: (eid, g.edges[eid])
  }

  /** Collecting agrees with replaying. */
  ghost predicate Agrees(ops: seq<Op>) {
    var replayed := ApplyOps(EMPTY_GRAPH, ops);
    replayed.ok && Collect(ops).nodes == replayed.graph.nodes &&
    LiveEdges(Collect(ops)) == EdgeSet(replayed.graph)
  }

  /** Op `op` is one the projector and replay read alike on the graph built so far. */
  ghost predicate PlainOp(g: Graph, removed: set<Id>, op: Op) {
    match op
    case UpsertNode(lab, id, fields) => id in g.nodes ==> g.nodes[id] == Node(lab, fields)
    case SetField(_, id, _, _, _) => id in g.nodes
    case AddEdge(rel, src, dst, eid, fields) =>
      eid !in removed && (eid in g.edges ==> g.edges[eid] == Edge(rel, src, dst, fields))
    case RemoveEdge(_, _) => true
  }

  /** Upserting a node again restates it in full, sets follow upserts, an edge id is never added
      again with other contents, nor after a removal. */
  ghost predicate Plain(ops: seq<Op>) {
    forall n :: 0 <= n < |ops| ==>
      PlainOp(ApplyOps(EMPTY_GRAPH, ops[..n]).graph, Collect(ops[..n]).removed, ops[n])
  }

  /** The projection of every prefix of a journal agrees with its replay exactly when the journal is
      plain. */
  lemma {:induction false} AgreesIffPlain(ops: seq<Op>)
    ensures (forall n :: 0 <= n <= |ops| ==> Agrees(ops[..n])) <==> Plain(ops)
  {
    if Plain(ops) {
      forall n | 0 <= n <= |ops|
        ensures Agrees(ops[..n])
      {
        PlainPrefix(ops, n);
        PlainAgrees(ops[..n]);
      }
    }
    if forall n :: 0 <= n <= |ops| ==> Agrees(ops[..n]) {
      forall n | 0 <= n < |ops|
        ensures PlainOp(ApplyOps(EMPTY_GRAPH, ops[..n]).graph, Collect(ops[..n]).removed, ops[n])
      {
        assert Agrees(ops[..n]) && Agrees(ops[..n + 1]);
        assert ops[..n + 1][..n] == ops[..n];
        AgreeingOpIsPlain(ApplyOps(EMPTY_GRAPH, ops[..n]).graph, Collect(ops[..n]), ops[n]);
      }
    }
  }

  lemma {:induction false} PlainPrefix(ops: seq<Op>, n: nat)
    requires Plain(ops) && n <= |ops|
    ensures Plain(ops[..n])
  {
    forall k | 0 <= k < n
      ensures PlainOp(ApplyOps(EMPTY_GRAPH, ops[..n][..k]).graph, Collect(ops[..n][..k]).removed, ops[..n][k])
    {
      assert ops[..n][..k] == ops[..k];
    }
  }

  lemma {:induction false} PlainAgrees(ops: seq<Op>)
    requires Plain(ops)
    ensures Agrees(ops)
  {
    if ops == [] {
      assert LiveEdges(NOTHING) == EdgeSet(EMPTY_GRAPH);
    } else {
      var n := |ops| - 1;
      PlainPrefix(ops, n);
      PlainAgrees(ops[..n]);
      assert PlainOp(ApplyOps(EMPTY_GRAPH, ops[..n]).graph, Collect(ops[..n]).removed, ops[n]);
      PlainOpAgrees(ApplyOps(EMPTY_GRAPH, ops[..n]).graph, Collect(ops[..n]), ops[n]);
    }
  }

  /** A plain op keeps the two in step. */
  lemma {:induction false} PlainOpAgrees(g: Graph, c: Collected, op: Op)
    requires c.nodes == g.nodes && LiveEdges(c) == EdgeSet(g) && PlainOp(g, c.removed, op)
    ensures ApplyOp(g, op).ok && CollectOp(c, op).nodes == ApplyOp(g, op).graph.nodes
    ensures LiveEdges(CollectOp(c, op)) == EdgeSet(ApplyOp(g, op).graph)
  {
    var after, h := CollectOp(c, op), ApplyOp(g, op).graph;
    forall e
      ensures e in LiveEdges(c) <==> e.0 in g.edges && g.edges[e.0] == e.1
    {
      assert e in LiveEdges(c) <==> e in EdgeSet(g);
    }
    forall e
      ensures e in LiveEdges(after) <==> e in EdgeSet(h)
    {
      assert e in LiveEdges(after) <==>
        (e in c.edges || (op.AddEdge? && e == (op.eid, Edge(op.rel, op.src, op.dst, op.fields)))) &&
        e.0 !in after.removed;
      assert e in EdgeSet(h) <==> e.0 in h.edges && h.edges[e.0] == e.1;
      assert e in LiveEdges(c) <==> e in c.edges && e.0 !in c.removed;
    }
  }

  lemma {:induction false} ReAdditionIsLost(g: Graph, c: Collected, op: Op)
    requires op.AddEdge? && op.eid in c.removed
    ensures LiveEdges(CollectOp(c, op)) != EdgeSet(ApplyOp(g, op).graph)
  {
    var h := ApplyOp(g, op).graph;
    assert (op.eid, h.edges[op.eid]) in EdgeSet(h);
    assert forall x :: x in LiveEdges(CollectOp(c, op)) ==> x.0 != op.eid;
  }

  /** An op after which the two still agree was plain. */
  lemma {:induction false} AgreeingOpIsPlain(g: Graph, c: Collected, op: Op)
    requires c.nodes == g.nodes && LiveEdges(c) == EdgeSet(g)
    requires ApplyOp(g, op).ok && CollectOp(c, op).nodes == ApplyOp(g, op).graph.nodes
    requires LiveEdges(CollectOp(c, op)) == EdgeSet(ApplyOp(g, op).graph)
    ensures PlainOp(g, c.removed, op)
  {
    if op.AddEdge? {
      var h := ApplyOp(g, op).graph;
      var e := (op.eid, Edge(op.rel, op.src, op.dst, op.fields));
      if op.eid in c.removed {
        ReAdditionIsLost(g, c, op);
      } else {
        assert e in LiveEdges(CollectOp(c, op));
        assert e in EdgeSet(h);
      }
    } else if op.UpsertNode? && op.id in g.nodes {
      assert CollectOp(c, op).nodes[op.id] == g.nodes[op.id];
    }
  }

  /** Each node is upserted once, before it is set; each edge id is added once, not after a removal. */
  predicate Orderly(ops: seq<Op>) {
    forall n :: 0 <= n < |ops| ==> OrderlyOp(ops[..n], ops[n])
  }

  predicate OrderlyOp(before: seq<Op>, op: Op) {
    match op
    case UpsertNode(_, id, _) => forall prior :: prior in before ==> !Upserts(prior, id)
    case SetField(_, id, _, _, _) => exists prior :: prior in before && Upserts(prior, id)
    case AddEdge(_, _, _, eid, _) =>
      forall prior :: prior in before ==> !Adds(prior, eid) && !Removes(prior, eid)
    case RemoveEdge(_, _) => true
  }

  /** An orderly journal is plain, so its projection agrees with its replay at every revision. */
  lemma {:induction false} OrderlyIsPlain(ops: seq<Op>)
    requires Orderly(ops)
    ensures Plain(ops)
  {
    if ops != [] {
      var n := |ops| - 1;
      forall k | 0 <= k < n
        ensures OrderlyOp(ops[..n][..k], ops[..n][k])
      {
        assert ops[..n][..k] == ops[..k];
      }
      OrderlyIsPlain(ops[..n]);
      PlainAgrees(ops[..n]);
      OrderlyOpIsPlain(ops[..n], ops[n]);
      forall k | 0 <= k < |ops|
        ensures PlainOp(ApplyOps(EMPTY_GRAPH, ops[..k]).graph, Collect(ops[..k]).removed, ops[k])
      {
        if k < n {
          assert ops[..n][..k] == ops[..k] && ops[..n][k] == ops[k];
        }
      }
    }
  }

  lemma {:induction false} OrderlyOpIsPlain(before: seq<Op>, op: Op)
    requires ApplyOps(EMPTY_GRAPH, before).ok && OrderlyOp(before, op)
    ensures PlainOp(ApplyOps(EMPTY_GRAPH, before).graph, Collect(before).removed, op)
  {
    if op.AddEdge? {
      RemovedByAnOp(before, op.eid);
      EdgeAfter(EMPTY_GRAPH, before, op.eid);
      if op.eid in ApplyOps(EMPTY_GRAPH, before).graph.edges {
        EdgeIsCommittedOrAdded(before, op.eid, None);
      }
    } else if !op.RemoveEdge? {
      NodeAfter(EMPTY_GRAPH, before, op.id);
      FirstUpsertIsAnOp(before, op.id);
    }
  }

  lemma {:induction false} RemovedByAnOp(ops: seq<Op>, eid: Id)
    ensures eid in Collect(ops).removed ==> exists op :: op in ops && Removes(op, eid)
  {
    if ops != [] {
      RemovedByAnOp(ops[..|ops| - 1], eid);
      if Removes(ops[|ops| - 1], eid) {
        assert ops[|ops| - 1] in ops;
      }
    }
  }

  // ---- atoms ----

  /** `_node_to_atoms`, without the inferred state reference. */
  function NodeAtoms(id: Id, node: Node): set<Atom> {
    {NodeAtom(ProofOf(id), LocalOf(id), node.lab), LayerAtom(ProofOf(id), LocalOf(id))} +
    (set name | name in node.fields :: FieldAtom(ProofOf(id), LocalOf(id), name, node.fields[name]))
  }

  /** `_edge_to_atoms`. */
  function EdgeAtoms(eid: Id, e: Edge): set<Atom> {
    {EdgeAtom(ProofOf(eid), LocalOf(eid), e.rel, LocalOf(e.src), LocalOf(e.dst)),
     RevEdgeAtom(ProofOf(eid), LocalOf(e.dst), e.rel, LocalOf(e.src), LocalOf(eid)),
     EdgeLayerAtom(ProofOf(eid), LocalOf(eid))} +
    (set name | name in e.fields :: EdgeFieldAtom(ProofOf(eid), LocalOf(eid), name, e.fields[name]))
  }

  /** The atoms a view stands for. */
  function ViewAtoms(g: Graph): set<Atom> {
    AtomsOfNodes(g.nodes) + AtomsOfEdges(EdgeSet(g))
  }

  function AtomsOfNodes(nodes: map<Id, Node>): set<Atom> {
    set id, a | id in nodes && a in NodeAtoms(id, nodes[id]) :: a
  }

  function AtomsOfEdges(edges: set<(Id, Edge)>): set<Atom> {
    set e, a | e in edges && a in EdgeAtoms(e.0, e.1) :: a
  }

  /** `_infer_state_references`: the last PROPOSES or ON_STATE edge wins, removed or not. */
  function StateRefs(edges: seq<(Id, Edge)>): map<Id, string> {
    if edges == [] then map[]
    else
      var before, e := StateRefs(edges[..|edges| - 1]), edges[|edges| - 1].1;
      if e.rel == Proposes then before[e.dst := LocalOf(e.src)]
      else if e.rel == OnState then before[e.src := LocalOf(e.dst)]
      else before
  }

  function InferredAtom(id: Id, state: string): Atom {
    FieldAtom(ProofOf(id), LocalOf(id), StateId, Str(Text(state)))
  }

  function InferredAtoms(c: Collected): set<Atom> {
    set id | id in c.nodes && id in StateRefs(c.edges) :: InferredAtom(id, StateRefs(c.edges)[id])
  }

  function Keys(events: seq<Event>): (r: seq<Keyed<Event>>)
    ensures |r| == |events|
    ensures forall k :: 0 <= k < |r| ==> r[k] == Keyed(events[k].revision as real, events[k])
  {
    seq(|events|, k requires 0 <= k < |events| => Keyed(events[k].revision as real, events[k]))
  }

  /** The ops of the events, in the order given. */
  function OpsOf(events: seq<Keyed<Event>>): seq<Op> {
    if events == [] then [] else OpsOf(events[..|events| - 1]) + events[|events| - 1].item.ops
  }

  /** The ops of a journal in revision order. */
  function JournalOps(events: seq<Event>): seq<Op> {
    OpsOf(Sort(Keys(events)))
  }

  class ProjectorState {
    var nodes: map<Id, Node>
    var edges: seq<(Id, Edge)>
    var nodeState: map<Id, string>
    var removed: set<Id>

    function Contents(): Collected
      reads this
    {
      Collected(nodes, edges, removed)
    }

    constructor ()
      ensures Contents() == NOTHING && nodeState == map[]
    {
      nodes, edges, nodeState, removed := map[], [], map[], {};
    }

    method CollectOperation(op: Op)
      modifies this
      ensures Contents() == CollectOp(old(Contents()), op) && nodeState == old(nodeState)
    {
      match op {
        case UpsertNode(lab, id, fields) =>
          nodes := nodes[id := Node(lab, fields)];
        case SetField(_, id, name, value, _) =>
          if id in nodes {
            nodes := nodes[id := Node(nodes[id].lab, nodes[id].fields[name := value])];
          }
        case AddEdge(rel, src, dst, eid, fields) =>
          edges := edges + [(eid, Edge(rel, src, dst, fields))];
        case RemoveEdge(_, eid) =>
          removed := removed + {eid};
      }
    }

    method InferStateReferences()
      modifies this`nodeState
      requires nodeState == map[]
      ensures nodeState == StateRefs(edges)
    {
      for k := 0 to |edges|
        invariant nodeState == StateRefs(edges[..k])
      {
        assert edges[..k + 1][..k] == edges[..k];
        var e := edges[k].1;
        if e.rel == Proposes {
          nodeState := nodeState[e.dst := LocalOf(e.src)];
        } else if e.rel == OnState {
          nodeState := nodeState[e.src := LocalOf(e.dst)];
        }
      }
      assert edges[..|edges|] == edges;
    }

    /** `process_event_journal` on a new projector: the atoms of what was collected, and the inferred
        state references. */
    method ProcessJournal(events: seq<Event>) returns (atoms: set<Atom>)
      requires Contents() == NOTHING && nodeState == map[]
      modifies this
      ensures Contents() == Collect(JournalOps(events))
      ensures atoms == EmittedAtoms(Contents())
    {
      var sorted := Sort(Keys(events));
      for i := 0 to |sorted|
        invariant Contents() == Collect(OpsOf(sorted[..i])) && nodeState == map[]
      {
        var ops := sorted[i].item.ops;
        assert sorted[..i + 1][..i] == sorted[..i];
        ghost var before := OpsOf(sorted[..i]);
        assert before + ops[..0] == before;
        for k := 0 to |ops|
          invariant Contents() == Collect(before + ops[..k]) && nodeState == map[]
        {
          assert (before + ops[..k + 1])[..|before| + k] == before + ops[..k];
          CollectOperation(ops[k]);
        }
        assert before + ops[..|ops|] == before + ops;
      }
      assert sorted[..|sorted|] == sorted;
      InferStateReferences();
      atoms := EmitNodes() + EmitEdges();
    }

    function EmitNodes(): set<Atom>
      reads this
    {
      AtomsOfNodes(nodes) + (set id | id in nodes && id in nodeState :: InferredAtom(id, nodeState[id]))
    }

    function EmitEdges(): set<Atom>
      reads this
    {
      set e, a | e in edges && e.0 !in removed && a in EdgeAtoms(e.0, e.1) :: a
    }
  }

  /** The atoms of the collected nodes, of the live edges, and the inferred state references. */
  function EmittedAtoms(c: Collected): set<Atom> {
    AtomsOfNodes(c.nodes) + InferredAtoms(c) + AtomsOfEdges(LiveEdges(c))
  }

  /** The projection of a plain journal is the atoms of the replayed view, and the inferred state
      references; the order of the events given does not matter when revisions are distinct. */
  lemma {:induction false} ProjectionIsReplay(events: seq<Event>)
    requires Plain(JournalOps(events))
    ensures ApplyOps(EMPTY_GRAPH, JournalOps(events)).ok
    ensures EmittedAtoms(Collect(JournalOps(events))) ==
            ViewAtoms(ApplyOps(EMPTY_GRAPH, JournalOps(events)).graph) +
            InferredAtoms(Collect(JournalOps(events)))
  {
    var ops := JournalOps(events);
    PlainAgrees(ops);
  }

  lemma {:induction false} InputOrderIsIrrelevant(a: seq<Event>, b: seq<Event>)
    requires multiset(a) == multiset(b)
    requires forall i, j :: 0 <= i < j < |a| ==> a[i].revision != a[j].revision
    ensures JournalOps(a) == JournalOps(b)
  {
    KeysRearranged(a, b);
    SortIgnoresInputOrder(Keys(a), Keys(b));
  }

  /** The ops of the events one after the other. */
  function Flat(events: seq<Event>): seq<Op> {
    if events == [] then [] else events[0].ops + Flat(events[1..])
  }

  /** Given in the order of their revisions, the events are read one after the other, also where two have
      the same revision. */
  lemma {:induction false} JournalInOrder(events: seq<Event>)
    requires forall i, j :: 0 <= i < j < |events| ==> events[i].revision <= events[j].revision
    ensures JournalOps(events) == Flat(events)
  {
    SortKeepsAscending(Keys(events));
    OpsAreFlat(events);
  }

  lemma {:induction false} OpsAreFlat(events: seq<Event>)
    ensures OpsOf(Keys(events)) == Flat(events)
  {
    if events != [] {
      var n := |events| - 1;
      OpsAreFlat(events[..n]);
      assert Keys(events)[..n] == Keys(events[..n]);
      FlatGrows(events);
    }
  }

  lemma {:induction false} FlatGrows(events: seq<Event>)
    requires events != []
    ensures Flat(events) == Flat(events[..|events| - 1]) + events[|events| - 1].ops
  {
    if |events| > 1 {
      FlatGrows(events[1..]);
      assert events[1..][..|events| - 2] == events[..|events| - 1][1..];
    }
  }

  lemma {:induction false} KeysRearranged(a: seq<Event>, b: seq<Event>)
    requires multiset(a) == multiset(b)
    ensures multiset(Keys(a)) == multiset(Keys(b))
  {
    forall x
      ensures multiset(Keys(a))[x] == multiset(Keys(b))[x]
    {
      KeysMultiplicity(a, x);
      KeysMultiplicity(b, x);
    }
  }

  lemma {:induction false} KeysMultiplicity(a: seq<Event>, x: Keyed<Event>)
    ensures multiset(Keys(a))[x] == if x.key == x.item.revision as real then multiset(a)[x.item] else 0
  {
    if a != [] {
      var n := |a| - 1;
      KeysMultiplicity(a[..n], x);
      SplitLast(a);
      SplitLast(Keys(a));
      assert Keys(a)[..n] == Keys(a[..n]);
    }
  }

  // ---- the split of an id ----

  /** Two ids split alike only when they are equal, or one is some `x` without a slash and the other
      is `x/x`. */
  lemma {:induction false} SplitIsFaithfulIff(a: Id, b: Id)
    ensures ProofOf(a) == ProofOf(b) && LocalOf(a) == LocalOf(b) <==>
            a == b || DoublesTo(a, b) || DoublesTo(b, a)
  {
    Rejoin(a);
    Rejoin(b);
    if DoublesTo(a, b) {
      DoubledSplit(a);
    } else if DoublesTo(b, a) {
      DoubledSplit(b);
    }
  }

  predicate DoublesTo(a: Id, b: Id) {
    '/' !in a && b == a + "/" + a
  }

  lemma {:induction false} Rejoin(id: Id)
    ensures '/' in id ==> id == ProofOf(id) + "/" + LocalOf(id)
    ensures '/' !in id ==> ProofOf(id) == id && LocalOf(id) == id
    ensures '/' !in ProofOf(id)
  {
    BeforeFirst(id, '/');
  }

  lemma {:induction false} BeforeFirst(s: string, c: char)
    ensures c !in s[..FirstIndex(s, c)]
  {
    if s != [] && s[0] != c {
      BeforeFirst(s[1..], c);
      assert s[..FirstIndex(s, c)] == [s[0]] + s[1..][..FirstIndex(s[1..], c)];
    }
  }

  lemma {:induction false} DoubledSplit(a: Id)
    requires '/' !in a
    ensures ProofOf(a + "/" + a) == a && LocalOf(a + "/" + a) == a
  {
    FirstSlash(a, a);
  }

  lemma {:induction false} FirstSlash(a: string, b: string)
    requires '/' !in a
    ensures FirstIndex(a + "/" + b, '/') == |a|
  {
    if a != [] {
      assert (a + "/" + b)[1..] == a[1..] + "/" + b;
      FirstSlash(a[1..], b);
    }
  }
}
