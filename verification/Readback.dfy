/** What the emitted atoms say, read back as a graph: node by node, edge by edge, and as the space the
    MORK rules reason about. */
module Readback {
  import opened Vocabulary
  import opened Ops
  import opened GraphState
  import opened Apply
  import opened Reach
  import opened Mork
  import opened Projector

  function Full(proof: string, local: string): Id {
    proof + "/" + local
  }

  /** The id belongs to the proof. */
  predicate Under(proof: string, id: Id) {
    proof + "/" <= id
  }

  /** Every id the op names belongs to the proof. */
  predicate OpUnder(proof: string, op: Op) {
    match op
    case UpsertNode(_, id, _) => Under(proof, id)
    case SetField(_, id, _, _, _) => Under(proof, id)
    case AddEdge(_, src, dst, eid, _) => Under(proof, src) && Under(proof, dst) && Under(proof, eid)
    case RemoveEdge(_, eid) => Under(proof, eid)
  }

  predicate AllUnder(proof: string, ops: seq<Op>) {
    '/' !in proof && forall op :: op in ops ==> OpUnder(proof, op)
  }

  lemma {:induction false} SplitIs(proof: string, id: Id)
    requires '/' !in proof && Under(proof, id)
    ensures id == Full(proof, LocalOf(id)) && ProofOf(id) == proof
    ensures forall local :: id == Full(proof, local) <==> local == LocalOf(id)
  {
    var rest := id[|proof| + 1..];
    assert id == proof + "/" + rest;
    FirstSlash(proof, rest);
    forall local
      ensures id == Full(proof, local) <==> local == rest
    {
      if id == Full(proof, local) {
        assert id[|proof| + 1..] == local;
      }
    }
  }

  // ---- what was collected ----

  predicate EdgeUnder(proof: string, e: (Id, Edge)) {
    Under(proof, e.0) && Under(proof, e.1.src) && Under(proof, e.1.dst)
  }

  predicate CollectedUnder(proof: string, c: Collected) {
    (forall id :: id in c.nodes ==> Under(proof, id)) && (forall e :: e in c.edges ==> EdgeUnder(proof, e))
  }

  lemma {:induction false} CollectUnder(proof: string, ops: seq<Op>)
    requires AllUnder(proof, ops)
    ensures CollectedUnder(proof, Collect(ops))
  {
    if ops != [] {
      CollectUnder(proof, ops[..|ops| - 1]);
      assert ops[|ops| - 1] in ops;
    }
  }

  // ---- what an atom says ----

  /** The atom is true of the graph. */
  predicate Describes(proof: string, g: Graph, a: Atom) {
    match a
    case NodeAtom(p, local, lab) =>
      p == proof && Full(proof, local) in g.nodes && g.nodes[Full(proof, local)].lab == lab
    case LayerAtom(p, local) => p == proof && Full(proof, local) in g.nodes
    case FieldAtom(p, local, name, v) =>
      p == proof && Full(proof, local) in g.nodes && name in g.nodes[Full(proof, local)].fields &&
      g.nodes[Full(proof, local)].fields[name] == v
    case EdgeAtom(p, eid, rel, src, dst) => p == proof && Joins(proof, g, eid, rel, src, dst)
    case RevEdgeAtom(p, dst, rel, src, eid) => p == proof && Joins(proof, g, eid, rel, src, dst)
    case EdgeLayerAtom(p, eid) => p == proof && Full(proof, eid) in g.edges
    case EdgeFieldAtom(p, eid, name, v) =>
      p == proof && Full(proof, eid) in g.edges && name in g.edges[Full(proof, eid)].fields &&
      g.edges[Full(proof, eid)].fields[name] == v
  }

  /** The edge of this local id leads from the one node to the other. */
  predicate Joins(proof: string, g: Graph, eid: string, rel: Rel, src: string, dst: string) {
    Full(proof, eid) in g.edges && g.edges[Full(proof, eid)].rel == rel &&
    g.edges[Full(proof, eid)].src == Full(proof, src) && g.edges[Full(proof, eid)].dst == Full(proof, dst)
  }

  /** An edge says which state a node is about: the move a state proposes, the attempt on a state. */
  predicate Refers(e: Edge, id: Id, state: Id) {
    (e.rel == Proposes && e.dst == id && e.src == state) || (e.rel == OnState && e.src == id && e.dst == state)
  }

  predicate Mentions(e: Edge, id: Id) {
    (e.rel == Proposes && e.dst == id) || (e.rel == OnState && e.src == id)
  }

  /** The atom gives a collected node the state that the last edge to say so, removed or not, gives it. */
  ghost predicate Infers(proof: string, c: Collected, a: Atom) {
    a.FieldAtom? && a.proof == proof && a.name == StateId && Full(proof, a.local) in c.nodes &&
    exists state :: a.value == Str(Text(state)) && LastSays(c.edges, Full(proof, a.local), Full(proof, state))
  }

  // ---- atoms of nodes ----

  lemma {:induction false} NodeSays(proof: string, id: Id, node: Node, a: Atom)
    requires '/' !in proof && Under(proof, id)
    ensures a in NodeAtoms(id, node) <==>
            match a
            case NodeAtom(p, local, lab) => p == proof && Full(proof, local) == id && lab == node.lab
            case LayerAtom(p, local) => p == proof && Full(proof, local) == id
            case FieldAtom(p, local, name, v) =>
              p == proof && Full(proof, local) == id && name in node.fields && node.fields[name] == v
            case _ => false
  {
    SplitIs(proof, id);
  }

  lemma {:induction false} NodesSay(proof: string, nodes: map<Id, Node>, a: Atom)
    requires '/' !in proof && forall id :: id in nodes ==> Under(proof, id)
    ensures a in AtomsOfNodes(nodes) <==> OfNodes(a) && Describes(proof, Graph(nodes, map[]), a)
  {
    forall id | id in nodes
      ensures a in NodeAtoms(id, nodes[id]) <==>
              OfNodes(a) && Describes(proof, Graph(nodes, map[]), a) && a.local == LocalOf(id)
    {
      SplitIs(proof, id);
      NodeSays(proof, id, nodes[id], a);
    }
    if OfNodes(a) && Describes(proof, Graph(nodes, map[]), a) {
      var id := Full(proof, a.local);
      SplitIs(proof, id);
      assert a in NodeAtoms(id, nodes[id]);
    }
  }

  predicate OfNodes(a: Atom) {
    a.NodeAtom? || a.LayerAtom? || a.FieldAtom?
  }

  // ---- atoms of edges ----

  /** The atoms of an edge, by the parts of its ids. */
  predicate IsEdgeAtom(eid: Id, e: Edge, a: Atom) {
    match a
    case EdgeAtom(p, local, rel, src, dst) => p == ProofOf(eid) && SameParts(eid, e, local, rel, src, dst)
    case RevEdgeAtom(p, dst, rel, src, local) => p == ProofOf(eid) && SameParts(eid, e, local, rel, src, dst)
    case EdgeLayerAtom(p, local) => p == ProofOf(eid) && local == LocalOf(eid)
    case EdgeFieldAtom(p, local, name, v) =>
      p == ProofOf(eid) && local == LocalOf(eid) && name in e.fields && e.fields[name] == v
    case _ => false
  }

  predicate SameParts(eid: Id, e: Edge, local: string, rel: Rel, src: string, dst: string) {
    local == LocalOf(eid) && rel == e.rel && src == LocalOf(e.src) && dst == LocalOf(e.dst)
  }

  lemma {:induction false} EdgeAtomsAre(eid: Id, e: Edge, a: Atom)
    ensures a in EdgeAtoms(eid, e) <==> IsEdgeAtom(eid, e, a)
  {
    if a.EdgeFieldAtom? && IsEdgeAtom(eid, e, a) {
      assert a == EdgeFieldAtom(ProofOf(eid), LocalOf(eid), a.name, e.fields[a.name]);
    }
  }

  lemma {:induction false} EdgeSays(proof: string, eid: Id, e: Edge, a: Atom)
    requires '/' !in proof && EdgeUnder(proof, (eid, e))
    ensures a in EdgeAtoms(eid, e) <==>
            match a
            case EdgeAtom(p, local, rel, src, dst) => p == proof && JoinsAs(proof, eid, e, local, rel, src, dst)
            case RevEdgeAtom(p, dst, rel, src, local) => p == proof && JoinsAs(proof, eid, e, local, rel, src, dst)
            case EdgeLayerAtom(p, local) => p == proof && Full(proof, local) == eid
            case EdgeFieldAtom(p, local, name, v) =>
              p == proof && Full(proof, local) == eid && name in e.fields && e.fields[name] == v
            case _ => false
  {
    EdgeAtomsAre(eid, e, a);
    SplitIs(proof, eid);
    match a {
      case EdgeAtom(p, local, rel, src, dst) => JoinsByLocals(proof, eid, e, local, rel, src, dst);
      case RevEdgeAtom(p, dst, rel, src, local) => JoinsByLocals(proof, eid, e, local, rel, src, dst);
      case _ =>
    }
  }

  predicate JoinsAs(proof: string, eid: Id, e: Edge, local: string, rel: Rel, src: string, dst: string) {
    Full(proof, local) == eid && rel == e.rel && Full(proof, src) == e.src && Full(proof, dst) == e.dst
  }

  lemma {:induction false} JoinsByLocals(proof: string, eid: Id, e: Edge, local: string, rel: Rel, src: string,
                                         dst: string)
    requires '/' !in proof && EdgeUnder(proof, (eid, e))
    ensures JoinsAs(proof, eid, e, local, rel, src, dst) <==>
            local == LocalOf(eid) && rel == e.rel && src == LocalOf(e.src) && dst == LocalOf(e.dst)
  {
    SplitIs(proof, eid);
    SplitIs(proof, e.src);
    SplitIs(proof, e.dst);
  }

  predicate OfEdges(a: Atom) {
    a.EdgeAtom? || a.RevEdgeAtom? || a.EdgeLayerAtom? || a.EdgeFieldAtom?
  }

  function EdgeLocal(a: Atom): string
    requires OfEdges(a)
  {
    a.eid
  }

  lemma {:induction false} EdgesSay(proof: string, g: Graph, a: Atom)
    requires '/' !in proof && forall eid :: eid in g.edges ==> EdgeUnder(proof, (eid, g.edges[eid]))
    ensures a in AtomsOfEdges(EdgeSet(g)) <==> OfEdges(a) && Describes(proof, g, a)
  {
    forall eid | eid in g.edges
      ensures a in EdgeAtoms(eid, g.edges[eid]) <==>
              OfEdges(a) && Describes(proof, g, a) && Full(proof, EdgeLocal(a)) == eid
    {
      EdgeSays(proof, eid, g.edges[eid], a);
    }
    if a in AtomsOfEdges(EdgeSet(g)) {
      var e :| e in EdgeSet(g) && a in EdgeAtoms(e.0, e.1);
      assert e.0 in g.edges && g.edges[e.0] == e.1;
    }
    if OfEdges(a) && Describes(proof, g, a) {
      var eid := Full(proof, EdgeLocal(a));
      assert (eid, g.edges[eid]) in EdgeSet(g) && a in EdgeAtoms(eid, g.edges[eid]);
    }
  }

  // ---- inferred atoms ----

  ghost predicate LastSays(edges: seq<(Id, Edge)>, id: Id, state: Id) {
    exists k :: 0 <= k < |edges| && Refers(edges[k].1, id, state) &&
      forall j :: k < j < |edges| ==> !Mentions(edges[j].1, id)
  }

  /** Which state a node is about, if any edge says so: the last one does. */
  lemma {:induction false} LastRefers(proof: string, edges: seq<(Id, Edge)>, id: Id, state: string)
    requires '/' !in proof && forall e :: e in edges ==> EdgeUnder(proof, e)
    ensures LastSays(edges, id, Full(proof, state)) <==> id in StateRefs(edges) && StateRefs(edges)[id] == state
  {
    if edges != [] {
      var n := |edges| - 1;
      assert edges[n] in edges;
      if Mentions(edges[n].1, id) {
        MentionedLast(proof, edges, id, state);
      } else {
        LastRefers(proof, edges[..n], id, state);
        NotMentionedLast(proof, edges, id, state);
      }
    }
  }

  lemma {:induction false} MentionedLast(proof: string, edges: seq<(Id, Edge)>, id: Id, state: string)
    requires edges != [] && '/' !in proof && EdgeUnder(proof, edges[|edges| - 1])
    requires Mentions(edges[|edges| - 1].1, id)
    ensures LastSays(edges, id, Full(proof, state)) <==> id in StateRefs(edges) && StateRefs(edges)[id] == state
  {
    var last := edges[|edges| - 1].1;
    SplitIs(proof, last.src);
    SplitIs(proof, last.dst);
    if k :| 0 <= k < |edges| && Refers(edges[k].1, id, Full(proof, state)) &&
            forall j :: k < j < |edges| ==> !Mentions(edges[j].1, id)
    {
      assert k == |edges| - 1;
    }
    if id in StateRefs(edges) && StateRefs(edges)[id] == state {
      assert Refers(last, id, Full(proof, state));
    }
  }

  lemma {:induction false} NotMentionedLast(proof: string, edges: seq<(Id, Edge)>, id: Id, state: string)
    requires edges != [] && !Mentions(edges[|edges| - 1].1, id)
    ensures LastSays(edges, id, Full(proof, state)) <==> LastSays(edges[..|edges| - 1], id, Full(proof, state))
    ensures (id in StateRefs(edges) && StateRefs(edges)[id] == state) <==>
            (id in StateRefs(edges[..|edges| - 1]) && StateRefs(edges[..|edges| - 1])[id] == state)
  {
  }

  lemma {:induction false} InferredSay(proof: string, c: Collected, a: Atom)
    requires '/' !in proof && CollectedUnder(proof, c)
    ensures a in InferredAtoms(c) <==> Infers(proof, c, a)
  {
    if a in InferredAtoms(c) {
      var id :| id in c.nodes && id in StateRefs(c.edges) && a == InferredAtom(id, StateRefs(c.edges)[id]);
      SplitIs(proof, id);
      LastRefers(proof, c.edges, id, StateRefs(c.edges)[id]);
    }
    if Infers(proof, c, a) {
      var state :| a.value == Str(Text(state)) && LastSays(c.edges, Full(proof, a.local), Full(proof, state));
      var id := Full(proof, a.local);
      SplitIs(proof, id);
      LastRefers(proof, c.edges, id, state);
      assert a == InferredAtom(id, state);
    }
  }

  // ---- the emitted atoms ----

  /** For the journal of one proof that replay and projector read alike, an atom is emitted exactly when it
      is true of the replayed graph, or gives a node the state the last edge about it names. */
  lemma {:induction false} AtomsReadBack(proof: string, events: seq<Event>, a: Atom)
    requires Plain(JournalOps(events)) && AllUnder(proof, JournalOps(events))
    ensures var c := Collect(JournalOps(events));
            a in EmittedAtoms(c) <==>
            Describes(proof, ApplyOps(EMPTY_GRAPH, JournalOps(events)).graph, a) || Infers(proof, c, a)
  {
    var ops := JournalOps(events);
    var c, g := Collect(ops), ApplyOps(EMPTY_GRAPH, ops).graph;
    PlainAgrees(ops);
    CollectUnder(proof, ops);
    forall eid | eid in g.edges
      ensures EdgeUnder(proof, (eid, g.edges[eid]))
    {
      assert (eid, g.edges[eid]) in EdgeSet(g);
    }
    NodesSay(proof, g.nodes, a);
    EdgesSay(proof, g, a);
    InferredSay(proof, c, a);
  }

  /** Every edge has its mirror image, whatever the journal. */
  lemma {:induction false} MirrorImages(c: Collected, proof: string, eid: string, rel: Rel, src: string, dst: string)
    ensures EdgeAtom(proof, eid, rel, src, dst) in EmittedAtoms(c) <==>
            RevEdgeAtom(proof, dst, rel, src, eid) in EmittedAtoms(c)
  {
    EmittedEdge(c, EdgeAtom(proof, eid, rel, src, dst));
    EmittedEdge(c, RevEdgeAtom(proof, dst, rel, src, eid));
  }

  lemma {:induction false} EmittedEdge(c: Collected, a: Atom)
    requires OfEdges(a)
    ensures a in EmittedAtoms(c) <==> exists e :: e in LiveEdges(c) && IsEdgeAtom(e.0, e.1, a)
  {
    assert a !in AtomsOfNodes(c.nodes) && a !in InferredAtoms(c);
    if a in AtomsOfEdges(LiveEdges(c)) {
      var e :| e in LiveEdges(c) && a in EdgeAtoms(e.0, e.1);
      EdgeAtomsAre(e.0, e.1, a);
    }
    if e :| e in LiveEdges(c) && IsEdgeAtom(e.0, e.1, a) {
      EdgeAtomsAre(e.0, e.1, a);
    }
  }

  // ---- the space the rules reason about ----

  const USES_CLAIM := OtherRel("USES_CLAIM")

  function PairsRead(atoms: set<Atom>, proof: string, rel: Rel): set<(Id, Id)> {
    set a | a in atoms && a.EdgeAtom? && a.proof == proof && a.rel == rel :: (a.src, a.dst)
  }

  function LabelledRead(atoms: set<Atom>, proof: string, lab: Label): set<Id> {
    set a | a in atoms && a.NodeAtom? && a.proof == proof && a.lab == lab :: a.local
  }

  /** What the rules match of the atoms of one proof. */
  function SpaceRead(atoms: set<Atom>, proof: string): Space {
    Space(LabelledRead(atoms, proof, Claim), LabelledRead(atoms, proof, OtherLabel("State")),
          set a | a in atoms && a.LayerAtom? && a.proof == proof :: a.local,
          PairsRead(atoms, proof, DependsOn), PairsRead(atoms, proof, USES_CLAIM),
          set a | a in atoms && a.FieldAtom? && a.proof == proof && a.name == Status && a.value.Str?
            :: (a.local, a.value.token))
  }

  /** An edge of this type leads from the one node to the other. */
  predicate Linked(proof: string, g: Graph, rel: Rel, src: string, dst: string) {
    exists e :: e in g.edges && g.edges[e].rel == rel && g.edges[e].src == Full(proof, src) &&
                g.edges[e].dst == Full(proof, dst)
  }

  /** The space is the replayed graph: its claims, its edges in their direction, and its statuses. */
  lemma {:induction false} SpaceIsTheGraph(proof: string, events: seq<Event>, x: string, y: string, status: Token)
    requires Plain(JournalOps(events)) && AllUnder(proof, JournalOps(events))
    ensures var g := ApplyOps(EMPTY_GRAPH, JournalOps(events)).graph;
            var space := SpaceRead(EmittedAtoms(Collect(JournalOps(events))), proof);
            var id := Full(proof, x);
            && (x in space.committed <==> id in g.nodes)
            && (x in space.claims <==> id in g.nodes && g.nodes[id].lab == Claim)
            && (x in space.states <==> id in g.nodes && g.nodes[id].lab == OtherLabel("State"))
            && ((x, y) in space.dependsOn <==> Linked(proof, g, DependsOn, x, y))
            && ((x, y) in space.usesClaim <==> Linked(proof, g, USES_CLAIM, x, y))
            && ((x, status) in space.status <==>
                  id in g.nodes && Status in g.nodes[id].fields && g.nodes[id].fields[Status] == Str(status))
  {
    var atoms := EmittedAtoms(Collect(JournalOps(events)));
    AtomsReadBack(proof, events, NodeAtom(proof, x, Claim));
    AtomsReadBack(proof, events, NodeAtom(proof, x, OtherLabel("State")));
    AtomsReadBack(proof, events, LayerAtom(proof, x));
    AtomsReadBack(proof, events, FieldAtom(proof, x, Status, Str(status)));
    LabelledIs(atoms, proof, x);
    StatusIs(atoms, proof, x, status);
    PairIs(proof, events, DependsOn, x, y);
    PairIs(proof, events, USES_CLAIM, x, y);
  }

  lemma {:induction false} LabelledIs(atoms: set<Atom>, proof: string, x: string)
    ensures forall lab :: x in LabelledRead(atoms, proof, lab) <==> NodeAtom(proof, x, lab) in atoms
    ensures x in SpaceRead(atoms, proof).committed <==> LayerAtom(proof, x) in atoms
  {
    forall lab
      ensures x in LabelledRead(atoms, proof, lab) <==> NodeAtom(proof, x, lab) in atoms
    {
      if NodeAtom(proof, x, lab) in atoms {
        assert NodeAtom(proof, x, lab).local in LabelledRead(atoms, proof, lab);
      }
    }
    if LayerAtom(proof, x) in atoms {
      assert LayerAtom(proof, x).local in SpaceRead(atoms, proof).committed;
    }
  }

  lemma {:induction false} StatusIs(atoms: set<Atom>, proof: string, x: string, status: Token)
    ensures (x, status) in SpaceRead(atoms, proof).status <==> FieldAtom(proof, x, Status, Str(status)) in atoms
  {
    var a := FieldAtom(proof, x, Status, Str(status));
    if a in atoms {
      assert (a.local, a.value.token) in SpaceRead(atoms, proof).status;
    }
  }

  lemma {:induction false} PairIs(proof: string, events: seq<Event>, rel: Rel, x: string, y: string)
    requires Plain(JournalOps(events)) && AllUnder(proof, JournalOps(events))
    ensures (x, y) in PairsRead(EmittedAtoms(Collect(JournalOps(events))), proof, rel) <==>
            Linked(proof, ApplyOps(EMPTY_GRAPH, JournalOps(events)).graph, rel, x, y)
  {
    var atoms := EmittedAtoms(Collect(JournalOps(events)));
    if (x, y) in PairsRead(atoms, proof, rel) {
      var a :| a in atoms && a.EdgeAtom? && a.proof == proof && a.rel == rel && (a.src, a.dst) == (x, y);
      AtomLinks(proof, events, a);
    }
    if Linked(proof, ApplyOps(EMPTY_GRAPH, JournalOps(events)).graph, rel, x, y) {
      var a := LinkedAtom(proof, events, rel, x, y);
      assert (a.src, a.dst) in PairsRead(atoms, proof, rel);
    }
  }

  lemma {:induction false} AtomLinks(proof: string, events: seq<Event>, a: Atom)
    requires Plain(JournalOps(events)) && AllUnder(proof, JournalOps(events))
    requires a in EmittedAtoms(Collect(JournalOps(events))) && a.EdgeAtom? && a.proof == proof
    ensures Linked(proof, ApplyOps(EMPTY_GRAPH, JournalOps(events)).graph, a.rel, a.src, a.dst)
  {
    AtomsReadBack(proof, events, a);
  }

  lemma {:induction false} LinkedAtom(proof: string, events: seq<Event>, rel: Rel, x: string, y: string)
    returns (a: Atom)
    requires Plain(JournalOps(events)) && AllUnder(proof, JournalOps(events))
    requires Linked(proof, ApplyOps(EMPTY_GRAPH, JournalOps(events)).graph, rel, x, y)
    ensures a.EdgeAtom? && a == EdgeAtom(proof, a.eid, rel, x, y)
    ensures a in EmittedAtoms(Collect(JournalOps(events)))
  {
    var g := ApplyOps(EMPTY_GRAPH, JournalOps(events)).graph;
    var e :| e in g.edges && g.edges[e].rel == rel && g.edges[e].src == Full(proof, x) &&
      g.edges[e].dst == Full(proof, y);
    EdgesAreUnder(proof, JournalOps(events), e);
    SplitIs(proof, e);
    a := EdgeAtom(proof, LocalOf(e), rel, x, y);
    AtomsReadBack(proof, events, a);
  }

  lemma {:induction false} EdgesAreUnder(proof: string, ops: seq<Op>, eid: Id)
    requires Plain(ops) && AllUnder(proof, ops) && eid in ApplyOps(EMPTY_GRAPH, ops).graph.edges
    ensures Under(proof, eid)
  {
    var g := ApplyOps(EMPTY_GRAPH, ops).graph;
    PlainAgrees(ops);
    CollectUnder(proof, ops);
    assert (eid, g.edges[eid]) in EdgeSet(g);
  }

  // ---- the rules on the emitted atoms ----

  function Dependencies(g: Graph): set<(Id, Id)> {
    set e | e in g.edges && g.edges[e].rel == DependsOn :: (g.edges[e].src, g.edges[e].dst)
  }

  /** The pairs read are the dependencies of the graph, by their local parts. */
  ghost predicate Renames(proof: string, pairs: set<(Id, Id)>, edges: set<(Id, Id)>) {
    && (forall x, y :: (x, y) in pairs <==> (Full(proof, x), Full(proof, y)) in edges)
    && (forall e :: e in edges ==> Under(proof, e.0) && Under(proof, e.1))
  }

  lemma {:induction false} DependenciesRead(proof: string, events: seq<Event>)
    requires Plain(JournalOps(events)) && AllUnder(proof, JournalOps(events))
    ensures Renames(proof, SpaceRead(EmittedAtoms(Collect(JournalOps(events))), proof).dependsOn,
                    Dependencies(ApplyOps(EMPTY_GRAPH, JournalOps(events)).graph))
  {
    var ops := JournalOps(events);
    var g, atoms := ApplyOps(EMPTY_GRAPH, ops).graph, EmittedAtoms(Collect(ops));
    PlainAgrees(ops);
    CollectUnder(proof, ops);
    forall e | e in g.edges
      ensures EdgeUnder(proof, (e, g.edges[e]))
    {
      assert (e, g.edges[e]) in EdgeSet(g);
    }
    forall x, y
      ensures (x, y) in SpaceRead(atoms, proof).dependsOn <==> (Full(proof, x), Full(proof, y)) in Dependencies(g)
    {
      PairIs(proof, events, DependsOn, x, y);
      if e :| e in g.edges && g.edges[e].rel == DependsOn && g.edges[e].src == Full(proof, x) &&
              g.edges[e].dst == Full(proof, y)
      {
        assert (g.edges[e].src, g.edges[e].dst) in Dependencies(g);
      }
    }
  }

  lemma {:induction false} ReachesRenamed(proof: string, pairs: set<(Id, Id)>, edges: set<(Id, Id)>, x: Id, y: Id)
    requires '/' !in proof && Renames(proof, pairs, edges)
    ensures Reaches(pairs, x, y) <==> Reaches(edges, Full(proof, x), Full(proof, y))
  {
    if path :| Links(pairs, path, x, y) {
      var longer := seq(|path|, k requires 0 <= k < |path| => Full(proof, path[k]));
      assert Links(edges, longer, Full(proof, x), Full(proof, y));
    }
    if path :| Links(edges, path, Full(proof, x), Full(proof, y)) {
      LocalPath(proof, pairs, edges, path, x, y);
    }
  }

  lemma {:induction false} LocalPath(proof: string, pairs: set<(Id, Id)>, edges: set<(Id, Id)>, path: seq<Id>, x: Id,
                                     y: Id)
    requires '/' !in proof && Renames(proof, pairs, edges) && Links(edges, path, Full(proof, x), Full(proof, y))
    ensures Reaches(pairs, x, y)
  {
    forall k | 0 <= k < |path|
      ensures Under(proof, path[k])
    {
      assert k + 1 < |path| ==> (path[k], path[k + 1]) in edges;
      assert 0 < k ==> (path[k - 1], path[k]) in edges;
    }
    var shorter := seq(|path|, k requires 0 <= k < |path| => LocalOf(path[k]));
    forall k | 0 <= k < |path|
      ensures path[k] == Full(proof, shorter[k])
    {
      SplitIs(proof, path[k]);
    }
    SplitIs(proof, path[0]);
    SplitIs(proof, path[|path| - 1]);
    forall k | 0 <= k < |shorter| - 1
      ensures (shorter[k], shorter[k + 1]) in pairs
    {
      assert (path[k], path[k + 1]) in edges;
    }
    assert Links(pairs, shorter, x, y);
  }

  /** `reaches?` on the emitted atoms answers what a search of the replayed graph would: equal, or joined by
      DEPENDS_ON edges, where those form no cycle and leave committed nodes. */
  lemma {:induction false} ReachesReadBack(proof: string, events: seq<Event>, x: string, y: string)
    requires Plain(JournalOps(events)) && AllUnder(proof, JournalOps(events))
    requires var g := ApplyOps(EMPTY_GRAPH, JournalOps(events)).graph;
             Acyclic(Dependencies(g)) && forall e :: e in Dependencies(g) ==> e.0 in g.nodes
    ensures var g := ApplyOps(EMPTY_GRAPH, JournalOps(events)).graph;
            var space := SpaceRead(EmittedAtoms(Collect(JournalOps(events))), proof);
            && Acyclic(Followed(space))
            && (ReachesAtom(space, x, y) <==> x == y || Reaches(Dependencies(g), Full(proof, x), Full(proof, y)))
  {
    var g := ApplyOps(EMPTY_GRAPH, JournalOps(events)).graph;
    var space := SpaceRead(EmittedAtoms(Collect(JournalOps(events))), proof);
    DependenciesRead(proof, events);
    AllFollowed(proof, events);
    forall z
      ensures !Reaches(space.dependsOn, z, z)
    {
      ReachesRenamed(proof, space.dependsOn, Dependencies(g), z, z);
    }
    ReachesAtomIsReachability(space, x, y);
    ReachesRenamed(proof, space.dependsOn, Dependencies(g), x, y);
  }

  lemma {:induction false} AllFollowed(proof: string, events: seq<Event>)
    requires Plain(JournalOps(events)) && AllUnder(proof, JournalOps(events))
    requires var g := ApplyOps(EMPTY_GRAPH, JournalOps(events)).graph;
             forall e :: e in Dependencies(g) ==> e.0 in g.nodes
    ensures var space := SpaceRead(EmittedAtoms(Collect(JournalOps(events))), proof);
            Followed(space) == space.dependsOn
  {
    var space := SpaceRead(EmittedAtoms(Collect(JournalOps(events))), proof);
    DependenciesRead(proof, events);
    forall e | e in space.dependsOn
      ensures e.0 in space.committed
    {
      SpaceIsTheGraph(proof, events, e.0, e.1, Refuted);
      assert (e.0, e.1) in space.dependsOn;
    }
  }
}
