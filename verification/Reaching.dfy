/** Graphs the gate reaches from nothing by proposals of one op or two. */
module Reaching {
  import opened Vocabulary
  import opened Ops
  import opened Transitions
  import opened GraphState
  import opened Apply
  import opened Rules
  import opened Gate
  import opened Ledger
  import opened LeaseRuns
  import opened Chain
  import opened Commit

  const PROOF := "p"
  const LEASE: LeaseId := "w"

  function Local(c: char): Id {
    PROOF + "/" + [c]
  }

  function Hashed(c: char): Id {
    "sha256:" + [c]
  }

  lemma {:induction false} LocalIds()
    ensures forall c :: Scoped(PROOF, Local(c)) && !IsContentAddressed(Local(c))
    ensures forall a, b :: a != b ==> Local(a) != Local(b)
    ensures forall c :: Scoped(PROOF, Hashed(c)) && IsContentAddressed(Hashed(c))
    ensures forall a, b :: Local(a) != Hashed(b)
  {
    forall c
      ensures Scoped(PROOF, Local(c)) && !IsContentAddressed(Local(c)) && Local(c)[2] == c
      ensures Local(c)[0] == 'p'
    {
      assert Local(c)[..2] == PROOF + "/";
      assert "sha256:"[0] == 's' && Local(c)[0] == 'p';
    }
    forall c
      ensures IsContentAddressed(Hashed(c)) && Hashed(c)[0] == 's'
    {
      assert Hashed(c)[..7] == "sha256:";
    }
  }

  /** A proposal made at revision `n` under the write lock. */
  function Propose(n: nat, ops: seq<Op>): Proposal {
    Proposal(PROOF, "someone", "coordinator", ops, Some(n), Some(LEASE), Some(1))
  }

  type Rule = (Proposal, Graph) -> bool

  /** A run of n such proposals, all keeping the rule, ends in `g`. */
  ghost predicate RunTo(rule: Rule, graphs: seq<Graph>, proposals: seq<Proposal>, g: Graph, n: nat) {
    && IsRun(graphs, proposals) && |proposals| == n && graphs[n] == g
    && forall k :: 0 <= k < n ==> Keeps(rule, graphs[k], proposals[k], k)
  }

  ghost predicate Keeps(rule: Rule, g: Graph, p: Proposal, k: nat) {
    rule(p, g) && p == Propose(k, p.ops)
  }

  ghost predicate Reached(rule: Rule, g: Graph, n: nat) {
    exists graphs, proposals :: RunTo(rule, graphs, proposals, g, n)
  }

  lemma {:induction false} StartReached(rule: Rule)
    ensures Reached(rule, EMPTY_GRAPH, 0)
  {
    assert RunTo(rule, [EMPTY_GRAPH], [], EMPTY_GRAPH, 0);
  }

  lemma {:induction false} NextReached(rule: Rule, g: Graph, n: nat, ops: seq<Op>, h: Graph)
    requires Reached(rule, g, n) && Commits(g, Propose(n, ops), h) && rule(Propose(n, ops), g)
    ensures Reached(rule, h, n + 1)
  {
    var graphs, proposals :| RunTo(rule, graphs, proposals, g, n);
    var p := Propose(n, ops);
    RunGrows(graphs, proposals, p, h);
    var longer, more := graphs + [h], proposals + [p];
    forall k | 0 <= k < n + 1
      ensures Keeps(rule, longer[k], more[k], k)
    {
      if k < n {
        assert Keeps(rule, graphs[k], proposals[k], k);
      }
    }
    assert RunTo(rule, longer, more, h, n + 1);
  }

  /** What is reached, and one more commit of any kind, is a run of the whole system. */
  lemma {:induction false} CommitInTheSystem(hash: ChainHash, rule: Rule, g: Graph, n: nat, ops: seq<Op>, h: Graph)
    returns (states: seq<System>, txs: seq<Tx>)
    requires Reached(rule, g, n) && Commits(g, Propose(n, ops), h)
    ensures IsSystemRun(hash, PROOF, states, txs)
    ensures states[|txs|].graph == h && |states[|txs|].ledger.journal| == n + 1
    ensures states[|txs|].ledger.journal[n].payload == Propose(n, ops)
  {
    var graphs, proposals :| RunTo(rule, graphs, proposals, g, n);
    var p := Propose(n, ops);
    RunGrows(graphs, proposals, p, h);
    forall k | 0 <= k < n + 1
      ensures FollowsHead((proposals + [p])[k], PROOF, LEASE, k)
    {
      if k < n {
        assert Keeps(rule, graphs[k], proposals[k], k);
      }
    }
    states, txs := RunIsASystemRun(hash, PROOF, LEASE, graphs + [h], proposals + [p]);
    assert Payloads(states[|txs|].ledger.journal)[n] == p;
  }

  // ---- proposals that touch no tactic ----

  predicate TouchesTactics(op: Op) {
    IsTactic(op) || IsEdge(op, FormalRequires) || IsEdge(op, ClosesState) || RemovesObligation(op)
  }

  lemma {:induction false} NoEntries(ops: seq<Op>, rel: Rel, src: Id)
    requires forall op :: op in ops ==> !IsEdgeOf(op, rel, src)
    ensures EdgesOf(ops, rel, src) == []
  {
    if ops != [] {
      assert ops[|ops| - 1] in ops;
      NoEntries(ops[..|ops| - 1], rel, src);
    }
  }

  /** A tactic id the ops do not mention is reported by neither validator. */
  lemma {:induction false} UnmentionedIsClean(ops: seq<Op>, id: Id)
    requires forall op :: op in ops ==> !(IsTactic(op) && op.id == id)
    requires forall op :: op in ops ==> !IsEdgeOf(op, FormalRequires, id) && !IsEdgeOf(op, ClosesState, id)
    ensures SubgoalRejections(ops, id) == {} && ExecutorRejections(ops, id) == {}
  {
    NoEntries(ops, FormalRequires, id);
    NoEntries(ops, ClosesState, id);
    LastTacticIsAnUpsert(ops, id);
  }

  lemma {:induction false} NoTacticsAreClean(ops: seq<Op>)
    requires forall op :: op in ops ==> !TouchesTactics(op)
    ensures SubgoalClean(ops) && ExecutorClean(ops)
  {
    forall id
      ensures SubgoalRejections(ops, id) == {} && ExecutorRejections(ops, id) == {}
    {
      UnmentionedIsClean(ops, id);
    }
  }

  // ---- proposals of one and two ops ----

  lemma {:induction false} OneOp(g: Graph, a: Op)
    ensures ApplyOps(g, [a]) == ApplyOp(g, a)
    ensures forall id :: CreatedLabel([a], id) == if Upserts(a, id) then Some(a.lab) else None
    ensures forall e :: AddedRel([a], e) == if Adds(a, e) then Some(a.rel) else None
    ensures forall id :: NodeFields([a], g, id) ==
              if id in g.nodes then g.nodes[id].fields else if Upserts(a, id) then a.fields else map[]
  {
    assert [a][..0] == [] && [a][1..] == [];
    forall id
      ensures ProposedFields([a], id) == if Upserts(a, id) then a.fields else map[]
    {
    }
  }

  lemma {:induction false} TwoOps(g: Graph, a: Op, b: Op)
    ensures ApplyOps(g, [a, b]) == if ApplyOp(g, a).ok then ApplyOp(ApplyOp(g, a).graph, b) else ApplyOp(g, a)
    ensures forall id :: CreatedLabel([a, b], id) ==
              if Upserts(b, id) then Some(b.lab) else if Upserts(a, id) then Some(a.lab) else None
  {
    OneOp(g, a);
    assert [a, b][..1] == [a];
  }

  predicate Clean(p: Proposal, g: Graph, i: nat)
    requires i < |p.ops|
  {
    StatelessDefects(p, i) == {} && StatefulDefects(p, g, i) == {}
  }

  /** One clean op that touches no tactic is accepted and applied. */
  lemma {:induction false} OneOpStep(g: Graph, n: nat, a: Op)
    requires !TouchesTactics(a) && Clean(Propose(n, [a]), g, 0) && ApplyOp(g, a).ok
    ensures Step(g, Propose(n, [a]), ApplyOp(g, a).graph)
  {
    NoTacticsAreClean([a]);
    OneOp(g, a);
  }

  lemma {:induction false} AcceptTwo(g: Graph, n: nat, a: Op, b: Op)
    requires SubgoalClean([a, b]) && ExecutorClean([a, b])
    requires Clean(Propose(n, [a, b]), g, 0) && Clean(Propose(n, [a, b]), g, 1)
    ensures Accepted(Propose(n, [a, b]), g)
  {
    var p := Propose(n, [a, b]);
    forall i | 0 <= i < |p.ops|
      ensures StatelessDefects(p, i) == {} && StatefulDefects(p, g, i) == {}
    {
      if i == 0 {
        assert Clean(p, g, 0);
      } else {
        assert Clean(p, g, 1);
      }
    }
  }

  /** An upsert in the proof's namespace with legal literals that restates committed fields. */
  lemma {:induction false} CleanUpsert(p: Proposal, g: Graph, i: nat)
    requires i < |p.ops| && p.ops[i].UpsertNode? && Scoped(p.proofId, p.ops[i].id)
    requires forall name :: name in p.ops[i].fields ==> LegalLiteral(p.ops[i].lab, name, p.ops[i].fields[name])
    requires p.ops[i].id in g.nodes ==> forall name :: name in p.ops[i].fields ==>
               Lookup(g.nodes[p.ops[i].id].fields, name) == Some(p.ops[i].fields[name])
    ensures Clean(p, g, i)
  {
  }

  /** An addition in the namespace between ends of the right labels; a hashed target may be unknown. */
  lemma {:induction false} CleanAddition(p: Proposal, g: Graph, i: nat)
    requires i < |p.ops| && p.ops[i].AddEdge?
    requires forall id :: id in Identities(p.ops[i]) ==> Scoped(p.proofId, id)
    requires LabelOf(p.ops, g, p.ops[i].src).Some?
    requires LabelOf(p.ops, g, p.ops[i].dst).Some? || IsContentAddressed(p.ops[i].dst)
    requires EndpointsOf(p.ops[i].rel).Some? ==>
               LabelOf(p.ops, g, p.ops[i].src).value == EndpointsOf(p.ops[i].rel).value.0
    requires EndpointsOf(p.ops[i].rel).Some? && LabelOf(p.ops, g, p.ops[i].dst).Some? ==>
               LabelOf(p.ops, g, p.ops[i].dst).value == EndpointsOf(p.ops[i].rel).value.1
    requires !SameKnownActor(NodeFields(p.ops, g, p.ops[i].dst), NodeFields(p.ops, g, p.ops[i].src))
    ensures Clean(p, g, i)
  {
  }

  function WithNode(g: Graph, id: Id, lab: Label, fields: Fields): Graph {
    g.(nodes := g.nodes[id := Node(lab, fields)])
  }

  function WithEdge(g: Graph, eid: Id, rel: Rel, src: Id, dst: Id): Graph {
    g.(edges := g.edges[eid := Edge(rel, src, dst, map[])])
  }

  /** An accepted creation of one node that is no tactic. */
  lemma {:induction false} CreationStep(g: Graph, n: nat, lab: Label, id: Id, fields: Fields)
    requires lab != TacticApplication && Scoped(PROOF, id) && id !in g.nodes
    requires forall name :: name in fields ==> LegalLiteral(lab, name, fields[name])
    ensures var p := Propose(n, [UpsertNode(lab, id, fields)]);
            Step(g, p, WithNode(g, id, lab, fields)) && Disciplined(p, g)
  {
    CleanUpsert(Propose(n, [UpsertNode(lab, id, fields)]), g, 0);
    OneOpStep(g, n, UpsertNode(lab, id, fields));
  }

  predicate Linkable(g: Graph, rel: Rel, src: Id, dst: Id) {
    && rel != FormalRequires && rel != ClosesState
    && src in g.nodes && (dst in g.nodes || IsContentAddressed(dst))
    && (EndpointsOf(rel).Some? ==> g.nodes[src].lab == EndpointsOf(rel).value.0)
    && (EndpointsOf(rel).Some? && dst in g.nodes ==> g.nodes[dst].lab == EndpointsOf(rel).value.1)
    && (dst in g.nodes ==> !SameKnownActor(g.nodes[dst].fields, g.nodes[src].fields))
  }

  /** An accepted addition of one edge without fields. */
  lemma {:induction false} LinkStep(g: Graph, n: nat, rel: Rel, src: Id, dst: Id, eid: Id)
    requires Linkable(g, rel, src, dst) && eid !in g.edges
    requires Scoped(PROOF, src) && Scoped(PROOF, dst) && Scoped(PROOF, eid)
    ensures var p := Propose(n, [AddEdge(rel, src, dst, eid, map[])]);
            Step(g, p, WithEdge(g, eid, rel, src, dst)) && Disciplined(p, g)
  {
    LinkIsClean(g, n, rel, src, dst, eid);
    OneOpStep(g, n, AddEdge(rel, src, dst, eid, map[]));
  }

  lemma {:induction false} LinkIsClean(g: Graph, n: nat, rel: Rel, src: Id, dst: Id, eid: Id)
    requires Linkable(g, rel, src, dst) && Scoped(PROOF, src) && Scoped(PROOF, dst) && Scoped(PROOF, eid)
    ensures Clean(Propose(n, [AddEdge(rel, src, dst, eid, map[])]), g, 0)
  {
    var op := AddEdge(rel, src, dst, eid, map[]);
    OneOp(g, op);
    CleanAddition(Propose(n, [op]), g, 0);
  }

  /** An accepted removal of one edge. */
  lemma {:induction false} RemovalStep(g: Graph, n: nat, e: Id)
    requires Scoped(PROOF, e) && e in g.edges && g.edges[e].rel != FormalRequires
    ensures var p := Propose(n, [RemoveEdge(g.edges[e].rel, e)]);
            Step(g, p, g.(edges := g.edges - {e})) && Disciplined(p, g)
  {
    var op := RemoveEdge(g.edges[e].rel, e);
    OneOp(g, op);
    CleanRemoval(g, n, e);
    OneOpStep(g, n, op);
  }

  lemma {:induction false} CleanRemoval(g: Graph, n: nat, e: Id)
    requires Scoped(PROOF, e) && e in g.edges
    ensures Clean(Propose(n, [RemoveEdge(g.edges[e].rel, e)]), g, 0)
  {
    OneOp(g, RemoveEdge(g.edges[e].rel, e));
  }

  function SetStatus(lab: Label, id: Id, from: Token, to: Token): Op {
    SetField(lab, id, Status, Str(to), Some(Str(from)))
  }

  /** A status may be written along its table, with whatever the status asks for in place. */
  ghost predicate Writable(g: Graph, lab: Label, id: Id, from: Token, to: Token) {
    && (lab == Claim || lab == FormalRun)
    && Scoped(PROOF, id) && id in g.nodes && g.nodes[id].lab == lab
    && Get(g.nodes[id].fields, Status) == Str(from) && to in Next(lab, Status, from)
    && LegalLiteral(lab, Status, Str(to))
    && NothingMissing(g, SetStatus(lab, id, from, to))
  }

  predicate NothingMissing(g: Graph, op: Op) {
    ReplayDefects([op], g, op) == {} && AlignmentDefects([op], g, op) == {} && StagnationDefects([op], g, op) == {}
  }

  /** An accepted write of a status. */
  lemma {:induction false} StatusWriteStep(g: Graph, n: nat, lab: Label, id: Id, from: Token, to: Token)
    requires Writable(g, lab, id, from, to)
    ensures var p := Propose(n, [SetStatus(lab, id, from, to)]);
            && Step(g, p, WithNode(g, id, lab, g.nodes[id].fields[Status := Str(to)])) && Disciplined(p, g)
  {
    var op := SetStatus(lab, id, from, to);
    OneOp(g, op);
    StatusWriteIsClean(g, n, lab, id, from, to);
    OneOpStep(g, n, op);
  }

  lemma {:induction false} StatusWriteIsClean(g: Graph, n: nat, lab: Label, id: Id, from: Token, to: Token)
    requires Writable(g, lab, id, from, to)
    ensures Clean(Propose(n, [SetStatus(lab, id, from, to)]), g, 0)
  {
    StatusWriteIsLegal(n, lab, id, from, to);
    StatusWriteFits(g, lab, id, from, to);
  }

  lemma {:induction false} StatusWriteIsLegal(n: nat, lab: Label, id: Id, from: Token, to: Token)
    requires Scoped(PROOF, id) && LegalLiteral(lab, Status, Str(to))
    ensures StatelessDefects(Propose(n, [SetStatus(lab, id, from, to)]), 0) == {}
  {
  }

  lemma {:induction false} StatusWriteFits(g: Graph, lab: Label, id: Id, from: Token, to: Token)
    requires Writable(g, lab, id, from, to)
    ensures StatefulDefects(Propose(0, [SetStatus(lab, id, from, to)]), g, 0) == {}
  {
    OneOp(g, SetStatus(lab, id, from, to));
  }
}
