/** Inputs the gate accepts that break an invariant when a rule of discipline is dropped. Each starts
    from a graph that proposals keeping the other rules reach, and names the head as its base, so
    that `Reaching.CommitInTheSystem` makes it a run of the whole system. */
module Necessity {
  import opened Vocabulary
  import opened Ops
  import opened Transitions
  import opened GraphState
  import opened Apply
  import opened Rules
  import opened Obligations
  import opened Gate
  import opened Conservation
  import opened Typing
  import opened Evidence
  import opened Records
  import opened Projector
  import opened Ledger
  import opened LeaseRuns
  import opened Chain
  import opened Commit
  import opened Reaching

  /** Every rule of discipline but the one for self-created replays. */
  predicate KeepingAll(p: Proposal, g: Graph) {
    Disciplined(p, g) && KeepsEvidence(p.ops) && KeepsObstructions(p.ops)
  }

  // ---- tactics ----

  /** A Lean-accepted tactic with this many children. */
  function Tactic(count: nat): Fields {
    map[SubgoalCount := Num(count), ExecutorResult := Str(LeanAccepted)]
  }

  function NewTactic(id: Id, count: nat): Op {
    UpsertNode(TacticApplication, id, Tactic(count))
  }

  function Child(id: Id, goal: Id, eid: Id): Op {
    AddEdge(FormalRequires, id, goal, eid, map[ChildIndex := Num(0)])
  }

  /** Two upserts of one tactic: the validators look at the second. */
  lemma {:induction false} TwoUpsertsAreClean(id: Id, n: nat)
    ensures SubgoalClean([NewTactic(id, n), NewTactic(id, 0)]) && ExecutorClean([NewTactic(id, n), NewTactic(id, 0)])
  {
    var ops := [NewTactic(id, n), NewTactic(id, 0)];
    forall other
      ensures SubgoalRejections(ops, other) == {} && ExecutorRejections(ops, other) == {}
    {
      if other == id {
        NoEntries(ops, FormalRequires, id);
        NoEntries(ops, ClosesState, id);
        assert InOrder([], []);
        ArityCheckMeans(Num(0), []);
        SettledTactic(ops, id, 1, 0);
      } else {
        UnmentionedIsClean(ops, other);
      }
    }
  }

  /** A tactic without children. */
  lemma {:induction false} ChildlessIsClean(id: Id)
    ensures SubgoalClean([NewTactic(id, 0)]) && ExecutorClean([NewTactic(id, 0)])
  {
    var ops := [NewTactic(id, 0)];
    forall other
      ensures SubgoalRejections(ops, other) == {} && ExecutorRejections(ops, other) == {}
    {
      if other == id {
        NoEntries(ops, FormalRequires, id);
        NoEntries(ops, ClosesState, id);
        assert InOrder([], []);
        ArityCheckMeans(Num(0), []);
        SettledTactic(ops, id, 0, 0);
      } else {
        UnmentionedIsClean(ops, other);
      }
    }
  }

  /** A tactic with its one child. */
  lemma {:induction false} OneChildIsClean(id: Id, goal: Id, eid: Id)
    ensures SubgoalClean([NewTactic(id, 1), Child(id, goal, eid)])
    ensures ExecutorClean([NewTactic(id, 1), Child(id, goal, eid)])
  {
    var ops := [NewTactic(id, 1), Child(id, goal, eid)];
    OneChildCounts(id, goal, eid);
    forall other
      ensures SubgoalRejections(ops, other) == {} && ExecutorRejections(ops, other) == {}
    {
      if other != id {
        UnmentionedIsClean(ops, other);
      }
    }
  }

  lemma {:induction false} OneChildCounts(id: Id, goal: Id, eid: Id)
    ensures SubgoalRejections([NewTactic(id, 1), Child(id, goal, eid)], id) == {}
    ensures ExecutorRejections([NewTactic(id, 1), Child(id, goal, eid)], id) == {}
  {
    OneChildEntries(id, goal, eid);
    OneEntryIsRight(goal);
    SettledTactic([NewTactic(id, 1), Child(id, goal, eid)], id, 0, 1);
  }

  /** A tactic with the number of children it declares, which closes nothing, is not reported. */
  lemma {:induction false} SettledTactic(ops: seq<Op>, id: Id, i: nat, n: nat)
    requires LastTactic(ops, id) == Some(Created(i, Tactic(n)))
    requires ArityReasons(Num(n), EdgesOf(ops, FormalRequires, id)) == {}
    requires EdgesOf(ops, ClosesState, id) == []
    ensures SubgoalRejections(ops, id) == {} && ExecutorRejections(ops, id) == {}
  {
    assert ResultReasons(Tactic(n)) == {};
  }

  lemma {:induction false} OneEntryIsRight(goal: Id)
    ensures ArityReasons(Num(1), [Entry(1, goal, Num(0))]) == {}
  {
    var entries := [Entry(1, goal, Num(0))];
    assert InOrder(entries, [0]);
    ArityCheckMeans(Num(1), entries);
  }

  lemma {:induction false} OneChildEntries(id: Id, goal: Id, eid: Id)
    ensures var ops := [NewTactic(id, 1), Child(id, goal, eid)];
            EdgesOf(ops, FormalRequires, id) == [Entry(1, goal, Num(0))] &&
            EdgesOf(ops, ClosesState, id) == [] &&
            LastTactic(ops, id) == Some(Created(0, Tactic(1)))
  {
    var ops := [NewTactic(id, 1), Child(id, goal, eid)];
    assert ops[..1] == [NewTactic(id, 1)];
    NoEntries(ops[..1], FormalRequires, id);
    NoEntries(ops, ClosesState, id);
    assert LastTactic(ops[..1], id) == Some(Created(0, Tactic(1)));
  }

  /** A Lean-accepted tactic, new or committed as it is. */
  lemma {:induction false} CleanTactic(p: Proposal, g: Graph, i: nat, count: nat)
    requires i < |p.ops| && p.ops[i].UpsertNode? && p.ops[i] == NewTactic(p.ops[i].id, count)
    requires Scoped(p.proofId, p.ops[i].id)
    requires p.ops[i].id in g.nodes ==> g.nodes[p.ops[i].id].fields == Tactic(count)
    ensures Clean(p, g, i)
  {
    TacticIsLegal(count);
    CleanUpsert(p, g, i);
  }

  lemma {:induction false} TacticIsLegal(count: nat)
    ensures forall name :: name in Tactic(count) ==>
              LegalLiteral(TacticApplication, name, Tactic(count)[name])
  {
  }

  /** A write to a plain field of a node known by that label, naming the value it replaces. */
  lemma {:induction false} CleanSet(p: Proposal, g: Graph, i: nat)
    requires i < |p.ops| && p.ops[i].SetField? && Scoped(p.proofId, p.ops[i].id)
    requires p.ops[i].lab == Claim && (p.ops[i].field == SubgoalCount || p.ops[i].field == Description)
    requires LabelOf(p.ops, g, p.ops[i].id) == Some(Claim) && p.ops[i].prior.Some?
    requires p.ops[i].id in g.nodes ==>
               Get(g.nodes[p.ops[i].id].fields, p.ops[i].field) == p.ops[i].prior.value
    ensures Clean(p, g, i)
  {
  }

  // ---- conservation ----

  /** A lone tactic that declares this many children. */
  function OneTactic(t: Id, count: nat): Graph {
    Graph(map[t := Node(TacticApplication, Tactic(count))], map[])
  }

  lemma {:induction false} LoneTactic(t: Id, count: nat)
    ensures ObligationsHold(OneTactic(t, count)) <==> count == 0
  {
    assert IsTacticNode(OneTactic(t, count), t);
    if count == 0 {
      assert ChildrenInOrder(OneTactic(t, 0), t, []);
    }
    forall order | ChildrenInOrder(OneTactic(t, count), t, order)
      ensures order == []
    {
      EmptyOrInhabited(order);
    }
  }

  lemma {:induction false} TwiceStep(t: Id)
    requires Scoped(PROOF, t)
    ensures Step(EMPTY_GRAPH, Propose(0, [NewTactic(t, 1), NewTactic(t, 0)]), OneTactic(t, 1))
  {
    var a, b := NewTactic(t, 1), NewTactic(t, 0);
    var p := Propose(0, [a, b]);
    TwoUpsertsAreClean(t, 1);
    TwoOps(EMPTY_GRAPH, a, b);
    CleanTactic(p, EMPTY_GRAPH, 0, 1);
    CleanTactic(p, EMPTY_GRAPH, 1, 0);
    AcceptTwo(EMPTY_GRAPH, 0, a, b);
  }

  /** Upserting a tactic twice: the second declaration is checked, the first one is committed. */
  lemma {:induction false} SecondUpsertHidesTheFirst() returns (ops: seq<Op>, h: Graph)
    ensures Reached(Disciplined, EMPTY_GRAPH, 0) && Step(EMPTY_GRAPH, Propose(0, ops), h)
    ensures LabelsKept(ops, EMPTY_GRAPH) && TacticsFresh(ops, EMPTY_GRAPH) && EdgeIdsFresh(ops, EMPTY_GRAPH)
    ensures ObligationsHold(EMPTY_GRAPH) && !ObligationsHold(h)
  {
    var t := Local('t');
    LocalIds();
    StartReached(Disciplined);
    ops, h := [NewTactic(t, 1), NewTactic(t, 0)], OneTactic(t, 1);
    TwiceStep(t);
    LoneTactic(t, 1);
  }

  lemma {:induction false} ChildlessStep(t: Id)
    requires Scoped(PROOF, t)
    ensures var p := Propose(0, [NewTactic(t, 0)]);
            Step(EMPTY_GRAPH, p, OneTactic(t, 0)) && Disciplined(p, EMPTY_GRAPH)
  {
    ChildlessIsClean(t);
    OneOp(EMPTY_GRAPH, NewTactic(t, 0));
    CleanTactic(Propose(0, [NewTactic(t, 0)]), EMPTY_GRAPH, 0, 0);
  }

  function Relabel(t: Id): seq<Op> {
    [UpsertNode(Claim, t, map[]), SetField(Claim, t, SubgoalCount, Num(1), Some(Num(0)))]
  }

  lemma {:induction false} RelabelAccepted(t: Id, n: nat)
    requires Scoped(PROOF, t)
    ensures Accepted(Propose(n, Relabel(t)), OneTactic(t, 0))
  {
    var g, p := OneTactic(t, 0), Propose(n, Relabel(t));
    NoTacticsAreClean(p.ops);
    CleanUpsert(p, g, 0);
    RelabelledSetIsClean(t, n);
    AcceptTwo(g, n, p.ops[0], p.ops[1]);
  }

  lemma {:induction false} RelabelledSetIsClean(t: Id, n: nat)
    requires Scoped(PROOF, t)
    ensures Clean(Propose(n, Relabel(t)), OneTactic(t, 0), 1)
  {
    TwoOps(OneTactic(t, 0), Relabel(t)[0], Relabel(t)[1]);
    CleanSet(Propose(n, Relabel(t)), OneTactic(t, 0), 1);
  }

  lemma {:induction false} RelabelStep(t: Id, n: nat)
    requires Scoped(PROOF, t)
    ensures Step(OneTactic(t, 0), Propose(n, Relabel(t)), OneTactic(t, 1))
  {
    RelabelAccepted(t, n);
    TwoOps(OneTactic(t, 0), Relabel(t)[0], Relabel(t)[1]);
    assert Tactic(0)[SubgoalCount := Num(1)] == Tactic(1);
  }

  /** An upsert under another label lets an immutable field of a committed tactic be rewritten. */
  lemma {:induction false} RelabellingUnlocksFields() returns (g: Graph, n: nat, ops: seq<Op>, h: Graph)
    ensures Reached(Disciplined, g, n) && Step(g, Propose(n, ops), h)
    ensures UpsertsOnce(ops) && TacticsFresh(ops, g) && EdgeIdsFresh(ops, g)
    ensures ObligationsHold(g) && !ObligationsHold(h)
  {
    var t := Local('t');
    LocalIds();
    StartReached(Disciplined);
    ChildlessStep(t);
    NextReached(Disciplined, EMPTY_GRAPH, 0, [NewTactic(t, 0)], OneTactic(t, 0));
    g, n, ops, h := OneTactic(t, 0), 1, Relabel(t), OneTactic(t, 1);
    RelabelStep(t, n);
    LoneTactic(t, 0);
    LoneTactic(t, 1);
  }

  function Adopt(t: Id, s: Id, e: Id): seq<Op> {
    [NewTactic(t, 1), Child(t, s, e)]
  }

  predicate Adoptable(g: Graph, t: Id, s: Id, e: Id) {
    && Scoped(PROOF, t) && Scoped(PROOF, s) && Scoped(PROOF, e) && s != t
    && s in g.nodes && g.nodes[s].lab == FormalState
    && (t in g.nodes ==> g.nodes[t] == Node(TacticApplication, Tactic(1)))
  }

  lemma {:induction false} AdoptAccepted(g: Graph, n: nat, t: Id, s: Id, e: Id)
    requires Adoptable(g, t, s, e)
    ensures Accepted(Propose(n, Adopt(t, s, e)), g)
  {
    var p := Propose(n, Adopt(t, s, e));
    OneChildIsClean(t, s, e);
    CleanTactic(p, g, 0, 1);
    AdoptedEdgeIsClean(g, n, t, s, e);
    AcceptTwo(g, n, p.ops[0], p.ops[1]);
  }

  lemma {:induction false} AdoptedEdgeIsClean(g: Graph, n: nat, t: Id, s: Id, e: Id)
    requires Adoptable(g, t, s, e)
    ensures Clean(Propose(n, Adopt(t, s, e)), g, 1)
  {
    TwoOps(g, NewTactic(t, 1), Child(t, s, e));
    TacticsHaveNoActor(g, t, s, e);
    CleanAddition(Propose(n, Adopt(t, s, e)), g, 1);
  }

  lemma {:induction false} TacticsHaveNoActor(g: Graph, t: Id, s: Id, e: Id)
    requires Adoptable(g, t, s, e)
    ensures Get(NodeFields(Adopt(t, s, e), g, t), Actor) == Null
  {
    assert Adopt(t, s, e)[0] == NewTactic(t, 1);
  }

  /** The graph after adopting a child. */
  function Adopted(g: Graph, t: Id, s: Id, e: Id): Graph {
    var h := WithNode(g, t, TacticApplication, Tactic(1));
    if e in g.edges then h
    else h.(edges := h.edges[e := Edge(FormalRequires, t, s, map[ChildIndex := Num(0)])])
  }

  lemma {:induction false} AdoptStep(g: Graph, n: nat, t: Id, s: Id, e: Id)
    requires Adoptable(g, t, s, e)
    ensures Step(g, Propose(n, Adopt(t, s, e)), Adopted(g, t, s, e))
  {
    AdoptAccepted(g, n, t, s, e);
    TwoOps(g, NewTactic(t, 1), Child(t, s, e));
    assert t in g.nodes ==> g.nodes[t := Node(TacticApplication, Tactic(1))] == g.nodes;
  }

  /** A tactic with one child. */
  function WithChild(t: Id, s: Id, e: Id): Graph {
    Adopted(WithNode(EMPTY_GRAPH, s, FormalState, map[]), t, s, e)
  }

  predicate FreshTriple(t: Id, s: Id, e: Id) {
    Scoped(PROOF, t) && Scoped(PROOF, s) && Scoped(PROOF, e) && s != t
  }

  lemma {:induction false} WithChildReached(t: Id, s: Id, e: Id)
    requires FreshTriple(t, s, e)
    ensures Reached(Disciplined, WithChild(t, s, e), 2) && ObligationsHold(WithChild(t, s, e))
  {
    var g := WithNode(EMPTY_GRAPH, s, FormalState, map[]);
    StateReached(s);
    AdoptFirst(g, 1, t, s, e);
    NextReached(Disciplined, g, 1, Adopt(t, s, e), WithChild(t, s, e));
    WithChildHolds(t, s, e);
  }

  lemma {:induction false} AdoptFirst(g: Graph, n: nat, t: Id, s: Id, e: Id)
    requires Adoptable(g, t, s, e) && t !in g.nodes && e !in g.edges
    ensures Step(g, Propose(n, Adopt(t, s, e)), Adopted(g, t, s, e)) && Disciplined(Propose(n, Adopt(t, s, e)), g)
  {
    AdoptStep(g, n, t, s, e);
    AdoptIsSingle(t, s, e);
  }

  lemma {:induction false} AdoptIsSingle(t: Id, s: Id, e: Id)
    ensures UpsertsOnce(Adopt(t, s, e))
  {
  }

  lemma {:induction false} WithChildHolds(t: Id, s: Id, e: Id)
    requires s != t
    ensures ObligationsHold(WithChild(t, s, e))
  {
    assert ChildrenInOrder(WithChild(t, s, e), t, [e]);
  }

  lemma {:induction false} StateReached(s: Id)
    requires Scoped(PROOF, s)
    ensures Reached(Disciplined, WithNode(EMPTY_GRAPH, s, FormalState, map[]), 1)
  {
    StartReached(Disciplined);
    CreationStep(EMPTY_GRAPH, 0, FormalState, s, map[]);
    NextReached(Disciplined, EMPTY_GRAPH, 0, [UpsertNode(FormalState, s, map[])],
                WithNode(EMPTY_GRAPH, s, FormalState, map[]));
  }

  /** Confirming a committed tactic lets it gain a child. */
  lemma {:induction false} ConfirmedTacticGainsAChild() returns (g: Graph, n: nat, ops: seq<Op>, h: Graph)
    ensures Reached(Disciplined, g, n) && Step(g, Propose(n, ops), h)
    ensures NodesDisciplined(Propose(n, ops), g) && EdgeIdsFresh(ops, g)
    ensures ObligationsHold(g) && !ObligationsHold(h)
  {
    var t, s, e, f := Local('t'), Local('s'), Local('e'), Local('f');
    LocalIds();
    WithChildReached(t, s, e);
    g, n, ops := WithChild(t, s, e), 2, Adopt(t, s, f);
    h := Adopted(g, t, s, f);
    AdoptAgain(t, s, e, f, n);
  }

  lemma {:induction false} AdoptAgain(t: Id, s: Id, e: Id, f: Id, n: nat)
    requires FreshTriple(t, s, e) && Scoped(PROOF, f) && e != f
    ensures var g, p := WithChild(t, s, e), Propose(n, Adopt(t, s, f));
            && Step(g, p, Adopted(g, t, s, f)) && !ObligationsHold(Adopted(g, t, s, f))
            && NodesDisciplined(p, g) && EdgeIdsFresh(p.ops, g)
  {
    var g := WithChild(t, s, e);
    AdoptStep(g, n, t, s, f);
    AdoptIsSingle(t, s, f);
    TwoChildrenAtZero(Adopted(g, t, s, f), t, e, f);
  }

  lemma {:induction false} TwoChildrenAtZero(h: Graph, t: Id, e: Id, f: Id)
    requires IsTacticNode(h, t) && e in h.edges && f in h.edges && e != f
    requires IsChild(h.edges[e], t) && IsChild(h.edges[f], t)
    requires Get(h.edges[e].fields, ChildIndex) == Num(0) == Get(h.edges[f].fields, ChildIndex)
    ensures !ObligationsHold(h)
  {
    if order :| ChildrenInOrder(h, t, order) {
      assert false;
    }
  }

  /** Restating a tactic together with the child edge it already has changes nothing: committed and
      added children may coincide. */
  lemma {:induction false} RepeatedChildIsHarmless() returns (g: Graph, n: nat, ops: seq<Op>, t: Id)
    ensures Reached(Disciplined, g, n) && Step(g, Propose(n, ops), g)
    ensures ObligationsHold(g) && ObligationEdgesLand(ops, g)
    ensures Children(g, t) == AddedChildren(ops, t) != {}
  {
    t := Local('t');
    var s, e := Local('s'), Local('e');
    LocalIds();
    WithChildReached(t, s, e);
    g, n, ops := WithChild(t, s, e), 2, Adopt(t, s, e);
    AdoptStep(g, n, t, s, e);
    assert Adopted(g, t, s, e).nodes == g.nodes;
    RepeatedEdgeLands(t, s, e);
  }

  lemma {:induction false} RepeatedEdgeLands(t: Id, s: Id, e: Id)
    ensures ObligationEdgesLand(Adopt(t, s, e), WithChild(t, s, e))
    ensures Children(WithChild(t, s, e), t) == {e} == AddedChildren(Adopt(t, s, e), t)
  {
    var ops := Adopt(t, s, e);
    forall f, start: Option<Edge>
      ensures start.Some? ==> EdgeFate(ops, f, start) == start
    {
      EdgeSurvives(ops, f, start);
    }
    assert ops[1].eid in AddedChildren(ops, t);
  }

  /** A child edge under a taken id is accepted, and skipped. */
  lemma {:induction false} TakenIdDropsTheChild() returns (g: Graph, n: nat, ops: seq<Op>, h: Graph)
    ensures Reached(Disciplined, g, n) && Step(g, Propose(n, ops), h)
    ensures NodesDisciplined(Propose(n, ops), g) && TacticsFresh(ops, g)
    ensures ObligationsHold(g) && !ObligationsHold(h)
  {
    var t, s, e := Local('t'), Local('s'), Local('e');
    LocalIds();
    NotedReached(s, e);
    g, n, ops := Noted(s, e), 2, Adopt(t, s, e);
    h := Adopted(g, t, s, e);
    AdoptStep(g, n, t, s, e);
    NoChildNoObligations(h, t, e);
  }

  lemma {:induction false} NoChildNoObligations(h: Graph, t: Id, e: Id)
    requires t in h.nodes && h.nodes[t] == Node(TacticApplication, Tactic(1))
    requires forall f :: f in h.edges ==> !IsChild(h.edges[f], t)
    ensures !ObligationsHold(h)
  {
    assert IsTacticNode(h, t);
    forall order | ChildrenInOrder(h, t, order)
      ensures order == []
    {
      EmptyOrInhabited(order);
    }
  }

  /** A state with an edge of a type the gate does not know. */
  function Noted(s: Id, e: Id): Graph {
    WithEdge(WithNode(EMPTY_GRAPH, s, FormalState, map[]), e, OnState, s, s)
  }

  lemma {:induction false} NotedReached(s: Id, e: Id)
    requires Scoped(PROOF, s) && Scoped(PROOF, e)
    ensures Reached(Disciplined, Noted(s, e), 2)
  {
    var g := WithNode(EMPTY_GRAPH, s, FormalState, map[]);
    StateReached(s);
    LinkStep(g, 1, OnState, s, s, e);
    NextReached(Disciplined, g, 1, [AddEdge(OnState, s, s, e, map[])], Noted(s, e));
  }

  // ---- evidence ----

  /** A claim may be created as lean-verified. */
  lemma {:induction false} CreatedAsVerified() returns (ops: seq<Op>, h: Graph)
    ensures Reached(KeepingAll, EMPTY_GRAPH, 0) && Step(EMPTY_GRAPH, Propose(0, ops), h)
    ensures Disciplined(Propose(0, ops), EMPTY_GRAPH) && EvidenceLocal(ops)
    ensures VerifiedHaveEvidence(EMPTY_GRAPH) && !VerifiedHaveEvidence(h)
  {
    var c := Local('c');
    var fields := map[Status := Str(LeanVerified)];
    LocalIds();
    StartReached(KeepingAll);
    ops, h := [UpsertNode(Claim, c, fields)], WithNode(EMPTY_GRAPH, c, Claim, fields);
    CreationStep(EMPTY_GRAPH, 0, Claim, c, fields);
    assert IsVerifiedClaim(h, c);
  }

  /** What may be created while keeping every rule. */
  predicate Creatable(lab: Label, fields: Fields) {
    && lab != TacticApplication
    && (forall name :: name in fields ==> LegalLiteral(lab, name, fields[name]))
    && Get(fields, Status) != Str(LeanVerified) && Get(fields, Status) != Str(Stagnated)
  }

  lemma {:induction false} CreateNext(g: Graph, n: nat, lab: Label, id: Id, fields: Fields) returns (h: Graph)
    requires Reached(KeepingAll, g, n) && Scoped(PROOF, id) && id !in g.nodes && Creatable(lab, fields)
    ensures Reached(KeepingAll, h, n + 1) && h == WithNode(g, id, lab, fields)
  {
    h := WithNode(g, id, lab, fields);
    CreationStep(g, n, lab, id, fields);
    NextReached(KeepingAll, g, n, [UpsertNode(lab, id, fields)], h);
  }

  lemma {:induction false} LinkNext(g: Graph, n: nat, rel: Rel, src: Id, dst: Id, eid: Id) returns (h: Graph)
    requires Reached(KeepingAll, g, n)
    requires Linkable(g, rel, src, dst) && eid !in g.edges && !IsContentAddressed(dst)
    requires Scoped(PROOF, src) && Scoped(PROOF, dst) && Scoped(PROOF, eid)
    ensures Reached(KeepingAll, h, n + 1) && h == WithEdge(g, eid, rel, src, dst)
  {
    h := WithEdge(g, eid, rel, src, dst);
    var op := AddEdge(rel, src, dst, eid, map[]);
    LinkStep(g, n, rel, src, dst, eid);
    LinkKeepsAll(g, n, op);
    NextReached(KeepingAll, g, n, [op], h);
  }

  lemma {:induction false} LinkKeepsAll(g: Graph, n: nat, op: Op)
    requires op.AddEdge? && !IsContentAddressed(op.dst) && Disciplined(Propose(n, [op]), g)
    ensures KeepingAll(Propose(n, [op]), g)
  {
  }

  const CLOSED: Fields := map[Status := Str(FormallyClosed)]
  const BY_A: Fields := map[Actor := Str(Text("a"))]
  const REPLAY_BY_B: Fields :=
    map[Status := Str(Verified), SorryDetected := Bool(false), Actor := Str(Text("b"))]
  const ALIGNMENT: Fields := map[Lifecycle := Str(Reviewed), Verdict := Str(Token.Aligned)]

  /** Ids for a claim, a certificate, its replay and an alignment, and for the edges that join them. */
  datatype Names = Names(c: Id, k: Id, r: Id, l: Id, e: Id, f: Id, m: Id)

  predicate Usable(x: Names) {
    && Scoped(PROOF, x.c) && Scoped(PROOF, x.k) && Scoped(PROOF, x.r) && Scoped(PROOF, x.l)
    && !IsContentAddressed(x.c) && !IsContentAddressed(x.k) && !IsContentAddressed(x.r)
    && x.c != x.k && x.c != x.r && x.c != x.l && x.k != x.r && x.k != x.l && x.r != x.l
    && Scoped(PROOF, x.e) && Scoped(PROOF, x.f) && Scoped(PROOF, x.m)
    && x.e != x.f && x.e != x.m && x.f != x.m
  }

  /** A claim, a certificate, a replay by someone else and an alignment. */
  predicate HasNodes(g: Graph, x: Names, claim: Fields) {
    && x.c in g.nodes && g.nodes[x.c] == Node(Claim, claim)
    && x.k in g.nodes && g.nodes[x.k] == Node(Certificate, BY_A)
    && x.r in g.nodes && g.nodes[x.r] == Node(LeanReplay, REPLAY_BY_B)
    && x.l in g.nodes && g.nodes[x.l] == Node(Alignment, ALIGNMENT)
    && forall id :: id in g.nodes && g.nodes[id].lab == Claim ==> id == x.c
  }

  predicate HasEdges(g: Graph, x: Names) {
    && x.e in g.edges && g.edges[x.e] == Edge(ProvedBy, x.c, x.k, map[])
    && x.f in g.edges && g.edges[x.f] == Edge(ReplayedBy, x.k, x.r, map[])
    && x.m in g.edges && g.edges[x.m] == Edge(AlignsClaim, x.l, x.c, map[])
    && forall e :: e in g.edges && g.edges[e].rel == ProvedBy ==> e == x.e
  }

  lemma {:induction false} ClaimIsCreatable()
    ensures Creatable(Claim, CLOSED)
  {
  }

  lemma {:induction false} CertificateIsCreatable()
    ensures Creatable(Certificate, BY_A)
  {
  }

  lemma {:induction false} ReplayIsCreatable()
    ensures Creatable(LeanReplay, REPLAY_BY_B)
  {
  }

  lemma {:induction false} AlignmentIsCreatable()
    ensures Creatable(Alignment, ALIGNMENT)
  {
  }

  lemma {:induction false} NodesMade(x: Names) returns (g: Graph)
    requires Usable(x)
    ensures Reached(KeepingAll, g, 4) && HasNodes(g, x, CLOSED) && g.edges == map[]
  {
    ClaimIsCreatable();
    CertificateIsCreatable();
    ReplayIsCreatable();
    AlignmentIsCreatable();
    g := FourCreated(x.c, x.k, x.r, x.l, Node(Claim, CLOSED), Node(Certificate, BY_A),
                     Node(LeanReplay, REPLAY_BY_B), Node(Alignment, ALIGNMENT));
    FourAreThere(g, x);
  }

  lemma {:induction false} FourAreThere(g: Graph, x: Names)
    requires Usable(x)
    requires g.nodes == map[x.c := Node(Claim, CLOSED), x.k := Node(Certificate, BY_A),
                            x.r := Node(LeanReplay, REPLAY_BY_B), x.l := Node(Alignment, ALIGNMENT)]
    ensures HasNodes(g, x, CLOSED)
  {
  }

  lemma {:induction false} FourCreated(a: Id, b: Id, c: Id, d: Id, x: Node, y: Node, z: Node, w: Node)
    returns (g: Graph)
    requires Creatable(x.lab, x.fields) && Creatable(y.lab, y.fields)
    requires Creatable(z.lab, z.fields) && Creatable(w.lab, w.fields)
    requires Scoped(PROOF, a) && Scoped(PROOF, b) && Scoped(PROOF, c) && Scoped(PROOF, d)
    requires a != b && a != c && a != d && b != c && b != d && c != d
    ensures Reached(KeepingAll, g, 4) && g == Graph(map[a := x, b := y, c := z, d := w], map[])
  {
    StartReached(KeepingAll);
    g := CreateNext(EMPTY_GRAPH, 0, x.lab, a, x.fields);
    g := CreateNext(g, 1, y.lab, b, y.fields);
    g := CreateNext(g, 2, z.lab, c, z.fields);
    g := CreateNext(g, 3, w.lab, d, w.fields);
  }

  lemma {:induction false} ProofMayLink(g: Graph, x: Names)
    requires HasNodes(g, x, CLOSED) && Usable(x)
    ensures MayLink(g, Edge(ProvedBy, x.c, x.k, map[]))
  {
  }

  lemma {:induction false} ReplayMayLink(g: Graph, x: Names)
    requires HasNodes(g, x, CLOSED) && Usable(x)
    ensures MayLink(g, Edge(ReplayedBy, x.k, x.r, map[]))
  {
  }

  lemma {:induction false} AlignmentMayLink(g: Graph, x: Names)
    requires HasNodes(g, x, CLOSED) && Usable(x)
    ensures MayLink(g, Edge(AlignsClaim, x.l, x.c, map[]))
  {
  }

  lemma {:induction false} EdgesMade(x: Names) returns (g: Graph)
    requires Usable(x)
    ensures Reached(KeepingAll, g, 7) && HasNodes(g, x, CLOSED) && HasEdges(g, x)
  {
    g := NodesMade(x);
    ProofMayLink(g, x);
    ReplayMayLink(g, x);
    AlignmentMayLink(g, x);
    g := ThreeLinked(g, 4, x.e, x.f, x.m, Edge(ProvedBy, x.c, x.k, map[]), Edge(ReplayedBy, x.k, x.r, map[]),
                     Edge(AlignsClaim, x.l, x.c, map[]));
    ThreeAreThere(g, x);
  }

  lemma {:induction false} ThreeAreThere(g: Graph, x: Names)
    requires x.e != x.f && x.e != x.m && x.f != x.m
    requires g.edges == map[x.e := Edge(ProvedBy, x.c, x.k, map[]), x.f := Edge(ReplayedBy, x.k, x.r, map[]),
                            x.m := Edge(AlignsClaim, x.l, x.c, map[])]
    ensures HasEdges(g, x)
  {
  }

  predicate MayLink(g: Graph, a: Edge) {
    && Linkable(g, a.rel, a.src, a.dst) && a.fields == map[]
    && Scoped(PROOF, a.src) && Scoped(PROOF, a.dst) && !IsContentAddressed(a.dst)
  }

  lemma {:induction false} ThreeLinked(g: Graph, n: nat, e: Id, f: Id, m: Id, a: Edge, b: Edge, c: Edge)
    returns (h: Graph)
    requires Reached(KeepingAll, g, n) && g.edges == map[]
    requires Scoped(PROOF, e) && Scoped(PROOF, f) && Scoped(PROOF, m) && e != f && e != m && f != m
    requires MayLink(g, a) && MayLink(g, b) && MayLink(g, c)
    ensures Reached(KeepingAll, h, n + 3) && h == g.(edges := map[e := a, f := b, m := c])
  {
    h := LinkNext(g, n, a.rel, a.src, a.dst, e);
    LinkableLater(g, h, b.rel, b.src, b.dst);
    var i := LinkNext(h, n + 1, b.rel, b.src, b.dst, f);
    LinkableLater(g, i, c.rel, c.src, c.dst);
    h := LinkNext(i, n + 2, c.rel, c.src, c.dst, m);
  }

  lemma {:induction false} LinkableLater(g: Graph, h: Graph, rel: Rel, src: Id, dst: Id)
    requires Linkable(g, rel, src, dst) && h.nodes == g.nodes
    ensures Linkable(h, rel, src, dst)
  {
  }

  function Promote(c: Id): Op {
    SetStatus(Claim, c, FormallyClosed, LeanVerified)
  }

  lemma {:induction false} ReplayIsFound(g: Graph, ops: seq<Op>, c: Id, k: Id, r: Id, e: Id, f: Id)
    requires ops == [Promote(c)] && k in g.nodes && r in g.nodes
    requires e in g.edges && g.edges[e].rel == ProvedBy && g.edges[e].src == c && g.edges[e].dst == k
    requires f in g.edges && g.edges[f].rel == ReplayedBy && g.edges[f].src == k && g.edges[f].dst == r
    requires IsEvidence(g.nodes[k].fields, g.nodes[r].fields)
    ensures HasReplay(ops, g, c)
  {
    assert e in ScanFrom(g, c, ProvedBy) && k in EdgeTargets(ops, g, c, ProvedBy);
    assert f in ScanFrom(g, k, ReplayedBy) && r in EdgeTargets(ops, g, k, ReplayedBy);
  }

  lemma {:induction false} AlignmentIsFound(g: Graph, ops: seq<Op>, c: Id, l: Id, m: Id)
    requires ops == [Promote(c)] && l in g.nodes && IsReviewedAligned(g.nodes[l].fields)
    requires m in g.edges && g.edges[m].rel == AlignsClaim && g.edges[m].src == l && g.edges[m].dst == c
    ensures HasAlignment(ops, g, c)
  {
    assert m in ScanTo(g, c, AlignsClaim) && l in EdgeSources(ops, g, c, AlignsClaim);
  }

  lemma {:induction false} EvidenceCounts()
    ensures IsEvidence(BY_A, REPLAY_BY_B) && IsReviewedAligned(ALIGNMENT)
  {
  }

  lemma {:induction false} PromotionIsClean(g: Graph, x: Names)
    requires HasNodes(g, x, CLOSED) && HasEdges(g, x)
    ensures NothingMissing(g, Promote(x.c))
  {
    EvidenceCounts();
    ReplayIsFound(g, [Promote(x.c)], x.c, x.k, x.r, x.e, x.f);
    AlignmentIsFound(g, [Promote(x.c)], x.c, x.l, x.m);
    NothingMore(g, x.c);
  }

  lemma {:induction false} NothingMore(g: Graph, c: Id)
    requires HasReplay([Promote(c)], g, c) && HasAlignment([Promote(c)], g, c)
    ensures NothingMissing(g, Promote(c))
  {
  }

  lemma {:induction false} PromotionIsLegal()
    ensures LeanVerified in Next(Claim, Status, FormallyClosed)
    ensures LegalLiteral(Claim, Status, Str(LeanVerified))
  {
  }

  lemma {:induction false} StatusNext(g: Graph, n: nat, lab: Label, id: Id, from: Token, to: Token)
    returns (h: Graph)
    requires Reached(KeepingAll, g, n) && Writable(g, lab, id, from, to)
    ensures Reached(KeepingAll, h, n + 1) && h == WithNode(g, id, lab, g.nodes[id].fields[Status := Str(to)])
  {
    h := WithNode(g, id, lab, g.nodes[id].fields[Status := Str(to)]);
    StatusWriteStep(g, n, lab, id, from, to);
    WriteNext(g, n, SetStatus(lab, id, from, to), h);
  }

  lemma {:induction false} WriteNext(g: Graph, n: nat, op: Op, h: Graph)
    requires Reached(KeepingAll, g, n) && op.SetField?
    requires Step(g, Propose(n, [op]), h) && Disciplined(Propose(n, [op]), g)
    ensures Reached(KeepingAll, h, n + 1)
  {
    NextReached(KeepingAll, g, n, [op], h);
  }

  /** A claim promoted by the rules. */
  lemma {:induction false} ClaimPromoted(x: Names) returns (g: Graph)
    requires Usable(x)
    ensures Reached(KeepingAll, g, 8) && HasNodes(g, x, CLOSED[Status := Str(LeanVerified)]) && HasEdges(g, x)
  {
    var before := EdgesMade(x);
    ClaimIsWritable(before, x);
    g := StatusNext(before, 7, Claim, x.c, FormallyClosed, LeanVerified);
    AfterPromotion(before, x);
  }

  lemma {:induction false} AfterPromotion(g: Graph, x: Names)
    requires HasNodes(g, x, CLOSED) && HasEdges(g, x)
    ensures var h := WithNode(g, x.c, Claim, g.nodes[x.c].fields[Status := Str(LeanVerified)]);
            HasNodes(h, x, CLOSED[Status := Str(LeanVerified)]) && HasEdges(h, x)
  {
  }

  lemma {:induction false} ClaimIsWritable(g: Graph, x: Names)
    requires HasNodes(g, x, CLOSED) && HasEdges(g, x) && Scoped(PROOF, x.c)
    ensures Writable(g, Claim, x.c, FormallyClosed, LeanVerified)
  {
    PromotionIsClean(g, x);
    PromotionIsLegal();
  }

  /** The edge from a verified claim to its certificate may be removed, also where the claim was
      promoted by the rules. */
  lemma {:induction false} RemovedProof() returns (g: Graph, n: nat, ops: seq<Op>, h: Graph)
    ensures Reached(KeepingAll, g, n) && Step(g, Propose(n, ops), h)
    ensures Disciplined(Propose(n, ops), g) && EvidenceLocal(ops) && CreatesNoneVerified(ops)
    ensures VerifiedHaveEvidence(g) && !VerifiedHaveEvidence(h)
  {
    var x := SomeNames();
    g := ClaimPromoted(x);
    n, ops, h := 8, [RemoveEdge(ProvedBy, x.e)], g.(edges := g.edges - {x.e});
    ProofRemovalStep(g, n, x.e);
    EvidenceInPlace(g, x);
    EvidenceGone(g, x);
  }

  lemma {:induction false} ProofRemovalStep(g: Graph, n: nat, e: Id)
    requires Scoped(PROOF, e) && e in g.edges && g.edges[e].rel == ProvedBy
    ensures var p := Propose(n, [RemoveEdge(ProvedBy, e)]);
            && Step(g, p, g.(edges := g.edges - {e}))
            && Disciplined(p, g) && EvidenceLocal(p.ops) && CreatesNoneVerified(p.ops)
  {
    RemovalStep(g, n, e);
  }

  lemma {:induction false} SomeNames() returns (x: Names)
    ensures Usable(x)
  {
    LocalIds();
    x := Names(Local('c'), Local('k'), Local('r'), Local('l'), Local('e'), Local('f'), Local('m'));
  }

  lemma {:induction false} EvidenceGone(g: Graph, x: Names)
    requires HasNodes(g, x, CLOSED[Status := Str(LeanVerified)]) && HasEdges(g, x)
    ensures !VerifiedHaveEvidence(g.(edges := g.edges - {x.e}))
  {
    assert IsVerifiedClaim(g.(edges := g.edges - {x.e}), x.c);
  }

  lemma {:induction false} EvidenceInPlace(g: Graph, x: Names)
    requires HasNodes(g, x, CLOSED[Status := Str(LeanVerified)]) && HasEdges(g, x)
    ensures VerifiedHaveEvidence(g)
  {
    assert IsEvidencePath(g, x.c, x.e, x.f);
  }

  // ---- stagnation ----

  /** A run may be created as stagnated. */
  lemma {:induction false} CreatedAsStagnated() returns (ops: seq<Op>, h: Graph)
    ensures Reached(KeepingAll, EMPTY_GRAPH, 0) && Step(EMPTY_GRAPH, Propose(0, ops), h)
    ensures Disciplined(Propose(0, ops), EMPTY_GRAPH)
    ensures StagnationExplained(EMPTY_GRAPH) && !StagnationExplained(h)
  {
    var run := Local('r');
    var fields := map[Status := Str(Stagnated)];
    LocalIds();
    StartReached(KeepingAll);
    ops, h := [UpsertNode(FormalRun, run, fields)], WithNode(EMPTY_GRAPH, run, FormalRun, fields);
    CreationStep(EMPTY_GRAPH, 0, FormalRun, run, fields);
    assert IsStagnated(h, run);
  }

  const SEARCHING: Fields := map[Status := Str(Searching)]

  /** One run, and its obstruction. */
  predicate HasObstruction(g: Graph, run: Id, o: Id, e: Id, fields: Fields) {
    && run in g.nodes && g.nodes[run] == Node(FormalRun, fields)
    && o in g.nodes && g.nodes[o] == Node(Obstruction, map[])
    && g.nodes.Keys == {run, o} && g.edges == map[e := Edge(RaisedObstruction, run, o, map[])]
  }

  lemma {:induction false} SearchIsCreatable()
    ensures Creatable(FormalRun, SEARCHING) && Creatable(Obstruction, map[])
  {
  }

  lemma {:induction false} ObstructionMade(run: Id, o: Id, e: Id) returns (g: Graph)
    requires FreshTriple(run, o, e) && !IsContentAddressed(o)
    ensures Reached(KeepingAll, g, 3) && HasObstruction(g, run, o, e, SEARCHING)
  {
    SearchIsCreatable();
    g := TwoLinked(run, o, e, Node(FormalRun, SEARCHING), Node(Obstruction, map[]), RaisedObstruction);
  }

  lemma {:induction false} TwoLinked(a: Id, b: Id, e: Id, x: Node, y: Node, rel: Rel) returns (g: Graph)
    requires FreshTriple(a, b, e) && !IsContentAddressed(b)
    requires Creatable(x.lab, x.fields) && Creatable(y.lab, y.fields)
    requires Linkable(Graph(map[a := x, b := y], map[]), rel, a, b)
    ensures Reached(KeepingAll, g, 3)
    ensures g == Graph(map[a := x, b := y], map[e := Edge(rel, a, b, map[])])
  {
    StartReached(KeepingAll);
    g := CreateNext(EMPTY_GRAPH, 0, x.lab, a, x.fields);
    g := CreateNext(g, 1, y.lab, b, y.fields);
    assert g == Graph(map[a := x, b := y], map[]);
    g := LinkNext(g, 2, rel, a, b, e);
  }

  lemma {:induction false} StagnationIsClean(g: Graph, run: Id, o: Id, e: Id)
    requires HasObstruction(g, run, o, e, SEARCHING)
    ensures NothingMissing(g, SetStatus(FormalRun, run, Searching, Stagnated))
  {
    assert e in ScanFrom(g, run, RaisedObstruction);
  }

  lemma {:induction false} StagnationIsLegal()
    ensures Stagnated in Next(FormalRun, Status, Searching)
    ensures LegalLiteral(FormalRun, Status, Str(Stagnated))
  {
  }

  lemma {:induction false} RunStagnated(run: Id, o: Id, e: Id) returns (g: Graph)
    requires FreshTriple(run, o, e) && !IsContentAddressed(o)
    ensures Reached(KeepingAll, g, 4) && HasObstruction(g, run, o, e, SEARCHING[Status := Str(Stagnated)])
  {
    var before := ObstructionMade(run, o, e);
    RunIsWritable(before, run, o, e);
    g := StatusNext(before, 3, FormalRun, run, Searching, Stagnated);
  }

  lemma {:induction false} RunIsWritable(g: Graph, run: Id, o: Id, e: Id)
    requires HasObstruction(g, run, o, e, SEARCHING) && Scoped(PROOF, run)
    ensures Writable(g, FormalRun, run, Searching, Stagnated)
  {
    StagnationIsClean(g, run, o, e);
    StagnationIsLegal();
  }

  /** The obstruction edge of a stagnated run may be removed. */
  lemma {:induction false} RemovedObstruction() returns (g: Graph, n: nat, ops: seq<Op>, h: Graph)
    ensures Reached(KeepingAll, g, n) && Step(g, Propose(n, ops), h)
    ensures Disciplined(Propose(n, ops), g)
    ensures StagnationExplained(g) && !StagnationExplained(h)
  {
    var run, o, e := Local('r'), Local('o'), Local('e');
    LocalIds();
    g := RunStagnated(run, o, e);
    n, ops, h := 4, [RemoveEdge(RaisedObstruction, e)], g.(edges := g.edges - {e});
    RemovalStep(g, n, e);
    assert e in ScanFrom(g, run, RaisedObstruction);
    assert IsStagnated(h, run);
  }

  // ---- independence ----

  /** A certificate linked to a replay that does not exist yet. */
  function Waiting(k: Id, r: Id, e: Id): Graph {
    WithEdge(WithNode(EMPTY_GRAPH, k, Certificate, BY_A), e, ReplayedBy, k, r)
  }

  lemma {:induction false} WaitingReached(k: Id, r: Id, e: Id)
    requires FreshTriple(k, r, e) && IsContentAddressed(r)
    ensures Reached(Disciplined, Waiting(k, r, e), 2)
  {
    StartReached(Disciplined);
    var g := EMPTY_GRAPH;
    CreationStep(g, 0, Certificate, k, BY_A);
    NextReached(Disciplined, g, 0, [UpsertNode(Certificate, k, BY_A)], WithNode(g, k, Certificate, BY_A));
    g := WithNode(g, k, Certificate, BY_A);
    LinkStep(g, 1, ReplayedBy, k, r, e);
    NextReached(Disciplined, g, 1, [AddEdge(ReplayedBy, k, r, e, map[])], Waiting(k, r, e));
  }

  /** A replay linked before it exists may later be created by the certificate's own actor. */
  lemma {:induction false} LateReplayBySameActor() returns (g: Graph, n: nat, ops: seq<Op>, h: Graph)
    ensures Reached(Disciplined, g, n) && Step(g, Propose(n, ops), h)
    ensures Disciplined(Propose(n, ops), g)
    ensures NoneSelfCertified(g) && !NoneSelfCertified(h)
  {
    var k, r, e := Local('k'), Hashed('r'), Local('e');
    LocalIds();
    WaitingReached(k, r, e);
    g, n, ops := Waiting(k, r, e), 2, [UpsertNode(LeanReplay, r, BY_A)];
    h := WithNode(g, r, LeanReplay, BY_A);
    CreationStep(g, n, LeanReplay, r, BY_A);
    NowSelfCertified(k, r, e);
  }

  lemma {:induction false} NowSelfCertified(k: Id, r: Id, e: Id)
    requires k != r
    ensures NoneSelfCertified(Waiting(k, r, e))
    ensures !NoneSelfCertified(WithNode(Waiting(k, r, e), r, LeanReplay, BY_A))
  {
    assert SelfCertified(WithNode(Waiting(k, r, e), r, LeanReplay, BY_A), e);
  }

  // ---- replay and projection ----

  /** A set before its upsert passes every validator and then raises. */
  lemma {:induction false} SetBeforeUpsertRaises() returns (ops: seq<Op>)
    ensures Accepted(Propose(0, ops), EMPTY_GRAPH) && Disciplined(Propose(0, ops), EMPTY_GRAPH)
    ensures !ApplyOps(EMPTY_GRAPH, ops).ok
  {
    var n := Local('n');
    var a, b := SetField(Claim, n, Description, Null, Some(Null)), UpsertNode(Claim, n, map[]);
    ops := [a, b];
    LocalIds();
    TwoOps(EMPTY_GRAPH, a, b);
    EarlySetAccepted(n);
  }

  lemma {:induction false} EarlySetAccepted(n: Id)
    requires Scoped(PROOF, n)
    ensures Accepted(Propose(0, [SetField(Claim, n, Description, Null, Some(Null)), UpsertNode(Claim, n, map[])]),
                     EMPTY_GRAPH)
  {
    var a, b := SetField(Claim, n, Description, Null, Some(Null)), UpsertNode(Claim, n, map[]);
    var p := Propose(0, [a, b]);
    NoTacticsAreClean(p.ops);
    TwoOps(EMPTY_GRAPH, a, b);
    CleanSet(p, EMPTY_GRAPH, 0);
    CleanUpsert(p, EMPTY_GRAPH, 1);
    AcceptTwo(EMPTY_GRAPH, 0, a, b);
  }

  lemma {:induction false} CollectedTwo(a: Op, b: Op)
    ensures Collect([a]) == CollectOp(NOTHING, a)
    ensures Collect([a, b]) == CollectOp(CollectOp(NOTHING, a), b)
  {
    assert [a][..0] == [] && [a, b][..1] == [a];
  }

  const TEXT: Fields := map[ClaimText := Str(Text("a"))]

  /** An accepted, disciplined confirmation may leave fields out; the projector then drops them. */
  lemma {:induction false} PartialConfirmationDropsFields() returns (g: Graph, a: Op, b: Op)
    ensures Reached(Disciplined, g, 1) && g == ApplyOps(EMPTY_GRAPH, [a]).graph
    ensures Step(g, Propose(1, [b]), g) && Disciplined(Propose(1, [b]), g)
    ensures Agrees([a]) && !Agrees([a, b])
  {
    var n := Local('n');
    LocalIds();
    a, b := UpsertNode(Claim, n, TEXT), UpsertNode(Claim, n, map[]);
    g := WithNode(EMPTY_GRAPH, n, Claim, TEXT);
    StartReached(Disciplined);
    CreationStep(EMPTY_GRAPH, 0, Claim, n, TEXT);
    NextReached(Disciplined, EMPTY_GRAPH, 0, [a], g);
    OneOp(g, b);
    CleanUpsert(Propose(1, [b]), g, 0);
    OneOpStep(g, 1, b);
    DroppedField(n);
  }

  lemma {:induction false} DroppedField(n: Id)
    ensures var a, b := UpsertNode(Claim, n, TEXT), UpsertNode(Claim, n, map[]);
            Agrees([a]) && !Agrees([a, b])
  {
    var a, b := UpsertNode(Claim, n, TEXT), UpsertNode(Claim, n, map[]);
    OneOp(EMPTY_GRAPH, a);
    TwoOps(EMPTY_GRAPH, a, b);
    CollectedTwo(a, b);
    assert LiveEdges(Collect([a])) == EdgeSet(ApplyOps(EMPTY_GRAPH, [a]).graph);
    assert ClaimText in ApplyOps(EMPTY_GRAPH, [a, b]).graph.nodes[n].fields;
    assert ClaimText !in Collect([a, b]).nodes[n].fields;
  }

  /** An edge added again after its removal is committed, but never projected, though every proposal is
      accepted and disciplined. */
  lemma {:induction false} ReAddedEdgeIsNotProjected() returns (g: Graph, ops: seq<Op>, h: Graph)
    ensures |ops| == 4 && Reached(Disciplined, g, 3) && g == ApplyOps(EMPTY_GRAPH, ops[..3]).graph
    ensures Step(g, Propose(3, [ops[3]]), h) && Disciplined(Propose(3, [ops[3]]), g)
    ensures h == ApplyOps(EMPTY_GRAPH, ops).graph && !Agrees(ops)
  {
    var s, e := Local('s'), Local('e');
    LocalIds();
    var up, add, remove :=
      UpsertNode(FormalState, s, map[]), AddEdge(OnState, s, s, e, map[]), RemoveEdge(OnState, e);
    ops := [up, add, remove, add];
    NotedReached(s, e);
    RemovalStep(Noted(s, e), 2, e);
    g := WithNode(EMPTY_GRAPH, s, FormalState, map[]);
    assert Noted(s, e).edges - {e} == g.edges;
    NextReached(Disciplined, Noted(s, e), 2, [remove], g);
    LinkStep(g, 3, OnState, s, s, e);
    h := Noted(s, e);
    ReAdded(s, e);
  }

  lemma {:induction false} ReAdded(s: Id, e: Id)
    ensures var up, add, remove :=
              UpsertNode(FormalState, s, map[]), AddEdge(OnState, s, s, e, map[]), RemoveEdge(OnState, e);
            && ApplyOps(EMPTY_GRAPH, [up, add, remove]).graph == WithNode(EMPTY_GRAPH, s, FormalState, map[])
            && ApplyOps(EMPTY_GRAPH, [up, add, remove, add]) == Outcome(Noted(s, e), true)
            && !Agrees([up, add, remove, add])
  {
    var up, add, remove :=
      UpsertNode(FormalState, s, map[]), AddEdge(OnState, s, s, e, map[]), RemoveEdge(OnState, e);
    var ops := [up, add, remove, add];
    assert ops[..3] == [up, add, remove] && [up, add, remove][..2] == [up, add];
    TwoOps(EMPTY_GRAPH, up, add);
    CollectedTwo(up, add);
    var edge := (e, Edge(OnState, s, s, map[]));
    assert ApplyOps(EMPTY_GRAPH, [up, add, remove]).graph.edges == map[];
    assert edge in EdgeSet(Noted(s, e));
    assert edge !in LiveEdges(Collect(ops));
  }

  // ---- a base ahead of the head ----

  /** The gate does not compare the base when it validates. A proposal that names a base ahead of the
      head it was validated at goes through once another commit has made that base the head, though
      the gate would then refuse it. */
  lemma {:induction false} BaseAheadSlipsThrough(hash: ChainHash)
    returns (states: seq<System>, txs: seq<Tx>, seen: seq<nat>)
    ensures IsLooseRun(hash, PROOF, states, txs, seen) && |txs| == 3 && txs[2].Append?
    ensures !BaseNotAhead(states, txs[2].payload, seen[2])
    ensures !Accepted(txs[2].payload, states[2].graph)
  {
    var n := Local('n');
    LocalIds();
    var a, b := UpsertNode(Claim, n, TEXT), UpsertNode(Claim, n, map[ClaimText := Str(Text("b"))]);
    CreationStep(EMPTY_GRAPH, 0, Claim, n, TEXT);
    CreationStep(EMPTY_GRAPH, 1, Claim, n, b.fields);
    states, txs, seen := BothSeenAtTheStart(hash, Propose(0, [a]), Propose(1, [b]));
    ConflictRefused(WithNode(EMPTY_GRAPH, n, Claim, TEXT), n, b);
  }

  /** Two proposals validated at the empty graph, committed one after the other. */
  lemma {:induction false} BothSeenAtTheStart(hash: ChainHash, p: Proposal, q: Proposal)
    returns (states: seq<System>, txs: seq<Tx>, seen: seq<nat>)
    requires p == Propose(0, p.ops) && q == Propose(1, q.ops)
    requires Accepted(p, EMPTY_GRAPH) && Accepted(q, EMPTY_GRAPH)
    ensures IsLooseRun(hash, PROOF, states, txs, seen) && |txs| == 3 && txs[2] == Append(q, 0.0)
    ensures seen[2] == 1 && states[1].ledger.journal == []
    ensures states[2].graph == ApplyOps(EMPTY_GRAPH, p.ops).graph
  {
    var l0 := LockedLedger(LEASE);
    var l1 := Journalled(hash, l0, p);
    var g := ApplyOps(EMPTY_GRAPH, p.ops).graph;
    LockTaken(LEASE);
    TwoLockedAppends(hash, p, q);
    states := [System(EMPTY_LEDGER, EMPTY_GRAPH), System(l0, EMPTY_GRAPH), System(l1, g),
               System(Journalled(hash, l1, q), ApplyOps(g, q.ops).graph)];
    txs, seen := [Acquire(LEASE, 0.0, 0.0, 0.0, 1), Append(p, 0.0), Append(q, 0.0)], [0, 1, 1];
    LooseRunOfThree(hash, states, txs, seen);
  }

  lemma {:induction false} TwoLockedAppends(hash: ChainHash, p: Proposal, q: Proposal)
    requires p == Propose(0, p.ops) && q == Propose(1, q.ops)
    ensures var l := LockedLedger(LEASE);
            && Appends(hash, l, p, 0.0, Journalled(hash, l, p))
            && Appends(hash, Journalled(hash, l, p), q, 0.0, Journalled(hash, Journalled(hash, l, p), q))
  {
    LockedAppend(hash, LockedLedger(LEASE), p, LEASE);
    LockedAppend(hash, Journalled(hash, LockedLedger(LEASE), p), q, LEASE);
  }

  lemma {:induction false} LooseRunOfThree(hash: ChainHash, states: seq<System>, txs: seq<Tx>, seen: seq<nat>)
    requires |states| == 4 && |txs| == 3 && |seen| == 3 && states[0] == System(EMPTY_LEDGER, EMPTY_GRAPH)
    requires LooseSteps(hash, PROOF, states, txs[0], 0, seen[0])
    requires LooseSteps(hash, PROOF, states, txs[1], 1, seen[1])
    requires LooseSteps(hash, PROOF, states, txs[2], 2, seen[2])
    ensures IsLooseRun(hash, PROOF, states, txs, seen)
  {
    forall k | 0 <= k < 3
      ensures LooseSteps(hash, PROOF, states, txs[k], k, seen[k])
    {
      assert k == 0 || k == 1 || k == 2;
    }
  }

  lemma {:induction false} ConflictRefused(g: Graph, n: Id, b: Op)
    requires n in g.nodes && Upserts(b, n)
    requires ClaimText in b.fields && Lookup(g.nodes[n].fields, ClaimText) != Some(b.fields[ClaimText])
    ensures !Accepted(Propose(1, [b]), g)
  {
    assert UpsertFieldConflict in StatefulDefects(Propose(1, [b]), g, 0);
  }
}
