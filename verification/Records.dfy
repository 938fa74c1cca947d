/** What the remaining validators give every run: namespaces, literals, executor results, obstructions
    behind stagnation, writes that name what they replace, and scores that close nothing. */
module Records {
  import opened Vocabulary
  import opened Ops
  import opened Transitions
  import opened GraphState
  import opened Apply
  import opened Rules
  import opened Gate
  import opened Typing

  // ---- namespaces ----

  /** Every node but an artifact, and every edge with its two ends, belongs to the proof or is
      content-addressed. */
  ghost predicate InNamespace(g: Graph, proofId: string) {
    && (forall id :: id in g.nodes && g.nodes[id].lab != Artifact ==> Scoped(proofId, id))
    && (forall e :: e in g.edges ==>
          Scoped(proofId, e) && Scoped(proofId, g.edges[e].src) && Scoped(proofId, g.edges[e].dst))
  }

  lemma {:induction false} NamespaceOverRuns(graphs: seq<Graph>, proposals: seq<Proposal>, proofId: string,
                                             n: nat)
    requires IsRun(graphs, proposals) && n < |graphs|
    requires forall k :: 0 <= k < |proposals| ==> proposals[k].proofId == proofId
    ensures InNamespace(graphs[n], proofId)
  {
    if n > 0 {
      NamespaceOverRuns(graphs, proposals, proofId, n - 1);
      NamespaceStep(graphs[n - 1], proposals[n - 1], graphs[n]);
    }
  }

  lemma {:induction false} AcceptedIdentities(p: Proposal, g: Graph, op: Op)
    requires Accepted(p, g) && op in p.ops
    ensures forall id :: id in Identities(op) ==> Scoped(p.proofId, id)
  {
    var i := AcceptedOp(p, g, op);
    assert NamespaceMismatch !in StatelessDefects(p, i);
  }

  /** Also where applying the proposal raises half way. */
  lemma {:induction false} NamespaceStep(g: Graph, p: Proposal, h: Graph)
    requires Commits(g, p, h) && InNamespace(g, p.proofId)
    ensures InNamespace(h, p.proofId)
  {
    forall op | op in p.ops
      ensures forall id :: id in Identities(op) ==> Scoped(p.proofId, id)
    {
      AcceptedIdentities(p, g, op);
    }
    var done := AppliedPrefix(g, p.ops);
    OpsKeepNamespace(g, done, p.proofId);
  }

  lemma {:induction false} OpsKeepNamespace(g: Graph, ops: seq<Op>, proofId: string)
    requires ApplyOps(g, ops).ok && InNamespace(g, proofId)
    requires forall op, id :: op in ops && id in Identities(op) ==> Scoped(proofId, id)
    ensures InNamespace(ApplyOps(g, ops).graph, proofId)
  {
    var h := ApplyOps(g, ops).graph;
    forall id | id in h.nodes && h.nodes[id].lab != Artifact
      ensures Scoped(proofId, id)
    {
      NodeAfter(g, ops, id);
      FirstUpsertIsAnOp(ops, id);
      if id !in g.nodes {
        var up :| up in ops && Upserts(up, id) && Node(up.lab, up.fields) == FirstUpsert(ops, id).value;
        assert id in Identities(up);
      }
    }
    forall e | e in h.edges
      ensures Scoped(proofId, e) && Scoped(proofId, h.edges[e].src) && Scoped(proofId, h.edges[e].dst)
    {
      EdgeAfter(g, ops, e);
      EdgeIsCommittedOrAdded(ops, e, EdgeOf(g, e));
      if op :| op in ops && Adds(op, e) && h.edges[e] == Edge(op.rel, op.src, op.dst, op.fields) {
        assert {e, op.src, op.dst} <= Identities(op);
      }
    }
  }

  // ---- literals ----

  /** Every field with a closed vocabulary holds one of its words. */
  ghost predicate LiteralsLegal(g: Graph) {
    forall id :: id in g.nodes ==> FieldsLegal(g.nodes[id])
  }

  ghost predicate FieldsLegal(node: Node) {
    forall name :: name in node.fields ==> LegalLiteral(node.lab, name, node.fields[name])
  }

  lemma {:induction false} LiteralsOverRuns(graphs: seq<Graph>, proposals: seq<Proposal>, n: nat)
    requires IsRun(graphs, proposals) && n < |graphs|
    requires forall k :: 0 <= k < |proposals| ==> NodesDisciplined(proposals[k], graphs[k])
    ensures LiteralsLegal(graphs[n])
  {
    if n > 0 {
      LiteralsOverRuns(graphs, proposals, n - 1);
      assert Commits(graphs[n - 1], proposals[n - 1], graphs[n]);
      LiteralsStep(graphs[n - 1], proposals[n - 1], graphs[n]);
    }
  }

  lemma {:induction false} AcceptedLiterals(p: Proposal, g: Graph, op: Op)
    requires Accepted(p, g) && op in p.ops
    ensures op.UpsertNode? ==> FieldsLegal(Node(op.lab, op.fields))
    ensures op.SetField? ==> LegalLiteral(op.lab, op.field, op.value)
  {
    var i := AcceptedOp(p, g, op);
    assert UnknownStatusValue !in StatelessDefects(p, i);
  }

  lemma {:induction false} LiteralsStep(g: Graph, p: Proposal, h: Graph)
    requires Commits(g, p, h) && NodesDisciplined(p, g) && LiteralsLegal(g)
    ensures LiteralsLegal(h)
  {
    forall id, name | id in h.nodes && name in h.nodes[id].fields
      ensures LegalLiteral(h.nodes[id].lab, name, h.nodes[id].fields[name])
    {
      FieldAfterCommit(p, g, h, id, name);
      if op :| op in p.ops && Sets(op, id, name) && Lookup(h.nodes[id].fields, name) == Some(op.value) {
        AcceptedLiterals(p, g, op);
        AcceptedSet(p, g, op);
        LabelAfterCommit(p, g, h, id);
      } else {
        OriginIsLegal(g, p, id);
      }
    }
  }

  lemma {:induction false} OriginIsLegal(g: Graph, p: Proposal, id: Id)
    requires Accepted(p, g) && LiteralsLegal(g) && Origin(g, p.ops, id).Some?
    ensures FieldsLegal(Origin(g, p.ops, id).value)
  {
    if id !in g.nodes {
      FirstUpsertIsAnOp(p.ops, id);
      var up :| up in p.ops && Upserts(up, id) && Node(up.lab, up.fields) == FirstUpsert(p.ops, id).value;
      AcceptedLiterals(p, g, up);
    }
  }

  // ---- executor results ----

  /** A tactic records a result; an executor failure carries no diagnostic about the mathematics, and
      a rejection by Lean carries one. */
  predicate ResultSound(fields: Fields) {
    var result := Get(fields, ExecutorResult);
    && result != Null
    && (result.Str? && result.token in EXECUTOR_FAILURES ==> Get(fields, DiagnosticArtifact) == Null)
    && (result == Str(LeanRejected) ==> Get(fields, DiagnosticArtifact) != Null)
  }

  ghost predicate ResultsSound(g: Graph) {
    forall t :: HasLabel(g, t, TacticApplication) ==> ResultSound(g.nodes[t].fields)
  }

  lemma {:induction false} ResultsOverRuns(graphs: seq<Graph>, proposals: seq<Proposal>, n: nat)
    requires IsRun(graphs, proposals) && n < |graphs|
    requires forall k :: 0 <= k < |proposals| ==> NodesDisciplined(proposals[k], graphs[k])
    ensures ResultsSound(graphs[n])
  {
    if n > 0 {
      ResultsOverRuns(graphs, proposals, n - 1);
      assert Commits(graphs[n - 1], proposals[n - 1], graphs[n]);
      ResultsStep(graphs[n - 1], proposals[n - 1], graphs[n]);
    }
  }

  lemma {:induction false} ResultsStep(g: Graph, p: Proposal, h: Graph)
    requires Commits(g, p, h) && NodesDisciplined(p, g) && ResultsSound(g)
    ensures ResultsSound(h)
  {
    assert {ExecutorResult, DiagnosticArtifact} <= ImmutableFields(TacticApplication);
    forall t | HasLabel(h, t, TacticApplication)
      ensures ResultSound(h.nodes[t].fields)
    {
      if t in g.nodes {
        ImmutableKept(p, g, h, t);
        SameResult(g.nodes[t].fields, h.nodes[t].fields);
      } else {
        var up := NewNode(p, g, h, t);
        NewTacticIsSound(p, g, up);
        SameResult(up.fields, h.nodes[t].fields);
      }
    }
  }

  lemma {:induction false} SameResult(a: Fields, b: Fields)
    requires Lookup(a, ExecutorResult) == Lookup(b, ExecutorResult)
    requires Lookup(a, DiagnosticArtifact) == Lookup(b, DiagnosticArtifact)
    ensures ResultSound(a) <==> ResultSound(b)
  {
  }

  lemma {:induction false} NewTacticIsSound(p: Proposal, g: Graph, up: Op)
    requires Accepted(p, g) && UpsertsOnce(p.ops) && up in p.ops && IsTactic(up)
    ensures ResultSound(up.fields)
  {
    LastTacticIsAnUpsert(p.ops, up.id);
    var op :| op in p.ops && IsTactic(op) && op.id == up.id && op.fields == LastTactic(p.ops, up.id).value.fields;
    OneUpsert(p.ops, up, op);
    var i := LastTactic(p.ops, up.id).value.index;
    assert ExecutorRejections(p.ops, up.id) == {};
    var reasons := ResultReasons(up.fields);
    forall r | r in reasons
      ensures Rejection(r, Some(i)) in ExecutorRejections(p.ops, up.id)
    {
    }
    assert MissingRequiredField !in reasons && FailureWithMathematicalDiagnostic !in reasons &&
           DeadEdgeMissingDiagnostic !in reasons;
  }

  // ---- stagnation ----

  predicate IsStagnated(g: Graph, run: Id) {
    HasLabel(g, run, FormalRun) && Get(g.nodes[run].fields, Status) == Str(Stagnated)
  }

  ghost predicate StagnationExplained(g: Graph) {
    forall run :: IsStagnated(g, run) ==> ScanFrom(g, run, RaisedObstruction) != {}
  }

  /** The proposal leaves this run stagnated. */
  predicate EndsStagnated(g: Graph, ops: seq<Op>, run: Id) {
    var origin := Origin(g, ops, run);
    origin.Some? && origin.value.lab == FormalRun && FinalValue(g, ops, run, Status) == Str(Stagnated)
  }

  /** The proposal leaves `e` as an obstruction edge of the run. */
  predicate ObstructionLands(g: Graph, ops: seq<Op>, run: Id, e: Id) {
    var fate := EdgeFate(ops, e, EdgeOf(g, e));
    fate.Some? && fate.value.rel == RaisedObstruction && fate.value.src == run
  }

  ghost predicate ObstructionsLand(g: Graph, ops: seq<Op>) {
    forall run :: EndsStagnated(g, ops, run) ==> exists e :: ObstructionLands(g, ops, run, e)
  }

  /** One step ends with every stagnated run explained exactly when an obstruction edge lands for each
      run the proposal leaves stagnated. */
  lemma {:induction false} ExplainedIffObstructionsLand(g: Graph, p: Proposal, h: Graph)
    requires Step(g, p, h)
    ensures StagnationExplained(h) <==> ObstructionsLand(g, p.ops)
  {
    forall run
      ensures IsStagnated(h, run) <==> EndsStagnated(g, p.ops, run)
      ensures ScanFrom(h, run, RaisedObstruction) != {} <==> exists e :: ObstructionLands(g, p.ops, run, e)
    {
      NodeAfter(g, p.ops, run);
      if Origin(g, p.ops, run).Some? {
        FinalValueHolds(g, p.ops, run, Status);
      }
      forall e
        ensures e in ScanFrom(h, run, RaisedObstruction) <==> ObstructionLands(g, p.ops, run, e)
      {
        EdgeAfter(g, p.ops, e);
      }
    }
  }

  /** A discipline that is enough: no obstruction edge is removed, and no run is created as
      stagnated. */
  predicate KeepsObstructions(ops: seq<Op>) {
    && (forall op :: op in ops && op.RemoveEdge? ==> op.rel != RaisedObstruction)
    && (forall op :: op in ops && op.UpsertNode? && op.lab == FormalRun ==>
          Get(op.fields, Status) != Str(Stagnated))
  }

  lemma {:induction false} StagnationOverRuns(graphs: seq<Graph>, proposals: seq<Proposal>, n: nat)
    requires IsSmoothRun(graphs, proposals) && n < |graphs|
    requires forall k :: 0 <= k < |proposals| ==>
               NodesDisciplined(proposals[k], graphs[k]) && EdgeIdsFresh(proposals[k].ops, graphs[k]) &&
               KeepsObstructions(proposals[k].ops)
    ensures StagnationExplained(graphs[n])
  {
    if n > 0 {
      StagnationOverRuns(graphs, proposals, n - 1);
      SmoothStep(graphs, proposals, n - 1);
      StagnationStep(graphs[n - 1], proposals[n - 1], graphs[n]);
    }
  }

  /** A run that comes to be stagnated without a committed obstruction gets one in the proposal. */
  lemma {:induction false} ObstructionAdded(g: Graph, p: Proposal, h: Graph, run: Id) returns (add: Op)
    requires Step(g, p, h) && NodesDisciplined(p, g) && EdgeIdsFresh(p.ops, g) && KeepsObstructions(p.ops)
    requires StagnationExplained(g) && IsStagnated(h, run) && ScanFrom(g, run, RaisedObstruction) == {}
    ensures add in p.ops && IsEdgeOf(add, RaisedObstruction, run)
  {
    var op := NewlyStagnated(g, p, h, run);
    var i := AcceptedOp(p, g, op);
    assert StagnationWithoutObstruction !in StatefulDefects(p, g, i);
    add :| add in p.ops && IsEdgeOf(add, RaisedObstruction, run);
  }

  lemma {:induction false} StagnationStep(g: Graph, p: Proposal, h: Graph)
    requires Step(g, p, h) && NodesDisciplined(p, g) && EdgeIdsFresh(p.ops, g) && KeepsObstructions(p.ops)
    requires StagnationExplained(g)
    ensures StagnationExplained(h)
  {
    EdgesOfTypeAfter(p, g, h, RaisedObstruction);
    forall run | IsStagnated(h, run)
      ensures ScanFrom(h, run, RaisedObstruction) != {}
    {
      if e :| e in ScanFrom(g, run, RaisedObstruction) {
        assert e in ScanFrom(h, run, RaisedObstruction);
      } else {
        var add := ObstructionAdded(g, p, h, run);
        assert add.eid in ScanFrom(h, run, RaisedObstruction);
      }
    }
  }

  lemma {:induction false} NewlyStagnated(g: Graph, p: Proposal, h: Graph, run: Id) returns (op: Op)
    requires Step(g, p, h) && NodesDisciplined(p, g) && KeepsObstructions(p.ops)
    requires IsStagnated(h, run) && !IsStagnated(g, run)
    ensures op in p.ops && Sets(op, run, Status) && op.lab == FormalRun && op.value == Str(Stagnated)
  {
    NodeAfter(g, p.ops, run);
    LabelIsLabelAfter(p, g, h, run);
    FirstUpsertIsAnOp(p.ops, run);
    assert Lookup(h.nodes[run].fields, Status) == Some(Str(Stagnated));
    assert LastSet(p.ops, run, Status).Some?;
    LastSetIsAnOp(p.ops, run, Status);
    op :| op in p.ops && Sets(op, run, Status) && op.value == LastSet(p.ops, run, Status).value;
    AcceptedSet(p, g, op);
  }

  // ---- writes name what they replace ----

  /** An accepted write, unless it is a score, names the committed value it replaces. */
  lemma {:induction false} AcceptedWriteNamesItsPrior(p: Proposal, g: Graph, op: Op)
    requires Accepted(p, g) && op in p.ops && op.SetField? && ClassOf(op) != AnnotationClass
    requires op.id in g.nodes
    ensures op.prior == Some(Get(g.nodes[op.id].fields, op.field))
  {
    var i := AcceptedOp(p, g, op);
    assert MissingPriorValue !in StatelessDefects(p, i);
    assert PriorValueMismatch !in StatefulDefects(p, g, i);
  }

  /** No update is lost: of two proposals accepted against one graph, the second is refused once the
      first has changed a field it writes. */
  lemma {:induction false} LostUpdateIsRefused(g: Graph, first: Proposal, h: Graph, second: Proposal, op: Op)
    requires Step(g, first, h) && Accepted(second, g)
    requires op in second.ops && op.SetField? && ClassOf(op) != AnnotationClass && op.id in g.nodes
    ensures op.id in h.nodes
    ensures Get(h.nodes[op.id].fields, op.field) != Get(g.nodes[op.id].fields, op.field) ==> !Accepted(second, h)
  {
    NodeAfter(g, first.ops, op.id);
    AcceptedWriteNamesItsPrior(second, g, op);
    if Accepted(second, h) {
      AcceptedWriteNamesItsPrior(second, h, op);
    }
  }

  // ---- scores close nothing ----

  /** The first op that closes this state by hand. */
  lemma {:induction false} FirstClosing(ops: seq<Op>, id: Id) returns (i: nat)
    requires exists op :: op in ops && ClosesByHand(op) && op.id == id
    ensures i < |ops| && ClosesByHand(ops[i]) && ops[i].id == id
    ensures forall j :: 0 <= j < i && ClosesByHand(ops[j]) ==> ops[j].id != id
  {
    var last := |ops| - 1;
    if exists op :: op in ops[..last] && ClosesByHand(op) && op.id == id {
      i := FirstClosing(ops[..last], id);
    } else {
      i := last;
      assert forall j :: 0 <= j < last ==> ops[j] in ops[..last];
    }
  }

  /** Where a proposal closes a state by hand while scoring it, the state is the target of a closing
      edge afterwards, and that edge leaves a tactic Lean accepted with no goal left. */
  lemma {:induction false} ScoresCloseNothing(g: Graph, p: Proposal, h: Graph, op: Op, score: Op)
    returns (e: Id)
    requires Step(g, p, h) && NodesDisciplined(p, g) && EdgeIdsFresh(p.ops, g) && ClosuresJustified(g)
    requires forall other :: other in p.ops && other.RemoveEdge? ==> other.rel != ClosesState
    requires op in p.ops && ClosesByHand(op) && score in p.ops && Annotates(score, op.id)
    ensures e in h.edges && h.edges[e].rel == ClosesState && h.edges[e].dst == op.id
    ensures HasLabel(h, h.edges[e].src, TacticApplication)
    ensures Get(h.nodes[h.edges[e].src].fields, ExecutorResult) == Str(LeanAccepted)
    ensures Get(h.nodes[h.edges[e].src].fields, SubgoalCount) == Num(0)
  {
    var i := FirstClosing(p.ops, op.id);
    assert HeuristicClosureAttempt !in StatelessDefects(p, i);
    var add :| add in p.ops && IsEdge(add, ClosesState) && add.dst == op.id;
    EdgesOfTypeAfter(p, g, h, ClosesState);
    ClosureStep(g, p, h);
    e := add.eid;
  }
}
