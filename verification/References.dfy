/** The ops of a search result pass `check_references`: what they name exists, under the right label,
    and every edge joins the ends its type asks for. */
module References {
  import opened Vocabulary
  import opened Ops
  import opened GraphState
  import opened Rules
  import opened Gate
  import opened Ids
  import opened Dispatch
  import opened Compilation
  import opened Resubmission

  /** The ids a checkpoint and a certificate are given. */
  datatype Serials = Serials(checkpoint: nat, certificate: nat)

  /** The result reports, or has minted for it, a node of this label under this id. */
  predicate Reported(r: SearchResult, n: Serials, id: Id, lab: Label) {
    match lab
    case FormalState => exists s :: s in r.states && s.id == id
    case FormalRun => r.runId == Some(id)
    case TacticApplication => exists t :: t in r.tactics && t.id == id
    case Obstruction => exists o :: o in r.obstructions && o.id == id
    case FormalCheckpoint => MakesCheckpoint(r) && id == ScopedId(r.proofId, "fc", n.checkpoint)
    case Certificate => r.certificate.Some? && id == ScopedId(r.proofId, "cert", n.certificate)
    case _ => false
  }

  /** A node of this label, reported or committed. */
  predicate Known(g: Graph, r: SearchResult, n: Serials, id: Id, lab: Label) {
    Reported(r, n, id, lab) || (id in g.nodes && g.nodes[id].lab == lab)
  }

  /** No id is used for two kinds of node, in the result or against the graph. */
  ghost predicate KindsAgree(g: Graph, r: SearchResult, n: Serials) {
    && (forall id, a, b :: Reported(r, n, id, a) && Reported(r, n, id, b) ==> a == b)
    && (forall id, lab :: Reported(r, n, id, lab) && id in g.nodes ==> g.nodes[id].lab == lab)
  }

  predicate NamesDeclaration(r: SearchResult) {
    r.declaration.Some? && r.declaration.value != ""
  }

  /** Everything the result refers to is known. */
  ghost predicate Resolves(g: Graph, r: SearchResult, n: Serials) {
    && (forall t :: t in r.tactics ==> TacticResolves(g, r, n, t))
    && (forall o :: o in r.obstructions ==> ObstructionResolves(g, r, n, o))
    && (MakesCheckpoint(r) ==>
          r.runId.Some? && forall s :: s in r.checkpoint.value.frontier ==> Known(g, r, n, s, FormalState))
    && (r.certificate.Some? ==> r.runId.Some?)
    && (r.rootState.Some? ==> Known(g, r, n, r.rootState.value, FormalState))
    && (NamesDeclaration(r) ==> Known(g, r, n, r.declaration.value, FormalDeclaration))
  }

  predicate TacticResolves(g: Graph, r: SearchResult, n: Serials, t: TacticReport) {
    Known(g, r, n, t.source, FormalState) && forall c :: c in t.produced ==> Known(g, r, n, c, FormalState)
  }

  predicate ObstructionResolves(g: Graph, r: SearchResult, n: Serials, o: ObstructionReport) {
    Known(g, r, n, o.runId, FormalRun) && forall s :: s in o.states ==> Known(g, r, n, s, FormalState)
  }

  // ---- what each op names ----

  /** The nodes created under a minted id, which no guard compares with the graph. */
  function MintedNodes(r: SearchResult, n: Serials): seq<Op> {
    (if MakesCheckpoint(r) then [CheckpointHead(r, ScopedId(r.proofId, "fc", n.checkpoint))[0]] else []) +
    (if r.certificate.Some? then [CertificateOps(r, n.certificate)[0]] else [])
  }

  /** A minted id is new, or its node carries the fields the result gives it. */
  predicate Restates(g: Graph, op: Op) {
    op.UpsertNode? && op.id in g.nodes ==>
      forall name :: name in op.fields ==> Lookup(g.nodes[op.id].fields, name) == Some(op.fields[name])
  }

  predicate MintedRestated(g: Graph, r: SearchResult, n: Serials) {
    forall op :: op in MintedNodes(r, n) ==> Restates(g, op)
  }

  ghost predicate Fits(g: Graph, r: SearchResult, n: Serials, op: Op) {
    match op
    case UpsertNode(lab, id, _) => Reported(r, n, id, lab) && (id !in g.nodes || op in MintedNodes(r, n))
    case SetField(lab, id, _, _, _) => Reported(r, n, id, lab) && id in g.nodes
    case AddEdge(rel, src, dst, _, _) =>
      EndpointsOf(rel).Some? &&
      Known(g, r, n, src, EndpointsOf(rel).value.0) && Known(g, r, n, dst, EndpointsOf(rel).value.1)
    case RemoveEdge(_, _) => false
  }

  lemma {:induction false} StatesFit(g: Graph, r: SearchResult, n: Serials, states: seq<StateReport>)
    requires forall s :: s in states ==> s in r.states
    ensures forall op :: op in AllStateOps(g, states) ==> Fits(g, r, n, op)
  {
    if states != [] {
      StatesFit(g, r, n, states[..|states| - 1]);
      var s := states[|states| - 1];
      assert Reported(r, n, s.id, FormalState);
    }
  }

  lemma {:induction false} RunFits(g: Graph, r: SearchResult, n: Serials)
    requires Resolves(g, r, n)
    ensures forall op :: op in RunOps(g, r) ==> Fits(g, r, n, op)
  {
    if r.runId.Some? {
      assert Reported(r, n, r.runId.value, FormalRun);
    }
  }

  lemma {:induction false} BlockFits(g: Graph, r: SearchResult, n: Serials, t: TacticReport)
    requires Resolves(g, r, n) && t in r.tactics && t.id !in g.nodes
    ensures forall op :: op in TacticBlock(t) ==> Fits(g, r, n, op)
  {
    assert Reported(r, n, t.id, TacticApplication) && TacticResolves(g, r, n, t);
    forall op | op in ChildEdges(t, |t.produced|)
      ensures Fits(g, r, n, op)
    {
      var k :| 0 <= k < |t.produced| && ChildEdges(t, |t.produced|)[k] == op;
      assert t.produced[k] in t.produced;
    }
  }

  lemma {:induction false} TacticsFit(g: Graph, r: SearchResult, n: Serials)
    requires Resolves(g, r, n)
    ensures forall op :: op in AllTacticOps(g, r.tactics) ==> Fits(g, r, n, op)
  {
    forall op | op in AllTacticOps(g, r.tactics)
      ensures Fits(g, r, n, op)
    {
      TacticOpFromBlock(g, r.tactics, op);
      var t :| FromTactic(g, r.tactics, op, t);
      BlockFits(g, r, n, t);
    }
  }

  lemma {:induction false} NumberedFit(g: Graph, r: SearchResult, n: Serials, rel: Rel, src: Id, base: string,
                                       targets: seq<Id>)
    requires EndpointsOf(rel).Some? && EndpointsOf(rel).value.1 == FormalState
    requires Known(g, r, n, src, EndpointsOf(rel).value.0)
    requires forall s :: s in targets ==> Known(g, r, n, s, FormalState)
    ensures forall op :: op in NumberedEdges(rel, src, base, targets, |targets|) ==> Fits(g, r, n, op)
  {
    forall op | op in NumberedEdges(rel, src, base, targets, |targets|)
      ensures Fits(g, r, n, op)
    {
      var k :| 0 <= k < |targets| && NumberedEdges(rel, src, base, targets, |targets|)[k] == op;
      assert targets[k] in targets;
    }
  }

  lemma {:induction false} MintedFit(g: Graph, r: SearchResult, n: Serials)
    requires Resolves(g, r, n)
    ensures forall op :: op in CheckpointOps(r, n.checkpoint) ==> Fits(g, r, n, op)
    ensures forall op :: op in CertificateOps(r, n.certificate) ==> Fits(g, r, n, op)
  {
    if MakesCheckpoint(r) {
      var id := ScopedId(r.proofId, "fc", n.checkpoint);
      assert Reported(r, n, id, FormalCheckpoint) && Reported(r, n, RunRef(r), FormalRun);
      NumberedFit(g, r, n, CheckpointFrontier, id, id, r.checkpoint.value.frontier);
    }
    if r.certificate.Some? {
      var id := ScopedId(r.proofId, "cert", n.certificate);
      assert Reported(r, n, id, Certificate) && Reported(r, n, RunRef(r), FormalRun);
    }
  }

  lemma {:induction false} ObstructionsFit(g: Graph, r: SearchResult, n: Serials,
                                           obstructions: seq<ObstructionReport>)
    requires Resolves(g, r, n) && forall o :: o in obstructions ==> o in r.obstructions
    ensures forall op :: op in AllObstructionOps(g, r, obstructions) ==> Fits(g, r, n, op)
  {
    if obstructions != [] {
      ObstructionsFit(g, r, n, obstructions[..|obstructions| - 1]);
      ObstructionFits(g, r, n, obstructions[|obstructions| - 1]);
    }
  }

  lemma {:induction false} ObstructionFits(g: Graph, r: SearchResult, n: Serials, o: ObstructionReport)
    requires Resolves(g, r, n) && o in r.obstructions
    ensures forall op :: op in ObstructionOps(g, r, o) ==> Fits(g, r, n, op)
  {
    assert ObstructionResolves(g, r, n, o) && Reported(r, n, o.id, Obstruction);
    NumberedFit(g, r, n, AtState, o.id, o.id + "-state", o.states);
  }

  lemma {:induction false} CompiledFits(g: Graph, r: SearchResult, n: Serials)
    requires Resolves(g, r, n)
    ensures forall op :: op in Compiled(g, r, n.checkpoint, n.certificate) ==> Fits(g, r, n, op)
  {
    StatesFit(g, r, n, r.states);
    RunFits(g, r, n);
    TacticsFit(g, r, n);
    MintedFit(g, r, n);
    ObstructionsFit(g, r, n, r.obstructions);
  }

  // ---- everything reported is created or committed ----

  lemma {:induction false} StateEmitted(g: Graph, states: seq<StateReport>, s: StateReport)
    requires s in states && s.id !in g.nodes
    ensures exists op :: op in AllStateOps(g, states) && Upserts(op, s.id)
  {
    var rest, last := states[..|states| - 1], states[|states| - 1];
    if last == s {
      assert StateOps(g, s)[0] in StateOps(g, s);
      assert StateOps(g, s)[0] in AllStateOps(g, states);
    } else {
      StateEmitted(g, rest, s);
      var op :| op in AllStateOps(g, rest) && Upserts(op, s.id);
      assert op in AllStateOps(g, states);
    }
  }

  lemma {:induction false} ReportedIsUpserted(g: Graph, r: SearchResult, n: Serials, id: Id, lab: Label)
    requires Reported(r, n, id, lab) && id !in g.nodes
    ensures exists op :: op in Compiled(g, r, n.checkpoint, n.certificate) && Upserts(op, id)
  {
    var ops := Compiled(g, r, n.checkpoint, n.certificate);
    match lab {
      case FormalState =>
        var s :| s in r.states && s.id == id;
        StateEmitted(g, r.states, s);
        var op :| op in AllStateOps(g, r.states) && Upserts(op, id);
        assert op in ops;
      case TacticApplication =>
        var t :| t in r.tactics && t.id == id;
        assert TacticBlock(t)[0] == TacticNode(t);
        BlockOpIsTacticOp(g, r.tactics, TacticNode(t), t);
        assert TacticNode(t) in ops && Upserts(TacticNode(t), id);
      case Obstruction =>
        var o :| o in r.obstructions && o.id == id;
        ObstructionEmitted(g, r, r.obstructions, o);
        assert ObstructionHead(r, o)[0] in ops && Upserts(ObstructionHead(r, o)[0], id);
      case _ =>
        OthersEmitted(g, r, n, id, lab);
    }
  }

  lemma {:induction false} OthersEmitted(g: Graph, r: SearchResult, n: Serials, id: Id, lab: Label)
    requires Reported(r, n, id, lab) && id !in g.nodes
    requires lab == FormalRun || lab == FormalCheckpoint || lab == Certificate
    ensures exists op :: op in Compiled(g, r, n.checkpoint, n.certificate) && Upserts(op, id)
  {
    var ops := Compiled(g, r, n.checkpoint, n.certificate);
    var part := if lab == FormalRun then RunOps(g, r)
                else if lab == FormalCheckpoint then CheckpointOps(r, n.checkpoint)
                else CertificateOps(r, n.certificate);
    var op := part[0];
    assert op in part && op in ops && Upserts(op, id);
  }

  /** What is known under a label is what the validator takes its label to be. */
  lemma {:induction false} KnownLabel(g: Graph, r: SearchResult, n: Serials, id: Id, lab: Label)
    requires Resolves(g, r, n) && KindsAgree(g, r, n)
    requires Known(g, r, n, id, lab)
    ensures LabelOf(Compiled(g, r, n.checkpoint, n.certificate), g, id) == Some(lab)
  {
    var ops := Compiled(g, r, n.checkpoint, n.certificate);
    CreatedLabelIsAnUpsert(ops, id);
    CompiledFits(g, r, n);
    if CreatedLabel(ops, id).Some? {
      var op :| op in ops && Upserts(op, id) && op.lab == CreatedLabel(ops, id).value;
      assert Fits(g, r, n, op);
    } else if id !in g.nodes {
      ReportedIsUpserted(g, r, n, id, lab);
    }
  }

  /** `check_references` finds nothing wrong with a compiled result whose references resolve and whose
      ids each name one kind of node, exactly when no minted id is taken by a node with other fields. */
  lemma {:induction false} CompiledPassesReferences(g: Graph, r: SearchResult, n: Serials)
    requires Resolves(g, r, n) && KindsAgree(g, r, n)
    ensures var ops := Compiled(g, r, n.checkpoint, n.certificate);
            (forall i :: 0 <= i < |ops| ==> ReferenceDefects(ops, g, i) == {}) <==> MintedRestated(g, r, n)
  {
    var ops := Compiled(g, r, n.checkpoint, n.certificate);
    CompiledFits(g, r, n);
    forall i | 0 <= i < |ops|
      ensures ReferenceDefects(ops, g, i) == {} <==> Restates(g, ops[i])
    {
      FittingOpPassesIff(g, r, n, i);
    }
    MintedAreEmitted(g, r, n);
    forall op | op in ops && !Restates(g, op)
      ensures op in MintedNodes(r, n)
    {
      assert Fits(g, r, n, op);
    }
  }

  lemma {:induction false} MintedAreEmitted(g: Graph, r: SearchResult, n: Serials)
    ensures forall op :: op in MintedNodes(r, n) ==> op in Compiled(g, r, n.checkpoint, n.certificate)
  {
    if MakesCheckpoint(r) {
      assert CheckpointOps(r, n.checkpoint)[0] in CheckpointOps(r, n.checkpoint);
    }
    if r.certificate.Some? {
      assert CertificateOps(r, n.certificate)[0] in CertificateOps(r, n.certificate);
    }
  }

  lemma {:induction false} FittingOpPassesIff(g: Graph, r: SearchResult, n: Serials, i: nat)
    requires Resolves(g, r, n) && KindsAgree(g, r, n)
    requires i < |Compiled(g, r, n.checkpoint, n.certificate)|
    requires Fits(g, r, n, Compiled(g, r, n.checkpoint, n.certificate)[i])
    ensures ReferenceDefects(Compiled(g, r, n.checkpoint, n.certificate), g, i) == {} <==>
            Restates(g, Compiled(g, r, n.checkpoint, n.certificate)[i])
  {
    var op := Compiled(g, r, n.checkpoint, n.certificate)[i];
    if op.AddEdge? {
      KnownLabel(g, r, n, op.src, EndpointsOf(op.rel).value.0);
      KnownLabel(g, r, n, op.dst, EndpointsOf(op.rel).value.1);
    } else if op.SetField? {
      KnownLabel(g, r, n, op.id, op.lab);
    }
  }

  /** For a proof id without a slash the next serials mint new ids, so nothing is found. */
  lemma {:induction false} NextSerialsPass(g: Graph, r: SearchResult, n: Serials, i: nat)
    requires Resolves(g, r, n) && KindsAgree(g, r, n)
    requires r.proofId != "" && '/' !in r.proofId
    requires IsNextSerial(g.nodes.Keys, "fc", n.checkpoint) && IsNextSerial(g.nodes.Keys, "cert", n.certificate)
    requires i < |Compiled(g, r, n.checkpoint, n.certificate)|
    ensures ReferenceDefects(Compiled(g, r, n.checkpoint, n.certificate), g, i) == {}
  {
    MintedIsNew(g.nodes.Keys, r.proofId, "fc", n.checkpoint);
    MintedIsNew(g.nodes.Keys, r.proofId, "cert", n.certificate);
    CompiledPassesReferences(g, r, n);
  }
}
