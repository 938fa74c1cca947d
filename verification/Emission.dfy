/** What the result compiler emits, said by kind of op: every op of a compiled result, and no other. */
module Emission {
  import opened Vocabulary
  import opened Ops
  import opened GraphState
  import opened Ids
  import opened Dispatch
  import opened Reasons

  // ---- fields ----

  /** The entries that are not null. */
  ghost predicate Trimmed(fields: Fields, kept: Fields) {
    forall name :: (name in kept <==> !Blank(fields, name)) && (name in kept ==> kept[name] == fields[name])
  }

  /** The fields of a tactic node: the family is the arguments, where there are any; a missing count is
      the number of goals produced; everything else as reported. */
  ghost predicate OfTactic(t: TacticReport, fields: Fields) {
    forall name ::
      if name == TacticFamily && t.arguments.Some? then Holds(fields, name, Str(Text(t.arguments.value)))
      else if name == SubgoalCount && Blank(t.fields, name) then Holds(fields, name, Num(|t.produced|))
      else (name in fields <==> !Blank(t.fields, name)) && (name in fields ==> fields[name] == t.fields[name])
  }

  /** Python truth: not null, not empty, not zero, not false. */
  predicate Said(v: Value) {
    match v
    case Null => false
    case Str(word) => word != Text("")
    case Num(n) => n != 0
    case Bool(b) => b
  }

  function CheckpointId(r: SearchResult, serial: nat): Id {
    r.proofId + "/fc-" + Decimal(serial)
  }

  function CertificateId(r: SearchResult, serial: nat): Id {
    r.proofId + "/cert-" + Decimal(serial)
  }

  /** A tactic, or an obstruction, that is not committed yet. */
  ghost predicate NewTactic(g: Graph, r: SearchResult, t: TacticReport) {
    t in r.tactics && t.id !in g.nodes
  }

  ghost predicate NewObstruction(g: Graph, r: SearchResult, o: ObstructionReport) {
    o in r.obstructions && o.id !in g.nodes
  }

  predicate HasFrontier(r: SearchResult) {
    r.checkpoint.Some? && |r.checkpoint.value.frontier| > 0
  }

  ghost predicate IsRun(r: SearchResult, id: Id) {
    if r.runId.Some? then id == r.runId.value else id == ""
  }

  // ---- ops, by kind ----

  ghost predicate EmitsNode(g: Graph, r: SearchResult, checkpoint: nat, certificate: nat, lab: Label, id: Id,
                      fields: Fields)
  {
    match lab
    case FormalState =>
      id !in g.nodes && exists s :: s in r.states && s.id == id && Trimmed(s.fields, fields)
    case FormalRun =>
      r.runId == Some(id) && id !in g.nodes && fields == map[Actor := r.actor, Status := r.disposition]
    case TacticApplication => exists t :: NewTactic(g, r, t) && t.id == id && OfTactic(t, fields)
    case FormalCheckpoint =>
      HasFrontier(r) && id == CheckpointId(r, checkpoint) &&
      fields == map[EpochMs := r.checkpoint.value.epochMs, Actor := r.actor]
    case Certificate =>
      r.certificate.Some? && id == CertificateId(r, certificate) &&
      exists run :: IsRun(r, run) &&
        fields == map[Actor := r.actor, ProducerRunId := Str(Text(run)),
                      ArtifactHash := r.certificate.value.artifactHash, Status := r.certificate.value.status]
    case Obstruction =>
      exists o :: NewObstruction(g, r, o) && o.id == id &&
        fields == map[Kind := o.kind, Description := o.description, Actor := r.actor]
    case _ => false
  }

  /** A status that changes, of a committed node, against the committed value. */
  ghost predicate EmitsWrite(g: Graph, r: SearchResult, lab: Label, id: Id, name: Field, v: Value,
                             prior: Option<Value>)
  {
    && name == Status && id in g.nodes && Said(v) && prior != Some(v)
    && prior == Some(if Blank(g.nodes[id].fields, Status) then Null else g.nodes[id].fields[Status])
    && match lab
       case FormalState => exists s :: s in r.states && s.id == id && Holds(s.fields, Status, v)
       case FormalRun => r.runId == Some(id) && r.disposition == v
       case _ => false
  }

  ghost predicate EmitsEdge(g: Graph, r: SearchResult, checkpoint: nat, certificate: nat, rel: Rel, src: Id, dst: Id,
                      eid: Id, fields: Fields)
  {
    if rel == FormalRequires then
      exists t, k: nat :: NewTactic(g, r, t) && k < |t.produced| && src == t.id && dst == t.produced[k] &&
        eid == t.id + "-req-" + Decimal(k) && fields == map[ChildIndex := Num(k)]
    else fields == map[] && EmitsPlainEdge(g, r, checkpoint, certificate, rel, src, dst, eid)
  }

  ghost predicate EmitsPlainEdge(g: Graph, r: SearchResult, checkpoint: nat, certificate: nat, rel: Rel, src: Id,
                           dst: Id, eid: Id)
  {
    match rel
    case HasRoot => r.runId == Some(src) && src !in g.nodes && r.rootState == Some(dst) && eid == src + "-root"
    case Searches =>
      r.runId == Some(src) && r.declaration == Some(dst) && dst != "" && eid == src + "-searches" &&
      forall e :: e in g.edges && g.edges[e].rel == Searches && g.edges[e].src == src ==> g.edges[e].dst != dst
    case HasTactic => exists t :: NewTactic(g, r, t) && src == t.source && dst == t.id && eid == t.id + "-at"
    case ClosesState =>
      exists t :: NewTactic(g, r, t) && src == t.id && dst == t.source && eid == t.id + "-closes" &&
        |t.produced| == 0 && Holds(t.fields, ExecutorResult, Str(LeanAccepted))
    case HasCheckpoint =>
      HasFrontier(r) && IsRun(r, src) && dst == CheckpointId(r, checkpoint) && eid == dst + "-in"
    case CheckpointFrontier =>
      HasFrontier(r) && src == CheckpointId(r, checkpoint) &&
      exists k: nat :: k < |r.checkpoint.value.frontier| && dst == r.checkpoint.value.frontier[k] &&
        eid == src + "-" + Decimal(k)
    case ProducedCertificate =>
      r.certificate.Some? && IsRun(r, src) && dst == CertificateId(r, certificate) && eid == dst + "-produced"
    case Certifies =>
      r.certificate.Some? && src == CertificateId(r, certificate) && r.declaration == Some(dst) && dst != "" &&
      eid == src + "-certifies"
    case RaisedObstruction =>
      exists o :: NewObstruction(g, r, o) && src == o.runId && dst == o.id && eid == o.id + "-raised"
    case AtState =>
      exists o, k: nat :: NewObstruction(g, r, o) && k < |o.states| && src == o.id && dst == o.states[k] &&
        eid == o.id + "-state-" + Decimal(k)
    case _ => false
  }

  /** The op records something the result reports. */
  ghost predicate Emits(g: Graph, r: SearchResult, checkpoint: nat, certificate: nat, op: Op) {
    match op
    case UpsertNode(lab, id, fields) => EmitsNode(g, r, checkpoint, certificate, lab, id, fields)
    case SetField(lab, id, name, v, prior) => EmitsWrite(g, r, lab, id, name, v, prior)
    case AddEdge(rel, src, dst, eid, fields) => EmitsEdge(g, r, checkpoint, certificate, rel, src, dst, eid, fields)
    case RemoveEdge(_, _) => false
  }

  // ---- part by part ----

  lemma {:induction false} TrimmedIs(fields: Fields, kept: Fields)
    ensures Trimmed(fields, kept) <==> kept == NonNull(fields)
  {
    if Trimmed(fields, kept) {
      assert forall name :: name in kept <==> name in NonNull(fields);
    }
  }

  lemma {:induction false} OfTacticIs(t: TacticReport, fields: Fields)
    ensures OfTactic(t, fields) <==> fields == TacticFields(t)
  {
    var made := TacticFields(t);
    assert OfTactic(t, made);
    if OfTactic(t, fields) {
      forall name
        ensures name in fields <==> name in made
        ensures name in fields ==> fields[name] == made[name]
      {
      }
    }
  }

  ghost predicate StateSays(g: Graph, s: StateReport, op: Op) {
    match op
    case UpsertNode(lab, id, fields) =>
      lab == FormalState && id == s.id && id !in g.nodes && Trimmed(s.fields, fields)
    case SetField(lab, id, name, v, prior) =>
      && lab == FormalState && id == s.id && name == Status && id in g.nodes && Said(v) && Holds(s.fields, Status, v)
      && prior != Some(v)
      && prior == Some(if Blank(g.nodes[id].fields, Status) then Null else g.nodes[id].fields[Status])
    case _ => false
  }

  lemma {:induction false} AdvanceIs(lab: Label, id: Id, current: Value, proposed: Value, op: Op)
    ensures op in AdvanceStatus(lab, id, current, proposed) <==>
            op == SetField(lab, id, Status, proposed, Some(current)) && Said(proposed) && proposed != current
  {
  }

  lemma {:induction false} StateOpsAre(g: Graph, s: StateReport, op: Op)
    ensures op in StateOps(g, s) <==> StateSays(g, s, op)
  {
    if op.UpsertNode? {
      TrimmedIs(s.fields, op.fields);
    }
    if s.id in g.nodes {
      AdvanceIs(FormalState, s.id, Get(g.nodes[s.id].fields, Status), Get(s.fields, Status), op);
    }
  }

  lemma {:induction false} StatesSay(g: Graph, states: seq<StateReport>, op: Op)
    ensures op in AllStateOps(g, states) <==> exists s :: s in states && StateSays(g, s, op)
  {
    if states != [] {
      var rest, last := states[..|states| - 1], states[|states| - 1];
      StatesSay(g, rest, op);
      StateOpsAre(g, last, op);
      assert op in AllStateOps(g, states) <==> op in AllStateOps(g, rest) || op in StateOps(g, last);
      assert forall s :: s in states <==> s in rest || s == last;
    }
  }

  ghost predicate RunSays(g: Graph, r: SearchResult, op: Op) {
    match op
    case UpsertNode(lab, id, fields) => lab == FormalRun && EmitsNode(g, r, 0, 0, lab, id, fields)
    case SetField(lab, id, name, v, prior) => lab == FormalRun && EmitsWrite(g, r, lab, id, name, v, prior)
    case AddEdge(rel, src, dst, eid, fields) =>
      (rel == HasRoot || rel == Searches) && fields == map[] && EmitsPlainEdge(g, r, 0, 0, rel, src, dst, eid)
    case _ => false
  }

  lemma {:induction false} SearchedIs(g: Graph, run: Id, declaration: Id)
    ensures HasSearched(g, run, declaration) <==>
            !(forall e :: e in g.edges && g.edges[e].rel == Searches && g.edges[e].src == run ==>
                g.edges[e].dst != declaration)
  {
    if e :| e in g.edges && g.edges[e].rel == Searches && g.edges[e].src == run && g.edges[e].dst == declaration {
      assert e in ScanFrom(g, run, Searches);
    }
  }

  lemma {:induction false} RunOpsAre(g: Graph, r: SearchResult, op: Op)
    ensures op in RunOps(g, r) <==> RunSays(g, r, op)
  {
    if r.runId.Some? {
      var run := r.runId.value;
      if run in g.nodes {
        AdvanceIs(FormalRun, run, Get(g.nodes[run].fields, Status), r.disposition, op);
      }
      if r.declaration.Some? {
        SearchedIs(g, run, r.declaration.value);
      }
    }
  }

  ghost predicate TacticSays(t: TacticReport, op: Op) {
    match op
    case UpsertNode(lab, id, fields) => lab == TacticApplication && id == t.id && OfTactic(t, fields)
    case AddEdge(rel, src, dst, eid, fields) =>
      || (rel == HasTactic && src == t.source && dst == t.id && eid == t.id + "-at" && fields == map[])
      || (rel == ClosesState && src == t.id && dst == t.source && eid == t.id + "-closes" && fields == map[] &&
          |t.produced| == 0 && Holds(t.fields, ExecutorResult, Str(LeanAccepted)))
      || (rel == FormalRequires && src == t.id &&
          exists k: nat :: k < |t.produced| && dst == t.produced[k] && eid == t.id + "-req-" + Decimal(k) &&
            fields == map[ChildIndex := Num(k)])
    case _ => false
  }

  lemma {:induction false} ChildIs(t: TacticReport, op: Op)
    ensures op in ChildEdges(t, |t.produced|) <==>
            op.AddEdge? && op.rel == FormalRequires && op.src == t.id &&
            exists k: nat :: k < |t.produced| && op.dst == t.produced[k] && op.eid == t.id + "-req-" + Decimal(k) &&
              op.fields == map[ChildIndex := Num(k)]
  {
    var edges := ChildEdges(t, |t.produced|);
    forall k: nat | k < |t.produced|
      ensures edges[k] == AddEdge(FormalRequires, t.id, t.produced[k], t.id + "-req-" + Decimal(k),
                                  map[ChildIndex := Num(k)])
    {
      ChildIdIs(t.id, k);
    }
    if op in edges {
      var k :| 0 <= k < |edges| && edges[k] == op;
    }
    if && op.AddEdge? && op.rel == FormalRequires && op.src == t.id
       && exists k: nat :: k < |t.produced| && op.dst == t.produced[k] && op.eid == t.id + "-req-" + Decimal(k) &&
            op.fields == map[ChildIndex := Num(k)]
    {
      var k: nat :| k < |t.produced| && op.dst == t.produced[k] && op.eid == t.id + "-req-" + Decimal(k) &&
        op.fields == map[ChildIndex := Num(k)];
      assert edges[k] == op;
    }
  }

  lemma {:induction false} ChildIdIs(t: Id, k: nat)
    ensures ChildEdgeId(t, k) == t + "-req-" + Decimal(k)
  {
    assert t + "-req" + "-" + Decimal(k) == t + "-req-" + Decimal(k);
  }

  lemma {:induction false} BlockIs(t: TacticReport, op: Op)
    ensures op in TacticBlock(t) <==> TacticSays(t, op)
  {
    ChildIs(t, op);
    if op.UpsertNode? {
      OfTacticIs(t, op.fields);
    }
  }

  ghost predicate NewTacticSays(g: Graph, t: TacticReport, op: Op) {
    t.id !in g.nodes && TacticSays(t, op)
  }

  lemma {:induction false} TacticOpsAre(g: Graph, t: TacticReport, op: Op)
    ensures op in TacticOps(g, t) <==> NewTacticSays(g, t, op)
  {
    BlockIs(t, op);
  }

  lemma {:induction false} TacticsSay(g: Graph, tactics: seq<TacticReport>, op: Op)
    ensures op in AllTacticOps(g, tactics) <==>
            exists t :: t in tactics && NewTacticSays(g, t, op)
  {
    if tactics != [] {
      var rest, last := tactics[..|tactics| - 1], tactics[|tactics| - 1];
      TacticsSay(g, rest, op);
      TacticOpsAre(g, last, op);
      assert op in AllTacticOps(g, tactics) <==> op in AllTacticOps(g, rest) || op in TacticOps(g, last);
      assert forall t :: t in tactics <==> t in rest || t == last;
    }
  }

  /** Edges to a list of targets, numbered. */
  ghost predicate Numbers(rel: Rel, src: Id, base: string, targets: seq<Id>, op: Op) {
    op.AddEdge? && op.rel == rel && op.src == src && op.fields == map[] &&
    exists k: nat :: k < |targets| && op.dst == targets[k] && op.eid == base + "-" + Decimal(k)
  }

  lemma {:induction false} NumbersIs(rel: Rel, src: Id, base: string, targets: seq<Id>, op: Op)
    ensures op in NumberedEdges(rel, src, base, targets, |targets|) <==> Numbers(rel, src, base, targets, op)
  {
    var edges := NumberedEdges(rel, src, base, targets, |targets|);
    if op in edges {
      var k :| 0 <= k < |edges| && edges[k] == op;
    }
    if Numbers(rel, src, base, targets, op) {
      var k: nat :| k < |targets| && op.dst == targets[k] && op.eid == base + "-" + Decimal(k);
      assert edges[k] == op;
    }
  }

  lemma {:induction false} ScopedIs(r: SearchResult, serial: nat)
    ensures ScopedId(r.proofId, "fc", serial) == CheckpointId(r, serial)
    ensures ScopedId(r.proofId, "cert", serial) == CertificateId(r, serial)
  {
    assert r.proofId + "/" + ("fc" + "-" + Decimal(serial)) == r.proofId + "/fc-" + Decimal(serial);
    assert r.proofId + "/" + ("cert" + "-" + Decimal(serial)) == r.proofId + "/cert-" + Decimal(serial);
  }

  ghost predicate CheckpointSays(r: SearchResult, serial: nat, op: Op) {
    match op
    case UpsertNode(lab, id, fields) =>
      lab == FormalCheckpoint && EmitsNode(EMPTY_GRAPH, r, serial, 0, lab, id, fields)
    case AddEdge(rel, src, dst, eid, fields) =>
      (rel == HasCheckpoint || rel == CheckpointFrontier) && fields == map[] &&
      EmitsPlainEdge(EMPTY_GRAPH, r, serial, 0, rel, src, dst, eid)
    case _ => false
  }

  lemma {:induction false} CheckpointOpsAre(r: SearchResult, serial: nat, op: Op)
    ensures op in CheckpointOps(r, serial) <==> CheckpointSays(r, serial, op)
  {
    ScopedIs(r, serial);
    if MakesCheckpoint(r) {
      var id, frontier := ScopedId(r.proofId, "fc", serial), r.checkpoint.value.frontier;
      NumbersIs(CheckpointFrontier, id, id, frontier, op);
    }
  }

  ghost predicate CertificateSays(r: SearchResult, serial: nat, op: Op) {
    match op
    case UpsertNode(lab, id, fields) => lab == Certificate && EmitsNode(EMPTY_GRAPH, r, 0, serial, lab, id, fields)
    case AddEdge(rel, src, dst, eid, fields) =>
      (rel == ProducedCertificate || rel == Certifies) && fields == map[] &&
      EmitsPlainEdge(EMPTY_GRAPH, r, 0, serial, rel, src, dst, eid)
    case _ => false
  }

  lemma {:induction false} CertificateOpsAre(r: SearchResult, serial: nat, op: Op)
    ensures op in CertificateOps(r, serial) <==> CertificateSays(r, serial, op)
  {
    ScopedIs(r, serial);
  }

  ghost predicate ObstructionSays(r: SearchResult, o: ObstructionReport, op: Op) {
    match op
    case UpsertNode(lab, id, fields) =>
      lab == Obstruction && id == o.id &&
      fields == map[Kind := o.kind, Description := o.description, Actor := r.actor]
    case AddEdge(rel, src, dst, eid, fields) =>
      || (rel == RaisedObstruction && src == o.runId && dst == o.id && eid == o.id + "-raised" && fields == map[])
      || (rel == AtState && src == o.id && fields == map[] &&
          exists k: nat :: k < |o.states| && dst == o.states[k] && eid == o.id + "-state-" + Decimal(k))
    case _ => false
  }

  ghost predicate NewObstructionSays(g: Graph, r: SearchResult, o: ObstructionReport, op: Op) {
    o.id !in g.nodes && ObstructionSays(r, o, op)
  }

  lemma {:induction false} ObstructionOpsAre(g: Graph, r: SearchResult, o: ObstructionReport, op: Op)
    ensures op in ObstructionOps(g, r, o) <==> NewObstructionSays(g, r, o, op)
  {
    NumbersIs(AtState, o.id, o.id + "-state", o.states, op);
    forall k: nat
      ensures o.id + "-state" + "-" + Decimal(k) == o.id + "-state-" + Decimal(k)
    {
    }
  }

  lemma {:induction false} ObstructionsSay(g: Graph, r: SearchResult, obstructions: seq<ObstructionReport>, op: Op)
    ensures op in AllObstructionOps(g, r, obstructions) <==>
            exists o :: o in obstructions && NewObstructionSays(g, r, o, op)
  {
    if obstructions != [] {
      var rest, last := obstructions[..|obstructions| - 1], obstructions[|obstructions| - 1];
      ObstructionsSay(g, r, rest, op);
      ObstructionOpsAre(g, r, last, op);
      assert op in AllObstructionOps(g, r, obstructions) <==>
        op in AllObstructionOps(g, r, rest) || op in ObstructionOps(g, r, last);
      assert forall o :: o in obstructions <==> o in rest || o == last;
    }
  }

  // ---- all of it ----

  /** The op is said by some part of the report. */
  ghost predicate SomePartSays(g: Graph, r: SearchResult, checkpoint: nat, certificate: nat, op: Op) {
    || (exists s :: s in r.states && StateSays(g, s, op))
    || RunSays(g, r, op)
    || (exists t :: t in r.tactics && NewTacticSays(g, t, op))
    || CheckpointSays(r, checkpoint, op) || CertificateSays(r, certificate, op)
    || (exists o :: o in r.obstructions && NewObstructionSays(g, r, o, op))
  }

  lemma {:induction false} PartsSay(g: Graph, r: SearchResult, checkpoint: nat, certificate: nat, op: Op)
    ensures op in Compiled(g, r, checkpoint, certificate) <==> SomePartSays(g, r, checkpoint, certificate, op)
  {
    StatesSay(g, r.states, op);
    RunOpsAre(g, r, op);
    TacticsSay(g, r.tactics, op);
    CheckpointOpsAre(r, checkpoint, op);
    CertificateOpsAre(r, certificate, op);
    ObstructionsSay(g, r, r.obstructions, op);
  }

  /** A compiled result holds exactly the ops that record something it reports. */
  lemma {:induction false} CompiledIff(g: Graph, r: SearchResult, checkpoint: nat, certificate: nat, op: Op)
    ensures op in Compiled(g, r, checkpoint, certificate) <==> Emits(g, r, checkpoint, certificate, op)
  {
    PartsSay(g, r, checkpoint, certificate, op);
    match op {
      case UpsertNode(lab, _, _) => NodesByKind(g, r, checkpoint, certificate, op);
      case SetField(_, _, _, _, _) => WritesByKind(g, r, checkpoint, certificate, op);
      case AddEdge(rel, _, _, _, _) => EdgesByKind(g, r, checkpoint, certificate, op);
      case RemoveEdge(_, _) =>
    }
  }

  lemma {:induction false} NodesByKind(g: Graph, r: SearchResult, checkpoint: nat, certificate: nat, op: Op)
    requires op.UpsertNode?
    ensures SomePartSays(g, r, checkpoint, certificate, op) <==> Emits(g, r, checkpoint, certificate, op)
  {
  }

  lemma {:induction false} WritesByKind(g: Graph, r: SearchResult, checkpoint: nat, certificate: nat, op: Op)
    requires op.SetField?
    ensures SomePartSays(g, r, checkpoint, certificate, op) <==> Emits(g, r, checkpoint, certificate, op)
  {
  }

  lemma {:induction false} EdgesByKind(g: Graph, r: SearchResult, checkpoint: nat, certificate: nat, op: Op)
    requires op.AddEdge?
    ensures SomePartSays(g, r, checkpoint, certificate, op) <==> Emits(g, r, checkpoint, certificate, op)
  {
  }
}
