/** The result compiler: a formal-search result becomes the ops that commit it. */
module Dispatch {
  import opened Vocabulary
  import opened Ops
  import opened GraphState
  import opened Ids

  /** The parts of a formal-search-result payload. `fields` holds the remaining entries. */
  datatype StateReport = StateReport(id: Id, fields: Fields)

  datatype TacticReport = TacticReport(
    id: Id, source: Id, produced: seq<Id>, arguments: Option<string>, fields: Fields)

  datatype CheckpointReport = CheckpointReport(epochMs: Value, frontier: seq<Id>)

  datatype CertificateReport = CertificateReport(artifactHash: Value, status: Value)

  datatype ObstructionReport = ObstructionReport(
    id: Id, kind: Value, description: Value, runId: Id, states: seq<Id>)

  datatype SearchResult = SearchResult(
    proofId: string,
    actor: Value,
    states: seq<StateReport>,
    runId: Option<Id>,
    disposition: Value,
    rootState: Option<Id>,
    declaration: Option<Id>,
    tactics: seq<TacticReport>,
    checkpoint: Option<CheckpointReport>,
    certificate: Option<CertificateReport>,
    obstructions: seq<ObstructionReport>)

  /** Python truth of a JSON scalar. */
  predicate Truthy(v: Value) {
    v != Null && v != Str(Text("")) && v != Num(0) && v != Bool(false)
  }

  function NonNull(fields: Fields): Fields {
    map name | name in fields && fields[name] != Null :: fields[name]
  }

  /** `_advance_status`: a compare-and-set write, only where the status changes. */
  function AdvanceStatus(lab: Label, id: Id, current: Value, proposed: Value): seq<Op> {
    if Truthy(proposed) && proposed != current
    then [SetField(lab, id, Status, proposed, Some(current))] else []
  }

  function StateOps(g: Graph, s: StateReport): seq<Op> {
    if s.id !in g.nodes then [UpsertNode(FormalState, s.id, NonNull(s.fields))]
    else AdvanceStatus(FormalState, s.id, Get(g.nodes[s.id].fields, Status), Get(s.fields, Status))
  }

  function AllStateOps(g: Graph, states: seq<StateReport>): seq<Op> {
    if states == [] then []
    else AllStateOps(g, states[..|states| - 1]) + StateOps(g, states[|states| - 1])
  }

  predicate HasSearched(g: Graph, run: Id, declaration: Id) {
    exists e :: e in ScanFrom(g, run, Searches) && g.edges[e].dst == declaration
  }

  function RunNodeOps(g: Graph, r: SearchResult, run: Id): seq<Op> {
    if run !in g.nodes then
      [UpsertNode(FormalRun, run, map[Actor := r.actor, Status := r.disposition])] +
      (if r.rootState.Some? then [AddEdge(HasRoot, run, r.rootState.value, run + "-root", map[])] else [])
    else AdvanceStatus(FormalRun, run, Get(g.nodes[run].fields, Status), r.disposition)
  }

  function SearchOps(g: Graph, r: SearchResult, run: Id): seq<Op> {
    if r.declaration.Some? && r.declaration.value != "" && !HasSearched(g, run, r.declaration.value)
    then [AddEdge(Searches, run, r.declaration.value, run + "-searches", map[])] else []
  }

  function RunOps(g: Graph, r: SearchResult): seq<Op> {
    if r.runId.None? then [] else RunNodeOps(g, r, r.runId.value) + SearchOps(g, r, r.runId.value)
  }

  /** The fields of the tactic node: the reported entries, a default count, the arguments kept as
      the family. */
  function TacticFields(t: TacticReport): Fields {
    var kept := NonNull(t.fields);
    var counted := if SubgoalCount in kept then kept else kept[SubgoalCount := Num(|t.produced|)];
    if t.arguments.Some? then counted[TacticFamily := Str(Text(t.arguments.value))] else counted
  }

  function TacticNode(t: TacticReport): Op {
    UpsertNode(TacticApplication, t.id, TacticFields(t))
  }

  function AtEdge(t: TacticReport): Op {
    AddEdge(HasTactic, t.source, t.id, t.id + "-at", map[])
  }

  function ChildEdgeId(t: Id, k: nat): Id {
    Numbered(t + "-req", k)
  }

  function ChildEdge(t: TacticReport, k: nat): Op
    requires k < |t.produced|
  {
    AddEdge(FormalRequires, t.id, t.produced[k], ChildEdgeId(t.id, k), map[ChildIndex := Num(k)])
  }

  function ChildEdges(t: TacticReport, n: nat): (ops: seq<Op>)
    requires n <= |t.produced|
    ensures |ops| == n && forall k :: 0 <= k < n ==> ops[k] == ChildEdge(t, k)
  {
    seq(n, k requires 0 <= k < n => ChildEdge(t, k))
  }

  function ClosingEdge(t: TacticReport): Op {
    AddEdge(ClosesState, t.id, t.source, t.id + "-closes", map[])
  }

  predicate ClosesItsState(t: TacticReport) {
    t.produced == [] && Get(t.fields, ExecutorResult) == Str(LeanAccepted)
  }

  function TacticBlock(t: TacticReport): seq<Op> {
    [TacticNode(t), AtEdge(t)] + ChildEdges(t, |t.produced|) +
    (if ClosesItsState(t) then [ClosingEdge(t)] else [])
  }

  function TacticOps(g: Graph, t: TacticReport): seq<Op> {
    if t.id in g.nodes then [] else TacticBlock(t)
  }

  function AllTacticOps(g: Graph, tactics: seq<TacticReport>): seq<Op> {
    if tactics == [] then []
    else AllTacticOps(g, tactics[..|tactics| - 1]) + TacticOps(g, tactics[|tactics| - 1])
  }

  /** The run a checkpoint or certificate hangs off; the empty id stands for JSON null. */
  function RunRef(r: SearchResult): Id {
    if r.runId.Some? then r.runId.value else ""
  }

  function NumberedEdges(rel: Rel, src: Id, base: string, targets: seq<Id>, n: nat): (ops: seq<Op>)
    requires n <= |targets|
    ensures |ops| == n &&
            forall k :: 0 <= k < n ==> ops[k] == AddEdge(rel, src, targets[k], Numbered(base, k), map[])
  {
    seq(n, k requires 0 <= k < n => AddEdge(rel, src, targets[k], Numbered(base, k), map[]))
  }

  predicate MakesCheckpoint(r: SearchResult) {
    r.checkpoint.Some? && r.checkpoint.value.frontier != []
  }

  function CheckpointHead(r: SearchResult, id: Id): seq<Op>
    requires MakesCheckpoint(r)
  {
    [UpsertNode(FormalCheckpoint, id, map[EpochMs := r.checkpoint.value.epochMs, Actor := r.actor]),
     AddEdge(HasCheckpoint, RunRef(r), id, id + "-in", map[])]
  }

  function CheckpointOps(r: SearchResult, serial: nat): seq<Op> {
    if !MakesCheckpoint(r) then []
    else
      var id := ScopedId(r.proofId, "fc", serial);
      var frontier := r.checkpoint.value.frontier;
      CheckpointHead(r, id) + NumberedEdges(CheckpointFrontier, id, id, frontier, |frontier|)
  }

  function CertificateOps(r: SearchResult, serial: nat): seq<Op> {
    if r.certificate.None? then []
    else
      var id := ScopedId(r.proofId, "cert", serial);
      [UpsertNode(Certificate, id, map[Actor := r.actor, ProducerRunId := Str(Text(RunRef(r))),
                                       ArtifactHash := r.certificate.value.artifactHash,
                                       Status := r.certificate.value.status]),
       AddEdge(ProducedCertificate, RunRef(r), id, id + "-produced", map[])] +
      (if r.declaration.Some? && r.declaration.value != "" then
         [AddEdge(Certifies, id, r.declaration.value, id + "-certifies", map[])] else [])
  }

  function ObstructionHead(r: SearchResult, o: ObstructionReport): seq<Op> {
    [UpsertNode(Obstruction, o.id, map[Kind := o.kind, Description := o.description, Actor := r.actor]),
     AddEdge(RaisedObstruction, o.runId, o.id, o.id + "-raised", map[])]
  }

  function ObstructionOps(g: Graph, r: SearchResult, o: ObstructionReport): seq<Op> {
    if o.id in g.nodes then []
    else ObstructionHead(r, o) + NumberedEdges(AtState, o.id, o.id + "-state", o.states, |o.states|)
  }

  function AllObstructionOps(g: Graph, r: SearchResult, obstructions: seq<ObstructionReport>): seq<Op> {
    if obstructions == [] then []
    else
      AllObstructionOps(g, r, obstructions[..|obstructions| - 1]) +
      ObstructionOps(g, r, obstructions[|obstructions| - 1])
  }

  /** The ops, given the serials a checkpoint and a certificate would take. */
  function Compiled(g: Graph, r: SearchResult, checkpoint: nat, certificate: nat): seq<Op> {
    AllStateOps(g, r.states) + RunOps(g, r) + AllTacticOps(g, r.tactics) +
    CheckpointOps(r, checkpoint) + CertificateOps(r, certificate) +
    AllObstructionOps(g, r, r.obstructions)
  }

  /** `formal_result_to_ops` may answer these ops. */
  ghost predicate IsCompiled(g: Graph, r: SearchResult, ops: seq<Op>) {
    exists checkpoint, certificate ::
      IsNextSerial(g.nodes.Keys, "fc", checkpoint) && IsNextSerial(g.nodes.Keys, "cert", certificate) &&
      ops == Compiled(g, r, checkpoint, certificate)
  }

  /** Compiled with whatever serials. */
  ghost predicate CompiledSomehow(g: Graph, r: SearchResult, ops: seq<Op>) {
    exists checkpoint, certificate :: ops == Compiled(g, r, checkpoint, certificate)
  }

  // ---- the compiler as it runs ----

  method CompileTactic(t: TacticReport) returns (ops: seq<Op>)
    ensures ops == TacticBlock(t)
  {
    ops := [TacticNode(t), AtEdge(t)];
    for k := 0 to |t.produced|
      invariant ops == [TacticNode(t), AtEdge(t)] + ChildEdges(t, k)
    {
      ops := ops + [ChildEdge(t, k)];
    }
    if t.produced == [] && Get(t.fields, ExecutorResult) == Str(LeanAccepted) {
      ops := ops + [ClosingEdge(t)];
    }
  }

  method CompileObstruction(r: SearchResult, o: ObstructionReport) returns (ops: seq<Op>)
    ensures ops == ObstructionHead(r, o) +
                   NumberedEdges(AtState, o.id, o.id + "-state", o.states, |o.states|)
  {
    ops := ObstructionHead(r, o);
    for k := 0 to |o.states|
      invariant ops == ObstructionHead(r, o) + NumberedEdges(AtState, o.id, o.id + "-state", o.states, k)
    {
      ops := ops + [AddEdge(AtState, o.id, o.states[k], Numbered(o.id + "-state", k), map[])];
    }
  }

  method CompileStates(g: Graph, states: seq<StateReport>) returns (ops: seq<Op>)
    ensures ops == AllStateOps(g, states)
  {
    ops := [];
    for i := 0 to |states|
      invariant ops == AllStateOps(g, states[..i])
    {
      assert states[..i + 1][..i] == states[..i];
      var s := states[i];
      if s.id !in g.nodes {
        ops := ops + [UpsertNode(FormalState, s.id, NonNull(s.fields))];
      } else {
        ops := ops + AdvanceStatus(FormalState, s.id, Get(g.nodes[s.id].fields, Status), Get(s.fields, Status));
      }
    }
    assert states[..|states|] == states;
  }

  method CompileTactics(g: Graph, tactics: seq<TacticReport>) returns (ops: seq<Op>)
    ensures ops == AllTacticOps(g, tactics)
  {
    ops := [];
    for i := 0 to |tactics|
      invariant ops == AllTacticOps(g, tactics[..i])
    {
      assert tactics[..i + 1][..i] == tactics[..i];
      if tactics[i].id !in g.nodes {
        var block := CompileTactic(tactics[i]);
        ops := ops + block;
      }
    }
    assert tactics[..|tactics|] == tactics;
  }

  method CompileObstructions(g: Graph, r: SearchResult) returns (ops: seq<Op>)
    ensures ops == AllObstructionOps(g, r, r.obstructions)
  {
    ops := [];
    for i := 0 to |r.obstructions|
      invariant ops == AllObstructionOps(g, r, r.obstructions[..i])
    {
      assert r.obstructions[..i + 1][..i] == r.obstructions[..i];
      if r.obstructions[i].id !in g.nodes {
        var block := CompileObstruction(r, r.obstructions[i]);
        ops := ops + block;
      }
    }
    assert r.obstructions[..|r.obstructions|] == r.obstructions;
  }

  /** `formal_result_to_ops` */
  method FormalResultToOps(r: SearchResult, view: MemoryView) returns (ops: seq<Op>)
    ensures IsCompiled(view.Contents(), r, ops)
  {
    var g := view.Contents();
    var states := CompileStates(g, r.states);
    var tactics := CompileTactics(g, r.tactics);
    var checkpoint := NextSerial(view.nodes.Keys, "fc");
    var certificate := NextSerial(view.nodes.Keys, "cert");
    var obstructions := CompileObstructions(g, r);
    ops := states + RunOps(g, r) + tactics + CheckpointOps(r, checkpoint) +
           CertificateOps(r, certificate) + obstructions;
    assert ops == Compiled(g, r, checkpoint, certificate);
  }
}
