/** What each validator finds wrong with a proposal, op by op.

    A rejection is a reason code with the index of the op it blames; the explanatory text is
    not modelled, so two findings with the same code and index are one. */
module Rules {
  import opened Vocabulary
  import opened Ops
  import opened Transitions
  import opened GraphState
  import opened Sorting

  datatype Reason =
    | UnknownStatusValue | NamespaceMismatch | MissingRequiredField | MissingPriorValue
    | SubgoalCountMismatch | SubgoalDuplicated | SubgoalIndexInvalid | OrphanSubgoalEdge
    | FormalRequiresRemoval
    | ExecutorFailureAsSuccess | ClosureWithoutLeanAccepted | ClosureWithoutZeroGoals
    | DeadEdgeMissingDiagnostic | FailureWithMathematicalDiagnostic | OrphanClosureEdge
    | HeuristicClosureAttempt
    | UnknownNode | UnknownEdge | NodeAlreadyExistsWithLabel | UpsertFieldConflict
    | EdgeEndpointTypeInvalid
    | PriorValueMismatch | IllegalStatusTransition | ImmutableFieldOverwrite
    | StagnationWithoutObstruction | SelfCertification | PromotionWithoutReplay
    | PromotionWithoutAlignment
    | StaleBaseRevision | LeaseNotHeld | FencingTokenSuperseded | JournalBusy
    | MissingConcurrencyToken

  datatype Rejection = Rejection(reason: Reason, opIndex: Option<nat>)

  function If(condition: bool, reason: Reason): set<Reason> {
    if condition then {reason} else {}
  }

  // ---- reading a proposal ----

  predicate IsTactic(op: Op) {
    op.UpsertNode? && op.lab == TacticApplication
  }

  predicate IsEdge(op: Op, rel: Rel) {
    op.AddEdge? && op.rel == rel
  }

  predicate IsEdgeOf(op: Op, rel: Rel, src: Id) {
    IsEdge(op, rel) && op.src == src
  }

  /** An entry of the `tactics` dictionary. */
  datatype Created = Created(index: nat, fields: Fields)

  /** An entry of a `children` or `closures` list. */
  datatype Entry = Entry(index: nat, target: Id, position: Value)

  /** `tactics.get(id)`: the last upsert of this tactic. */
  function LastTactic(ops: seq<Op>, id: Id): Option<Created> {
    if ops == [] then None
    else
      var op := ops[|ops| - 1];
      if IsTactic(op) && op.id == id then Some(Created(|ops| - 1, op.fields))
      else LastTactic(ops[..|ops| - 1], id)
  }

  /** `children[src]` or `closures[src]`: the added edges of one type, in order. */
  function EdgesOf(ops: seq<Op>, rel: Rel, src: Id): seq<Entry> {
    if ops == [] then []
    else
      var before := EdgesOf(ops[..|ops| - 1], rel, src);
      var op := ops[|ops| - 1];
      if IsEdgeOf(op, rel, src) then
        before + [Entry(|ops| - 1, op.dst, Get(op.fields, ChildIndex))]
      else before
  }

  /** `created_nodes`: the label the last upsert gives. */
  function CreatedLabel(ops: seq<Op>, id: Id): Option<Label> {
    if ops == [] then None
    else if Upserts(ops[|ops| - 1], id) then Some(ops[|ops| - 1].lab)
    else CreatedLabel(ops[..|ops| - 1], id)
  }

  /** `added_edges`: the type the last addition gives. */
  function AddedRel(ops: seq<Op>, eid: Id): Option<Rel> {
    if ops == [] then None
    else if Adds(ops[|ops| - 1], eid) then Some(ops[|ops| - 1].rel)
    else AddedRel(ops[..|ops| - 1], eid)
  }

  /** `get_label`. */
  function LabelOf(ops: seq<Op>, g: Graph, id: Id): Option<Label> {
    if CreatedLabel(ops, id).Some? then CreatedLabel(ops, id)
    else if id in g.nodes then Some(g.nodes[id].lab) else None
  }

  /** `get_rel`. */
  function RelOf(ops: seq<Op>, g: Graph, eid: Id): Option<Rel> {
    if AddedRel(ops, eid).Some? then AddedRel(ops, eid)
    else if eid in g.edges then Some(g.edges[eid].rel) else None
  }

  /** `_node_fields`: committed fields if committed, else the first upsert's, else none. */
  function NodeFields(ops: seq<Op>, g: Graph, id: Id): Fields {
    if id in g.nodes then g.nodes[id].fields else ProposedFields(ops, id)
  }

  function ProposedFields(ops: seq<Op>, id: Id): Fields {
    if ops == [] then map[]
    else if Upserts(ops[0], id) then ops[0].fields
    else ProposedFields(ops[1..], id)
  }

  /** `_edge_targets`: proposed and committed. */
  function EdgeTargets(ops: seq<Op>, g: Graph, src: Id, rel: Rel): set<Id> {
    (set op | op in ops && IsEdgeOf(op, rel, src) :: op.dst) +
    (set e | e in ScanFrom(g, src, rel) :: g.edges[e].dst)
  }

  /** `_edge_sources`: proposed and committed. */
  function EdgeSources(ops: seq<Op>, g: Graph, dst: Id, rel: Rel): set<Id> {
    (set op | op in ops && IsEdge(op, rel) && op.dst == dst :: op.src) +
    (set e | e in ScanTo(g, dst, rel) :: g.edges[e].src)
  }

  // ---- the stateless validators ----

  function ConcurrencyDefects(p: Proposal, i: nat): set<Reason>
    requires i < |p.ops|
  {
    If(&& (p.leaseId.None? || p.fencingToken.None?)
       && ClassOf(p.ops[i]) == StatusClass
       && (forall j :: 0 <= j < i ==> ClassOf(p.ops[j]) != StatusClass),
       MissingConcurrencyToken)
  }

  predicate LegalLiteral(lab: Label, name: Field, value: Value) {
    VocabularyOf(lab, name).None? || (value.Str? && value.token in VocabularyOf(lab, name).value)
  }

  function VocabularyDefects(op: Op): set<Reason> {
    If(|| (op.UpsertNode? &&
           exists name :: name in op.fields && !LegalLiteral(op.lab, name, op.fields[name]))
       || (op.SetField? && !LegalLiteral(op.lab, op.field, op.value)),
       UnknownStatusValue)
  }

  /** `_identities`. */
  function Identities(op: Op): set<Id> {
    match op
    case UpsertNode(lab, id, _) => if lab == Artifact then {} else {id}
    case SetField(lab, id, _, _, _) => if lab == Artifact then {} else {id}
    case AddEdge(_, src, dst, eid, _) => {src, dst, eid}
    case RemoveEdge(_, eid) => {eid}
  }

  predicate Scoped(proofId: string, id: Id) {
    IsContentAddressed(id) || proofId + "/" <= id
  }

  function NamespaceDefects(proofId: string, op: Op): set<Reason> {
    If(exists id :: id in Identities(op) && !Scoped(proofId, id), NamespaceMismatch)
  }

  /** `[pos for ... if pos is not None]`. */
  function Positions(entries: seq<Entry>): seq<Value> {
    if entries == [] then []
    else
      var before := Positions(entries[..|entries| - 1]);
      var position := entries[|entries| - 1].position;
      if position == Null then before else before + [position]
  }

  function Number(v: Value): real {
    if v.Num? then v.n as real else 0.0
  }

  function ByNumber(values: seq<Value>): (r: seq<Keyed<Value>>)
    ensures |r| == |values|
    ensures forall k :: 0 <= k < |r| ==> r[k] == Keyed(Number(values[k]), values[k])
  {
    seq(|values|, k requires 0 <= k < |values| => Keyed(Number(values[k]), values[k]))
  }

  function Range(n: nat): (r: seq<Keyed<Value>>)
    ensures |r| == n && forall k :: 0 <= k < n ==> r[k] == Keyed(k as real, Num(k))
  {
    seq(n, k requires 0 <= k < n => Keyed(k as real, Num(k)))
  }

  /** `sorted(positions) == list(range(n))`. */
  predicate SortsToRange(values: seq<Value>, n: nat) {
    (forall v :: v in values ==> v.Num?) && Sort(ByNumber(values)) == Range(n)
  }

  predicate RepeatsTarget(entries: seq<Entry>) {
    exists j, k :: 0 <= j < k < |entries| && entries[j].target == entries[k].target
  }

  function ArityReasons(declared: Value, entries: seq<Entry>): set<Reason> {
    If(declared == Null, MissingRequiredField) +
    If(declared != Null && declared != Num(|entries|), SubgoalCountMismatch) +
    If(RepeatsTarget(entries), SubgoalDuplicated) +
    If(!SortsToRange(Positions(entries), |entries|), SubgoalIndexInvalid)
  }

  function Blame(reasons: set<Reason>, i: nat): set<Rejection> {
    set r | r in reasons :: Rejection(r, Some(i))
  }

  /** Required-child edges whose tactic this proposal does not create. */
  function OrphanRejections(ops: seq<Op>, rel: Rel, reason: Reason, id: Id): set<Rejection> {
    var entries := EdgesOf(ops, rel, id);
    if entries != [] && LastTactic(ops, id).None? then Blame({reason}, entries[0].index) else {}
  }

  function ArityRejections(ops: seq<Op>, id: Id): set<Rejection> {
    match LastTactic(ops, id)
    case None => {}
    case Some(tactic) =>
      Blame(ArityReasons(Get(tactic.fields, SubgoalCount), EdgesOf(ops, FormalRequires, id)),
            tactic.index)
  }

  /** What `check_subgoal_conservation` reports about one tactic. */
  function SubgoalRejections(ops: seq<Op>, id: Id): set<Rejection> {
    OrphanRejections(ops, FormalRequires, OrphanSubgoalEdge, id) + ArityRejections(ops, id)
  }

  predicate RemovesObligation(op: Op) {
    op.RemoveEdge? && op.rel == FormalRequires
  }

  /** `check_subgoal_conservation` finds nothing. */
  ghost predicate SubgoalClean(ops: seq<Op>) {
    (forall op :: op in ops ==> !RemovesObligation(op)) &&
    (forall id :: SubgoalRejections(ops, id) == {})
  }

  function ResultReasons(fields: Fields): set<Reason> {
    var result := Get(fields, ExecutorResult);
    var diagnostic := Get(fields, DiagnosticArtifact);
    if result == Null then {MissingRequiredField}
    else if result.Str? && result.token in EXECUTOR_FAILURES then
      If(Get(fields, Status) == Str(Closed), ExecutorFailureAsSuccess) +
      If(diagnostic != Null, FailureWithMathematicalDiagnostic)
    else
      If(result == Str(LeanRejected) && diagnostic == Null, DeadEdgeMissingDiagnostic)
  }

  function ClosureReasons(fields: Fields): set<Reason> {
    If(Get(fields, ExecutorResult) != Str(LeanAccepted), ClosureWithoutLeanAccepted) +
    If(Get(fields, SubgoalCount) != Num(0), ClosureWithoutZeroGoals)
  }

  function ResultRejections(ops: seq<Op>, id: Id): set<Rejection> {
    match LastTactic(ops, id)
    case None => {}
    case Some(tactic) => Blame(ResultReasons(tactic.fields), tactic.index)
  }

  function ClosureRejections(ops: seq<Op>, id: Id): set<Rejection> {
    match LastTactic(ops, id)
    case None => OrphanRejections(ops, ClosesState, OrphanClosureEdge, id)
    case Some(tactic) =>
      set entry, r | entry in EdgesOf(ops, ClosesState, id) && r in ClosureReasons(tactic.fields)
        :: Rejection(r, Some(entry.index))
  }

  /** What `check_executor_result` reports about one tactic. */
  function ExecutorRejections(ops: seq<Op>, id: Id): set<Rejection> {
    ResultRejections(ops, id) + ClosureRejections(ops, id)
  }

  /** `check_executor_result` finds nothing. */
  ghost predicate ExecutorClean(ops: seq<Op>) {
    forall id :: ExecutorRejections(ops, id) == {}
  }

  predicate ClosesByHand(op: Op) {
    && op.SetField? && ClassOf(op) != AnnotationClass
    && op.lab == FormalState && op.field == Status
    && (op.value == Str(FormallyClosed) || op.value == Str(LeanVerified))
  }

  predicate Annotates(op: Op, id: Id) {
    || (op.SetField? && op.id == id && ClassOf(op) == AnnotationClass)
    || (op.UpsertNode? && op.id == id && op.lab == FormalState &&
        exists name :: name in op.fields && name.Score?)
  }

  function AnnotationDefects(ops: seq<Op>, i: nat): set<Reason>
    requires i < |ops|
  {
    var op := ops[i];
    If(op.SetField? && op.prior.None? && ClassOf(op) != AnnotationClass, MissingPriorValue) +
    If(&& ClosesByHand(op)
       && (forall j :: 0 <= j < i && ClosesByHand(ops[j]) ==> ops[j].id != op.id)
       && (exists other :: other in ops && Annotates(other, op.id))
       && (forall other :: other in ops && IsEdge(other, ClosesState) ==> other.dst != op.id),
       HeuristicClosureAttempt)
  }

  // ---- the validators that read committed state ----

  function EndpointReasons(ops: seq<Op>, g: Graph, op: Op): set<Reason>
    requires op.AddEdge?
  {
    var src := LabelOf(ops, g, op.src);
    var dst := LabelOf(ops, g, op.dst);
    var expected := EndpointsOf(op.rel);
    If(src.None? || (dst.None? && !IsContentAddressed(op.dst)), UnknownNode) +
    If(&& expected.Some?
       && ((src.Some? && src.value != expected.value.0) || (dst.Some? && dst.value != expected.value.1)),
       EdgeEndpointTypeInvalid)
  }

  function ReferenceDefects(ops: seq<Op>, g: Graph, i: nat): set<Reason>
    requires i < |ops|
  {
    var op := ops[i];
    match op
    case SetField(lab, id, _, _, _) =>
      var known := LabelOf(ops, g, id);
      If(known.None?, UnknownNode) +
      If(known.Some? && known.value != lab, NodeAlreadyExistsWithLabel)
    case AddEdge(_, _, _, _, _) => EndpointReasons(ops, g, op)
    case UpsertNode(_, id, fields) =>
      If(&& id in g.nodes
         && exists name :: name in fields && Lookup(g.nodes[id].fields, name) != Some(fields[name]),
         UpsertFieldConflict)
    case RemoveEdge(rel, eid) =>
      If((exists j :: 0 <= j < i && Removes(ops[j], eid)) || RelOf(ops, g, eid) != Some(rel),
         UnknownEdge)
  }

  function PriorDefects(g: Graph, op: Op): set<Reason> {
    If(&& op.SetField? && op.prior.Some? && op.id in g.nodes
       && Get(g.nodes[op.id].fields, op.field) != op.prior.value,
       PriorValueMismatch)
  }

  function TransitionDefects(g: Graph, op: Op): set<Reason> {
    If(&& op.SetField? && HasTable(op.lab, op.field) && op.id in g.nodes
       && Get(g.nodes[op.id].fields, op.field) != Null
       && !MayFollow(op.lab, op.field, Get(g.nodes[op.id].fields, op.field), op.value),
       IllegalStatusTransition)
  }

  function ImmutabilityDefects(op: Op): set<Reason> {
    If(op.SetField? && op.field in ImmutableFields(op.lab), ImmutableFieldOverwrite)
  }

  function StagnationDefects(ops: seq<Op>, g: Graph, op: Op): set<Reason> {
    If(&& op.SetField? && op.lab == FormalRun && op.field == Status && op.value == Str(Stagnated)
       && (forall other :: other in ops ==> !IsEdgeOf(other, RaisedObstruction, op.id))
       && !(op.id in g.nodes && ScanFrom(g, op.id, RaisedObstruction) != {}),
       StagnationWithoutObstruction)
  }

  predicate Promotes(op: Op) {
    op.SetField? && op.lab == Claim && op.field == Status && op.value == Str(LeanVerified)
  }

  /** A verified, sorry-free replay by a known actor other than the certificate's known actor. */
  predicate IsEvidence(certificate: Fields, replay: Fields) {
    && Get(replay, Status) == Str(Verified)
    && Get(replay, SorryDetected) == Bool(false)
    && Get(replay, Actor) != Null
    && Get(certificate, Actor) != Null
    && Get(replay, Actor) != Get(certificate, Actor)
  }

  /** `_has_verified_sorry_free_replay`. */
  predicate HasReplay(ops: seq<Op>, g: Graph, claim: Id) {
    exists certificate :: certificate in EdgeTargets(ops, g, claim, ProvedBy) &&
      exists replay :: replay in EdgeTargets(ops, g, certificate, ReplayedBy) &&
        IsEvidence(NodeFields(ops, g, certificate), NodeFields(ops, g, replay))
  }

  predicate IsReviewedAligned(alignment: Fields) {
    Get(alignment, Lifecycle) == Str(Reviewed) && Get(alignment, Verdict) == Str(Aligned)
  }

  /** `_has_reviewed_aligned_alignment`. */
  predicate HasAlignment(ops: seq<Op>, g: Graph, claim: Id) {
    exists alignment :: alignment in EdgeSources(ops, g, claim, AlignsClaim) &&
      IsReviewedAligned(NodeFields(ops, g, alignment))
  }

  function ReplayDefects(ops: seq<Op>, g: Graph, op: Op): set<Reason> {
    If(Promotes(op) && !HasReplay(ops, g, op.id), PromotionWithoutReplay)
  }

  predicate SameKnownActor(a: Fields, b: Fields) {
    Get(a, Actor) != Null && Get(a, Actor) == Get(b, Actor)
  }

  function SelfCertificationDefects(ops: seq<Op>, g: Graph, op: Op): set<Reason> {
    If(IsEdge(op, ReplayedBy) &&
       SameKnownActor(NodeFields(ops, g, op.dst), NodeFields(ops, g, op.src)),
       SelfCertification)
  }

  function AlignmentDefects(ops: seq<Op>, g: Graph, op: Op): set<Reason> {
    If(Promotes(op) && !HasAlignment(ops, g, op.id), PromotionWithoutAlignment)
  }

  // ---- all of them ----

  function StatelessDefects(p: Proposal, i: nat): set<Reason>
    requires i < |p.ops|
  {
    ConcurrencyDefects(p, i) + VocabularyDefects(p.ops[i]) + NamespaceDefects(p.proofId, p.ops[i]) +
    AnnotationDefects(p.ops, i)
  }

  function StatefulDefects(p: Proposal, g: Graph, i: nat): set<Reason>
    requires i < |p.ops|
  {
    ReferenceDefects(p.ops, g, i) + PriorDefects(g, p.ops[i]) + TransitionDefects(g, p.ops[i]) +
    ImmutabilityDefects(p.ops[i]) + StagnationDefects(p.ops, g, p.ops[i]) +
    ReplayDefects(p.ops, g, p.ops[i]) + SelfCertificationDefects(p.ops, g, p.ops[i]) +
    AlignmentDefects(p.ops, g, p.ops[i])
  }

  /** The gate accepts: no validator finds anything. */
  ghost predicate Accepted(p: Proposal, g: Graph) {
    && p.baseRevision.Some?
    && SubgoalClean(p.ops)
    && ExecutorClean(p.ops)
    && forall i {:trigger StatelessDefects(p, i)} {:trigger StatefulDefects(p, g, i)} ::
         0 <= i < |p.ops| ==> StatelessDefects(p, i) == {} && StatefulDefects(p, g, i) == {}
  }
}
