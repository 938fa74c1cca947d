/** What each reason code of the gate means, said of the ops and the graph alone: which op is to blame
    and why, without the dictionaries and helpers of the validators. */
module Reasons {
  import opened Vocabulary
  import opened Ops
  import opened Transitions
  import opened GraphState
  import opened Rules

  // ---- what a proposal and a graph say together ----

  predicate Creates(op: Op, id: Id) {
    op.UpsertNode? && op.id == id
  }

  /** Op `i` is the last to create `id`. */
  predicate CreatedLast(ops: seq<Op>, i: nat, id: Id) {
    i < |ops| && Creates(ops[i], id) && forall j :: i < j < |ops| ==> !Creates(ops[j], id)
  }

  predicate CreatedFirst(ops: seq<Op>, i: nat, id: Id) {
    i < |ops| && Creates(ops[i], id) && forall j :: 0 <= j < i ==> !Creates(ops[j], id)
  }

  predicate NeverCreated(ops: seq<Op>, id: Id) {
    forall op :: op in ops ==> !Creates(op, id)
  }

  /** The node is taken to have this label: its last creation gives it, or it is committed with it. */
  ghost predicate Labelled(ops: seq<Op>, g: Graph, id: Id, lab: Label) {
    || (exists i: nat :: CreatedLast(ops, i, id) && ops[i].lab == lab)
    || (NeverCreated(ops, id) && id in g.nodes && g.nodes[id].lab == lab)
  }

  predicate Unheard(ops: seq<Op>, g: Graph, id: Id) {
    NeverCreated(ops, id) && id !in g.nodes
  }

  /** The node is read with these fields: the committed ones, else those of its first creation. */
  ghost predicate Shows(ops: seq<Op>, g: Graph, id: Id, fields: Fields) {
    || (id in g.nodes && fields == g.nodes[id].fields)
    || (id !in g.nodes && exists i: nat :: CreatedFirst(ops, i, id) && ops[i].fields == fields)
    || (Unheard(ops, g, id) && fields == map[])
  }

  /** The edge is taken to have this type: its last addition gives it, or it is committed with it. */
  ghost predicate Typed(ops: seq<Op>, g: Graph, eid: Id, rel: Rel) {
    || (exists i: nat :: AddedLast(ops, i, eid) && ops[i].rel == rel)
    || ((forall op :: op in ops && op.AddEdge? ==> op.eid != eid) && eid in g.edges && g.edges[eid].rel == rel)
  }

  predicate AddedLast(ops: seq<Op>, i: nat, eid: Id) {
    && i < |ops| && ops[i].AddEdge? && ops[i].eid == eid
    && forall j :: i < j < |ops| && ops[j].AddEdge? ==> ops[j].eid != eid
  }

  /** An edge of this type joins the two, proposed or committed. */
  ghost predicate Joined(ops: seq<Op>, g: Graph, src: Id, rel: Rel, dst: Id) {
    || (exists op :: op in ops && op.AddEdge? && op.rel == rel && op.src == src && op.dst == dst)
    || Committed(g, src, rel, dst)
  }

  /** The field is there and holds this value; `Blank` when it is absent or null. */
  predicate Holds(fields: Fields, name: Field, v: Value) {
    name in fields && fields[name] == v
  }

  predicate Blank(fields: Fields, name: Field) {
    name in fields ==> fields[name] == Null
  }

  lemma {:induction false} LabelledIs(ops: seq<Op>, g: Graph, id: Id, lab: Label)
    ensures Labelled(ops, g, id, lab) <==> LabelOf(ops, g, id) == Some(lab)
    ensures Unheard(ops, g, id) <==> LabelOf(ops, g, id).None?
  {
    LastCreationIs(ops, id);
    if i: nat :| CreatedLast(ops, i, id) {
      assert ops[i] in ops;
    }
  }

  lemma {:induction false} LastCreationIs(ops: seq<Op>, id: Id)
    ensures CreatedLabel(ops, id).None? <==> NeverCreated(ops, id)
    ensures forall lab :: CreatedLabel(ops, id) == Some(lab) <==>
              exists i: nat :: CreatedLast(ops, i, id) && ops[i].lab == lab
  {
    if ops != [] {
      var n := |ops| - 1;
      LastCreationIs(ops[..n], id);
      if Creates(ops[n], id) {
        assert CreatedLast(ops, n, id);
        assert forall i: nat :: CreatedLast(ops, i, id) ==> i == n;
      } else {
        assert forall i: nat :: CreatedLast(ops, i, id) <==> CreatedLast(ops[..n], i, id);
      }
      assert ops == ops[..n] + [ops[n]];
    }
  }

  lemma {:induction false} TypedIs(ops: seq<Op>, g: Graph, eid: Id, rel: Rel)
    ensures Typed(ops, g, eid, rel) <==> RelOf(ops, g, eid) == Some(rel)
  {
    LastAdditionIs(ops, eid);
    if i: nat :| AddedLast(ops, i, eid) {
      assert ops[i] in ops;
    }
  }

  lemma {:induction false} LastAdditionIs(ops: seq<Op>, eid: Id)
    ensures AddedRel(ops, eid).None? <==> forall op :: op in ops && op.AddEdge? ==> op.eid != eid
    ensures forall rel :: AddedRel(ops, eid) == Some(rel) <==>
              exists i: nat :: AddedLast(ops, i, eid) && ops[i].rel == rel
  {
    if ops != [] {
      var n := |ops| - 1;
      LastAdditionIs(ops[..n], eid);
      if Adds(ops[n], eid) {
        assert AddedLast(ops, n, eid);
        assert forall i: nat :: AddedLast(ops, i, eid) ==> i == n;
      } else {
        assert forall i: nat :: AddedLast(ops, i, eid) <==> AddedLast(ops[..n], i, eid);
      }
      assert ops == ops[..n] + [ops[n]];
    }
  }

  lemma {:induction false} ShowsIs(ops: seq<Op>, g: Graph, id: Id, fields: Fields)
    ensures Shows(ops, g, id, fields) <==> fields == NodeFields(ops, g, id)
  {
    FirstCreationIs(ops, id);
    if i: nat :| CreatedFirst(ops, i, id) {
      assert ops[i] in ops;
    }
  }

  lemma {:induction false} FirstCreationIs(ops: seq<Op>, id: Id)
    ensures NeverCreated(ops, id) ==> ProposedFields(ops, id) == map[]
    ensures !NeverCreated(ops, id) ==>
              exists i: nat :: CreatedFirst(ops, i, id) && ops[i].fields == ProposedFields(ops, id)
  {
    if ops != [] {
      if Creates(ops[0], id) {
        assert CreatedFirst(ops, 0, id) && ops[0] in ops;
      } else {
        FirstCreationIs(ops[1..], id);
        assert ops == [ops[0]] + ops[1..];
        if !NeverCreated(ops[1..], id) {
          var i: nat :| CreatedFirst(ops[1..], i, id) && ops[1..][i].fields == ProposedFields(ops[1..], id);
          assert CreatedFirst(ops, i + 1, id);
        }
      }
    }
  }

  ghost predicate Committed(g: Graph, src: Id, rel: Rel, dst: Id) {
    exists e :: e in g.edges && g.edges[e] == Edge(rel, src, dst, g.edges[e].fields)
  }

  lemma {:induction false} CommittedIs(g: Graph, src: Id, rel: Rel, dst: Id)
    ensures Committed(g, src, rel, dst) <==> exists e :: e in ScanFrom(g, src, rel) && g.edges[e].dst == dst
    ensures Committed(g, src, rel, dst) <==> exists e :: e in ScanTo(g, dst, rel) && g.edges[e].src == src
  {
    if e :| e in g.edges && g.edges[e] == Edge(rel, src, dst, g.edges[e].fields) {
      assert e in ScanFrom(g, src, rel) && e in ScanTo(g, dst, rel);
    }
  }

  lemma {:induction false} JoinedIs(ops: seq<Op>, g: Graph, src: Id, rel: Rel, dst: Id)
    ensures Joined(ops, g, src, rel, dst) <==> dst in EdgeTargets(ops, g, src, rel)
  {
    CommittedIs(g, src, rel, dst);
  }

  lemma {:induction false} JoinedBack(ops: seq<Op>, g: Graph, src: Id, rel: Rel, dst: Id)
    ensures Joined(ops, g, src, rel, dst) <==> src in EdgeSources(ops, g, dst, rel)
  {
    CommittedIs(g, src, rel, dst);
  }

  // ---- what is wrong with one op ----

  /** A write to a field that says what committed state means. */
  predicate WritesStatus(op: Op) {
    op.SetField? && StatusLike(op.field)
  }

  predicate StatusLike(name: Field) {
    match name
    case Status => true
    case Verdict => true
    case Named(text) => TextEnds(text, "status") || TextEnds(text, "verdict")
    case _ => false
  }

  predicate TextEnds(text: string, suffix: string) {
    |text| >= |suffix| && forall k :: 0 <= k < |suffix| ==> text[|text| - |suffix| + k] == suffix[k]
  }

  /** Op `i` is the first such write, and the proposal lacks the lease or its token. */
  predicate LacksLease(p: Proposal, i: nat)
    requires i < |p.ops|
  {
    && (p.leaseId == None || p.fencingToken == None)
    && WritesStatus(p.ops[i]) && forall j :: 0 <= j < i ==> !WritesStatus(p.ops[j])
  }

  lemma {:induction false} FirstStatus(ops: seq<Op>) returns (i: nat)
    requires exists op :: op in ops && WritesStatus(op)
    ensures i < |ops| && WritesStatus(ops[i])
    ensures forall j :: 0 <= j < i ==> !WritesStatus(ops[j])
  {
    i := 0;
    while !WritesStatus(ops[i])
      invariant i < |ops| && forall j :: 0 <= j < i ==> !WritesStatus(ops[j])
      decreases |ops| - i
    {
      i := i + 1;
    }
  }

  /** A value outside the closed vocabulary of its field. */
  predicate OutsideWords(lab: Label, name: Field, v: Value) {
    VocabularyOf(lab, name) != None && forall word :: word in VocabularyOf(lab, name).value ==> v != Str(word)
  }

  predicate WritesForeignWord(op: Op) {
    match op
    case UpsertNode(lab, _, fields) => exists name :: name in fields && OutsideWords(lab, name, fields[name])
    case SetField(lab, _, name, v, _) => OutsideWords(lab, name, v)
    case _ => false
  }

  /** Neither under the proof's prefix nor a content address. */
  predicate Foreign(proofId: string, id: Id) {
    !StartsWith(id, proofId + "/") && !StartsWith(id, "sha256:")
  }

  predicate StartsWith(text: string, prefix: string) {
    |text| >= |prefix| && text[..|prefix|] == prefix
  }

  predicate NamesForeign(proofId: string, op: Op) {
    match op
    case UpsertNode(lab, id, _) => lab != Artifact && Foreign(proofId, id)
    case SetField(lab, id, _, _, _) => lab != Artifact && Foreign(proofId, id)
    case AddEdge(_, src, dst, eid, _) => Foreign(proofId, src) || Foreign(proofId, dst) || Foreign(proofId, eid)
    case RemoveEdge(_, eid) => Foreign(proofId, eid)
  }

  /** The op says that this state is closed. */
  predicate SaysClosed(op: Op, id: Id) {
    && op.SetField? && op.id == id && op.lab == FormalState && op.field == Status
    && (op.value == Str(FormallyClosed) || op.value == Str(LeanVerified))
  }

  /** The op puts a score on this node. */
  predicate Scores(op: Op, id: Id) {
    match op
    case SetField(_, target, name, _, _) => target == id && name.Score?
    case UpsertNode(lab, target, fields) =>
      target == id && lab == FormalState && exists name :: name in fields && name.Score?
    case _ => false
  }

  /** The first op to call a state closed, where the state is scored and no closing edge reaches it. */
  predicate ClosesByScore(ops: seq<Op>, i: nat)
    requires i < |ops|
  {
    && ops[i].SetField? && SaysClosed(ops[i], ops[i].id)
    && (forall j :: 0 <= j < i ==> !SaysClosed(ops[j], ops[i].id))
    && (exists op :: op in ops && Scores(op, ops[i].id))
    && !exists op :: op in ops && op.AddEdge? && op.rel == ClosesState && op.dst == ops[i].id
  }

  ghost predicate UnknownEnd(ops: seq<Op>, g: Graph, op: Op) {
    match op
    case SetField(_, id, _, _, _) => Unheard(ops, g, id)
    case AddEdge(_, src, dst, _, _) =>
      Unheard(ops, g, src) || (Unheard(ops, g, dst) && !StartsWith(dst, "sha256:"))
    case _ => false
  }

  /** An end carries another label than the edge type asks for. */
  ghost predicate WrongEnd(ops: seq<Op>, g: Graph, op: Op) {
    op.AddEdge? && EndpointsOf(op.rel) != None &&
    ((exists lab :: Labelled(ops, g, op.src, lab) && lab != EndpointsOf(op.rel).value.0) ||
     (exists lab :: Labelled(ops, g, op.dst, lab) && lab != EndpointsOf(op.rel).value.1))
  }

  ghost predicate WrongLabel(ops: seq<Op>, g: Graph, op: Op) {
    op.SetField? && !Unheard(ops, g, op.id) && !Labelled(ops, g, op.id, op.lab)
  }

  predicate Contradicts(g: Graph, op: Op) {
    op.UpsertNode? && op.id in g.nodes &&
    exists name :: name in op.fields && !Holds(g.nodes[op.id].fields, name, op.fields[name])
  }

  /** A removal of an edge that is not there under that type, or is already removed. */
  ghost predicate RemovesNothing(ops: seq<Op>, g: Graph, i: nat)
    requires i < |ops|
  {
    ops[i].RemoveEdge? &&
    (!Typed(ops, g, ops[i].eid, ops[i].rel) ||
     exists j :: 0 <= j < i && ops[j].RemoveEdge? && ops[j].eid == ops[i].eid)
  }

  /** The value named as the one replaced is not the one committed. */
  predicate MistakesPrior(g: Graph, op: Op) {
    && op.SetField? && op.prior != None && op.id in g.nodes
    && !Holds(g.nodes[op.id].fields, op.field, op.prior.value)
    && !(op.prior == Some(Null) && op.field !in g.nodes[op.id].fields)
  }

  /** A committed status of a tabled field changes to a value that may not follow it. */
  predicate JumpsStatus(g: Graph, op: Op) {
    && op.SetField? && HasTable(op.lab, op.field) && op.id in g.nodes && !Blank(g.nodes[op.id].fields, op.field)
    && !MayFollow(op.lab, op.field, g.nodes[op.id].fields[op.field], op.value)
  }

  ghost predicate StagnatesUnexplained(ops: seq<Op>, g: Graph, op: Op) {
    && op.SetField? && op.lab == FormalRun && op.field == Status && op.value == Str(Stagnated)
    && (forall other :: other in ops && other.AddEdge? && other.rel == RaisedObstruction ==> other.src != op.id)
    && (op.id in g.nodes ==>
          forall e :: e in g.edges && g.edges[e].rel == RaisedObstruction ==> g.edges[e].src != op.id)
  }

  predicate SaysVerified(op: Op) {
    op.SetField? && op.lab == Claim && op.field == Status && op.value == Str(LeanVerified)
  }

  /** A replay that passed, without a sorry, run by somebody known who is not the certificate's author. */
  predicate Independent(certificate: Fields, replay: Fields) {
    && Holds(replay, Status, Str(Verified)) && Holds(replay, SorryDetected, Bool(false))
    && !Blank(replay, Actor) && !Blank(certificate, Actor) && !Holds(replay, Actor, certificate[Actor])
  }

  /** A certificate of the claim, a replay of the certificate, and what they show. */
  ghost predicate Replayed(ops: seq<Op>, g: Graph, claim: Id, cert: Id, replay: Id, a: Fields, b: Fields) {
    && Joined(ops, g, claim, ProvedBy, cert) && Joined(ops, g, cert, ReplayedBy, replay)
    && Shows(ops, g, cert, a) && Shows(ops, g, replay, b) && Independent(a, b)
  }

  /** The claim has a certificate with an independent replay, in the proposal or the graph. */
  ghost predicate IsReplayed(ops: seq<Op>, g: Graph, claim: Id) {
    exists cert, replay, a, b :: Replayed(ops, g, claim, cert, replay, a, b)
  }

  ghost predicate AlignedBy(ops: seq<Op>, g: Graph, claim: Id, alignment: Id, a: Fields) {
    && Joined(ops, g, alignment, AlignsClaim, claim) && Shows(ops, g, alignment, a)
    && Holds(a, Lifecycle, Str(Reviewed)) && Holds(a, Verdict, Str(Token.Aligned))
  }

  ghost predicate IsAligned(ops: seq<Op>, g: Graph, claim: Id) {
    exists alignment, a :: AlignedBy(ops, g, claim, alignment, a)
  }

  /** A replay edge between a certificate and a replay by one known actor. */
  ghost predicate CertifiesItself(ops: seq<Op>, g: Graph, op: Op) {
    op.AddEdge? && op.rel == ReplayedBy &&
    exists a, b :: Shows(ops, g, op.src, a) && Shows(ops, g, op.dst, b) &&
                   !Blank(a, Actor) && Holds(b, Actor, a[Actor])
  }

  // ---- what is wrong with a tactic ----

  predicate MakesTactic(op: Op, id: Id) {
    op.UpsertNode? && op.lab == TacticApplication && op.id == id
  }

  /** Op `i` is the last to create its tactic. */
  predicate TacticLast(ops: seq<Op>, i: nat) {
    && i < |ops| && ops[i].UpsertNode? && ops[i].lab == TacticApplication
    && forall j :: i < j < |ops| ==> !MakesTactic(ops[j], ops[i].id)
  }

  /** The ops that add an edge of this type from this node. */
  function Additions(ops: seq<Op>, rel: Rel, src: Id): set<nat> {
    set k: nat | k < |ops| && ops[k].AddEdge? && ops[k].rel == rel && ops[k].src == src
  }

  predicate LacksField(ops: seq<Op>, i: nat) {
    TacticLast(ops, i) && (Blank(ops[i].fields, SubgoalCount) || Blank(ops[i].fields, ExecutorResult))
  }

  predicate Miscounts(ops: seq<Op>, i: nat) {
    && TacticLast(ops, i) && !Blank(ops[i].fields, SubgoalCount)
    && ops[i].fields[SubgoalCount] != Num(|Additions(ops, FormalRequires, ops[i].id)|)
  }

  predicate RepeatsChild(ops: seq<Op>, i: nat) {
    TacticLast(ops, i) &&
    exists j, k :: j in Additions(ops, FormalRequires, ops[i].id) && k in Additions(ops, FormalRequires, ops[i].id) &&
                   j != k && ops[j].dst == ops[k].dst
  }

  /** `at[k]` is the op that adds the k-th child. */
  ghost predicate Places(ops: seq<Op>, id: Id, at: seq<nat>) {
    && |at| == |Additions(ops, FormalRequires, id)|
    && forall k :: 0 <= k < |at| ==>
         at[k] in Additions(ops, FormalRequires, id) && Holds(ops[at[k]].fields, ChildIndex, Num(k))
  }

  ghost predicate Misplaces(ops: seq<Op>, i: nat) {
    TacticLast(ops, i) && !exists at :: Places(ops, ops[i].id, at)
  }

  /** The executor never got an answer from Lean. */
  predicate NeverRan(fields: Fields) {
    || Holds(fields, ExecutorResult, Str(Timeout)) || Holds(fields, ExecutorResult, Str(BackendMissing))
    || Holds(fields, ExecutorResult, Str(ParseFailure)) || Holds(fields, ExecutorResult, Str(Crash))
    || Holds(fields, ExecutorResult, Str(EmptyOutput))
  }

  predicate FailureClosed(ops: seq<Op>, i: nat) {
    TacticLast(ops, i) && NeverRan(ops[i].fields) && Holds(ops[i].fields, Status, Str(Closed))
  }

  predicate FailureExplained(ops: seq<Op>, i: nat) {
    TacticLast(ops, i) && NeverRan(ops[i].fields) && !Blank(ops[i].fields, DiagnosticArtifact)
  }

  predicate RejectionUnexplained(ops: seq<Op>, i: nat) {
    && TacticLast(ops, i) && Holds(ops[i].fields, ExecutorResult, Str(LeanRejected))
    && Blank(ops[i].fields, DiagnosticArtifact)
  }

  /** The first edge of its type from a tactic that the proposal does not create. */
  predicate Orphaned(ops: seq<Op>, rel: Rel, i: nat) {
    && i < |ops| && ops[i].AddEdge? && ops[i].rel == rel
    && (forall op :: op in ops ==> !MakesTactic(op, ops[i].src))
    && forall j :: j in Additions(ops, rel, ops[i].src) ==> i <= j
  }

  /** The op closes a state by a tactic without this value. */
  ghost predicate ClosesWithout(ops: seq<Op>, i: nat, name: Field, v: Value) {
    && i < |ops| && ops[i].AddEdge? && ops[i].rel == ClosesState
    && exists j: nat :: TacticLast(ops, j) && ops[j].id == ops[i].src && !Holds(ops[j].fields, name, v)
  }

  // ---- the reasons, one by one ----

  /** Op `i` is to blame for this reason. */
  ghost predicate Blamed(p: Proposal, g: Graph, i: nat, r: Reason) {
    i < |p.ops| &&
    match r
    case MissingConcurrencyToken => LacksLease(p, i)
    case UnknownStatusValue => WritesForeignWord(p.ops[i])
    case NamespaceMismatch => NamesForeign(p.proofId, p.ops[i])
    case MissingPriorValue => p.ops[i].SetField? && p.ops[i].prior == None && !p.ops[i].field.Score?
    case HeuristicClosureAttempt => ClosesByScore(p.ops, i)
    case FormalRequiresRemoval => p.ops[i].RemoveEdge? && p.ops[i].rel == FormalRequires
    case MissingRequiredField => LacksField(p.ops, i)
    case SubgoalCountMismatch => Miscounts(p.ops, i)
    case SubgoalDuplicated => RepeatsChild(p.ops, i)
    case SubgoalIndexInvalid => Misplaces(p.ops, i)
    case OrphanSubgoalEdge => Orphaned(p.ops, FormalRequires, i)
    case OrphanClosureEdge => Orphaned(p.ops, ClosesState, i)
    case ExecutorFailureAsSuccess => FailureClosed(p.ops, i)
    case FailureWithMathematicalDiagnostic => FailureExplained(p.ops, i)
    case DeadEdgeMissingDiagnostic => RejectionUnexplained(p.ops, i)
    case ClosureWithoutLeanAccepted => ClosesWithout(p.ops, i, ExecutorResult, Str(LeanAccepted))
    case ClosureWithoutZeroGoals => ClosesWithout(p.ops, i, SubgoalCount, Num(0))
    case UnknownNode => UnknownEnd(p.ops, g, p.ops[i])
    case NodeAlreadyExistsWithLabel => WrongLabel(p.ops, g, p.ops[i])
    case UpsertFieldConflict => Contradicts(g, p.ops[i])
    case EdgeEndpointTypeInvalid => WrongEnd(p.ops, g, p.ops[i])
    case UnknownEdge => RemovesNothing(p.ops, g, i)
    case PriorValueMismatch => MistakesPrior(g, p.ops[i])
    case IllegalStatusTransition => JumpsStatus(g, p.ops[i])
    case ImmutableFieldOverwrite => p.ops[i].SetField? && p.ops[i].field in ImmutableFields(p.ops[i].lab)
    case StagnationWithoutObstruction => StagnatesUnexplained(p.ops, g, p.ops[i])
    case PromotionWithoutReplay => SaysVerified(p.ops[i]) && !IsReplayed(p.ops, g, p.ops[i].id)
    case PromotionWithoutAlignment => SaysVerified(p.ops[i]) && !IsAligned(p.ops, g, p.ops[i].id)
    case SelfCertification => CertifiesItself(p.ops, g, p.ops[i])
    case _ => false
  }

  // ---- one validator at a time ----

  lemma {:induction false} SuffixIs(text: string, suffix: string)
    ensures TextEnds(text, suffix) <==> EndsWith(text, suffix)
  {
    if |suffix| <= |text| {
      var tail := text[|text| - |suffix|..];
      assert TextEnds(text, suffix) ==> forall k :: 0 <= k < |suffix| ==> tail[k] == suffix[k];
      assert tail == suffix ==> forall k :: 0 <= k < |suffix| ==> tail[k] == text[|text| - |suffix| + k];
    }
  }

  lemma {:induction false} ClassIs(op: Op)
    ensures WritesStatus(op) <==> ClassOf(op) == StatusClass
    ensures op.SetField? ==> (op.field.Score? <==> ClassOf(op) == AnnotationClass)
  {
    if op.SetField? && op.field.Named? {
      SuffixIs(op.field.name, "status");
      SuffixIs(op.field.name, "verdict");
    }
  }

  lemma {:induction false} ConcurrencyIs(p: Proposal, i: nat)
    requires i < |p.ops|
    ensures ConcurrencyDefects(p, i) == If(LacksLease(p, i), MissingConcurrencyToken)
  {
    forall j | 0 <= j <= i
      ensures WritesStatus(p.ops[j]) <==> ClassOf(p.ops[j]) == StatusClass
    {
      ClassIs(p.ops[j]);
    }
  }

  lemma {:induction false} VocabularyIs(op: Op)
    ensures VocabularyDefects(op) == If(WritesForeignWord(op), UnknownStatusValue)
  {
    forall lab, name, v: Value
      ensures OutsideWords(lab, name, v) <==> !LegalLiteral(lab, name, v)
    {
    }
  }

  lemma {:induction false} NamespaceIs(proofId: string, op: Op)
    ensures NamespaceDefects(proofId, op) == If(NamesForeign(proofId, op), NamespaceMismatch)
  {
    forall id
      ensures Foreign(proofId, id) <==> !Scoped(proofId, id)
    {
      PrefixIs(id, proofId + "/");
      PrefixIs(id, "sha256:");
    }
  }

  lemma {:induction false} PrefixIs(text: string, prefix: string)
    ensures StartsWith(text, prefix) <==> prefix <= text
  {
  }

  lemma {:induction false} AnnotationIs(ops: seq<Op>, i: nat)
    requires i < |ops|
    ensures AnnotationDefects(ops, i) ==
            If(ops[i].SetField? && ops[i].prior == None && !ops[i].field.Score?, MissingPriorValue) +
            If(ClosesByScore(ops, i), HeuristicClosureAttempt)
  {
    ClassIs(ops[i]);
    forall op: Op, id
      ensures Annotates(op, id) <==> Scores(op, id)
      ensures ClosesByHand(op) && op.id == id <==> SaysClosed(op, id)
    {
      ClassIs(op);
    }
  }

  lemma {:induction false} ReferencesAre(ops: seq<Op>, g: Graph, i: nat)
    requires i < |ops|
    ensures ReferenceDefects(ops, g, i) ==
            If(UnknownEnd(ops, g, ops[i]), UnknownNode) +
            If(WrongLabel(ops, g, ops[i]), NodeAlreadyExistsWithLabel) +
            If(WrongEnd(ops, g, ops[i]), EdgeEndpointTypeInvalid) +
            If(Contradicts(g, ops[i]), UpsertFieldConflict) +
            If(RemovesNothing(ops, g, i), UnknownEdge)
  {
    match ops[i] {
      case SetField(lab, id, _, _, _) =>
        LabelledIs(ops, g, id, lab);
      case AddEdge(rel, src, dst, _, _) =>
        EndIs(ops, g, src);
        EndIs(ops, g, dst);
        PrefixIs(dst, "sha256:");
      case UpsertNode(_, _, _) =>
      case RemoveEdge(rel, eid) =>
        TypedIs(ops, g, eid, rel);
    }
  }

  /** What is known of the label of an end. */
  lemma {:induction false} EndIs(ops: seq<Op>, g: Graph, id: Id)
    ensures Unheard(ops, g, id) <==> LabelOf(ops, g, id).None?
    ensures forall lab :: Labelled(ops, g, id, lab) <==> LabelOf(ops, g, id) == Some(lab)
  {
    forall lab
      ensures Unheard(ops, g, id) <==> LabelOf(ops, g, id).None?
      ensures Labelled(ops, g, id, lab) <==> LabelOf(ops, g, id) == Some(lab)
    {
      LabelledIs(ops, g, id, lab);
    }
    LabelledIs(ops, g, id, Claim);
  }

  lemma {:induction false} PriorIs(g: Graph, op: Op)
    ensures PriorDefects(g, op) == If(MistakesPrior(g, op), PriorValueMismatch)
    ensures TransitionDefects(g, op) == If(JumpsStatus(g, op), IllegalStatusTransition)
  {
  }

  lemma {:induction false} StagnationIs(ops: seq<Op>, g: Graph, op: Op)
    ensures StagnationDefects(ops, g, op) == If(StagnatesUnexplained(ops, g, op), StagnationWithoutObstruction)
  {
    if op.SetField? {
      if e :| e in g.edges && g.edges[e].rel == RaisedObstruction && g.edges[e].src == op.id {
        assert e in ScanFrom(g, op.id, RaisedObstruction);
      }
      if e :| e in ScanFrom(g, op.id, RaisedObstruction) {
        assert e in g.edges && g.edges[e].rel == RaisedObstruction && g.edges[e].src == op.id;
      }
    }
  }

  /** The gate finds a replay exactly when the proposal and the graph hold one, field by field. */
  lemma {:induction false} HasReplayIff(ops: seq<Op>, g: Graph, claim: Id)
    ensures HasReplay(ops, g, claim) <==> IsReplayed(ops, g, claim)
  {
    if HasReplay(ops, g, claim) {
      var cert :| cert in EdgeTargets(ops, g, claim, ProvedBy) &&
        exists replay :: replay in EdgeTargets(ops, g, cert, ReplayedBy) &&
          IsEvidence(NodeFields(ops, g, cert), NodeFields(ops, g, replay));
      var replay :| replay in EdgeTargets(ops, g, cert, ReplayedBy) &&
        IsEvidence(NodeFields(ops, g, cert), NodeFields(ops, g, replay));
      ReplayedIs(ops, g, claim, cert, replay);
    }
    if cert, replay, a, b :| Replayed(ops, g, claim, cert, replay, a, b) {
      ReplayedIs(ops, g, claim, cert, replay);
    }
  }

  lemma {:induction false} ReplayedIs(ops: seq<Op>, g: Graph, claim: Id, cert: Id, replay: Id)
    ensures (cert in EdgeTargets(ops, g, claim, ProvedBy) && replay in EdgeTargets(ops, g, cert, ReplayedBy) &&
             IsEvidence(NodeFields(ops, g, cert), NodeFields(ops, g, replay))) <==>
            exists a, b :: Replayed(ops, g, claim, cert, replay, a, b)
  {
    var a, b := NodeFields(ops, g, cert), NodeFields(ops, g, replay);
    JoinedIs(ops, g, claim, ProvedBy, cert);
    JoinedIs(ops, g, cert, ReplayedBy, replay);
    IndependentIs(a, b);
    ShowsIs(ops, g, cert, a);
    ShowsIs(ops, g, replay, b);
    if c, d :| Replayed(ops, g, claim, cert, replay, c, d) {
      ShowsIs(ops, g, cert, c);
      ShowsIs(ops, g, replay, d);
    } else {
      assert !Replayed(ops, g, claim, cert, replay, a, b);
    }
  }

  lemma {:induction false} IndependentIs(a: Fields, b: Fields)
    ensures Independent(a, b) <==> IsEvidence(a, b)
  {
  }

  /** The same for the reviewed, aligned record. */
  lemma {:induction false} HasAlignmentIff(ops: seq<Op>, g: Graph, claim: Id)
    ensures HasAlignment(ops, g, claim) <==> IsAligned(ops, g, claim)
  {
    if HasAlignment(ops, g, claim) {
      var alignment :| alignment in EdgeSources(ops, g, claim, AlignsClaim) &&
        IsReviewedAligned(NodeFields(ops, g, alignment));
      AlignedIs(ops, g, claim, alignment);
    }
    if alignment, a :| AlignedBy(ops, g, claim, alignment, a) {
      AlignedIs(ops, g, claim, alignment);
    }
  }

  lemma {:induction false} AlignedIs(ops: seq<Op>, g: Graph, claim: Id, alignment: Id)
    ensures (alignment in EdgeSources(ops, g, claim, AlignsClaim) &&
             IsReviewedAligned(NodeFields(ops, g, alignment))) <==>
            exists a :: AlignedBy(ops, g, claim, alignment, a)
  {
    var a := NodeFields(ops, g, alignment);
    JoinedBack(ops, g, alignment, AlignsClaim, claim);
    ShowsIs(ops, g, alignment, a);
    if b :| AlignedBy(ops, g, claim, alignment, b) {
      ShowsIs(ops, g, alignment, b);
    } else {
      assert !AlignedBy(ops, g, claim, alignment, a);
    }
  }

  lemma {:induction false} PromotionIs(ops: seq<Op>, g: Graph, op: Op)
    ensures ReplayDefects(ops, g, op) == If(SaysVerified(op) && !IsReplayed(ops, g, op.id), PromotionWithoutReplay)
    ensures AlignmentDefects(ops, g, op) == If(SaysVerified(op) && !IsAligned(ops, g, op.id), PromotionWithoutAlignment)
  {
    if op.SetField? {
      HasReplayIff(ops, g, op.id);
      HasAlignmentIff(ops, g, op.id);
    }
  }

  lemma {:induction false} SelfCertificationIs(ops: seq<Op>, g: Graph, op: Op)
    ensures SelfCertificationDefects(ops, g, op) == If(CertifiesItself(ops, g, op), SelfCertification)
  {
    if op.AddEdge? {
      var a, b := NodeFields(ops, g, op.src), NodeFields(ops, g, op.dst);
      ShowsIs(ops, g, op.src, a);
      ShowsIs(ops, g, op.dst, b);
      if c, d :| Shows(ops, g, op.src, c) && Shows(ops, g, op.dst, d) && !Blank(c, Actor) && Holds(d, Actor, c[Actor]) {
        ShowsIs(ops, g, op.src, c);
        ShowsIs(ops, g, op.dst, d);
      }
    }
  }
}
