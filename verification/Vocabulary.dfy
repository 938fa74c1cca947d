/** The closed vocabularies of committed proof state.

    The program compares strings; here each string the program names has its own
    constructor, and every other string is carried by the catch-all constructor of
    its type, which never holds a listed string. */
module Vocabulary {

  datatype Option<+T> = None | Some(value: T)

  /** Identities stay strings: the namespace check and the projector take them apart. */
  type Id = string

  datatype Label =
    | FormalState | TacticApplication | FormalRun | FormalCheckpoint | FormalDeclaration
    | Environment | Certificate | LeanReplay | Alignment | Claim | SpeculativeHypothesis
    | Proof | Obstruction | Attempt | Artifact | ResearchState | ResearchMove
    | OtherLabel(name: string)

  datatype Rel =
    | HasTactic | FormalRequires | ClosesState | HasRoot | HasCheckpoint | CheckpointFrontier
    | RanUnder | Searches | ProducedCertificate | Certifies | CertificateEnvironment
    | ReplayedBy | ReplayEnvironment | PinnedEnvironment | AlignsClaim | AlignsDeclaration
    | ProvedBy | DependsOn | PromotedTo | RaisedObstruction | AtState | Resolves | HasTarget
    | Proposes | OnState | ReviewsClaim
    | OtherRel(name: string)

  /** `Score` carries the names in ANNOTATION_FIELDS; `Named` every unlisted name. */
  datatype Field =
    | Status | Lifecycle | Verdict | Kind | Description | Detail | StateId | ChildIndex
    | GoalText | ExactHash | IsTheorem
    | TacticLabel | TacticFamily | SubgoalCount | ExecutorResult | DiagnosticArtifact
    | ClaimText | Tag
    | LeanName | LeanType | LeanValue | ModulePath | UniverseLevel
    | Actor | StartTime | ProducerRunId | ArtifactHash
    | ReplayedAt | SorryDetected | RejectionReason | WorkerClass
    | Toolchain | LakeManifestHash | MathlibCommit | EpochMs
    | Score(name: string)
    | Named(name: string)

  /** The literals of every status, lifecycle, verdict, kind and result vocabulary. */
  datatype Token =
    | Conjectural | Empirical | Provisional | CriticAccepted | FormallyClosed | LeanVerified
    | Tainted | Refuted | Retracted | Stale
    | Open | Expanded | Reopened | Failed | Pruned
    | Superseded | Queued | Leased | Closed | Dominated | Exhausted | Pending | Dead | Supported
    | Draft | Aligned | Searching | CertificateProduced | ReplayPending | ReplayAccepted
    | ReplayRejected | Candidate | ReviewNeeded | Reviewed
    | Weaker | Stronger | Mismatch | Ambiguous
    | ProvedPendingReplay | BudgetExhausted | Stagnated | Counterexample | InvalidRequest
    | EnvironmentError | InternalError | Cancelled
    | LeanAccepted | LeanRejected | Timeout | BackendMissing | ParseFailure | Crash | EmptyOutput
    | Verified | Rejected
    | MissingLemma | MissingPremise | RepresentationMismatch | StatementTooStrong
    | StatementTooWeak | LibraryGap | Elaboration | Typeclass | Coercion | Resource
    | SearchPolicy | LikelyFalse | Unknown
    | Coordinator | LlmResearch | Hyperon | FormalAtp | Replayer | Critic | Experiment
    | AlignmentReviewer | Human | Maintenance
    | Text(text: string)

  /** A JSON scalar. `Null` is both a stored null and what `.get` answers for an absent key. */
  datatype Value = Null | Str(token: Token) | Num(n: int) | Bool(b: bool)

  type Fields = map<Field, Value>

  /** `fields.get(name)`. */
  function Get(fields: Fields, name: Field): Value {
    if name in fields then fields[name] else Null
  }

  /** The field with presence kept apart from null. */
  function Lookup(fields: Fields, name: Field): Option<Value> {
    if name in fields then Some(fields[name]) else None
  }

  predicate IsContentAddressed(id: Id) {
    "sha256:" <= id
  }

  const CLAIM_STATUSES: set<Token> :=
    {Conjectural, Empirical, Provisional, CriticAccepted, FormallyClosed, LeanVerified, Tainted,
     Refuted, Retracted, Stale}
  const STATE_STATUSES: set<Token> :=
    {Open, Expanded, FormallyClosed, LeanVerified, Tainted, Reopened, Failed, Pruned, Stale}
  const DECLARATION_STATUSES: set<Token> :=
    {Draft, Aligned, Searching, CertificateProduced, ReplayPending, ReplayAccepted, ReplayRejected,
     Stale}
  const CERTIFICATE_STATUSES: set<Token> :=
    {Candidate, ReplayPending, ReplayAccepted, ReplayRejected, Stale}
  const ALIGNMENT_LIFECYCLES: set<Token> := {Draft, ReviewNeeded, Reviewed, Superseded, Stale}
  const ALIGNMENT_VERDICTS: set<Token> := {Aligned, Weaker, Stronger, Mismatch, Ambiguous}
  const RUN_DISPOSITIONS: set<Token> :=
    {Searching, ProvedPendingReplay, BudgetExhausted, Stagnated, Counterexample, InvalidRequest,
     EnvironmentError, InternalError, Cancelled}
  const TACTIC_STATUSES: set<Token> :=
    {Pending, Queued, Open, Leased, Closed, Reopened, Refuted, Dominated, Exhausted, Dead}
  const EXECUTOR_RESULTS: set<Token> :=
    {LeanAccepted, LeanRejected, Timeout, BackendMissing, ParseFailure, Crash, EmptyOutput}
  const EXECUTOR_FAILURES: set<Token> := {Timeout, BackendMissing, ParseFailure, Crash, EmptyOutput}
  const REPLAY_STATUSES: set<Token> := {Verified, Rejected}
  const OBSTRUCTION_KINDS: set<Token> :=
    {MissingLemma, MissingPremise, RepresentationMismatch, StatementTooStrong, StatementTooWeak,
     LibraryGap, Elaboration, Typeclass, Coercion, Resource, SearchPolicy, LikelyFalse, Unknown}
  const ATTEMPT_STATUSES: set<Token> := {Pending, Supported, CriticAccepted, Refuted, Retracted}
  const WORKER_CLASSES: set<Token> :=
    {Coordinator, LlmResearch, Hyperon, FormalAtp, Replayer, Critic, Experiment, AlignmentReviewer,
     Human, Maintenance}

  function OnlyIf(condition: bool, words: set<Token>): Option<set<Token>> {
    if condition then Some(words) else None
  }

  /** ENUM_FIELDS: the closed vocabulary of a field, if it has one. */
  function VocabularyOf(lab: Label, name: Field): Option<set<Token>> {
    match lab
    case Claim => OnlyIf(name == Status, CLAIM_STATUSES)
    case FormalState => OnlyIf(name == Status, STATE_STATUSES)
    case FormalDeclaration => OnlyIf(name == Status, DECLARATION_STATUSES)
    case Certificate => OnlyIf(name == Status, CERTIFICATE_STATUSES)
    case Alignment =>
      if name == Lifecycle then Some(ALIGNMENT_LIFECYCLES) else OnlyIf(name == Verdict, ALIGNMENT_VERDICTS)
    case FormalRun => OnlyIf(name == Status, RUN_DISPOSITIONS)
    case TacticApplication =>
      if name == Status then Some(TACTIC_STATUSES) else OnlyIf(name == ExecutorResult, EXECUTOR_RESULTS)
    case LeanReplay => OnlyIf(name == Status, REPLAY_STATUSES)
    case Obstruction => OnlyIf(name == Kind, OBSTRUCTION_KINDS)
    case Attempt =>
      if name == Status then Some(ATTEMPT_STATUSES) else OnlyIf(name == WorkerClass, WORKER_CLASSES)
    case _ => None
  }

  /** EDGE_ENDPOINTS: the labels an edge of this type must join. */
  function EndpointsOf(rel: Rel): Option<(Label, Label)> {
    match rel
    case HasTactic => Some((FormalState, TacticApplication))
    case FormalRequires => Some((TacticApplication, FormalState))
    case ClosesState => Some((TacticApplication, FormalState))
    case HasRoot => Some((FormalRun, FormalState))
    case HasCheckpoint => Some((FormalRun, FormalCheckpoint))
    case CheckpointFrontier => Some((FormalCheckpoint, FormalState))
    case RanUnder => Some((FormalRun, Environment))
    case Searches => Some((FormalRun, FormalDeclaration))
    case ProducedCertificate => Some((FormalRun, Certificate))
    case Certifies => Some((Certificate, FormalDeclaration))
    case CertificateEnvironment => Some((Certificate, Environment))
    case ReplayedBy => Some((Certificate, LeanReplay))
    case ReplayEnvironment => Some((LeanReplay, Environment))
    case PinnedEnvironment => Some((FormalDeclaration, Environment))
    case AlignsClaim => Some((Alignment, Claim))
    case AlignsDeclaration => Some((Alignment, FormalDeclaration))
    case ProvedBy => Some((Claim, Certificate))
    case DependsOn => Some((Claim, Claim))
    case PromotedTo => Some((SpeculativeHypothesis, Claim))
    case RaisedObstruction => Some((FormalRun, Obstruction))
    case AtState => Some((Obstruction, FormalState))
    case Resolves => Some((Claim, Obstruction))
    case HasTarget => Some((Proof, Claim))
    case _ => None
  }
}
