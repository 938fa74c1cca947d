/** The schema read the other way round: what may precede a status, which edges meet a node, where a
    field is frozen and a word legal. Each table is compared with the one the gate uses. */
module Schema {
  import opened Vocabulary
  import opened Transitions

  // ---- transitions, by the status entered ----

  predicate FormalStateEntered(from: Token, to: Token) {
    match to
    case Expanded => from.Open? || from.Reopened?
    case FormallyClosed | Failed => from.Open? || from.Expanded? || from.Reopened?
    case Pruned => from.Open? || from.Expanded? || from.Tainted? || from.Reopened?
    case Tainted => from.Open? || from.Expanded? || from.FormallyClosed? || from.LeanVerified? || from.Reopened?
    case Stale =>
      from.Open? || from.Expanded? || from.FormallyClosed? || from.LeanVerified? || from.Tainted? ||
      from.Reopened? || from.Failed? || from.Pruned?
    case LeanVerified => from.FormallyClosed?
    case Reopened => from.Tainted?
    case _ => false
  }

  predicate ClaimEntered(from: Token, to: Token) {
    match to
    case Empirical => from.Conjectural?
    case Provisional => from.Conjectural? || from.Empirical?
    case Tainted =>
      from.Conjectural? || from.Empirical? || from.Provisional? || from.CriticAccepted? ||
      from.FormallyClosed? || from.LeanVerified?
    case Refuted | Retracted =>
      from.Conjectural? || from.Empirical? || from.Provisional? || from.CriticAccepted? ||
      from.FormallyClosed? || from.Tainted?
    case Stale =>
      from.Conjectural? || from.Empirical? || from.Provisional? || from.CriticAccepted? ||
      from.FormallyClosed? || from.LeanVerified? || from.Tainted? || from.Refuted? || from.Retracted?
    case CriticAccepted => from.Provisional?
    case FormallyClosed => from.Provisional? || from.CriticAccepted?
    case LeanVerified => from.FormallyClosed?
    case _ => false
  }

  predicate DeclarationEntered(from: Token, to: Token) {
    match to
    case Aligned => from.Draft?
    case Searching => from.Draft? || from.Aligned?
    case Stale =>
      from.Draft? || from.Aligned? || from.Searching? || from.CertificateProduced? ||
      from.ReplayPending? || from.ReplayAccepted? || from.ReplayRejected?
    case CertificateProduced => from.Searching?
    case ReplayPending => from.CertificateProduced?
    case ReplayAccepted | ReplayRejected => from.ReplayPending?
    case _ => false
  }

  predicate CertificateEntered(from: Token, to: Token) {
    match to
    case ReplayPending => from.Candidate?
    case Stale => from.Candidate? || from.ReplayPending? || from.ReplayAccepted? || from.ReplayRejected?
    case ReplayAccepted | ReplayRejected => from.ReplayPending?
    case _ => false
  }

  predicate AlignmentEntered(from: Token, to: Token) {
    match to
    case ReviewNeeded => from.Draft?
    case Superseded => from.Draft? || from.ReviewNeeded? || from.Reviewed?
    case Stale => from.Draft? || from.ReviewNeeded? || from.Reviewed? || from.Superseded?
    case Reviewed => from.ReviewNeeded?
    case _ => false
  }

  predicate RunEntered(from: Token, to: Token) {
    match to
    case ProvedPendingReplay | BudgetExhausted | Stagnated | Counterexample | InvalidRequest |
         EnvironmentError | InternalError | Cancelled =>
      from.Searching?
    case _ => false
  }

  predicate TacticEntered(from: Token, to: Token) {
    match to
    case Queued => from.Pending?
    case Open => from.Pending? || from.Queued? || from.Leased?
    case Closed => from.Pending? || from.Leased? || from.Open? || from.Reopened?
    case Dead => from.Pending? || from.Queued? || from.Leased? || from.Open? || from.Reopened?
    case Leased | Dominated => from.Queued? || from.Open? || from.Reopened?
    case Refuted | Exhausted => from.Leased? || from.Open? || from.Reopened?
    case Reopened => from.Closed?
    case _ => false
  }

  predicate ResearchStateEntered(from: Token, to: Token) {
    match to
    case Superseded | Refuted => from.Open?
    case Stale => from.Open? || from.Superseded? || from.Refuted?
    case _ => false
  }

  predicate ResearchMoveEntered(from: Token, to: Token) {
    match to
    case Leased => from.Queued? || from.Open?
    case Open => from.Queued? || from.Leased?
    case Dominated | Exhausted => from.Queued? || from.Open? || from.Leased?
    case Stale => from.Queued? || from.Open? || from.Leased? || from.Closed?
    case Closed | Refuted => from.Open? || from.Leased?
    case _ => false
  }

  /** The second value may be entered from the first. */
  predicate EnteredFrom(lab: Label, name: Field, from: Token, to: Token) {
    match (lab, name)
    case (FormalState, Status) => FormalStateEntered(from, to)
    case (Claim, Status) => ClaimEntered(from, to)
    case (FormalDeclaration, Status) => DeclarationEntered(from, to)
    case (Certificate, Status) => CertificateEntered(from, to)
    case (Alignment, Lifecycle) => AlignmentEntered(from, to)
    case (FormalRun, Status) => RunEntered(from, to)
    case (TacticApplication, Status) => TacticEntered(from, to)
    case (ResearchState, Status) => ResearchStateEntered(from, to)
    case (ResearchMove, Status) => ResearchMoveEntered(from, to)
    case _ => false
  }

  lemma {:induction false} FormalStateSteps(from: Token, to: Token)
    ensures to in FormalStateNext(from) <==> FormalStateEntered(from, to)
  {
  }

  lemma {:induction false} ClaimSteps(from: Token, to: Token)
    ensures to in ClaimNext(from) <==> ClaimEntered(from, to)
  {
  }

  lemma {:induction false} DeclarationSteps(from: Token, to: Token)
    ensures to in DeclarationNext(from) <==> DeclarationEntered(from, to)
  {
  }

  lemma {:induction false} CertificateSteps(from: Token, to: Token)
    ensures to in CertificateNext(from) <==> CertificateEntered(from, to)
  {
  }

  lemma {:induction false} AlignmentSteps(from: Token, to: Token)
    ensures to in AlignmentNext(from) <==> AlignmentEntered(from, to)
  {
  }

  lemma {:induction false} RunSteps(from: Token, to: Token)
    ensures to in RunNext(from) <==> RunEntered(from, to)
  {
    if from.Searching? {
      assert to in RunNext(Searching) <==> RunEntered(Searching, to);
    }
  }

  lemma {:induction false} TacticSteps(from: Token, to: Token)
    ensures to in TacticNext(from) <==> TacticEntered(from, to)
  {
  }

  lemma {:induction false} ResearchStateSteps(from: Token, to: Token)
    ensures to in ResearchStateNext(from) <==> ResearchStateEntered(from, to)
  {
  }

  lemma {:induction false} ResearchMoveSteps(from: Token, to: Token)
    ensures to in ResearchMoveNext(from) <==> ResearchMoveEntered(from, to)
  {
  }

  /** A value may follow another exactly where the tables by the status entered say so. */
  lemma {:induction false} MayFollowIff(lab: Label, name: Field, from: Token, to: Token)
    ensures MayFollow(lab, name, Str(from), Str(to)) <==> EnteredFrom(lab, name, from, to)
  {
    if lab == Alignment {
      AlignmentSteps(from, to);
    } else {
      match lab {
        case FormalState => FormalStateSteps(from, to);
        case Claim => ClaimSteps(from, to);
        case FormalDeclaration => DeclarationSteps(from, to);
        case Certificate => CertificateSteps(from, to);
        case FormalRun => RunSteps(from, to);
        case TacticApplication => TacticSteps(from, to);
        case ResearchState => ResearchStateSteps(from, to);
        case ResearchMove => ResearchMoveSteps(from, to);
        case _ =>
      }
    }
  }

  /** A field has a transition table exactly when some transition is legal. */
  lemma {:induction false} TabledIff(lab: Label, name: Field)
    ensures HasTable(lab, name) <==> exists from, to :: MayFollow(lab, name, Str(from), Str(to))
  {
    if HasTable(lab, name) {
      var from := match lab
        case FormalState | ResearchState => Open
        case Claim => Conjectural
        case FormalDeclaration | Alignment => Draft
        case Certificate => Candidate
        case FormalRun => Searching
        case TacticApplication => Closed
        case _ => Queued;
      var to := match lab
        case FormalRun => Stagnated
        case TacticApplication => Reopened
        case _ => Stale;
      MayFollowIff(lab, name, from, to);
      assert MayFollow(lab, name, Str(from), Str(to));
    }
  }

  // ---- words ----

  /** The words of the fields with a vocabulary but no transition table. */
  predicate IsUntabled(lab: Label, name: Field, word: Token) {
    match lab
    case Alignment => name == Verdict && IsVerdict(word)
    case TacticApplication => name == ExecutorResult && IsResult(word)
    case LeanReplay => name == Status && (word.Verified? || word.Rejected?)
    case Obstruction => name == Kind && IsObstructionKind(word)
    case Attempt => (name == Status && IsAttemptStatus(word)) || (name == WorkerClass && IsWorkerClass(word))
    case _ => false
  }

  predicate IsVerdict(word: Token) {
    match word
    case Aligned | Weaker | Stronger | Mismatch | Ambiguous => true
    case _ => false
  }

  predicate IsResult(word: Token) {
    match word
    case LeanAccepted | LeanRejected | Timeout | BackendMissing | ParseFailure | Crash | EmptyOutput => true
    case _ => false
  }

  predicate IsObstructionKind(word: Token) {
    match word
    case MissingLemma | MissingPremise | RepresentationMismatch | StatementTooStrong | StatementTooWeak |
         LibraryGap | Elaboration | Typeclass | Coercion | Resource | SearchPolicy | LikelyFalse | Unknown => true
    case _ => false
  }

  predicate IsAttemptStatus(word: Token) {
    match word
    case Pending | Supported | CriticAccepted | Refuted | Retracted => true
    case _ => false
  }

  predicate IsWorkerClass(word: Token) {
    match word
    case Coordinator | LlmResearch | Hyperon | FormalAtp | Replayer | Critic | Experiment |
         AlignmentReviewer | Human | Maintenance => true
    case _ => false
  }

  lemma {:induction false} VerdictWords(word: Token)
    ensures word in ALIGNMENT_VERDICTS <==> IsVerdict(word)
  {
  }

  lemma {:induction false} ResultWords(word: Token)
    ensures word in EXECUTOR_RESULTS <==> IsResult(word)
  {
  }

  lemma {:induction false} AttemptWords(word: Token)
    ensures word in ATTEMPT_STATUSES <==> IsAttemptStatus(word)
  {
  }

  lemma {:induction false} WorkerWords(word: Token)
    ensures word in WORKER_CLASSES <==> IsWorkerClass(word)
  {
  }

  lemma {:induction false} ObstructionWords(word: Token)
    ensures word in OBSTRUCTION_KINDS <==> IsObstructionKind(word)
  {
  }

  /** The word occurs in the transition table of the label. */
  ghost predicate InTable(lab: Label, word: Token) {
    match lab
    case FormalState => FormalStateNext(word) != {} || exists from :: FormalStateEntered(from, word)
    case Claim => ClaimNext(word) != {} || exists from :: ClaimEntered(from, word)
    case FormalDeclaration => DeclarationNext(word) != {} || exists from :: DeclarationEntered(from, word)
    case Certificate => CertificateNext(word) != {} || exists from :: CertificateEntered(from, word)
    case Alignment => AlignmentNext(word) != {} || exists from :: AlignmentEntered(from, word)
    case FormalRun => RunNext(word) != {} || exists from :: RunEntered(from, word)
    case TacticApplication => TacticNext(word) != {} || exists from :: TacticEntered(from, word)
    case _ => false
  }

  lemma {:induction false} FormalStateWords(word: Token)
    ensures word in STATE_STATUSES <==> InTable(FormalState, word)
  {
    if word in STATE_STATUSES && FormalStateNext(word) == {} {
      assert FormalStateEntered(Open, word);
    }
  }

  lemma {:induction false} ClaimWords(word: Token)
    ensures word in CLAIM_STATUSES <==> InTable(Claim, word)
  {
    if word in CLAIM_STATUSES && ClaimNext(word) == {} {
      assert ClaimEntered(Conjectural, word);
    }
  }

  lemma {:induction false} DeclarationWords(word: Token)
    ensures word in DECLARATION_STATUSES <==> InTable(FormalDeclaration, word)
  {
    if word in DECLARATION_STATUSES && DeclarationNext(word) == {} {
      assert DeclarationEntered(Draft, word);
    }
  }

  lemma {:induction false} CertificateWords(word: Token)
    ensures word in CERTIFICATE_STATUSES <==> InTable(Certificate, word)
  {
    if word in CERTIFICATE_STATUSES && CertificateNext(word) == {} {
      assert CertificateEntered(Candidate, word);
    }
  }

  lemma {:induction false} AlignmentWords(word: Token)
    ensures word in ALIGNMENT_LIFECYCLES <==> InTable(Alignment, word)
  {
    if word in ALIGNMENT_LIFECYCLES && AlignmentNext(word) == {} {
      assert AlignmentEntered(Draft, word);
    }
  }

  lemma {:induction false} RunWords(word: Token)
    ensures word in RUN_DISPOSITIONS <==> InTable(FormalRun, word)
  {
    if word in RUN_DISPOSITIONS && RunNext(word) == {} {
      assert RunEntered(Searching, word);
    }
  }

  lemma {:induction false} TacticWords(word: Token)
    ensures word in TACTIC_STATUSES <==> InTable(TacticApplication, word)
  {
    if word in TACTIC_STATUSES && TacticNext(word) == {} {
      assert TacticEntered(Open, word);
    }
  }

  /** The vocabulary of a field with a transition table is what occurs in the table; of the others, what is
      listed for them; research states and moves have none. */
  lemma {:induction false} LegalIff(lab: Label, name: Field, word: Token)
    ensures VocabularyOf(lab, name).Some? && word in VocabularyOf(lab, name).value <==>
            if HasTable(lab, name) && lab != ResearchState && lab != ResearchMove then
              InTable(lab, word)
            else IsUntabled(lab, name, word)
  {
    if HasTable(lab, name) {
      match lab {
        case FormalState => FormalStateWords(word);
        case Claim => ClaimWords(word);
        case FormalDeclaration => DeclarationWords(word);
        case Certificate => CertificateWords(word);
        case Alignment => AlignmentWords(word);
        case FormalRun => RunWords(word);
        case TacticApplication => TacticWords(word);
        case _ =>
      }
    } else {
      UntabledIff(lab, name, word);
    }
  }

  lemma {:induction false} UntabledIff(lab: Label, name: Field, word: Token)
    requires !HasTable(lab, name)
    ensures VocabularyOf(lab, name).Some? && word in VocabularyOf(lab, name).value <==>
            IsUntabled(lab, name, word)
  {
    match lab {
      case Alignment => VerdictWords(word);
      case TacticApplication => ResultWords(word);
      case Attempt => AttemptIff(name, word);
      case Obstruction => ObstructionWords(word);
      case _ => OthersUntabled(lab, name, word);
    }
  }

  lemma {:induction false} AttemptIff(name: Field, word: Token)
    ensures VocabularyOf(Attempt, name).Some? && word in VocabularyOf(Attempt, name).value <==>
            IsUntabled(Attempt, name, word)
  {
    AttemptWords(word);
    WorkerWords(word);
  }

  lemma {:induction false} OthersUntabled(lab: Label, name: Field, word: Token)
    requires !HasTable(lab, name)
    requires lab != Alignment && lab != TacticApplication && lab != Attempt && lab != Obstruction
    ensures VocabularyOf(lab, name).Some? && word in VocabularyOf(lab, name).value <==>
            IsUntabled(lab, name, word)
  {
  }

  // ---- edges and frozen fields ----

  /** The edge types that must leave a node of this label. */
  function LeavesFrom(lab: Label): set<Rel> {
    match lab
    case FormalState => {HasTactic}
    case TacticApplication => {FormalRequires, ClosesState}
    case FormalRun => {HasRoot, HasCheckpoint, RanUnder, Searches, ProducedCertificate, RaisedObstruction}
    case FormalCheckpoint => {CheckpointFrontier}
    case Certificate => {Certifies, CertificateEnvironment, ReplayedBy}
    case LeanReplay => {ReplayEnvironment}
    case FormalDeclaration => {PinnedEnvironment}
    case Alignment => {AlignsClaim, AlignsDeclaration}
    case Claim => {ProvedBy, DependsOn, Resolves}
    case SpeculativeHypothesis => {PromotedTo}
    case Obstruction => {AtState}
    case Proof => {HasTarget}
    case _ => {}
  }

  /** The edge types that must arrive at a node of this label. */
  function ArrivesAt(lab: Label): set<Rel> {
    match lab
    case TacticApplication => {HasTactic}
    case FormalState => {FormalRequires, ClosesState, HasRoot, CheckpointFrontier, AtState}
    case FormalCheckpoint => {HasCheckpoint}
    case Environment => {RanUnder, CertificateEnvironment, ReplayEnvironment, PinnedEnvironment}
    case FormalDeclaration => {Searches, Certifies, AlignsDeclaration}
    case Certificate => {ProducedCertificate, ProvedBy}
    case LeanReplay => {ReplayedBy}
    case Claim => {AlignsClaim, DependsOn, PromotedTo, HasTarget}
    case Obstruction => {RaisedObstruction, Resolves}
    case _ => {}
  }

  lemma {:induction false} LeavesIff(rel: Rel, a: Label)
    ensures rel in LeavesFrom(a) <==> EndpointsOf(rel).Some? && EndpointsOf(rel).value.0 == a
  {
  }

  lemma {:induction false} ArrivesIff(rel: Rel, b: Label)
    ensures rel in ArrivesAt(b) <==> EndpointsOf(rel).Some? && EndpointsOf(rel).value.1 == b
  {
  }

  /** The ends an edge type asks for are the one label it leaves and the one it arrives at. */
  lemma {:induction false} EndsIff(rel: Rel, a: Label, b: Label)
    ensures EndpointsOf(rel) == Some((a, b)) <==> rel in LeavesFrom(a) && rel in ArrivesAt(b)
  {
    LeavesIff(rel, a);
    ArrivesIff(rel, b);
  }

  /** On this label the field is written once. */
  predicate FrozenOn(lab: Label, name: Field) {
    match name
    case GoalText | ExactHash | IsTheorem => lab == FormalState
    case TacticLabel | TacticFamily | SubgoalCount | ExecutorResult | DiagnosticArtifact => lab == TacticApplication
    case ClaimText | Tag => lab == Claim
    case LeanName | LeanType | LeanValue | ModulePath | UniverseLevel => lab == FormalDeclaration
    case Actor =>
      lab == FormalRun || lab == Certificate || lab == LeanReplay || lab == Obstruction || lab == Proof ||
      lab == Alignment || lab == Attempt || lab == FormalCheckpoint
    case StartTime => lab == FormalRun
    case ProducerRunId | ArtifactHash => lab == Certificate
    case ReplayedAt | Status | SorryDetected | RejectionReason => lab == LeanReplay
    case Kind | Description => lab == Obstruction
    case WorkerClass => lab == Attempt
    case Toolchain | LakeManifestHash | MathlibCommit => lab == Environment
    case EpochMs => lab == FormalCheckpoint
    case _ => false
  }

  lemma {:induction false} FrozenIff(lab: Label, name: Field)
    ensures name in ImmutableFields(lab) <==> FrozenOn(lab, name)
  {
    match lab {
      case FormalDeclaration => DeclarationFrozen(name);
      case TacticApplication => TacticFrozen(name);
      case LeanReplay => ReplayFrozen(name);
      case _ => OthersFrozen(lab, name);
    }
  }

  lemma {:induction false} DeclarationFrozen(name: Field)
    ensures name in ImmutableFields(FormalDeclaration) <==> FrozenOn(FormalDeclaration, name)
  {
  }

  lemma {:induction false} TacticFrozen(name: Field)
    ensures name in ImmutableFields(TacticApplication) <==> FrozenOn(TacticApplication, name)
  {
  }

  lemma {:induction false} ReplayFrozen(name: Field)
    ensures name in ImmutableFields(LeanReplay) <==> FrozenOn(LeanReplay, name)
  {
  }

  lemma {:induction false} OthersFrozen(lab: Label, name: Field)
    requires lab != FormalDeclaration && lab != TacticApplication && lab != LeanReplay
    ensures name in ImmutableFields(lab) <==> FrozenOn(lab, name)
  {
    match lab {
      case FormalState => StateFrozen(name);
      case Certificate | Obstruction | Environment => MadeFrozen(lab, name);
      case _ => RestFrozen(lab, name);
    }
  }

  lemma {:induction false} StateFrozen(name: Field)
    ensures name in ImmutableFields(FormalState) <==> FrozenOn(FormalState, name)
  {
  }

  lemma {:induction false} MadeFrozen(lab: Label, name: Field)
    requires lab == Certificate || lab == Obstruction || lab == Environment
    ensures name in ImmutableFields(lab) <==> FrozenOn(lab, name)
  {
  }

  lemma {:induction false} RestFrozen(lab: Label, name: Field)
    requires lab != FormalDeclaration && lab != TacticApplication && lab != LeanReplay && lab != FormalState
    requires lab != Certificate && lab != Obstruction && lab != Environment
    ensures name in ImmutableFields(lab) <==> FrozenOn(lab, name)
  {
  }
}
