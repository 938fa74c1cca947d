/** The status tables and the fields written once, and what follows from the tables over many steps. */
module Transitions {
  import opened Vocabulary

  predicate HasTable(lab: Label, name: Field) {
    match lab
    case FormalState | Claim | FormalDeclaration | Certificate => name == Status
    case Alignment => name == Lifecycle
    case FormalRun | TacticApplication | ResearchState | ResearchMove => name == Status
    case _ => false
  }

  function FormalStateNext(from: Token): set<Token> {
    match from
    case Open => {Expanded, FormallyClosed, Failed, Pruned, Tainted, Stale}
    case Expanded => {FormallyClosed, Failed, Pruned, Tainted, Stale}
    case FormallyClosed => {LeanVerified, Tainted, Stale}
    case LeanVerified => {Tainted, Stale}
    case Tainted => {Reopened, Pruned, Stale}
    case Reopened => {Expanded, FormallyClosed, Failed, Pruned, Tainted, Stale}
    case Failed => {Stale}
    case Pruned => {Stale}
    case _ => {}
  }

  function ClaimNext(from: Token): set<Token> {
    match from
    case Conjectural => {Empirical, Provisional, Tainted, Refuted, Retracted, Stale}
    case Empirical => {Provisional, Tainted, Refuted, Retracted, Stale}
    case Provisional => {CriticAccepted, FormallyClosed, Tainted, Refuted, Retracted, Stale}
    case CriticAccepted => {FormallyClosed, Tainted, Refuted, Retracted, Stale}
    case FormallyClosed => {LeanVerified, Tainted, Refuted, Retracted, Stale}
    case LeanVerified => {Tainted, Stale}
    case Tainted => {Refuted, Retracted, Stale}
    case Refuted => {Stale}
    case Retracted => {Stale}
    case _ => {}
  }

  function DeclarationNext(from: Token): set<Token> {
    match from
    case Draft => {Aligned, Searching, Stale}
    case Aligned => {Searching, Stale}
    case Searching => {CertificateProduced, Stale}
    case CertificateProduced => {ReplayPending, Stale}
    case ReplayPending => {ReplayAccepted, ReplayRejected, Stale}
    case ReplayAccepted => {Stale}
    case ReplayRejected => {Stale}
    case _ => {}
  }

  function CertificateNext(from: Token): set<Token> {
    match from
    case Candidate => {ReplayPending, Stale}
    case ReplayPending => {ReplayAccepted, ReplayRejected, Stale}
    case ReplayAccepted => {Stale}
    case ReplayRejected => {Stale}
    case _ => {}
  }

  function AlignmentNext(from: Token): set<Token> {
    match from
    case Draft => {ReviewNeeded, Superseded, Stale}
    case ReviewNeeded => {Reviewed, Superseded, Stale}
    case Reviewed => {Superseded, Stale}
    case Superseded => {Stale}
    case _ => {}
  }

  function RunNext(from: Token): set<Token> {
    if from == Searching then
      {ProvedPendingReplay, BudgetExhausted, Stagnated, Counterexample, InvalidRequest,
       EnvironmentError, InternalError, Cancelled}
    else {}
  }

  function TacticNext(from: Token): set<Token> {
    match from
    case Pending => {Queued, Open, Closed, Dead}
    case Queued => {Leased, Open, Dominated, Dead}
    case Leased => {Open, Closed, Refuted, Exhausted, Dead}
    case Open => {Leased, Closed, Refuted, Dominated, Exhausted, Dead}
    case Closed => {Reopened}
    case Reopened => {Leased, Closed, Refuted, Dominated, Exhausted, Dead}
    case _ => {}
  }

  function ResearchStateNext(from: Token): set<Token> {
    match from
    case Open => {Superseded, Refuted, Stale}
    case Superseded => {Stale}
    case Refuted => {Stale}
    case _ => {}
  }

  function ResearchMoveNext(from: Token): set<Token> {
    match from
    case Queued => {Leased, Open, Dominated, Exhausted, Stale}
    case Open => {Leased, Closed, Refuted, Dominated, Exhausted, Stale}
    case Leased => {Open, Closed, Refuted, Dominated, Exhausted, Stale}
    case Closed => {Stale}
    case _ => {}
  }

  /** `STATUS_TRANSITIONS[(lab, name)].get(from, frozenset())`. */
  function Next(lab: Label, name: Field, from: Token): set<Token> {
    if !HasTable(lab, name) then {}
    else
      match lab
      case FormalState => FormalStateNext(from)
      case Claim => ClaimNext(from)
      case FormalDeclaration => DeclarationNext(from)
      case Certificate => CertificateNext(from)
      case Alignment => AlignmentNext(from)
      case FormalRun => RunNext(from)
      case TacticApplication => TacticNext(from)
      case ResearchState => ResearchStateNext(from)
      case ResearchMove => ResearchMoveNext(from)
      case _ => {}
  }

  /** `to` is a legal next value after `from`; only string values have successors. */
  predicate MayFollow(lab: Label, name: Field, from: Value, to: Value) {
    from.Str? && to.Str? && to.token in Next(lab, name, from.token)
  }

  function ImmutableFields(lab: Label): set<Field> {
    match lab
    case FormalState => {GoalText, ExactHash, IsTheorem}
    case TacticApplication =>
      {TacticLabel, TacticFamily, SubgoalCount, ExecutorResult, DiagnosticArtifact}
    case Claim => {ClaimText, Tag}
    case FormalDeclaration => {LeanName, LeanType, LeanValue, ModulePath, UniverseLevel}
    case FormalRun => {Actor, StartTime}
    case Certificate => {Actor, ProducerRunId, ArtifactHash}
    case LeanReplay => {Actor, ReplayedAt, Status, SorryDetected, RejectionReason}
    case Obstruction => {Kind, Description, Actor}
    case Proof => {Actor}
    case Alignment => {Actor}
    case Attempt => {Actor, WorkerClass}
    case Environment => {Toolchain, LakeManifestHash, MathlibCommit}
    case FormalCheckpoint => {EpochMs, Actor}
    case _ => {}
  }

  // ---- paths through a table ----

  /** A walk through the transition table of (lab, name). */
  ghost predicate IsWalk(lab: Label, name: Field, walk: seq<Value>) {
    forall k :: 0 <= k < |walk| - 1 ==> MayFollow(lab, name, walk[k], walk[k + 1])
  }

  ghost predicate Joins(lab: Label, name: Field, from: Value, to: Value, walk: seq<Value>) {
    |walk| > 0 && walk[0] == from && walk[|walk| - 1] == to && IsWalk(lab, name, walk)
  }

  /** `to` is reachable from `from` in the table, in zero or more legal steps. */
  ghost predicate Reachable(lab: Label, name: Field, from: Value, to: Value) {
    exists walk :: Joins(lab, name, from, to, walk)
  }

  lemma {:induction false} ReachableRefl(lab: Label, name: Field, v: Value)
    ensures Reachable(lab, name, v, v)
  {
    assert Joins(lab, name, v, v, [v]);
  }

  lemma {:induction false} ReachableStep(lab: Label, name: Field, a: Value, b: Value, c: Value)
    requires Reachable(lab, name, a, b) && MayFollow(lab, name, b, c)
    ensures Reachable(lab, name, a, c)
  {
    var walk :| Joins(lab, name, a, b, walk);
    assert Joins(lab, name, a, c, walk + [c]);
  }

  /** A value nothing may follow is absorbing. */
  lemma {:induction false} TerminalIsAbsorbing(lab: Label, name: Field, from: Value, to: Value)
    requires Reachable(lab, name, from, to)
    requires from.Str? ==> Next(lab, name, from.token) == {}
    ensures to == from
  {
    var walk :| Joins(lab, name, from, to, walk);
    assert |walk| > 1 ==> MayFollow(lab, name, walk[0], walk[1]);
  }

  /** No formal state ever comes back to open once it has left it. */
  lemma {:induction false} NothingReturnsToOpen(from: Value, to: Value)
    requires Reachable(FormalState, Status, from, to)
    requires from != Str(Open)
    ensures to != Str(Open)
  {
    var walk :| Joins(FormalState, Status, from, to, walk);
    assert |walk| > 1 ==> MayFollow(FormalState, Status, walk[|walk| - 2], walk[|walk| - 1]);
  }

  /** How many legal claim transitions can still follow this value. */
  function ClaimRank(v: Value): nat {
    if !v.Str? then 0 else
      match v.token
      case Conjectural => 8
      case Empirical => 7
      case Provisional => 6
      case CriticAccepted => 5
      case FormallyClosed => 4
      case LeanVerified => 3
      case Tainted => 2
      case Refuted => 1
      case Retracted => 1
      case _ => 0
  }

  lemma {:induction false} ClaimRankFalls(from: Value, to: Value)
    requires MayFollow(Claim, Status, from, to)
    ensures ClaimRank(to) < ClaimRank(from) <= 8
  {
  }
}
