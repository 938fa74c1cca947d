/** What the gate can object to in a compiled result. */
module Submission {
  import opened Vocabulary
  import opened Ops
  import opened GraphState
  import opened Rules
  import opened Validate
  import opened Reasons
  import opened Report
  import opened Dispatch
  import opened Compilation
  import opened References
  import opened Emission

  /** The proposal carries the compiled ops of this result. */
  ghost predicate Carries(p: Proposal, g: Graph, r: SearchResult, n: Serials) {
    p.ops == Compiled(g, r, n.checkpoint, n.certificate)
  }

  /** Every write a compiled result makes names a committed node and the value committed there, so it is
      never refused for the prior value, whatever the result says. */
  lemma {:induction false} CompiledPriors(g: Graph, r: SearchResult, n: Serials, op: Op)
    requires op in Compiled(g, r, n.checkpoint, n.certificate) && op.SetField?
    ensures op.id in g.nodes && op.prior.Some?
    ensures op.prior.value == if op.field in g.nodes[op.id].fields then g.nodes[op.id].fields[op.field] else Null
    ensures op.value != op.prior.value
  {
    CompiledIff(g, r, n.checkpoint, n.certificate, op);
  }

  lemma {:induction false} PriorsAccepted(p: Proposal, g: Graph, r: SearchResult, n: Serials, i: nat, reason: Reason)
    requires Carries(p, g, r, n) && (reason == MissingPriorValue || reason == PriorValueMismatch)
    ensures !Blamed(p, g, i, reason)
  {
    if i < |p.ops| && p.ops[i].SetField? {
      CompiledPriors(g, r, n, p.ops[i]);
      PriorHolds(g, p.ops[i]);
    }
  }

  lemma {:induction false} PriorHolds(g: Graph, op: Op)
    requires op.SetField? && op.id in g.nodes && op.prior.Some?
    requires op.prior.value == if op.field in g.nodes[op.id].fields then g.nodes[op.id].fields[op.field] else Null
    ensures !MistakesPrior(g, op)
  {
  }

  lemma {:induction false} KindsEmitted(g: Graph, r: SearchResult, n: Serials, op: Op)
    requires op in Compiled(g, r, n.checkpoint, n.certificate)
    ensures !op.RemoveEdge? && (op.AddEdge? ==> op.rel != ReplayedBy)
    ensures op.SetField? ==> op.field == Status && (op.lab == FormalState || op.lab == FormalRun) && op.id in g.nodes
  {
    CompiledIff(g, r, n.checkpoint, n.certificate, op);
  }

  predicate NeverFaults(reason: Reason) {
    match reason
    case FormalRequiresRemoval | UnknownEdge | PromotionWithoutReplay | PromotionWithoutAlignment |
         SelfCertification | ImmutableFieldOverwrite => true
    case _ => false
  }

  /** A compiled result removes nothing, promotes no claim, links no replay and overwrites no immutable
      field. */
  lemma {:induction false} NeverBlamed(p: Proposal, g: Graph, r: SearchResult, n: Serials, i: nat, reason: Reason)
    requires Carries(p, g, r, n) && NeverFaults(reason)
    ensures !Blamed(p, g, i, reason)
  {
    if i < |p.ops| {
      KindsEmitted(g, r, n, p.ops[i]);
    }
  }

  /** It scores no state that it also closes. */
  lemma {:induction false} NoScoreCloses(p: Proposal, g: Graph, r: SearchResult, n: Serials, i: nat)
    requires Carries(p, g, r, n)
    ensures !Blamed(p, g, i, HeuristicClosureAttempt)
  {
    if i < |p.ops| && p.ops[i].SetField? {
      KindsEmitted(g, r, n, p.ops[i]);
      ScoresNothingWritten(g, r, n, p.ops[i].id);
      assert !ClosesByScore(p.ops, i);
    }
  }

  lemma {:induction false} ScoresNothingWritten(g: Graph, r: SearchResult, n: Serials, id: Id)
    requires id in g.nodes
    ensures forall op :: op in Compiled(g, r, n.checkpoint, n.certificate) ==> !Scores(op, id)
  {
    forall op | op in Compiled(g, r, n.checkpoint, n.certificate)
      ensures !Scores(op, id)
    {
      CompiledIff(g, r, n.checkpoint, n.certificate, op);
    }
  }

  /** What may still be wrong with a sound result whose references resolve: its words, its namespace, the
      outcome reported for a tactic, a status that may not follow, a stagnation nobody explains, or the
      lease its status writes need. */
  predicate MayFault(reason: Reason) {
    match reason
    case MissingConcurrencyToken | UnknownStatusValue | NamespaceMismatch | MissingRequiredField |
         ExecutorFailureAsSuccess | FailureWithMathematicalDiagnostic | DeadEdgeMissingDiagnostic |
         IllegalStatusTransition | StagnationWithoutObstruction => true
    case _ => false
  }

  lemma {:induction false} OnlyTheseFault(p: Proposal, g: Graph, r: SearchResult, n: Serials, i: nat, reason: Reason)
    requires Carries(p, g, r, n) && SoundResult(g, r) && References.Resolves(g, r, n) && KindsAgree(g, r, n)
    requires MintedRestated(g, r, n) && Blamed(p, g, i, reason)
    ensures MayFault(reason)
  {
    if NeverFaults(reason) {
      NeverBlamed(p, g, r, n, i, reason);
    } else if reason == HeuristicClosureAttempt {
      NoScoreCloses(p, g, r, n, i);
    }
    if reason == MissingPriorValue || reason == PriorValueMismatch {
      PriorsAccepted(p, g, r, n, i, reason);
    }
    if OfReferences(reason) {
      CompiledPassesReferences(g, r, n);
      ReferenceReported(p, g, i, reason);
    } else if SubgoalBlamed(p.ops, i, reason) && reason != MissingRequiredField {
      NoSubgoalBlamed(p.ops, g, r, i, reason);
    } else if reason == ClosureWithoutLeanAccepted || reason == ClosureWithoutZeroGoals ||
              reason == OrphanClosureEdge {
      NoClosureBlamed(p.ops, g, r, i, reason);
    }
  }

  lemma {:induction false} NoSubgoalBlamed(ops: seq<Op>, g: Graph, r: SearchResult, i: nat, reason: Reason)
    requires CompiledSomehow(g, r, ops) && SoundResult(g, r)
    ensures !SubgoalBlamed(ops, i, reason)
  {
    CompiledConservesSubgoals(g, r, ops);
    SubgoalsReported(ops);
    SubgoalReported(ops, Rejection(reason, Some(i)));
  }

  lemma {:induction false} NoClosureBlamed(ops: seq<Op>, g: Graph, r: SearchResult, i: nat, reason: Reason)
    requires CompiledSomehow(g, r, ops) && SoundResult(g, r)
    ensures !ClosureBlamed(ops, i, reason) && !(reason == OrphanClosureEdge && Orphaned(ops, ClosesState, i))
  {
    ClosureReported(ops, Rejection(reason, Some(i)));
    if id :| Rejection(reason, Some(i)) in ClosureRejections(ops, id) {
      CompiledClosesSoundly(g, r, ops, id);
    }
  }

  /** So such a result is accepted exactly when it names a base and none of these is wrong with it. */
  lemma {:induction false} CompiledAcceptedIff(p: Proposal, g: Graph, r: SearchResult, n: Serials)
    requires Carries(p, g, r, n) && SoundResult(g, r) && References.Resolves(g, r, n) && KindsAgree(g, r, n)
    requires MintedRestated(g, r, n)
    ensures Accepted(p, g) <==>
            p.baseRevision.Some? && forall i: nat, reason :: MayFault(reason) ==> !Blamed(p, g, i, reason)
  {
    AcceptedIffBlameless(p, g);
    forall i: nat, reason | Blamed(p, g, i, reason)
      ensures MayFault(reason)
    {
      OnlyTheseFault(p, g, r, n, i, reason);
    }
  }
}
