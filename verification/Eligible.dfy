/** Which moves the frontier offers, said of the nodes and edges of the committed graph. */
module Eligible {
  import opened Vocabulary
  import opened GraphState
  import opened Reasons
  import opened Scheduler
  import opened Leasing

  /** A committed node of this label. */
  predicate IsA(g: Graph, id: Id, lab: Label) {
    id in g.nodes && g.nodes[id].lab == lab
  }

  predicate Stands(g: Graph, id: Id, status: Token) {
    id in g.nodes && Holds(g.nodes[id].fields, Status, Str(status))
  }

  /** A research state of the proof that is neither superseded, refuted nor stale proposes the move. */
  ghost predicate IsProposed(g: Graph, proofId: string, move: Id) {
    exists state :: Committed(g, state, Proposes, move) && ProposesStill(g, proofId, state)
  }

  predicate ProposesStill(g: Graph, proofId: string, state: Id) {
    && IsA(g, state, ResearchState) && StartsWith(state, proofId + "/")
    && !Stands(g, state, Token.Superseded) && !Stands(g, state, Refuted) && !Stands(g, state, Stale)
  }

  /** Some checkpoint of the run has a state on its frontier that is open or expanded. */
  ghost predicate CanResume(g: Graph, run: Id) {
    exists checkpoint, state :: Committed(g, run, HasCheckpoint, checkpoint) && checkpoint in g.nodes &&
      Committed(g, checkpoint, CheckpointFrontier, state) && (Stands(g, state, Open) || Stands(g, state, Expanded))
  }

  /** An attempt by a critic that supports or accepts the claim. */
  ghost predicate IsReviewed(g: Graph, claim: Id) {
    exists attempt :: Committed(g, attempt, ReviewsClaim, claim) && IsA(g, attempt, Attempt) &&
      Holds(g.nodes[attempt].fields, WorkerClass, Str(Critic)) &&
      (Stands(g, attempt, Supported) || Stands(g, attempt, CriticAccepted))
  }

  /** The move may be offered. */
  ghost predicate IsEligible(g: Graph, proofId: string, move: Id) {
    move in g.nodes &&
    match g.nodes[move].lab
    case ResearchMove => (Stands(g, move, Queued) || Stands(g, move, Open)) && IsProposed(g, proofId, move)
    case FormalDeclaration =>
      StartsWith(move, proofId + "/") && (Stands(g, move, Token.Aligned) || Stands(g, move, Searching))
    case FormalRun => StartsWith(move, proofId + "/") && Stands(g, move, Searching) && CanResume(g, move)
    case Claim => StartsWith(move, proofId + "/") && Stands(g, move, Provisional) && !IsReviewed(g, move)
    case _ => false
  }

  lemma {:induction false} StatusIs(g: Graph, id: Id, statuses: set<Token>)
    requires id in g.nodes
    ensures HasStatus(g.nodes[id].fields, statuses) <==> exists t :: t in statuses && Stands(g, id, t)
  {
    if t :| t in statuses && Get(g.nodes[id].fields, Status) == Str(t) {
      assert Stands(g, id, t);
    }
  }

  lemma {:induction false} InProofIs(proofId: string, id: Id)
    ensures InProof(proofId, id) <==> StartsWith(id, proofId + "/")
  {
  }

  lemma {:induction false} WaitingIs(g: Graph, move: Id)
    ensures WaitingMove(g, move) <==>
            IsA(g, move, ResearchMove) && (Stands(g, move, Queued) || Stands(g, move, Open))
  {
    if move in g.nodes {
      StatusIs(g, move, {Queued, Open});
      assert Queued in {Queued, Open} && Open in {Queued, Open};
    }
  }

  lemma {:induction false} LiveIs(g: Graph, proofId: string, state: Id)
    ensures LiveState(g, proofId, state) <==> ProposesStill(g, proofId, state)
  {
    InProofIs(proofId, state);
    if state in g.nodes {
      var ended := {Token.Superseded, Refuted, Stale};
      StatusIs(g, state, ended);
      assert Token.Superseded in ended && Refuted in ended && Stale in ended;
    }
  }

  lemma {:induction false} ProposedIs(g: Graph, proofId: string, move: Id)
    ensures (exists e :: LiveProposal(g, proofId, e) && g.edges[e].dst == move) <==>
            WaitingMove(g, move) && IsProposed(g, proofId, move)
  {
    if e :| LiveProposal(g, proofId, e) && g.edges[e].dst == move {
      LiveIs(g, proofId, g.edges[e].src);
      assert Committed(g, g.edges[e].src, Proposes, move);
    }
    if WaitingMove(g, move) && IsProposed(g, proofId, move) {
      var state :| Committed(g, state, Proposes, move) && ProposesStill(g, proofId, state);
      LiveIs(g, proofId, state);
      var e :| e in g.edges && g.edges[e] == Edge(Proposes, state, move, g.edges[e].fields);
      assert LiveProposal(g, proofId, e);
    }
  }

  lemma {:induction false} ResumesIs(g: Graph, run: Id)
    ensures HasOpenCheckpoint(g, run) <==> CanResume(g, run)
  {
    if e :| e in ScanFrom(g, run, HasCheckpoint) && IsOpenCheckpoint(g, g.edges[e].dst) {
      var checkpoint := g.edges[e].dst;
      var f :| f in ScanFrom(g, checkpoint, CheckpointFrontier) && IsOpenState(g, g.edges[f].dst);
      OpenIs(g, g.edges[f].dst);
      CommittedIs(g, run, HasCheckpoint, checkpoint);
      CommittedIs(g, checkpoint, CheckpointFrontier, g.edges[f].dst);
    }
    if CanResume(g, run) {
      var checkpoint, state :| Committed(g, run, HasCheckpoint, checkpoint) && checkpoint in g.nodes &&
        Committed(g, checkpoint, CheckpointFrontier, state) && (Stands(g, state, Open) || Stands(g, state, Expanded));
      OpenIs(g, state);
      CommittedIs(g, run, HasCheckpoint, checkpoint);
      CommittedIs(g, checkpoint, CheckpointFrontier, state);
      var f :| f in ScanFrom(g, checkpoint, CheckpointFrontier) && g.edges[f].dst == state;
      assert IsOpenCheckpoint(g, checkpoint);
    }
  }

  lemma {:induction false} OpenIs(g: Graph, state: Id)
    ensures IsOpenState(g, state) <==> Stands(g, state, Open) || Stands(g, state, Expanded)
  {
    if state in g.nodes {
      StatusIs(g, state, {Open, Expanded});
      assert Open in {Open, Expanded} && Expanded in {Open, Expanded};
    }
  }

  lemma {:induction false} ReviewedIs(g: Graph, claim: Id)
    ensures HasFavorable(g, claim) <==> IsReviewed(g, claim)
  {
    if e :| e in ScanTo(g, claim, ReviewsClaim) && Favors(g, g.edges[e].src) {
      FavorsIs(g, g.edges[e].src);
      CommittedIs(g, g.edges[e].src, ReviewsClaim, claim);
    }
    if IsReviewed(g, claim) {
      var attempt :| Committed(g, attempt, ReviewsClaim, claim) && IsA(g, attempt, Attempt) &&
        Holds(g.nodes[attempt].fields, WorkerClass, Str(Critic)) &&
        (Stands(g, attempt, Supported) || Stands(g, attempt, CriticAccepted));
      FavorsIs(g, attempt);
      CommittedIs(g, attempt, ReviewsClaim, claim);
    }
  }

  lemma {:induction false} FavorsIs(g: Graph, attempt: Id)
    ensures Favors(g, attempt) <==>
            IsA(g, attempt, Attempt) && Holds(g.nodes[attempt].fields, WorkerClass, Str(Critic)) &&
            (Stands(g, attempt, Supported) || Stands(g, attempt, CriticAccepted))
  {
    if attempt in g.nodes {
      StatusIs(g, attempt, {Supported, CriticAccepted});
      assert Supported in {Supported, CriticAccepted} && CriticAccepted in {Supported, CriticAccepted};
    }
  }

  lemma {:induction false} TaskIs(g: Graph, proofId: string, id: Id)
    requires id in g.nodes
    ensures InProof(proofId, id) && TaskOf(g, id).Some? <==>
            g.nodes[id].lab != ResearchMove && IsEligible(g, proofId, id)
  {
    InProofIs(proofId, id);
    match g.nodes[id].lab {
      case FormalDeclaration => AlignedIs(g, id);
      case FormalRun => ResumesIs(g, id);
      case Claim => ReviewedIs(g, id);
      case _ =>
    }
  }

  lemma {:induction false} AlignedIs(g: Graph, id: Id)
    requires id in g.nodes
    ensures HasStatus(g.nodes[id].fields, {Token.Aligned, Searching}) <==>
            Stands(g, id, Token.Aligned) || Stands(g, id, Searching)
  {
    StatusIs(g, id, {Token.Aligned, Searching});
    assert Token.Aligned in {Token.Aligned, Searching} && Searching in {Token.Aligned, Searching};
  }

  /** The frontier offers exactly the eligible moves. */
  lemma {:induction false} OfferedIff(g: Graph, proofId: string, frontier: seq<Candidate>, move: Id)
    requires IsFrontier(g, proofId, frontier)
    ensures move in Moves(frontier) <==> IsEligible(g, proofId, move)
  {
    if c :| c in frontier && c.move == move {
      OfferedIsEligible(g, proofId, c);
    }
    if IsEligible(g, proofId, move) {
      var c := EligibleIsOffered(g, proofId, move);
      assert c in frontier;
    }
  }

  lemma {:induction false} OfferedIsEligible(g: Graph, proofId: string, c: Candidate)
    requires OnFrontier(g, proofId, c)
    ensures IsEligible(g, proofId, c.move)
  {
    ProposedIs(g, proofId, c.move);
    WaitingIs(g, c.move);
    if c.move in g.nodes {
      TaskIs(g, proofId, c.move);
    }
  }

  lemma {:induction false} EligibleIsOffered(g: Graph, proofId: string, move: Id) returns (c: Candidate)
    requires IsEligible(g, proofId, move)
    ensures OnFrontier(g, proofId, c) && c.move == move
  {
    if g.nodes[move].lab == ResearchMove {
      ProposedIs(g, proofId, move);
      WaitingIs(g, move);
      c := ResearchCandidate(move);
    } else {
      TaskIs(g, proofId, move);
      TaskKeepsId(g, move);
      c := TaskOf(g, move).value;
    }
  }
}
