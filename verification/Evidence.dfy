/** Verified claims keep their evidence, over every run. */
module Evidence {
  import opened Vocabulary
  import opened Ops
  import opened GraphState
  import opened Apply
  import opened Rules
  import opened Gate
  import opened Typing

  /** A certificate of the claim has a verified, sorry-free replay by another known actor. */
  ghost predicate HasEvidence(g: Graph, claim: Id) {
    exists proof, replay :: IsEvidencePath(g, claim, proof, replay)
  }

  /** `proof` and `replay` are the two edges of the evidence chain. */
  ghost predicate IsEvidencePath(g: Graph, claim: Id, proof: Id, replay: Id) {
    && proof in g.edges && g.edges[proof].rel == ProvedBy && g.edges[proof].src == claim
    && replay in g.edges && g.edges[replay].rel == ReplayedBy
    && g.edges[replay].src == g.edges[proof].dst
    && HasLabel(g, g.edges[replay].src, Certificate)
    && HasLabel(g, g.edges[replay].dst, LeanReplay)
    && IsEvidence(g.nodes[g.edges[replay].src].fields, g.nodes[g.edges[replay].dst].fields)
  }

  predicate IsVerifiedClaim(g: Graph, id: Id) {
    HasLabel(g, id, Claim) && Get(g.nodes[id].fields, Status) == Str(LeanVerified)
  }

  ghost predicate VerifiedHaveEvidence(g: Graph) {
    forall c :: IsVerifiedClaim(g, c) ==> HasEvidence(g, c)
  }

  /** What the gate leaves to proposers here: evidence edges are local and never removed, and no
      claim is created as lean-verified. */
  predicate KeepsEvidence(ops: seq<Op>) {
    && EvidenceLocal(ops)
    && (forall op :: op in ops && op.RemoveEdge? ==> op.rel != ProvedBy && op.rel != ReplayedBy)
    && CreatesNoneVerified(ops)
  }

  predicate CreatesNoneVerified(ops: seq<Op>) {
    forall op :: op in ops && op.UpsertNode? && op.lab == Claim ==> Get(op.fields, Status) != Str(LeanVerified)
  }

  ghost predicate EvidenceRun(graphs: seq<Graph>, proposals: seq<Proposal>) {
    && IsSmoothRun(graphs, proposals)
    && forall k :: 0 <= k < |proposals| ==>
         NodesDisciplined(proposals[k], graphs[k]) && EdgeIdsFresh(proposals[k].ops, graphs[k]) &&
         KeepsEvidence(proposals[k].ops)
  }

  // ---- the exact condition for one step ----

  /** The proposal leaves this claim lean-verified. */
  predicate EndsVerified(g: Graph, ops: seq<Op>, c: Id) {
    var origin := Origin(g, ops, c);
    origin.Some? && origin.value.lab == Claim && FinalValue(g, ops, c, Status) == Str(LeanVerified)
  }

  /** The proposal leaves `proof` and `replay` as the two edges of an evidence chain from the claim. */
  predicate ChainLands(g: Graph, ops: seq<Op>, c: Id, proof: Id, replay: Id) {
    var a, b := EdgeFate(ops, proof, EdgeOf(g, proof)), EdgeFate(ops, replay, EdgeOf(g, replay));
    && a.Some? && a.value.rel == ProvedBy && a.value.src == c
    && b.Some? && b.value.rel == ReplayedBy && b.value.src == a.value.dst
    && LabelOf(ops, g, b.value.src) == Some(Certificate)
    && LabelOf(ops, g, b.value.dst) == Some(LeanReplay)
    && IsEvidence(NodeFields(ops, g, b.value.src), NodeFields(ops, g, b.value.dst))
  }

  ghost predicate EvidenceLands(g: Graph, ops: seq<Op>) {
    forall c :: EndsVerified(g, ops, c) ==> SomeChainLands(g, ops, c)
  }

  ghost predicate SomeChainLands(g: Graph, ops: seq<Op>, c: Id) {
    exists proof, replay :: ChainLands(g, ops, c, proof, replay)
  }

  /** One step ends with evidence for every lean-verified claim exactly when a chain lands for each
      claim the proposal leaves lean-verified. */
  lemma {:induction false} EvidenceIffChainsLand(g: Graph, p: Proposal, h: Graph)
    requires Step(g, p, h) && NodesDisciplined(p, g)
    ensures VerifiedHaveEvidence(h) <==> EvidenceLands(g, p.ops)
  {
    forall c
      ensures IsVerifiedClaim(h, c) <==> EndsVerified(g, p.ops, c)
      ensures HasEvidence(h, c) <==> SomeChainLands(g, p.ops, c)
    {
      VerifiedIsEndsVerified(g, p, h, c);
      EvidenceIsChain(g, p, h, c);
    }
  }

  lemma {:induction false} VerifiedIsEndsVerified(g: Graph, p: Proposal, h: Graph, c: Id)
    requires Step(g, p, h)
    ensures IsVerifiedClaim(h, c) <==> EndsVerified(g, p.ops, c)
  {
    NodeAfter(g, p.ops, c);
    if Origin(g, p.ops, c).Some? {
      FinalValueHolds(g, p.ops, c, Status);
    }
  }

  lemma {:induction false} EvidenceIsChain(g: Graph, p: Proposal, h: Graph, c: Id)
    requires Step(g, p, h) && NodesDisciplined(p, g)
    ensures HasEvidence(h, c) <==> SomeChainLands(g, p.ops, c)
  {
    if proof, replay :| IsEvidencePath(h, c, proof, replay) {
      PathIsChain(g, p, h, c, proof, replay);
      assert ChainLands(g, p.ops, c, proof, replay);
    }
    if proof, replay :| ChainLands(g, p.ops, c, proof, replay) {
      PathIsChain(g, p, h, c, proof, replay);
    }
  }

  lemma {:induction false} PathIsChain(g: Graph, p: Proposal, h: Graph, c: Id, proof: Id, replay: Id)
    requires Step(g, p, h) && NodesDisciplined(p, g)
    ensures IsEvidencePath(h, c, proof, replay) <==> ChainLands(g, p.ops, c, proof, replay)
  {
    EdgeAfter(g, p.ops, proof);
    EdgeAfter(g, p.ops, replay);
    if replay in h.edges {
      var cert, checked := h.edges[replay].src, h.edges[replay].dst;
      LabelIsLabelAfter(p, g, h, cert);
      LabelIsLabelAfter(p, g, h, checked);
      if HasLabel(h, cert, Certificate) && HasLabel(h, checked, LeanReplay) {
        EvidenceFieldsAgree(g, p, h, cert, checked);
      }
    }
  }

  /** What the validator reads of a certificate and a replay is what they hold afterwards. */
  lemma {:induction false} EvidenceFieldsAgree(g: Graph, p: Proposal, h: Graph, cert: Id, replay: Id)
    requires Step(g, p, h) && NodesDisciplined(p, g)
    requires HasLabel(h, cert, Certificate) && HasLabel(h, replay, LeanReplay)
    ensures IsEvidence(NodeFields(p.ops, g, cert), NodeFields(p.ops, g, replay)) <==>
            IsEvidence(h.nodes[cert].fields, h.nodes[replay].fields)
  {
    NodeFieldsHold(g, p, h, cert, Actor);
    NodeFieldsHold(g, p, h, replay, Actor);
    NodeFieldsHold(g, p, h, replay, Status);
    NodeFieldsHold(g, p, h, replay, SorryDetected);
  }

  /** Over a run, every lean-verified claim keeps its evidence exactly when the chains of every
      proposal land. */
  lemma {:induction false} EvidenceRunsIff(graphs: seq<Graph>, proposals: seq<Proposal>, n: nat)
    requires IsSmoothRun(graphs, proposals) && n < |graphs|
    requires forall k :: 0 <= k < |proposals| ==> NodesDisciplined(proposals[k], graphs[k])
    ensures (forall i :: 0 <= i <= n ==> VerifiedHaveEvidence(graphs[i])) <==>
            (forall k :: 0 <= k < n ==> EvidenceLands(graphs[k], proposals[k].ops))
  {
    if n > 0 {
      EvidenceRunsIff(graphs, proposals, n - 1);
      SmoothStep(graphs, proposals, n - 1);
      EvidenceIffChainsLand(graphs[n - 1], proposals[n - 1], graphs[n]);
    }
  }

  // ---- a discipline that is enough ----

  /** In every later state of the run, each lean-verified claim has its evidence. */
  lemma {:induction false} VerifiedClaimsKeepEvidence(graphs: seq<Graph>, proposals: seq<Proposal>, n: nat)
    requires EvidenceRun(graphs, proposals) && n < |graphs|
    ensures VerifiedHaveEvidence(graphs[n])
  {
    if n > 0 {
      VerifiedClaimsKeepEvidence(graphs, proposals, n - 1);
      SmoothStep(graphs, proposals, n - 1);
      IndependenceOverRuns(graphs, proposals, n);
      KeptEvidenceLands(graphs[n - 1], proposals[n - 1], graphs[n]);
      EvidenceIffChainsLand(graphs[n - 1], proposals[n - 1], graphs[n]);
    }
  }

  /** The two edges behind a lean-verified claim, and what the nodes they join hold. */
  lemma {:induction false} VerifiedClaimsAreProved(graphs: seq<Graph>, proposals: seq<Proposal>, n: nat, claim: Id)
    returns (proof: Edge, replay: Edge)
    requires EvidenceRun(graphs, proposals) && n < |graphs| && claim in graphs[n].nodes
    requires graphs[n].nodes[claim].lab == Claim && Status in graphs[n].nodes[claim].fields
    requires graphs[n].nodes[claim].fields[Status] == Str(LeanVerified)
    ensures proof in graphs[n].edges.Values && proof.rel == ProvedBy && proof.src == claim
    ensures replay in graphs[n].edges.Values && replay.rel == ReplayedBy && replay.src == proof.dst
    ensures proof.dst in graphs[n].nodes && graphs[n].nodes[proof.dst].lab == Certificate
    ensures replay.dst in graphs[n].nodes && graphs[n].nodes[replay.dst].lab == LeanReplay
    ensures var fields := graphs[n].nodes[replay.dst].fields;
            && Status in fields && fields[Status] == Str(Verified)
            && SorryDetected in fields && fields[SorryDetected] == Bool(false)
    ensures var author, checker := graphs[n].nodes[proof.dst].fields, graphs[n].nodes[replay.dst].fields;
            && Actor in author && author[Actor] != Null
            && Actor in checker && checker[Actor] != Null && checker[Actor] != author[Actor]
  {
    VerifiedClaimsKeepEvidence(graphs, proposals, n);
    assert IsVerifiedClaim(graphs[n], claim);
    var e, f :| IsEvidencePath(graphs[n], claim, e, f);
    proof, replay := graphs[n].edges[e], graphs[n].edges[f];
  }

  /** Each lean-verified claim was promoted by some earlier proposal of the run, and a reviewed,
      aligned alignment was found then, whatever happens to edges and wherever applications raise. */
  lemma {:induction false} VerifiedClaimsWereAligned(graphs: seq<Graph>, proposals: seq<Proposal>, n: nat,
                                                     claim: Id)
    requires IsRun(graphs, proposals) && n < |graphs| && IsVerifiedClaim(graphs[n], claim)
    requires forall k :: 0 <= k < |proposals| ==>
               NodesDisciplined(proposals[k], graphs[k]) && CreatesNoneVerified(proposals[k].ops)
    ensures exists k, op :: 0 <= k < n && op in proposals[k].ops && Promotes(op) && op.id == claim &&
              HasAlignment(proposals[k].ops, graphs[k], claim)
  {
    var g, p, h := graphs[n - 1], proposals[n - 1], graphs[n];
    assert Commits(g, p, h);
    if IsVerifiedClaim(g, claim) {
      VerifiedClaimsWereAligned(graphs, proposals, n - 1, claim);
    } else {
      var op := NewlyVerified(g, p, h, claim);
      AcceptedSet(p, g, op);
      assert PromotionWithoutAlignment !in AlignmentDefects(p.ops, g, op);
    }
  }

  /** A claim that becomes lean-verified was promoted by an op. */
  lemma {:induction false} NewlyVerified(g: Graph, p: Proposal, h: Graph, claim: Id) returns (op: Op)
    requires Commits(g, p, h) && NodesDisciplined(p, g) && CreatesNoneVerified(p.ops)
    requires IsVerifiedClaim(h, claim) && !IsVerifiedClaim(g, claim)
    ensures op in p.ops && Promotes(op) && op.id == claim
  {
    FieldAfterCommit(p, g, h, claim, Status);
    LabelAfterCommit(p, g, h, claim);
    FirstUpsertIsAnOp(p.ops, claim);
    assert Lookup(h.nodes[claim].fields, Status) == Some(Str(LeanVerified));
    op :| op in p.ops && Sets(op, claim, Status) && Some(op.value) == Lookup(h.nodes[claim].fields, Status);
    AcceptedSet(p, g, op);
  }

  /** A proposal that keeps the evidence edges lands a chain for every claim it leaves verified. */
  lemma {:induction false} KeptEvidenceLands(g: Graph, p: Proposal, h: Graph)
    requires Step(g, p, h) && NodesDisciplined(p, g) && EdgeIdsFresh(p.ops, g) && KeepsEvidence(p.ops)
    requires VerifiedHaveEvidence(g) && ReplaysIndependent(h)
    ensures EvidenceLands(g, p.ops)
  {
    forall c | EndsVerified(g, p.ops, c)
      ensures SomeChainLands(g, p.ops, c)
    {
      VerifiedIsEndsVerified(g, p, h, c);
      if IsVerifiedClaim(g, c) {
        var proof, replay :| IsEvidencePath(g, c, proof, replay);
        EvidencePathKept(g, p, h, c, proof, replay);
        PathIsChain(g, p, h, c, proof, replay);
      } else {
        var op := NewlyVerified(g, p, h, c);
        AcceptedSet(p, g, op);
        assert PromotionWithoutReplay !in ReplayDefects(p.ops, g, op);
        EvidenceFound(g, p, h, c);
        EvidenceIsChain(g, p, h, c);
      }
    }
  }

  lemma {:induction false} EvidencePathKept(g: Graph, p: Proposal, h: Graph, c: Id, proof: Id, replay: Id)
    requires Step(g, p, h) && NodesDisciplined(p, g) && EdgeIdsFresh(p.ops, g) && KeepsEvidence(p.ops)
    requires IsEvidencePath(g, c, proof, replay)
    ensures IsEvidencePath(h, c, proof, replay)
  {
    EdgesOfTypeAfter(p, g, h, ProvedBy);
    EdgesOfTypeAfter(p, g, h, ReplayedBy);
    LabelKept(g, p, h, g.edges[replay].src, Certificate);
    LabelKept(g, p, h, g.edges[replay].dst, LeanReplay);
    EvidenceFieldsAgree(g, p, h, g.edges[replay].src, g.edges[replay].dst);
  }

  /** A target the validator found, proposed or committed, is the target of an edge afterwards. */
  lemma {:induction false} TargetHasEdge(g: Graph, p: Proposal, h: Graph, src: Id, rel: Rel, dst: Id)
    returns (e: Id)
    requires Step(g, p, h) && EdgeIdsFresh(p.ops, g)
    requires forall op :: op in p.ops && op.RemoveEdge? ==> op.rel != rel
    requires dst in EdgeTargets(p.ops, g, src, rel)
    ensures e in h.edges && h.edges[e].rel == rel && h.edges[e].src == src && h.edges[e].dst == dst
  {
    EdgesOfTypeAfter(p, g, h, rel);
    if e' :| e' in ScanFrom(g, src, rel) && g.edges[e'].dst == dst {
      e := e';
    } else {
      var op := ProposedTarget(g, p, src, rel, dst);
      e := op.eid;
    }
  }

  lemma {:induction false} ProposedTarget(g: Graph, p: Proposal, src: Id, rel: Rel, dst: Id) returns (op: Op)
    requires dst in EdgeTargets(p.ops, g, src, rel)
    requires forall e :: e in ScanFrom(g, src, rel) ==> g.edges[e].dst != dst
    ensures op in p.ops && IsEdgeOf(op, rel, src) && op.dst == dst
  {
    op :| op in p.ops && IsEdgeOf(op, rel, src) && op.dst == dst;
  }

  lemma {:induction false} EvidenceFound(g: Graph, p: Proposal, h: Graph, c: Id)
    requires Step(g, p, h) && NodesDisciplined(p, g) && EdgeIdsFresh(p.ops, g) && KeepsEvidence(p.ops)
    requires HasReplay(p.ops, g, c) && ReplaysIndependent(h)
    ensures HasEvidence(h, c)
  {
    var cert :| cert in EdgeTargets(p.ops, g, c, ProvedBy) &&
      exists replay :: replay in EdgeTargets(p.ops, g, cert, ReplayedBy) &&
        IsEvidence(NodeFields(p.ops, g, cert), NodeFields(p.ops, g, replay));
    var replay :| replay in EdgeTargets(p.ops, g, cert, ReplayedBy) &&
      IsEvidence(NodeFields(p.ops, g, cert), NodeFields(p.ops, g, replay));
    var e := TargetHasEdge(g, p, h, c, ProvedBy, cert);
    var f := TargetHasEdge(g, p, h, cert, ReplayedBy, replay);
    EvidenceFieldsAgree(g, p, h, cert, replay);
    assert IsEvidencePath(h, c, e, f);
  }
}
