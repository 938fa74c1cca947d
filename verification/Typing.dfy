/** Typing, closure evidence and replay independence over every run. */
module Typing {
  import opened Vocabulary
  import opened Ops
  import opened Transitions
  import opened GraphState
  import opened Apply
  import opened Rules
  import opened Gate

  predicate HasLabel(g: Graph, id: Id, lab: Label) {
    id in g.nodes && g.nodes[id].lab == lab
  }

  /** An edge of a listed type joins existing nodes of the listed labels; only a
      content-addressed target may be missing. */
  predicate EdgeTyped(g: Graph, e: Edge) {
    var ends := EndpointsOf(e.rel);
    ends.Some? ==>
      HasLabel(g, e.src, ends.value.0) &&
      (IsContentAddressed(e.dst) || HasLabel(g, e.dst, ends.value.1))
  }

  ghost predicate WellTyped(g: Graph) {
    forall e :: e in g.edges ==> EdgeTyped(g, g.edges[e])
  }

  /** A state is only closed by a tactic Lean accepted with no goal left. */
  ghost predicate ClosuresJustified(g: Graph) {
    forall e :: e in g.edges && g.edges[e].rel == ClosesState ==>
      HasLabel(g, g.edges[e].src, TacticApplication) &&
      Get(g.nodes[g.edges[e].src].fields, ExecutorResult) == Str(LeanAccepted) &&
      Get(g.nodes[g.edges[e].src].fields, SubgoalCount) == Num(0)
  }

  /** Every replay edge joins a certificate and a replay, both present, not known to be by the
      same actor. */
  ghost predicate ReplaysIndependent(g: Graph) {
    forall e :: e in g.edges && g.edges[e].rel == ReplayedBy ==>
      HasLabel(g, g.edges[e].src, Certificate) && HasLabel(g, g.edges[e].dst, LeanReplay) &&
      !SameKnownActor(g.nodes[g.edges[e].dst].fields, g.nodes[g.edges[e].src].fields)
  }

  /** Typing and justified closures need only the discipline on nodes. */
  lemma {:induction false} TypingOverRuns(graphs: seq<Graph>, proposals: seq<Proposal>, n: nat)
    requires IsSmoothRun(graphs, proposals) && n < |graphs|
    requires forall k :: 0 <= k < |proposals| ==> NodesDisciplined(proposals[k], graphs[k])
    ensures WellTyped(graphs[n]) && ClosuresJustified(graphs[n])
  {
    if n > 0 {
      TypingOverRuns(graphs, proposals, n - 1);
      SmoothStep(graphs, proposals, n - 1);
      TypingStep(graphs[n - 1], proposals[n - 1], graphs[n]);
      ClosureStep(graphs[n - 1], proposals[n - 1], graphs[n]);
    }
  }

  /** A replay edge from a certificate to a replay that are known to be by the same actor. */
  predicate SelfCertified(g: Graph, e: Id) {
    && e in g.edges && g.edges[e].rel == ReplayedBy
    && HasLabel(g, g.edges[e].src, Certificate) && HasLabel(g, g.edges[e].dst, LeanReplay)
    && SameKnownActor(g.nodes[g.edges[e].dst].fields, g.nodes[g.edges[e].src].fields)
  }

  ghost predicate NoneSelfCertified(g: Graph) {
    forall e :: !SelfCertified(g, e)
  }

  /** The proposal creates the replay that a committed edge, which it keeps, already links to a
      certificate by the same known actor. */
  predicate LinksOwnReplay(ops: seq<Op>, g: Graph, e: Id, up: Op) {
    && e in g.edges && g.edges[e].rel == ReplayedBy && EdgeFate(ops, e, EdgeOf(g, e)) == EdgeOf(g, e)
    && up in ops && Upserts(up, g.edges[e].dst) && up.lab == LeanReplay && up.id !in g.nodes
    && g.edges[e].src in g.nodes
    && SameKnownActor(up.fields, g.nodes[g.edges[e].src].fields)
  }

  ghost predicate CompletesOwnReplay(ops: seq<Op>, g: Graph) {
    exists e, up :: LinksOwnReplay(ops, g, e, up)
  }

  /** One step keeps replays independent exactly when it does not create, as a replay by the
      certificate's own actor, what a committed replay edge was waiting for. */
  lemma {:induction false} IndependentIffNoneCompleted(g: Graph, p: Proposal, h: Graph)
    requires Step(g, p, h) && NodesDisciplined(p, g) && WellTyped(g) && NoneSelfCertified(g)
    ensures NoneSelfCertified(h) <==> !CompletesOwnReplay(p.ops, g)
  {
    if e, up :| LinksOwnReplay(p.ops, g, e, up) {
      CompletedIsSelfCertified(g, p, h, e, up);
    }
    if e :| SelfCertified(h, e) {
      var up := SelfCertifiedWasCompleted(g, p, h, e);
    }
  }

  lemma {:induction false} ActorKept(g: Graph, p: Proposal, h: Graph, id: Id)
    requires Step(g, p, h) && NodesDisciplined(p, g) && id in g.nodes
    ensures id in h.nodes && h.nodes[id].lab == g.nodes[id].lab
    ensures Actor in ImmutableFields(g.nodes[id].lab) ==>
              Get(h.nodes[id].fields, Actor) == Get(g.nodes[id].fields, Actor)
  {
    ImmutableKept(p, g, h, id);
    assert Actor in ImmutableFields(g.nodes[id].lab) ==>
      Lookup(h.nodes[id].fields, Actor) == Lookup(g.nodes[id].fields, Actor);
  }

  lemma {:induction false} CompletedIsSelfCertified(g: Graph, p: Proposal, h: Graph, e: Id, up: Op)
    requires Step(g, p, h) && NodesDisciplined(p, g) && WellTyped(g) && LinksOwnReplay(p.ops, g, e, up)
    ensures SelfCertified(h, e)
  {
    assert EdgeTyped(g, g.edges[e]);
    EdgeAfter(g, p.ops, e);
    ActorKept(g, p, h, g.edges[e].src);
    NodeAfter(g, p.ops, up.id);
    FirstUpsertIsAnOp(p.ops, up.id);
    var other := NewNode(p, g, h, up.id);
    OneUpsert(p.ops, up, other);
    assert Lookup(h.nodes[up.id].fields, Actor) == Lookup(up.fields, Actor);
  }

  lemma {:induction false} SelfCertifiedWasCompleted(g: Graph, p: Proposal, h: Graph, e: Id) returns (up: Op)
    requires Step(g, p, h) && NodesDisciplined(p, g) && WellTyped(g) && NoneSelfCertified(g)
    requires SelfCertified(h, e)
    ensures LinksOwnReplay(p.ops, g, e, up)
  {
    AddedReplayIsIndependent(g, p, h, e);
    var edge := h.edges[e];
    assert EdgeTyped(g, edge);
    EdgeAfter(g, p.ops, e);
    ActorKept(g, p, h, edge.src);
    assert !SelfCertified(g, e);
    if edge.dst in g.nodes {
      ActorKept(g, p, h, edge.dst);
      assert false;
    } else {
      up := NewNode(p, g, h, edge.dst);
      assert Lookup(h.nodes[edge.dst].fields, Actor) == Lookup(up.fields, Actor);
    }
  }

  /** A self-certified edge afterwards was there before: the validator sees both actors of an added
      edge. */
  lemma {:induction false} AddedReplayIsIndependent(g: Graph, p: Proposal, h: Graph, e: Id)
    requires Step(g, p, h) && NodesDisciplined(p, g) && SelfCertified(h, e)
    ensures e in g.edges && g.edges[e] == h.edges[e]
  {
    EdgeHasSource(p, g, h, e);
    if op :| op in p.ops && Adds(op, e) && h.edges[e] == Edge(op.rel, op.src, op.dst, op.fields) {
      AcceptedAddition(p, g, op);
      NodeFieldsHold(g, p, h, op.src, Actor);
      NodeFieldsHold(g, p, h, op.dst, Actor);
      assert SelfCertification !in SelfCertificationDefects(p.ops, g, op);
    }
  }

  ghost predicate IndependentUpTo(graphs: seq<Graph>, n: nat)
    requires n < |graphs|
  {
    forall i :: 0 <= i <= n ==> NoneSelfCertified(graphs[i])
  }

  ghost predicate NoneCompletedBefore(graphs: seq<Graph>, proposals: seq<Proposal>, n: nat)
    requires n <= |proposals| && n <= |graphs|
  {
    forall k :: 0 <= k < n ==> !CompletesOwnReplay(proposals[k].ops, graphs[k])
  }

  /** Over a run, replays stay independent exactly when no proposal completes its own replay. */
  lemma {:induction false} IndependentRunsIff(graphs: seq<Graph>, proposals: seq<Proposal>, n: nat)
    requires IsSmoothRun(graphs, proposals) && n < |graphs|
    requires forall k :: 0 <= k < |proposals| ==> NodesDisciplined(proposals[k], graphs[k])
    ensures IndependentUpTo(graphs, n) <==> NoneCompletedBefore(graphs, proposals, n)
  {
    if n > 0 {
      IndependentRunsIff(graphs, proposals, n - 1);
      if NoneSelfCertified(graphs[n - 1]) {
        RunStepIndependence(graphs, proposals, n - 1);
      }
    }
  }

  lemma {:induction false} RunStepIndependence(graphs: seq<Graph>, proposals: seq<Proposal>, k: nat)
    requires IsSmoothRun(graphs, proposals) && k < |proposals| && NoneSelfCertified(graphs[k])
    requires forall k :: 0 <= k < |proposals| ==> NodesDisciplined(proposals[k], graphs[k])
    ensures NoneSelfCertified(graphs[k + 1]) <==> !CompletesOwnReplay(proposals[k].ops, graphs[k])
  {
    SmoothStep(graphs, proposals, k);
    TypingOverRuns(graphs, proposals, k);
    IndependentIffNoneCompleted(graphs[k], proposals[k], graphs[k + 1]);
  }

  /** No replay edge waits for a target that does not exist yet. */
  ghost predicate ReplaysLocal(g: Graph) {
    forall e :: e in g.edges && g.edges[e].rel == ReplayedBy ==> !IsContentAddressed(g.edges[e].dst)
  }

  /** Local evidence edges are enough: then both ends exist, and they are independent. */
  lemma {:induction false} IndependenceOverRuns(graphs: seq<Graph>, proposals: seq<Proposal>, n: nat)
    requires IsSmoothRun(graphs, proposals) && n < |graphs|
    requires forall k :: 0 <= k < |proposals| ==>
               NodesDisciplined(proposals[k], graphs[k]) && EvidenceLocal(proposals[k].ops)
    ensures ReplaysIndependent(graphs[n])
  {
    forall k | 0 <= k < n
      ensures !CompletesOwnReplay(proposals[k].ops, graphs[k])
    {
      LocalCompletesNothing(graphs, proposals, k);
    }
    IndependentRunsIff(graphs, proposals, n);
    LocalOverRuns(graphs, proposals, n);
    TypingOverRuns(graphs, proposals, n);
    forall e | e in graphs[n].edges && graphs[n].edges[e].rel == ReplayedBy
      ensures EdgeTyped(graphs[n], graphs[n].edges[e]) && !SelfCertified(graphs[n], e)
    {
    }
  }

  lemma {:induction false} LocalCompletesNothing(graphs: seq<Graph>, proposals: seq<Proposal>, k: nat)
    requires IsSmoothRun(graphs, proposals) && k < |proposals|
    requires forall k :: 0 <= k < |proposals| ==>
               NodesDisciplined(proposals[k], graphs[k]) && EvidenceLocal(proposals[k].ops)
    ensures !CompletesOwnReplay(proposals[k].ops, graphs[k])
  {
    LocalOverRuns(graphs, proposals, k);
    TypingOverRuns(graphs, proposals, k);
    NothingToComplete(proposals[k].ops, graphs[k]);
  }

  lemma {:induction false} NothingToComplete(ops: seq<Op>, g: Graph)
    requires WellTyped(g) && ReplaysLocal(g)
    ensures !CompletesOwnReplay(ops, g)
  {
    forall e | e in g.edges && g.edges[e].rel == ReplayedBy
      ensures g.edges[e].dst in g.nodes
    {
      assert EdgeTyped(g, g.edges[e]);
    }
  }

  lemma {:induction false} LocalOverRuns(graphs: seq<Graph>, proposals: seq<Proposal>, n: nat)
    requires IsSmoothRun(graphs, proposals) && n < |graphs|
    requires forall k :: 0 <= k < |proposals| ==> EvidenceLocal(proposals[k].ops)
    ensures ReplaysLocal(graphs[n])
  {
    if n > 0 {
      LocalOverRuns(graphs, proposals, n - 1);
      SmoothStep(graphs, proposals, n - 1);
      forall e | e in graphs[n].edges && graphs[n].edges[e].rel == ReplayedBy
        ensures !IsContentAddressed(graphs[n].edges[e].dst)
      {
        EdgeHasSource(proposals[n - 1], graphs[n - 1], graphs[n], e);
      }
    }
  }

  lemma {:induction false} LabelKept(g: Graph, p: Proposal, h: Graph, id: Id, lab: Label)
    requires Step(g, p, h) && NodesDisciplined(p, g) && HasLabel(g, id, lab)
    ensures HasLabel(h, id, lab)
  {
    ImmutableKept(p, g, h, id);
  }

  lemma {:induction false} TypingStep(g: Graph, p: Proposal, h: Graph)
    requires Step(g, p, h) && NodesDisciplined(p, g) && WellTyped(g)
    ensures WellTyped(h)
  {
    forall e | e in h.edges && EndpointsOf(h.edges[e].rel).Some?
      ensures EdgeTyped(h, h.edges[e])
    {
      var edge := h.edges[e];
      var ends := EndpointsOf(edge.rel).value;
      EdgeHasSource(p, g, h, e);
      if e in g.edges && g.edges[e] == edge {
        assert EdgeTyped(g, edge);
        LabelKept(g, p, h, edge.src, ends.0);
        if !IsContentAddressed(edge.dst) {
          LabelKept(g, p, h, edge.dst, ends.1);
        }
      } else {
        var op :| op in p.ops && Adds(op, e) && edge == Edge(op.rel, op.src, op.dst, op.fields);
        AcceptedAddition(p, g, op);
        LabelIsLabelAfter(p, g, h, op.src);
        LabelIsLabelAfter(p, g, h, op.dst);
      }
    }
  }

  /** What a batch proposes for the immutable fields of a tactic it upserts is what they are. */
  lemma {:induction false} UpsertedFieldsHold(g: Graph, p: Proposal, h: Graph, up: Op, name: Field)
    requires Step(g, p, h) && NodesDisciplined(p, g)
    requires up in p.ops && up.UpsertNode? && name in up.fields && name in ImmutableFields(up.lab)
    ensures HasLabel(h, up.id, up.lab)
    ensures Lookup(h.nodes[up.id].fields, name) == Some(up.fields[name])
  {
    if up.id in g.nodes {
      ImmutableKept(p, g, h, up.id);
      var i := AcceptedOp(p, g, up);
      assert UpsertFieldConflict !in ReferenceDefects(p.ops, g, i);
      assert Lookup(g.nodes[up.id].fields, name) == Some(up.fields[name]);
    } else {
      NodeAfter(g, p.ops, up.id);
      FirstUpsertIsAnOp(p.ops, up.id);
      var other := NewNode(p, g, h, up.id);
      OneUpsert(p.ops, up, other);
    }
  }

  /** An accepted closure edge comes from a tactic upserted in the same proposal. */
  lemma {:induction false} ClosureComesWithTactic(p: Proposal, g: Graph, op: Op) returns (up: Op)
    requires Accepted(p, g) && op in p.ops && IsEdge(op, ClosesState)
    ensures up in p.ops && IsTactic(up) && up.id == op.src
    ensures Get(up.fields, ExecutorResult) == Str(LeanAccepted) && Get(up.fields, SubgoalCount) == Num(0)
  {
    EntryFor(p.ops, ClosesState, op);
    LastTacticIsAnUpsert(p.ops, op.src);
    ClosuresAreReported(p.ops, op.src);
    assert ExecutorRejections(p.ops, op.src) == {};
    up :| up in p.ops && IsTactic(up) && up.id == op.src &&
      up.fields == LastTactic(p.ops, op.src).value.fields;
    var reasons := ClosureReasons(up.fields);
    assert reasons == {};
    assert ClosureWithoutLeanAccepted !in reasons && ClosureWithoutZeroGoals !in reasons;
  }

  lemma {:induction false} EntryFor(ops: seq<Op>, rel: Rel, op: Op)
    requires op in ops && IsEdge(op, rel)
    ensures EdgesOf(ops, rel, op.src) != []
  {
    if op != ops[|ops| - 1] {
      EntryFor(ops[..|ops| - 1], rel, op);
    }
  }

  lemma {:induction false} ClosuresAreReported(ops: seq<Op>, id: Id)
    requires EdgesOf(ops, ClosesState, id) != []
    ensures LastTactic(ops, id).None? ==> ExecutorRejections(ops, id) != {}
    ensures LastTactic(ops, id).Some? && ClosureReasons(LastTactic(ops, id).value.fields) != {} ==>
              ExecutorRejections(ops, id) != {}
  {
    var entry := EdgesOf(ops, ClosesState, id)[0];
    if LastTactic(ops, id).None? {
      assert Rejection(OrphanClosureEdge, Some(entry.index)) in ExecutorRejections(ops, id);
    } else if r :| r in ClosureReasons(LastTactic(ops, id).value.fields) {
      assert entry in EdgesOf(ops, ClosesState, id);
      assert Rejection(r, Some(entry.index)) in ClosureRejections(ops, id);
    }
  }

  lemma {:induction false} ClosureStep(g: Graph, p: Proposal, h: Graph)
    requires Step(g, p, h) && NodesDisciplined(p, g) && ClosuresJustified(g)
    ensures ClosuresJustified(h)
  {
    assert ExecutorResult in ImmutableFields(TacticApplication);
    assert SubgoalCount in ImmutableFields(TacticApplication);
    forall e | e in h.edges && h.edges[e].rel == ClosesState
      ensures HasLabel(h, h.edges[e].src, TacticApplication)
      ensures Get(h.nodes[h.edges[e].src].fields, ExecutorResult) == Str(LeanAccepted)
      ensures Get(h.nodes[h.edges[e].src].fields, SubgoalCount) == Num(0)
    {
      EdgeHasSource(p, g, h, e);
      var src := h.edges[e].src;
      if e in g.edges && g.edges[e] == h.edges[e] {
        ImmutableKept(p, g, h, src);
        assert Lookup(h.nodes[src].fields, ExecutorResult) == Lookup(g.nodes[src].fields, ExecutorResult);
        assert Lookup(h.nodes[src].fields, SubgoalCount) == Lookup(g.nodes[src].fields, SubgoalCount);
      } else {
        var op :| op in p.ops && Adds(op, e) && h.edges[e] == Edge(op.rel, op.src, op.dst, op.fields);
        var up := ClosureComesWithTactic(p, g, op);
        UpsertedFieldsHold(g, p, h, up, ExecutorResult);
        UpsertedFieldsHold(g, p, h, up, SubgoalCount);
      }
    }
  }

  lemma {:induction false} ProposedIsFirstUpsert(ops: seq<Op>, id: Id)
    ensures FirstUpsert(ops, id).None? ==> ProposedFields(ops, id) == map[]
    ensures FirstUpsert(ops, id).Some? ==> ProposedFields(ops, id) == FirstUpsert(ops, id).value.fields
  {
    if ops != [] {
      FirstUpsertFromFront(ops, id);
      ProposedIsFirstUpsert(ops[1..], id);
    }
  }

  lemma {:induction false} FirstUpsertFromFront(ops: seq<Op>, id: Id)
    requires ops != []
    ensures FirstUpsert(ops, id) ==
            if Upserts(ops[0], id) then Some(Node(ops[0].lab, ops[0].fields)) else FirstUpsert(ops[1..], id)
  {
    if |ops| > 1 {
      FirstUpsertFromFront(ops[..|ops| - 1], id);
      assert ops[..|ops| - 1][1..] == ops[1..][..|ops| - 2];
    } else {
      assert ops[..0] == [] && ops[1..] == [];
    }
  }

  /** The fields the evidence checks read are, where immutable, the fields afterwards. */
  lemma {:induction false} NodeFieldsHold(g: Graph, p: Proposal, h: Graph, id: Id, name: Field)
    requires Step(g, p, h) && NodesDisciplined(p, g)
    requires id in h.nodes && name in ImmutableFields(h.nodes[id].lab)
    ensures Get(NodeFields(p.ops, g, id), name) == Get(h.nodes[id].fields, name)
  {
    if id in g.nodes {
      ImmutableKept(p, g, h, id);
      assert Lookup(h.nodes[id].fields, name) == Lookup(g.nodes[id].fields, name);
    } else {
      var up := NewNode(p, g, h, id);
      ProposedIsFirstUpsert(p.ops, id);
      assert Lookup(h.nodes[id].fields, name) == Lookup(up.fields, name);
    }
  }
}
