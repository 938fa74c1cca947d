/** The validators as they run: loops that fill dictionaries, then report on them. */
module Validate {
  import opened Vocabulary
  import opened Ops
  import opened GraphState
  import opened Rules

  // ---- the dictionaries ----

  function TacticAt(tactics: map<Id, Created>, id: Id): Option<Created> {
    if id in tactics then Some(tactics[id]) else None
  }

  function EntriesAt(edges: map<Id, seq<Entry>>, id: Id): seq<Entry> {
    if id in edges then edges[id] else []
  }

  /** What the collecting loops have built over these ops. */
  ghost predicate TacticsCollected(ops: seq<Op>, tactics: map<Id, Created>) {
    forall id :: TacticAt(tactics, id) == LastTactic(ops, id)
  }

  ghost predicate EdgesCollected(ops: seq<Op>, rel: Rel, edges: map<Id, seq<Entry>>) {
    forall id :: EntriesAt(edges, id) == EdgesOf(ops, rel, id) && (id in edges ==> edges[id] != [])
  }

  lemma {:induction false} CollectTactic(before: seq<Op>, op: Op, tactics: map<Id, Created>)
    requires TacticsCollected(before, tactics)
    ensures TacticsCollected(before + [op],
              if IsTactic(op) then tactics[op.id := Created(|before|, op.fields)] else tactics)
  {
    assert (before + [op])[..|before|] == before;
    var after := if IsTactic(op) then tactics[op.id := Created(|before|, op.fields)] else tactics;
    forall id
      ensures TacticAt(after, id) == LastTactic(before + [op], id)
    {
      assert TacticAt(tactics, id) == LastTactic(before, id);
    }
  }

  lemma {:induction false} CollectEdge(before: seq<Op>, rel: Rel, op: Op, edges: map<Id, seq<Entry>>)
    requires EdgesCollected(before, rel, edges)
    ensures EdgesCollected(before + [op], rel,
              if IsEdge(op, rel) then
                edges[op.src := EntriesAt(edges, op.src) +
                                [Entry(|before|, op.dst, Get(op.fields, ChildIndex))]]
              else edges)
  {
    assert (before + [op])[..|before|] == before;
  }

  method CollectTactics(ops: seq<Op>, rel: Rel)
    returns (tactics: map<Id, Created>, edges: map<Id, seq<Entry>>)
    ensures TacticsCollected(ops, tactics) && EdgesCollected(ops, rel, edges)
  {
    tactics, edges := map[], map[];
    for i := 0 to |ops|
      invariant TacticsCollected(ops[..i], tactics)
      invariant EdgesCollected(ops[..i], rel, edges)
    {
      var op := ops[i];
      CollectTactic(ops[..i], op, tactics);
      CollectEdge(ops[..i], rel, op, edges);
      assert ops[..i + 1] == ops[..i] + [op];
      if IsTactic(op) {
        tactics := tactics[op.id := Created(i, op.fields)];
      } else if IsEdge(op, rel) {
        edges := edges[op.src := EntriesAt(edges, op.src) +
                                 [Entry(i, op.dst, Get(op.fields, ChildIndex))]];
      }
    }
    assert ops[..|ops|] == ops;
  }

  // ---- check_subgoal_conservation and check_executor_result ----

  /** Every id the dictionaries can be keyed by. */
  function Mentioned(ops: seq<Op>): set<Id> {
    (set op | op in ops && op.UpsertNode? :: op.id) + (set op | op in ops && op.AddEdge? :: op.src)
  }

  function Removals(ops: seq<Op>): set<Rejection> {
    set i | 0 <= i < |ops| && RemovesObligation(ops[i]) :: Rejection(FormalRequiresRemoval, Some(i))
  }

  /** Everything one kind of report says about a set of tactics. */
  function Orphans(ops: seq<Op>, rel: Rel, reason: Reason, ids: set<Id>): set<Rejection> {
    set id, x | id in ids && x in OrphanRejections(ops, rel, reason, id) :: x
  }

  function Arities(ops: seq<Op>, ids: set<Id>): set<Rejection> {
    set id, x | id in ids && x in ArityRejections(ops, id) :: x
  }

  function Results(ops: seq<Op>, ids: set<Id>): set<Rejection> {
    set id, x | id in ids && x in ResultRejections(ops, id) :: x
  }

  function Closures(ops: seq<Op>, ids: set<Id>): set<Rejection> {
    set id, x | id in ids && x in ClosureRejections(ops, id) :: x
  }

  function SubgoalFindings(ops: seq<Op>): set<Rejection> {
    Removals(ops) + set id, x | id in Mentioned(ops) && x in SubgoalRejections(ops, id) :: x
  }

  function ExecutorFindings(ops: seq<Op>): set<Rejection> {
    set id, x | id in Mentioned(ops) && x in ExecutorRejections(ops, id) :: x
  }

  method CheckSubgoalConservation(ops: seq<Op>) returns (findings: set<Rejection>)
    ensures findings == SubgoalFindings(ops)
  {
    var tactics, children := CollectTactics(ops, FormalRequires);
    var orphans := ReportOrphans(ops, tactics, children);
    var arities := ReportArities(ops, tactics, children);
    findings := Removals(ops) + orphans + arities;
    SubgoalFindingsByKey(ops, tactics, children);
  }

  method CheckExecutorResult(ops: seq<Op>) returns (findings: set<Rejection>)
    ensures findings == ExecutorFindings(ops)
  {
    var tactics, closures := CollectTactics(ops, ClosesState);
    var results := ReportResults(ops, tactics);
    var closed := ReportClosures(ops, tactics, closures);
    findings := results + closed;
    ExecutorFindingsByKey(ops, tactics, closures);
  }

  method ReportOrphans(ops: seq<Op>, tactics: map<Id, Created>, children: map<Id, seq<Entry>>)
    returns (findings: set<Rejection>)
    requires TacticsCollected(ops, tactics) && EdgesCollected(ops, FormalRequires, children)
    ensures findings == Orphans(ops, FormalRequires, OrphanSubgoalEdge, children.Keys)
  {
    findings := {};
    var pending := children.Keys;
    while pending != {}
      invariant pending <= children.Keys
      invariant findings == Orphans(ops, FormalRequires, OrphanSubgoalEdge, children.Keys - pending)
    {
      var id :| id in pending;
      assert EntriesAt(children, id) == EdgesOf(ops, FormalRequires, id);
      assert TacticAt(tactics, id) == LastTactic(ops, id);
      var found := if id !in tactics then Blame({OrphanSubgoalEdge}, children[id][0].index) else {};
      assert found == OrphanRejections(ops, FormalRequires, OrphanSubgoalEdge, id);
      findings := findings + found;
      assert children.Keys - (pending - {id}) == children.Keys - pending + {id};
      pending := pending - {id};
    }
    assert children.Keys - {} == children.Keys;
  }

  method ReportArities(ops: seq<Op>, tactics: map<Id, Created>, children: map<Id, seq<Entry>>)
    returns (findings: set<Rejection>)
    requires TacticsCollected(ops, tactics) && EdgesCollected(ops, FormalRequires, children)
    ensures findings == Arities(ops, tactics.Keys)
  {
    findings := {};
    var pending := tactics.Keys;
    while pending != {}
      invariant pending <= tactics.Keys
      invariant findings == Arities(ops, tactics.Keys - pending)
    {
      var id :| id in pending;
      assert EntriesAt(children, id) == EdgesOf(ops, FormalRequires, id);
      assert TacticAt(tactics, id) == LastTactic(ops, id);
      var declared := Get(tactics[id].fields, SubgoalCount);
      var found := Blame(ArityReasons(declared, EntriesAt(children, id)), tactics[id].index);
      assert found == ArityRejections(ops, id);
      findings := findings + found;
      assert tactics.Keys - (pending - {id}) == tactics.Keys - pending + {id};
      pending := pending - {id};
    }
    assert tactics.Keys - {} == tactics.Keys;
  }

  method ReportResults(ops: seq<Op>, tactics: map<Id, Created>) returns (findings: set<Rejection>)
    requires TacticsCollected(ops, tactics)
    ensures findings == Results(ops, tactics.Keys)
  {
    findings := {};
    var pending := tactics.Keys;
    while pending != {}
      invariant pending <= tactics.Keys
      invariant findings == Results(ops, tactics.Keys - pending)
    {
      var id :| id in pending;
      assert TacticAt(tactics, id) == LastTactic(ops, id);
      var found := Blame(ResultReasons(tactics[id].fields), tactics[id].index);
      assert found == ResultRejections(ops, id);
      findings := findings + found;
      assert tactics.Keys - (pending - {id}) == tactics.Keys - pending + {id};
      pending := pending - {id};
    }
    assert tactics.Keys - {} == tactics.Keys;
  }

  method ReportClosures(ops: seq<Op>, tactics: map<Id, Created>, closures: map<Id, seq<Entry>>)
    returns (findings: set<Rejection>)
    requires TacticsCollected(ops, tactics) && EdgesCollected(ops, ClosesState, closures)
    ensures findings == Closures(ops, closures.Keys)
  {
    findings := {};
    var pending := closures.Keys;
    while pending != {}
      invariant pending <= closures.Keys
      invariant findings == Closures(ops, closures.Keys - pending)
    {
      var id :| id in pending;
      assert EntriesAt(closures, id) == EdgesOf(ops, ClosesState, id);
      assert TacticAt(tactics, id) == LastTactic(ops, id);
      var found;
      if id !in tactics {
        found := Blame({OrphanClosureEdge}, closures[id][0].index);
      } else {
        found := set entry, r | entry in closures[id] && r in ClosureReasons(tactics[id].fields)
                   :: Rejection(r, Some(entry.index));
      }
      assert found == ClosureRejections(ops, id);
      findings := findings + found;
      assert closures.Keys - (pending - {id}) == closures.Keys - pending + {id};
      pending := pending - {id};
    }
    assert closures.Keys - {} == closures.Keys;
  }

  lemma {:induction false} SubgoalFindingsByKey(ops: seq<Op>, tactics: map<Id, Created>, children: map<Id, seq<Entry>>)
    requires TacticsCollected(ops, tactics) && EdgesCollected(ops, FormalRequires, children)
    ensures SubgoalFindings(ops) ==
            Removals(ops) + Orphans(ops, FormalRequires, OrphanSubgoalEdge, children.Keys) +
            Arities(ops, tactics.Keys)
  {
    var all := Removals(ops) + Orphans(ops, FormalRequires, OrphanSubgoalEdge, children.Keys) +
               Arities(ops, tactics.Keys);
    forall id, x | x in SubgoalRejections(ops, id)
      ensures id in Mentioned(ops) && x in all
    {
      DictionariesAreMentioned(ops, FormalRequires, id);
      assert EntriesAt(children, id) == EdgesOf(ops, FormalRequires, id);
      assert TacticAt(tactics, id) == LastTactic(ops, id);
    }
    forall x | x in all
      ensures x in SubgoalFindings(ops)
    {
      if id :| id in children.Keys && x in OrphanRejections(ops, FormalRequires, OrphanSubgoalEdge, id) {
        assert x in SubgoalRejections(ops, id);
      } else if id :| id in tactics.Keys && x in ArityRejections(ops, id) {
        assert x in SubgoalRejections(ops, id);
      }
    }
  }

  lemma {:induction false} ExecutorFindingsByKey(ops: seq<Op>, tactics: map<Id, Created>, closures: map<Id, seq<Entry>>)
    requires TacticsCollected(ops, tactics) && EdgesCollected(ops, ClosesState, closures)
    ensures ExecutorFindings(ops) == Results(ops, tactics.Keys) + Closures(ops, closures.Keys)
  {
    var all := Results(ops, tactics.Keys) + Closures(ops, closures.Keys);
    forall id, x | x in ExecutorRejections(ops, id)
      ensures id in Mentioned(ops) && x in all
    {
      DictionariesAreMentioned(ops, ClosesState, id);
      assert EntriesAt(closures, id) == EdgesOf(ops, ClosesState, id);
      assert TacticAt(tactics, id) == LastTactic(ops, id);
    }
    forall x | x in all
      ensures x in ExecutorFindings(ops)
    {
      if id :| id in tactics.Keys && x in ResultRejections(ops, id) {
        assert x in ExecutorRejections(ops, id);
      } else if id :| id in closures.Keys && x in ClosureRejections(ops, id) {
        assert x in ExecutorRejections(ops, id);
      }
    }
  }

  lemma {:induction false} DictionariesAreMentioned(ops: seq<Op>, rel: Rel, id: Id)
    ensures LastTactic(ops, id).Some? || EdgesOf(ops, rel, id) != [] ==> id in Mentioned(ops)
  {
    if ops != [] {
      DictionariesAreMentioned(ops[..|ops| - 1], rel, id);
      assert ops[|ops| - 1] in ops;
      assert forall op :: op in ops[..|ops| - 1] ==> op in ops;
    }
  }

  // ---- check_annotation_separation ----

  predicate MissingPrior(op: Op) {
    op.SetField? && op.prior.None? && ClassOf(op) != AnnotationClass
  }

  function AnnotationFindings(ops: seq<Op>): set<Rejection> {
    set i, r | 0 <= i < |ops| && r in AnnotationDefects(ops, i) :: Rejection(r, Some(i))
  }

  /** The ids one op adds to `annotated` and to `evidence`. */
  function AnnotatedBy(op: Op): set<Id> {
    match op
    case SetField(_, id, _, _, _) => if ClassOf(op) == AnnotationClass then {id} else {}
    case UpsertNode(lab, id, fields) =>
      if lab == FormalState && exists name :: name in fields && name.Score? then {id} else {}
    case _ => {}
  }

  function EvidenceBy(op: Op): set<Id> {
    if IsEdge(op, ClosesState) then {op.dst} else {}
  }

  /** `closed_targets` remembers the first closing write of each state. */
  ghost predicate ClosedTracked(ops: seq<Op>, n: nat, closed: map<Id, nat>)
    requires n <= |ops|
  {
    && (forall id :: id in closed ==>
          closed[id] < n && ClosesByHand(ops[closed[id]]) && ops[closed[id]].id == id &&
          forall j :: 0 <= j < closed[id] && ClosesByHand(ops[j]) ==> ops[j].id != id)
    && (forall j :: 0 <= j < n && ClosesByHand(ops[j]) ==> ops[j].id in closed)
  }

  ghost predicate SetsTracked(ops: seq<Op>, n: nat, annotated: set<Id>, evidence: set<Id>)
    requires n <= |ops|
  {
    && (forall id :: id in annotated <==> exists j :: 0 <= j < n && Annotates(ops[j], id))
    && (forall id :: id in evidence <==>
          exists j :: 0 <= j < n && IsEdge(ops[j], ClosesState) && ops[j].dst == id)
  }

  lemma {:induction false} TrackClosed(ops: seq<Op>, i: nat, closed: map<Id, nat>)
    requires i < |ops| && ClosedTracked(ops, i, closed)
    ensures ClosedTracked(ops, i + 1,
              if ClosesByHand(ops[i]) && ops[i].id !in closed then closed[ops[i].id := i] else closed)
  {
  }

  lemma {:induction false} TrackSets(ops: seq<Op>, i: nat, annotated: set<Id>, evidence: set<Id>)
    requires i < |ops| && SetsTracked(ops, i, annotated, evidence)
    ensures SetsTracked(ops, i + 1, annotated + AnnotatedBy(ops[i]), evidence + EvidenceBy(ops[i]))
  {
    forall id
      ensures id in AnnotatedBy(ops[i]) <==> Annotates(ops[i], id)
    {
    }
    forall id
      ensures id in annotated + AnnotatedBy(ops[i]) <==>
              exists j :: 0 <= j < i + 1 && Annotates(ops[j], id)
      ensures id in evidence + EvidenceBy(ops[i]) <==>
              exists j :: 0 <= j < i + 1 && IsEdge(ops[j], ClosesState) && ops[j].dst == id
    {
      assert Annotates(ops[i], id) ==> exists j :: 0 <= j < i + 1 && Annotates(ops[j], id);
      assert IsEdge(ops[i], ClosesState) && ops[i].dst == id ==>
        exists j :: 0 <= j < i + 1 && IsEdge(ops[j], ClosesState) && ops[j].dst == id;
    }
  }

  method TrackAnnotations(ops: seq<Op>)
    returns (closed: map<Id, nat>, annotated: set<Id>, evidence: set<Id>)
    ensures ClosedTracked(ops, |ops|, closed) && SetsTracked(ops, |ops|, annotated, evidence)
  {
    closed, annotated, evidence := map[], {}, {};
    for i := 0 to |ops|
      invariant ClosedTracked(ops, i, closed)
      invariant SetsTracked(ops, i, annotated, evidence)
    {
      TrackClosed(ops, i, closed);
      TrackSets(ops, i, annotated, evidence);
      var op := ops[i];
      if ClosesByHand(op) && op.id !in closed {
        closed := closed[op.id := i];
      }
      annotated := annotated + AnnotatedBy(op);
      evidence := evidence + EvidenceBy(op);
    }
  }

  method CheckAnnotationSeparation(ops: seq<Op>) returns (findings: set<Rejection>)
    ensures findings == AnnotationFindings(ops)
  {
    var closed, annotated, evidence := TrackAnnotations(ops);
    findings := (set j | 0 <= j < |ops| && MissingPrior(ops[j]) :: Rejection(MissingPriorValue, Some(j))) +
      (set id | id in closed && id in annotated && id !in evidence
         :: Rejection(HeuristicClosureAttempt, Some(closed[id])));
    AnnotationFindingsByTarget(ops, closed, annotated, evidence);
  }

  lemma {:induction false} AnnotationFindingsByTarget(ops: seq<Op>, closed: map<Id, nat>, annotated: set<Id>,
                                   evidence: set<Id>)
    requires ClosedTracked(ops, |ops|, closed) && SetsTracked(ops, |ops|, annotated, evidence)
    ensures AnnotationFindings(ops) ==
      (set j | 0 <= j < |ops| && MissingPrior(ops[j]) :: Rejection(MissingPriorValue, Some(j))) +
      (set id | id in closed && id in annotated && id !in evidence
         :: Rejection(HeuristicClosureAttempt, Some(closed[id])))
  {
    forall i | 0 <= i < |ops| && HeuristicClosureAttempt in AnnotationDefects(ops, i)
      ensures ops[i].id in closed && closed[ops[i].id] == i
      ensures ops[i].id in annotated && ops[i].id !in evidence
    {
    }
  }

  // ---- check_references ----

  function ReferenceFindings(ops: seq<Op>, g: Graph): set<Rejection> {
    set i, r | 0 <= i < |ops| && r in ReferenceDefects(ops, g, i) :: Rejection(r, Some(i))
  }

  method CheckReferences(ops: seq<Op>, view: MemoryView) returns (findings: set<Rejection>)
    ensures findings == ReferenceFindings(ops, view.Contents())
  {
    var created, added := CollectCreated(ops);
    var removed: set<Id> := {};
    findings := {};
    for i := 0 to |ops|
      invariant forall eid :: eid in removed <==> exists j :: 0 <= j < i && Removes(ops[j], eid)
      invariant findings == set j, r | 0 <= j < i && r in ReferenceDefects(ops, view.Contents(), j)
                              :: Rejection(r, Some(j))
    {
      var op := ops[i];
      var reasons: set<Reason>;
      match op {
        case SetField(lab, id, _, _, _) =>
          var known := KnownLabel(created, view.nodes, id);
          reasons := if known.None? then {UnknownNode}
                     else if known.value != lab then {NodeAlreadyExistsWithLabel} else {};
        case AddEdge(rel, src, dst, _, _) =>
          reasons := CheckEndpoints(op, KnownLabel(created, view.nodes, src),
                                    KnownLabel(created, view.nodes, dst));
        case UpsertNode(_, id, fields) =>
          reasons := if id in view.nodes &&
                        exists name :: name in fields &&
                          Lookup(view.nodes[id].fields, name) != Some(fields[name])
                     then {UpsertFieldConflict} else {};
        case RemoveEdge(rel, eid) =>
          var actual := if eid in added then Some(added[eid])
                        else if eid in view.edges then Some(view.edges[eid].rel) else None;
          reasons := if eid in removed || actual != Some(rel) then {UnknownEdge} else {};
          removed := removed + {eid};
      }
      assert reasons == ReferenceDefects(ops, view.Contents(), i);
      findings := findings + Blame(reasons, i);
    }
  }

  function KnownLabel(created: map<Id, Label>, nodes: map<Id, Node>, id: Id): Option<Label> {
    if id in created then Some(created[id])
    else if id in nodes then Some(nodes[id].lab) else None
  }

  /** The endpoint checks of one added edge, given what is known of its ends. */
  function CheckEndpoints(op: Op, src: Option<Label>, dst: Option<Label>): set<Reason>
    requires op.AddEdge?
  {
    var expected := EndpointsOf(op.rel);
    If(src.None?, UnknownNode) +
    If(dst.None? && !IsContentAddressed(op.dst), UnknownNode) +
    If(expected.Some? && src.Some? && src.value != expected.value.0, EdgeEndpointTypeInvalid) +
    If(expected.Some? && dst.Some? && dst.value != expected.value.1, EdgeEndpointTypeInvalid)
  }

  method CollectCreated(ops: seq<Op>) returns (created: map<Id, Label>, added: map<Id, Rel>)
    ensures forall id :: (if id in created then Some(created[id]) else None) == CreatedLabel(ops, id)
    ensures forall eid :: (if eid in added then Some(added[eid]) else None) == AddedRel(ops, eid)
  {
    created, added := map[], map[];
    for i := 0 to |ops|
      invariant forall id ::
        (if id in created then Some(created[id]) else None) == CreatedLabel(ops[..i], id)
      invariant forall eid ::
        (if eid in added then Some(added[eid]) else None) == AddedRel(ops[..i], eid)
    {
      assert ops[..i + 1][..i] == ops[..i];
      match ops[i] {
        case UpsertNode(lab, id, _) => created := created[id := lab];
        case AddEdge(rel, _, _, eid, _) => added := added[eid := rel];
        case _ =>
      }
    }
    assert ops[..|ops|] == ops;
  }

  // ---- validate_proposal ----

  /** The proposal-only validators that only read. */
  function ReadOnlyFindings(p: Proposal): set<Rejection> {
    (if p.baseRevision.None? then {Rejection(MissingConcurrencyToken, None)} else {}) +
    (set i, r | 0 <= i < |p.ops| && r in ConcurrencyDefects(p, i) + VocabularyDefects(p.ops[i]) +
                                         NamespaceDefects(p.proofId, p.ops[i])
       :: Rejection(r, Some(i)))
  }

  /** The read-only validators that need committed state. */
  function ReadOnlyViewFindings(p: Proposal, g: Graph): set<Rejection> {
    set i, r | 0 <= i < |p.ops| &&
               r in PriorDefects(g, p.ops[i]) + TransitionDefects(g, p.ops[i]) +
                    ImmutabilityDefects(p.ops[i]) + StagnationDefects(p.ops, g, p.ops[i]) +
                    ReplayDefects(p.ops, g, p.ops[i]) +
                    SelfCertificationDefects(p.ops, g, p.ops[i]) +
                    AlignmentDefects(p.ops, g, p.ops[i])
      :: Rejection(r, Some(i))
  }

  function ProposalFindings(p: Proposal): set<Rejection> {
    ReadOnlyFindings(p) + SubgoalFindings(p.ops) + ExecutorFindings(p.ops) + AnnotationFindings(p.ops)
  }

  function ViewFindings(p: Proposal, g: Graph): set<Rejection> {
    ReferenceFindings(p.ops, g) + ReadOnlyViewFindings(p, g)
  }

  /** Every violation; the checks that need committed state are skipped without a view. */
  method ValidateProposal(p: Proposal, view: MemoryView?) returns (findings: set<Rejection>)
    ensures findings ==
            ProposalFindings(p) + (if view == null then {} else ViewFindings(p, view.Contents()))
  {
    var subgoals := CheckSubgoalConservation(p.ops);
    var executor := CheckExecutorResult(p.ops);
    var annotations := CheckAnnotationSeparation(p.ops);
    findings := ReadOnlyFindings(p) + subgoals + executor + annotations;
    if view != null {
      var references := CheckReferences(p.ops, view);
      findings := findings + (references + ReadOnlyViewFindings(p, view.Contents()));
    }
  }

  /** The gate's verdict: an empty report is exactly a proposal that breaks no rule. */
  lemma {:induction false} NoFindingsIffAccepted(p: Proposal, g: Graph)
    ensures ProposalFindings(p) + ViewFindings(p, g) == {} <==> Accepted(p, g)
  {
    SubgoalsReported(p.ops);
    ExecutorReported(p.ops);
    StatelessReported(p);
    StatefulReported(p, g);
    assert ProposalFindings(p) + ViewFindings(p, g) == {} <==>
           ProposalFindings(p) == {} && ViewFindings(p, g) == {};
  }

  lemma {:induction false} StatelessReported(p: Proposal)
    ensures ReadOnlyFindings(p) == {} && AnnotationFindings(p.ops) == {} <==>
            p.baseRevision.Some? && forall i :: 0 <= i < |p.ops| ==> StatelessDefects(p, i) == {}
  {
    forall i: nat, r | i < |p.ops|
      ensures r in StatelessDefects(p, i) <==>
              Rejection(r, Some(i)) in ReadOnlyFindings(p) + AnnotationFindings(p.ops)
    {
    }
    assert p.baseRevision.None? ==>
      Rejection(MissingConcurrencyToken, None) in ReadOnlyFindings(p);
  }

  lemma {:induction false} StatefulReported(p: Proposal, g: Graph)
    ensures ViewFindings(p, g) == {} <==>
            forall i :: 0 <= i < |p.ops| ==> StatefulDefects(p, g, i) == {}
  {
    forall i: nat, r | i < |p.ops|
      ensures r in StatefulDefects(p, g, i) <==> Rejection(r, Some(i)) in ViewFindings(p, g)
    {
    }
  }

  lemma {:induction false} SubgoalsReported(ops: seq<Op>)
    ensures SubgoalFindings(ops) == {} <==> SubgoalClean(ops)
  {
    forall i: nat | i < |ops|
      ensures RemovesObligation(ops[i]) <==> Rejection(FormalRequiresRemoval, Some(i)) in Removals(ops)
    {
    }
    forall id
      ensures SubgoalRejections(ops, id) <= SubgoalFindings(ops)
    {
      DictionariesAreMentioned(ops, FormalRequires, id);
    }
  }

  lemma {:induction false} ExecutorReported(ops: seq<Op>)
    ensures ExecutorFindings(ops) == {} <==> ExecutorClean(ops)
  {
    forall id
      ensures ExecutorRejections(ops, id) <= ExecutorFindings(ops)
    {
      DictionariesAreMentioned(ops, ClosesState, id);
    }
  }
}
