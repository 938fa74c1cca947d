/** The report of the gate is exact: it blames the ops that are to blame, for the reasons that apply. */
module Report {
  import opened Vocabulary
  import opened Ops
  import opened GraphState
  import opened Rules
  import opened Obligations
  import opened Validate
  import opened Reasons

  // ---- the tactic validators ----

  lemma {:induction false} TacticLastIs(ops: seq<Op>, i: nat)
    ensures TacticLast(ops, i) <==>
            (i < |ops| && ops[i].UpsertNode? && LastTactic(ops, ops[i].id) == Some(Created(i, ops[i].fields)))
  {
    if TacticLast(ops, i) {
      OnlyLast(ops, i);
    } else if i < |ops| && ops[i].UpsertNode? {
      LastOfTactic(ops, ops[i].id);
    }
  }

  lemma {:induction false} LastOfTactic(ops: seq<Op>, id: Id)
    ensures LastTactic(ops, id).None? <==> forall op :: op in ops ==> !MakesTactic(op, id)
    ensures LastTactic(ops, id).Some? ==>
              var i := LastTactic(ops, id).value.index;
              TacticLast(ops, i) && ops[i].id == id && ops[i].fields == LastTactic(ops, id).value.fields
  {
    if ops != [] {
      var n := |ops| - 1;
      LastOfTactic(ops[..n], id);
      assert ops == ops[..n] + [ops[n]];
      if LastTactic(ops, id).Some? && !MakesTactic(ops[n], id) {
        assert forall j :: 0 <= j < n ==> ops[..n][j] == ops[j];
      }
    }
  }

  lemma {:induction false} OnlyLast(ops: seq<Op>, i: nat)
    requires TacticLast(ops, i)
    ensures LastTactic(ops, ops[i].id) == Some(Created(i, ops[i].fields))
  {
    var id := ops[i].id;
    LastOfTactic(ops, id);
    assert ops[i] in ops && MakesTactic(ops[i], id);
    var k := LastTactic(ops, id).value.index;
    assert MakesTactic(ops[k], id);
    if k != i {
      assert false;
    }
  }

  /** The entry stands for an addition of this type from this node. */
  predicate Records(ops: seq<Op>, rel: Rel, src: Id, entry: Entry) {
    && entry.index < |ops| && ops[entry.index].AddEdge? && ops[entry.index].rel == rel
    && ops[entry.index].src == src
    && entry.target == ops[entry.index].dst && entry.position == Get(ops[entry.index].fields, ChildIndex)
  }

  predicate Listed(entries: seq<Entry>, i: nat) {
    exists k :: 0 <= k < |entries| && entries[k].index == i
  }

  predicate Ascends(entries: seq<Entry>) {
    forall j, k :: 0 <= j < k < |entries| ==> entries[j].index < entries[k].index
  }

  /** The entries collected for a source are its additions, in op order. */
  lemma {:induction false} EntriesAre(ops: seq<Op>, rel: Rel, src: Id)
    ensures var entries := EdgesOf(ops, rel, src);
            && (forall entry :: entry in entries ==> Records(ops, rel, src, entry))
            && Ascends(entries)
  {
    if ops != [] {
      var n := |ops| - 1;
      EntriesAre(ops[..n], rel, src);
      var prior := EdgesOf(ops[..n], rel, src);
      forall k | 0 <= k < |prior|
        ensures prior[k].index < n
      {
        assert prior[k] in prior && Records(ops[..n], rel, src, prior[k]);
      }
      forall entry | entry in prior
        ensures Records(ops, rel, src, entry)
      {
        assert Records(ops[..n], rel, src, entry);
      }
    }
  }

  lemma {:induction false} AdditionsAreListed(ops: seq<Op>, rel: Rel, src: Id)
    ensures forall i :: i in Additions(ops, rel, src) ==> Listed(EdgesOf(ops, rel, src), i)
  {
    if ops != [] {
      var n := |ops| - 1;
      AdditionsAreListed(ops[..n], rel, src);
      var prior, entries := EdgesOf(ops[..n], rel, src), EdgesOf(ops, rel, src);
      forall i | i in Additions(ops, rel, src)
        ensures Listed(entries, i)
      {
        if i < n {
          assert i in Additions(ops[..n], rel, src);
          var k :| 0 <= k < |prior| && prior[k].index == i;
          assert entries[k] == prior[k];
        } else {
          assert entries[|prior|].index == i;
        }
      }
    }
  }

  lemma {:induction false} EntriesCount(ops: seq<Op>, rel: Rel, src: Id)
    ensures |EdgesOf(ops, rel, src)| == |Additions(ops, rel, src)|
  {
    var entries := EdgesOf(ops, rel, src);
    EntriesAre(ops, rel, src);
    AdditionsAreListed(ops, rel, src);
    var at := seq(|entries|, k requires 0 <= k < |entries| => entries[k].index);
    forall i
      ensures i in at <==> i in Additions(ops, rel, src)
    {
      if i in Additions(ops, rel, src) {
        var k :| 0 <= k < |entries| && entries[k].index == i;
        assert at[k] == i;
      }
      if k :| 0 <= k < |at| && at[k] == i {
        assert Records(ops, rel, src, entries[k]);
      }
    }
    forall j, k | 0 <= j < k < |at|
      ensures at[j] != at[k]
    {
      assert entries[j].index < entries[k].index;
    }
    DistinctLength(at, Additions(ops, rel, src));
  }

  lemma {:induction false} RepeatsIs(ops: seq<Op>, id: Id)
    ensures RepeatsTarget(EdgesOf(ops, FormalRequires, id)) <==>
            exists j, k :: j in Additions(ops, FormalRequires, id) && k in Additions(ops, FormalRequires, id) &&
                           j != k && ops[j].dst == ops[k].dst
  {
    var entries, added := EdgesOf(ops, FormalRequires, id), Additions(ops, FormalRequires, id);
    EntriesAre(ops, FormalRequires, id);
    AdditionsAreListed(ops, FormalRequires, id);
    if j, k :| 0 <= j < k < |entries| && entries[j].target == entries[k].target {
      assert Records(ops, FormalRequires, id, entries[j]) && Records(ops, FormalRequires, id, entries[k]);
      assert entries[j].index in added && entries[k].index in added;
    }
    if j, k :| j in added && k in added && j != k && ops[j].dst == ops[k].dst {
      assert Listed(entries, j) && Listed(entries, k);
      var m :| 0 <= m < |entries| && entries[m].index == j;
      var n :| 0 <= n < |entries| && entries[n].index == k;
      assert Records(ops, FormalRequires, id, entries[m]) && Records(ops, FormalRequires, id, entries[n]);
      assert m < n || n < m;
    }
  }

  lemma {:induction false} PlacesIs(ops: seq<Op>, id: Id)
    ensures (exists at :: Places(ops, id, at)) <==>
            exists order :: InOrder(EdgesOf(ops, FormalRequires, id), order)
  {
    var entries := EdgesOf(ops, FormalRequires, id);
    EntriesCount(ops, FormalRequires, id);
    if order :| InOrder(entries, order) {
      OrderPlaces(ops, id, order);
    }
    if at :| Places(ops, id, at) {
      PlacesOrder(ops, id, at);
    }
  }

  lemma {:induction false} OrderPlaces(ops: seq<Op>, id: Id, order: seq<nat>)
    requires InOrder(EdgesOf(ops, FormalRequires, id), order)
    ensures exists at :: Places(ops, id, at)
  {
    var entries := EdgesOf(ops, FormalRequires, id);
    EntriesAre(ops, FormalRequires, id);
    EntriesCount(ops, FormalRequires, id);
    var at := seq(|order|, k requires 0 <= k < |order| => entries[order[k]].index);
    forall k | 0 <= k < |at|
      ensures at[k] in Additions(ops, FormalRequires, id) && Holds(ops[at[k]].fields, ChildIndex, Num(k))
    {
      assert Records(ops, FormalRequires, id, entries[order[k]]);
    }
    assert Places(ops, id, at);
  }

  lemma {:induction false} PlacesOrder(ops: seq<Op>, id: Id, at: seq<nat>)
    requires Places(ops, id, at)
    ensures exists order :: InOrder(EdgesOf(ops, FormalRequires, id), order)
  {
    var entries := EdgesOf(ops, FormalRequires, id);
    EntriesAre(ops, FormalRequires, id);
    EntriesCount(ops, FormalRequires, id);
    AdditionsAreListed(ops, FormalRequires, id);
    var order := seq(|at|, k requires 0 <= k < |at| => EntryFor(entries, at[k]));
    forall k | 0 <= k < |order|
      ensures order[k] < |entries| && entries[order[k]].position == Num(k)
    {
      assert Listed(entries, at[k]);
      assert Records(ops, FormalRequires, id, entries[order[k]]);
    }
    assert InOrder(entries, order);
  }

  ghost function EntryFor(entries: seq<Entry>, i: nat): (k: nat)
    ensures Listed(entries, i) ==> k < |entries| && entries[k].index == i
  {
    if Listed(entries, i) then
      var k: nat :| k < |entries| && entries[k].index == i;
      k
    else 0
  }

  // ---- what the two tactic validators report ----

  /** What `check_subgoal_conservation` says of op `i`. */
  ghost predicate SubgoalBlamed(ops: seq<Op>, i: nat, r: Reason) {
    i < |ops| &&
    match r
    case FormalRequiresRemoval => ops[i].RemoveEdge? && ops[i].rel == FormalRequires
    case MissingRequiredField => TacticLast(ops, i) && Blank(ops[i].fields, SubgoalCount)
    case SubgoalCountMismatch => Miscounts(ops, i)
    case SubgoalDuplicated => RepeatsChild(ops, i)
    case SubgoalIndexInvalid => Misplaces(ops, i)
    case OrphanSubgoalEdge => Orphaned(ops, FormalRequires, i)
    case _ => false
  }

  lemma {:induction false} CountIs(ops: seq<Op>, i: nat)
    requires TacticLast(ops, i)
    ensures var reasons := ArityReasons(Get(ops[i].fields, SubgoalCount), EdgesOf(ops, FormalRequires, ops[i].id));
            && (MissingRequiredField in reasons <==> Blank(ops[i].fields, SubgoalCount))
            && (SubgoalCountMismatch in reasons <==> Miscounts(ops, i))
  {
    EntriesCount(ops, FormalRequires, ops[i].id);
  }

  lemma {:induction false} ShapeIs(ops: seq<Op>, i: nat)
    requires TacticLast(ops, i)
    ensures var reasons := ArityReasons(Get(ops[i].fields, SubgoalCount), EdgesOf(ops, FormalRequires, ops[i].id));
            && (SubgoalDuplicated in reasons <==> RepeatsChild(ops, i))
            && (SubgoalIndexInvalid in reasons <==> Misplaces(ops, i))
  {
    RepeatsIs(ops, ops[i].id);
    PlacesIs(ops, ops[i].id);
    SortsToRangeIffInOrder(EdgesOf(ops, FormalRequires, ops[i].id));
  }

  lemma {:induction false} ArityAre(declared: Value, entries: seq<Entry>, r: Reason)
    ensures r in ArityReasons(declared, entries) <==>
            || (r == MissingRequiredField && MissingRequiredField in ArityReasons(declared, entries))
            || (r == SubgoalCountMismatch && SubgoalCountMismatch in ArityReasons(declared, entries))
            || (r == SubgoalDuplicated && SubgoalDuplicated in ArityReasons(declared, entries))
            || (r == SubgoalIndexInvalid && SubgoalIndexInvalid in ArityReasons(declared, entries))
  {
  }

  /** What may be wrong with the children of a tactic. */
  ghost predicate SaidOfChildren(ops: seq<Op>, i: nat, r: Reason) {
    TacticLast(ops, i) &&
    (|| (r == MissingRequiredField && Blank(ops[i].fields, SubgoalCount))
     || (r == SubgoalCountMismatch && Miscounts(ops, i)) || (r == SubgoalDuplicated && RepeatsChild(ops, i))
     || (r == SubgoalIndexInvalid && Misplaces(ops, i)))
  }

  lemma {:induction false} SubgoalParts(ops: seq<Op>, i: nat, r: Reason)
    ensures SubgoalBlamed(ops, i, r) <==>
            || SaidOfChildren(ops, i, r) || (r == OrphanSubgoalEdge && Orphaned(ops, FormalRequires, i))
            || (r == FormalRequiresRemoval && i < |ops| && RemovesObligation(ops[i]))
  {
  }

  lemma {:induction false} ArityIs(ops: seq<Op>, i: nat, r: Reason)
    requires TacticLast(ops, i)
    ensures r in ArityReasons(Get(ops[i].fields, SubgoalCount), EdgesOf(ops, FormalRequires, ops[i].id)) <==>
            SaidOfChildren(ops, i, r)
  {
    ArityAre(Get(ops[i].fields, SubgoalCount), EdgesOf(ops, FormalRequires, ops[i].id), r);
    CountIs(ops, i);
    ShapeIs(ops, i);
  }

  lemma {:induction false} OrphansAre(ops: seq<Op>, rel: Rel, reason: Reason, x: Rejection)
    ensures (exists id :: x in OrphanRejections(ops, rel, reason, id)) <==>
            (x.reason == reason && x.opIndex.Some? && Orphaned(ops, rel, x.opIndex.value))
  {
    if id :| x in OrphanRejections(ops, rel, reason, id) {
      FirstEntry(ops, rel, id);
      LastOfTactic(ops, id);
    }
    if x.reason == reason && x.opIndex.Some? && Orphaned(ops, rel, x.opIndex.value) {
      var id := ops[x.opIndex.value].src;
      assert x.opIndex.value in Additions(ops, rel, id);
      AdditionsAreListed(ops, rel, id);
      FirstEntry(ops, rel, id);
      LastOfTactic(ops, id);
      assert x in OrphanRejections(ops, rel, reason, id);
    }
  }

  lemma {:induction false} FirstEntry(ops: seq<Op>, rel: Rel, src: Id)
    ensures var entries := EdgesOf(ops, rel, src);
            entries != [] ==>
              entries[0].index in Additions(ops, rel, src) &&
              forall j :: j in Additions(ops, rel, src) ==> entries[0].index <= j
  {
    var entries := EdgesOf(ops, rel, src);
    EntriesAre(ops, rel, src);
    AdditionsAreListed(ops, rel, src);
    if entries != [] {
      assert Records(ops, rel, src, entries[0]);
      forall j | j in Additions(ops, rel, src)
        ensures entries[0].index <= j
      {
        assert Listed(entries, j);
      }
    }
  }

  lemma {:induction false} SubgoalFindingIs(ops: seq<Op>, x: Rejection)
    ensures x in SubgoalFindings(ops) <==> x in Removals(ops) || exists id :: x in SubgoalRejections(ops, id)
  {
    if id :| x in SubgoalRejections(ops, id) {
      DictionariesAreMentioned(ops, FormalRequires, id);
    }
  }

  lemma {:induction false} SubgoalReported(ops: seq<Op>, x: Rejection)
    ensures x in SubgoalFindings(ops) <==> x.opIndex.Some? && SubgoalBlamed(ops, x.opIndex.value, x.reason)
  {
    SubgoalFindingIs(ops, x);
    OrphansAre(ops, FormalRequires, OrphanSubgoalEdge, x);
    ArityReported(ops, x);
    OrphanOrArity(ops, x);
    if x.opIndex.Some? {
      SubgoalParts(ops, x.opIndex.value, x.reason);
    }
  }

  lemma {:induction false} OrphanOrArity(ops: seq<Op>, x: Rejection)
    ensures (exists id :: x in SubgoalRejections(ops, id)) <==>
            (exists id :: x in OrphanRejections(ops, FormalRequires, OrphanSubgoalEdge, id)) ||
            (exists id :: x in ArityRejections(ops, id))
  {
    if id :| x in OrphanRejections(ops, FormalRequires, OrphanSubgoalEdge, id) {
      assert x in SubgoalRejections(ops, id);
    }
    if id :| x in ArityRejections(ops, id) {
      assert x in SubgoalRejections(ops, id);
    }
  }

  lemma {:induction false} ArityReported(ops: seq<Op>, x: Rejection)
    ensures (exists id :: x in ArityRejections(ops, id)) <==>
            (x.opIndex.Some? && SaidOfChildren(ops, x.opIndex.value, x.reason))
  {
    if id :| x in ArityRejections(ops, id) {
      LastOfTactic(ops, id);
      ArityIs(ops, LastTactic(ops, id).value.index, x.reason);
    }
    if x.opIndex.Some? && TacticLast(ops, x.opIndex.value) {
      var i := x.opIndex.value;
      TacticLastIs(ops, i);
      ArityIs(ops, i, x.reason);
      var reasons := ArityReasons(Get(ops[i].fields, SubgoalCount), EdgesOf(ops, FormalRequires, ops[i].id));
      assert x in ArityRejections(ops, ops[i].id) <==> x.reason in reasons;
    }
  }

  /** What `check_executor_result` says of op `i`. */
  ghost predicate ExecutorBlamed(ops: seq<Op>, i: nat, r: Reason) {
    i < |ops| &&
    match r
    case MissingRequiredField => TacticLast(ops, i) && Blank(ops[i].fields, ExecutorResult)
    case ExecutorFailureAsSuccess => FailureClosed(ops, i)
    case FailureWithMathematicalDiagnostic => FailureExplained(ops, i)
    case DeadEdgeMissingDiagnostic => RejectionUnexplained(ops, i)
    case OrphanClosureEdge => Orphaned(ops, ClosesState, i)
    case ClosureWithoutLeanAccepted => ClosesWithout(ops, i, ExecutorResult, Str(LeanAccepted))
    case ClosureWithoutZeroGoals => ClosesWithout(ops, i, SubgoalCount, Num(0))
    case _ => false
  }

  lemma {:induction false} ExecutorFindingIs(ops: seq<Op>, x: Rejection)
    ensures x in ExecutorFindings(ops) <==> exists id :: x in ExecutorRejections(ops, id)
  {
    if id :| x in ExecutorRejections(ops, id) {
      DictionariesAreMentioned(ops, ClosesState, id);
    }
  }

  lemma {:induction false} ResultsAre(fields: Fields, r: Reason)
    ensures r in ResultReasons(fields) <==>
            || (r == MissingRequiredField && Blank(fields, ExecutorResult))
            || (r == ExecutorFailureAsSuccess && NeverRan(fields) && Holds(fields, Status, Str(Closed)))
            || (r == FailureWithMathematicalDiagnostic && NeverRan(fields) && !Blank(fields, DiagnosticArtifact))
            || (r == DeadEdgeMissingDiagnostic && Holds(fields, ExecutorResult, Str(LeanRejected)) &&
                Blank(fields, DiagnosticArtifact))
  {
  }

  lemma {:induction false} ResultReported(ops: seq<Op>, x: Rejection)
    ensures (exists id :: x in ResultRejections(ops, id)) <==>
            (x.opIndex.Some? && TacticLast(ops, x.opIndex.value) &&
             x.reason in ResultReasons(ops[x.opIndex.value].fields))
  {
    if id :| x in ResultRejections(ops, id) {
      LastOfTactic(ops, id);
    }
    if x.opIndex.Some? && TacticLast(ops, x.opIndex.value) {
      TacticLastIs(ops, x.opIndex.value);
      assert x in ResultRejections(ops, ops[x.opIndex.value].id) <==>
             x.reason in ResultReasons(ops[x.opIndex.value].fields);
    }
  }

  /** The op adds a closing edge from a tactic the proposal creates, about which this can be said. */
  ghost predicate ClosureBlamed(ops: seq<Op>, i: nat, r: Reason) {
    || (r == ClosureWithoutLeanAccepted && ClosesWithout(ops, i, ExecutorResult, Str(LeanAccepted)))
    || (r == ClosureWithoutZeroGoals && ClosesWithout(ops, i, SubgoalCount, Num(0)))
  }

  lemma {:induction false} ClosuresOf(ops: seq<Op>, id: Id, x: Rejection)
    requires LastTactic(ops, id).Some?
    ensures x in ClosureRejections(ops, id) <==>
            (x.opIndex.Some? && x.opIndex.value in Additions(ops, ClosesState, id) &&
             x.reason in ClosureReasons(LastTactic(ops, id).value.fields))
  {
    var entries := EdgesOf(ops, ClosesState, id);
    EntriesAre(ops, ClosesState, id);
    AdditionsAreListed(ops, ClosesState, id);
    if entry :| entry in entries && x.opIndex == Some(entry.index) {
      assert Records(ops, ClosesState, id, entry);
    }
    if x.opIndex.Some? && x.opIndex.value in Additions(ops, ClosesState, id) {
      assert Listed(entries, x.opIndex.value);
      var k :| 0 <= k < |entries| && entries[k].index == x.opIndex.value;
      assert entries[k] in entries;
    }
  }

  /** A tactic has one last creation, so what is said of some is said of it. */
  lemma {:induction false} ClosureBlamedOf(ops: seq<Op>, id: Id, j: nat, x: Rejection)
    requires TacticLast(ops, j) && ops[j].id == id && x.opIndex.Some?
    requires ClosureBlamed(ops, x.opIndex.value, x.reason) && ops[x.opIndex.value].src == id
    ensures x.opIndex.value in Additions(ops, ClosesState, id)
    ensures x.reason in ClosureReasons(ops[j].fields)
  {
    forall k: nat | TacticLast(ops, k) && ops[k].id == id
      ensures k == j
    {
      OnlyLast(ops, j);
      OnlyLast(ops, k);
    }
  }

  lemma {:induction false} ClosureReported(ops: seq<Op>, x: Rejection)
    ensures (exists id :: x in ClosureRejections(ops, id)) <==>
            (x.opIndex.Some? && (ClosureBlamed(ops, x.opIndex.value, x.reason) ||
                                 (x.reason == OrphanClosureEdge && Orphaned(ops, ClosesState, x.opIndex.value))))
  {
    OrphansAre(ops, ClosesState, OrphanClosureEdge, x);
    if id :| x in ClosureRejections(ops, id) {
      LastOfTactic(ops, id);
      if LastTactic(ops, id).Some? {
        ClosuresOf(ops, id, x);
      }
    }
    if x.opIndex.Some? && ClosureBlamed(ops, x.opIndex.value, x.reason) {
      var id := ops[x.opIndex.value].src;
      var j: nat :| TacticLast(ops, j) && ops[j].id == id;
      OnlyLast(ops, j);
      ClosureBlamedOf(ops, id, j, x);
      ClosuresOf(ops, id, x);
    }
    if id :| x in OrphanRejections(ops, ClosesState, OrphanClosureEdge, id) {
      assert x in ClosureRejections(ops, id);
    }
  }

  lemma {:induction false} ExecutorReported(ops: seq<Op>, x: Rejection)
    ensures x in ExecutorFindings(ops) <==> x.opIndex.Some? && ExecutorBlamed(ops, x.opIndex.value, x.reason)
  {
    ExecutorFindingIs(ops, x);
    TwoKinds(ops, x);
    ResultBlamed(ops, x);
    ClosureReported(ops, x);
    if x.opIndex.Some? {
      ExecutorParts(ops, x.opIndex.value, x.reason);
    }
  }

  lemma {:induction false} TwoKinds(ops: seq<Op>, x: Rejection)
    ensures (exists id :: x in ExecutorRejections(ops, id)) <==>
            (exists id :: x in ResultRejections(ops, id)) || (exists id :: x in ClosureRejections(ops, id))
  {
    if id :| x in ResultRejections(ops, id) {
      assert x in ExecutorRejections(ops, id);
    }
    if id :| x in ClosureRejections(ops, id) {
      assert x in ExecutorRejections(ops, id);
    }
  }

  /** About the outcome of a tactic, or about a closing edge. */
  predicate OfOutcome(r: Reason) {
    r != OrphanClosureEdge && r != ClosureWithoutLeanAccepted && r != ClosureWithoutZeroGoals
  }

  lemma {:induction false} ExecutorParts(ops: seq<Op>, i: nat, r: Reason)
    ensures ExecutorBlamed(ops, i, r) <==>
            || (OfOutcome(r) && ExecutorBlamed(ops, i, r)) || ClosureBlamed(ops, i, r)
            || (r == OrphanClosureEdge && Orphaned(ops, ClosesState, i))
  {
  }

  lemma {:induction false} ResultBlamed(ops: seq<Op>, x: Rejection)
    ensures (exists id :: x in ResultRejections(ops, id)) <==>
            (x.opIndex.Some? && OfOutcome(x.reason) && ExecutorBlamed(ops, x.opIndex.value, x.reason))
  {
    ResultReported(ops, x);
    if x.opIndex.Some? && TacticLast(ops, x.opIndex.value) {
      ResultsAre(ops[x.opIndex.value].fields, x.reason);
    }
  }

  // ---- all of them ----

  predicate OfTheProposal(r: Reason) {
    match r
    case MissingConcurrencyToken | UnknownStatusValue | NamespaceMismatch | MissingPriorValue |
         HeuristicClosureAttempt => true
    case _ => false
  }

  predicate OfReferences(r: Reason) {
    match r
    case UnknownNode | NodeAlreadyExistsWithLabel | UpsertFieldConflict | EdgeEndpointTypeInvalid | UnknownEdge => true
    case _ => false
  }

  predicate OfWrites(r: Reason) {
    match r
    case PriorValueMismatch | IllegalStatusTransition | ImmutableFieldOverwrite | StagnationWithoutObstruction => true
    case _ => false
  }

  predicate OfEvidence(r: Reason) {
    match r
    case PromotionWithoutReplay | PromotionWithoutAlignment | SelfCertification => true
    case _ => false
  }

  lemma {:induction false} StatelessReported(p: Proposal, g: Graph, i: nat, r: Reason)
    requires i < |p.ops|
    ensures r in StatelessDefects(p, i) <==> OfTheProposal(r) && Blamed(p, g, i, r)
  {
    StatelessAre(p, i, r);
  }

  predicate SaidOfProposal(p: Proposal, i: nat, r: Reason)
    requires i < |p.ops|
  {
    || (r == MissingConcurrencyToken && LacksLease(p, i))
    || (r == UnknownStatusValue && WritesForeignWord(p.ops[i]))
    || (r == NamespaceMismatch && NamesForeign(p.proofId, p.ops[i]))
    || (r == MissingPriorValue && p.ops[i].SetField? && p.ops[i].prior == None && !p.ops[i].field.Score?)
    || (r == HeuristicClosureAttempt && ClosesByScore(p.ops, i))
  }

  lemma {:induction false} StatelessAre(p: Proposal, i: nat, r: Reason)
    requires i < |p.ops|
    ensures r in StatelessDefects(p, i) <==> SaidOfProposal(p, i, r)
  {
    LeaseAndWordsAre(p, i, r);
    NamespaceIs(p.proofId, p.ops[i]);
    AnnotationIs(p.ops, i);
  }

  lemma {:induction false} LeaseAndWordsAre(p: Proposal, i: nat, r: Reason)
    requires i < |p.ops|
    ensures r in ConcurrencyDefects(p, i) <==> r == MissingConcurrencyToken && LacksLease(p, i)
    ensures r in VocabularyDefects(p.ops[i]) <==> r == UnknownStatusValue && WritesForeignWord(p.ops[i])
  {
    ConcurrencyIs(p, i);
    VocabularyIs(p.ops[i]);
  }

  lemma {:induction false} ReferenceReported(p: Proposal, g: Graph, i: nat, r: Reason)
    requires i < |p.ops|
    ensures r in ReferenceDefects(p.ops, g, i) <==> OfReferences(r) && Blamed(p, g, i, r)
  {
    ReferencesAre(p.ops, g, i);
  }

  lemma {:induction false} WriteReported(p: Proposal, g: Graph, i: nat, r: Reason)
    requires i < |p.ops|
    ensures var op := p.ops[i];
            r in PriorDefects(g, op) + TransitionDefects(g, op) + ImmutabilityDefects(op) +
                 StagnationDefects(p.ops, g, op) <==>
            OfWrites(r) && Blamed(p, g, i, r)
  {
    PriorIs(g, p.ops[i]);
    StagnationIs(p.ops, g, p.ops[i]);
  }

  lemma {:induction false} EvidenceReported(p: Proposal, g: Graph, i: nat, r: Reason)
    requires i < |p.ops|
    ensures var op := p.ops[i];
            r in ReplayDefects(p.ops, g, op) + SelfCertificationDefects(p.ops, g, op) +
                 AlignmentDefects(p.ops, g, op) <==>
            OfEvidence(r) && Blamed(p, g, i, r)
  {
    PromotionIs(p.ops, g, p.ops[i]);
    SelfCertificationIs(p.ops, g, p.ops[i]);
  }

  lemma {:induction false} StatefulReported(p: Proposal, g: Graph, i: nat, r: Reason)
    requires i < |p.ops|
    ensures r in StatefulDefects(p, g, i) <==>
            (OfReferences(r) || OfWrites(r) || OfEvidence(r)) && Blamed(p, g, i, r)
  {
    ReferenceReported(p, g, i, r);
    WriteReported(p, g, i, r);
    EvidenceReported(p, g, i, r);
  }

  lemma {:induction false} TacticReported(p: Proposal, g: Graph, i: nat, r: Reason)
    requires !OfTheProposal(r) && !OfReferences(r) && !OfWrites(r) && !OfEvidence(r)
    ensures Blamed(p, g, i, r) <==> SubgoalBlamed(p.ops, i, r) || ExecutorBlamed(p.ops, i, r)
  {
  }

  lemma {:induction false} NotOfTactics(ops: seq<Op>, i: nat, r: Reason)
    requires OfTheProposal(r) || OfReferences(r) || OfWrites(r) || OfEvidence(r)
    ensures !SubgoalBlamed(ops, i, r) && !ExecutorBlamed(ops, i, r)
  {
  }

  /** The report of `validate_proposal` holds a reason for an op exactly when the op is to blame for it,
      and the one reason without an op exactly when no base is named. */
  lemma {:induction false} ReportIsExact(p: Proposal, g: Graph, x: Rejection)
    ensures x in ProposalFindings(p) + ViewFindings(p, g) <==>
            || (x == Rejection(MissingConcurrencyToken, None) && p.baseRevision == None)
            || (x.opIndex.Some? && Blamed(p, g, x.opIndex.value, x.reason))
  {
    SubgoalReported(p.ops, x);
    ExecutorReported(p.ops, x);
    OpByOp(p, g, x);
    if x.opIndex.Some? {
      var i, r := x.opIndex.value, x.reason;
      if i < |p.ops| {
        StatelessReported(p, g, i, r);
        StatefulReported(p, g, i, r);
      }
      if OfTheProposal(r) || OfReferences(r) || OfWrites(r) || OfEvidence(r) {
        NotOfTactics(p.ops, i, r);
      } else {
        TacticReported(p, g, i, r);
      }
    }
  }

  lemma {:induction false} OpByOp(p: Proposal, g: Graph, x: Rejection)
    ensures x in ReadOnlyFindings(p) + AnnotationFindings(p.ops) <==>
            || (x == Rejection(MissingConcurrencyToken, None) && p.baseRevision == None)
            || (x.opIndex.Some? && x.opIndex.value < |p.ops| && x.reason in StatelessDefects(p, x.opIndex.value))
    ensures x in ViewFindings(p, g) <==>
            x.opIndex.Some? && x.opIndex.value < |p.ops| && x.reason in StatefulDefects(p, g, x.opIndex.value)
  {
  }

  /** The gate accepts exactly the proposals that name a base and have no op to blame. */
  lemma {:induction false} AcceptedIffBlameless(p: Proposal, g: Graph)
    ensures Accepted(p, g) <==> p.baseRevision.Some? && forall i: nat, r :: !Blamed(p, g, i, r)
  {
    NoFindingsIffAccepted(p, g);
    forall x
      ensures x in ProposalFindings(p) + ViewFindings(p, g) <==>
              || (x == Rejection(MissingConcurrencyToken, None) && p.baseRevision == None)
              || (x.opIndex.Some? && Blamed(p, g, x.opIndex.value, x.reason))
    {
      ReportIsExact(p, g, x);
    }
    if i: nat, r :| Blamed(p, g, i, r) {
      assert Rejection(r, Some(i)) in ProposalFindings(p) + ViewFindings(p, g);
    }
    if p.baseRevision.None? {
      assert Rejection(MissingConcurrencyToken, None) in ProposalFindings(p) + ViewFindings(p, g);
    }
  }

  /** A reason is reported for some op exactly when some op is to blame for it. */
  lemma {:induction false} ReportedForIff(p: Proposal, g: Graph, r: Reason)
    ensures (exists i :: Rejection(r, Some(i)) in ProposalFindings(p) + ViewFindings(p, g)) <==>
            exists i :: Blamed(p, g, i, r)
  {
    forall i: nat
      ensures Rejection(r, Some(i)) in ProposalFindings(p) + ViewFindings(p, g) <==> Blamed(p, g, i, r)
    {
      ReportIsExact(p, g, Rejection(r, Some(i)));
    }
  }

  /** A lease is asked for exactly where one is not named in full and an op writes a status, a verdict, or
      a field named like one. */
  lemma {:induction false} LeaseAskedIff(p: Proposal, g: Graph)
    ensures (exists i :: Blamed(p, g, i, MissingConcurrencyToken)) <==>
            (p.leaseId == None || p.fencingToken == None) && exists op :: op in p.ops && WritesStatus(op)
  {
    if exists op :: op in p.ops && WritesStatus(op) {
      var i := FirstStatus(p.ops);
      assert p.leaseId == None || p.fencingToken == None ==> Blamed(p, g, i, MissingConcurrencyToken);
    }
  }
}
