/** What the result compiler guarantees about the ops it emits. */
module Compilation {
  import opened Vocabulary
  import opened Ops
  import opened GraphState
  import opened Apply
  import opened Rules
  import opened Obligations
  import opened Gate
  import opened Conservation
  import opened Ids
  import opened Dispatch

  // ---- the soundness check the compiler relies on ----

  datatype Unsoundness =
    | CountMismatch | OmittedSubgoal | DuplicatedSubgoal | UnknownChildState | NonKernelClosure

  predicate Repeats(ids: seq<Id>) {
    exists j, k :: 0 <= j < k < |ids| && ids[j] == ids[k]
  }

  /** `_check_tactic_edges`: the first defect of a reported tactic, if any. */
  function TacticDefect(r: SearchResult, t: TacticReport): Option<Unsoundness> {
    var declared := Get(t.fields, SubgoalCount);
    if !declared.Num? then Some(CountMismatch)
    else if |t.produced| != declared.n then Some(OmittedSubgoal)
    else if Repeats(t.produced) then Some(DuplicatedSubgoal)
    else if exists c :: c in t.produced && forall s :: s in r.states ==> s.id != c
    then Some(UnknownChildState)
    else if Get(t.fields, TacticLabel) == Str(Text("PLN_fallback")) &&
            Get(t.fields, ExecutorResult) == Str(LeanAccepted)
    then Some(NonKernelClosure)
    else None
  }

  /** No tactic-edge violation, distinct tactic ids, none committed. */
  predicate SoundResult(g: Graph, r: SearchResult) {
    && (forall t :: t in r.tactics ==> TacticDefect(r, t).None? && t.id !in g.nodes)
    && (forall i, j :: 0 <= i < j < |r.tactics| ==> r.tactics[i].id != r.tactics[j].id)
  }

  // ---- what kinds of ops there are ----

  ghost predicate NotAChildId(eid: Id) {
    forall t, k :: eid != ChildEdgeId(t, k)
  }

  /** An op from a part of the result other than its tactics. */
  ghost predicate IsOther(g: Graph, op: Op) {
    && !op.RemoveEdge? && !IsTactic(op)
    && !IsEdge(op, FormalRequires) && !IsEdge(op, ClosesState)
    && (op.SetField? ==> op.id in g.nodes && op.field == Status)
    && (op.AddEdge? ==> NotAChildId(op.eid))
  }

  lemma {:induction false} LetterEndIsNotChild(eid: Id)
    requires eid != "" && !IsDigit(eid[|eid| - 1])
    ensures NotAChildId(eid)
  {
    forall t, k
      ensures eid != ChildEdgeId(t, k)
    {
      NumberedEndsInDigit(eid, t + "-req", k);
    }
  }

  lemma {:induction false} OtherBaseIsNotChild(base: string, n: nat)
    requires base != "" && base[|base| - 1] != 'q'
    ensures NotAChildId(Numbered(base, n))
  {
    forall t, k
      ensures Numbered(base, n) != ChildEdgeId(t, k)
    {
      var req := t + "-req";
      assert req[|req| - 1] == 'q';
      if Numbered(base, n) == Numbered(req, k) {
        NumberedIsInjective(base, n, req, k);
      }
    }
  }

  lemma {:induction false} StatesAreOther(g: Graph, states: seq<StateReport>)
    ensures forall op :: op in AllStateOps(g, states) ==> IsOther(g, op)
  {
    if states != [] {
      StatesAreOther(g, states[..|states| - 1]);
    }
  }

  lemma {:induction false} RunIsOther(g: Graph, r: SearchResult)
    ensures forall op :: op in RunOps(g, r) ==> IsOther(g, op)
  {
    if r.runId.Some? {
      LetterEndIsNotChild(r.runId.value + "-root");
      LetterEndIsNotChild(r.runId.value + "-searches");
    }
  }

  lemma {:induction false} NumberedEdgesAreOther(g: Graph, rel: Rel, src: Id, base: string, targets: seq<Id>)
    requires rel != FormalRequires && rel != ClosesState
    requires base != "" && base[|base| - 1] != 'q'
    ensures forall op :: op in NumberedEdges(rel, src, base, targets, |targets|) ==> IsOther(g, op)
  {
    forall op | op in NumberedEdges(rel, src, base, targets, |targets|)
      ensures IsOther(g, op)
    {
      var k :| 0 <= k < |targets| && NumberedEdges(rel, src, base, targets, |targets|)[k] == op;
      OtherBaseIsNotChild(base, k);
    }
  }

  lemma {:induction false} CheckpointIsOther(g: Graph, r: SearchResult, serial: nat)
    ensures forall op :: op in CheckpointOps(r, serial) ==> IsOther(g, op)
  {
    if MakesCheckpoint(r) {
      var id := ScopedId(r.proofId, "fc", serial);
      LetterEndIsNotChild(id + "-in");
      assert id[|id| - 1] == Decimal(serial)[|Decimal(serial)| - 1];
      NumberedEdgesAreOther(g, CheckpointFrontier, id, id, r.checkpoint.value.frontier);
    }
  }

  lemma {:induction false} CertificateIsOther(g: Graph, r: SearchResult, serial: nat)
    ensures forall op :: op in CertificateOps(r, serial) ==> IsOther(g, op)
  {
    var id := ScopedId(r.proofId, "cert", serial);
    LetterEndIsNotChild(id + "-produced");
    LetterEndIsNotChild(id + "-certifies");
  }

  lemma {:induction false} ObstructionsAreOther(g: Graph, r: SearchResult, obstructions: seq<ObstructionReport>)
    ensures forall op :: op in AllObstructionOps(g, r, obstructions) ==> IsOther(g, op)
  {
    if obstructions != [] {
      ObstructionsAreOther(g, r, obstructions[..|obstructions| - 1]);
      var o := obstructions[|obstructions| - 1];
      LetterEndIsNotChild(o.id + "-raised");
      NumberedEdgesAreOther(g, AtState, o.id, o.id + "-state", o.states);
    }
  }

  /** The ops around the tactics. */
  function Before(g: Graph, r: SearchResult): seq<Op> {
    AllStateOps(g, r.states) + RunOps(g, r)
  }

  function After(g: Graph, r: SearchResult, checkpoint: nat, certificate: nat): seq<Op> {
    CheckpointOps(r, checkpoint) + CertificateOps(r, certificate) + AllObstructionOps(g, r, r.obstructions)
  }

  lemma {:induction false} CompiledSplits(g: Graph, r: SearchResult, checkpoint: nat, certificate: nat)
    ensures Compiled(g, r, checkpoint, certificate) ==
            Before(g, r) + AllTacticOps(g, r.tactics) + After(g, r, checkpoint, certificate)
  {
    Regroup(Before(g, r) + AllTacticOps(g, r.tactics), CheckpointOps(r, checkpoint),
            CertificateOps(r, certificate), AllObstructionOps(g, r, r.obstructions));
  }

  lemma {:induction false} Regroup<T>(head: seq<T>, a: seq<T>, b: seq<T>, c: seq<T>)
    ensures head + a + b + c == head + (a + b + c)
  {
  }

  lemma {:induction false} CompiledParts(g: Graph, r: SearchResult, checkpoint: nat, certificate: nat)
    ensures Compiled(g, r, checkpoint, certificate) ==
            Before(g, r) + AllTacticOps(g, r.tactics) + After(g, r, checkpoint, certificate)
    ensures forall op :: op in Before(g, r) ==> IsOther(g, op)
    ensures forall op :: op in After(g, r, checkpoint, certificate) ==> IsOther(g, op)
  {
    CompiledSplits(g, r, checkpoint, certificate);
    BeforeIsOther(g, r);
    AfterIsOther(g, r, checkpoint, certificate);
  }

  lemma {:induction false} BeforeIsOther(g: Graph, r: SearchResult)
    ensures forall op :: op in Before(g, r) ==> IsOther(g, op)
  {
    StatesAreOther(g, r.states);
    RunIsOther(g, r);
  }

  lemma {:induction false} AfterIsOther(g: Graph, r: SearchResult, checkpoint: nat, certificate: nat)
    ensures forall op :: op in After(g, r, checkpoint, certificate) ==> IsOther(g, op)
  {
    CheckpointIsOther(g, r, checkpoint);
    CertificateIsOther(g, r, certificate);
    ObstructionsAreOther(g, r, r.obstructions);
  }

  /** A tactic op belongs to the block of a reported, uncommitted tactic. */
  ghost predicate FromTactic(g: Graph, tactics: seq<TacticReport>, op: Op, t: TacticReport) {
    t in tactics && t.id !in g.nodes && op in TacticBlock(t)
  }

  lemma {:induction false} TacticOpFromBlock(g: Graph, tactics: seq<TacticReport>, op: Op)
    requires op in AllTacticOps(g, tactics)
    ensures exists t :: FromTactic(g, tactics, op, t)
  {
    var rest, last := tactics[..|tactics| - 1], tactics[|tactics| - 1];
    if op in TacticOps(g, last) {
      assert FromTactic(g, tactics, op, last);
    } else {
      TacticOpFromBlock(g, rest, op);
      var t :| FromTactic(g, rest, op, t);
      assert FromTactic(g, tactics, op, t);
    }
  }

  lemma {:induction false} BlockOpIsTacticOp(g: Graph, tactics: seq<TacticReport>, op: Op, t: TacticReport)
    requires FromTactic(g, tactics, op, t)
    ensures op in AllTacticOps(g, tactics)
  {
    var rest, last := tactics[..|tactics| - 1], tactics[|tactics| - 1];
    if t != last {
      assert tactics == rest + [last];
      BlockOpIsTacticOp(g, rest, op, t);
    }
  }

  /** What a block holds: its tactic, its place edge, its child edges, maybe its closing edge. */
  lemma {:induction false} BlockOps(t: TacticReport, op: Op)
    requires op in TacticBlock(t)
    ensures !op.RemoveEdge? && !op.SetField?
    ensures IsTactic(op) ==> op == TacticNode(t)
    ensures IsEdge(op, ClosesState) ==> op == ClosingEdge(t) && ClosesItsState(t)
    ensures IsEdge(op, FormalRequires) ==> exists k :: 0 <= k < |t.produced| && op == ChildEdge(t, k)
    ensures op.AddEdge? && !IsEdge(op, FormalRequires) ==> NotAChildId(op.eid)
  {
    LetterEndIsNotChild(t.id + "-at");
    LetterEndIsNotChild(t.id + "-closes");
    if op in ChildEdges(t, |t.produced|) {
      var k :| 0 <= k < |t.produced| && ChildEdges(t, |t.produced|)[k] == op;
    }
  }

  lemma {:induction false} CompiledOp(g: Graph, r: SearchResult, ops: seq<Op>, op: Op)
    requires CompiledSomehow(g, r, ops) && op in ops
    ensures IsOther(g, op) || exists t :: FromTactic(g, r.tactics, op, t)
  {
    var checkpoint, certificate :| ops == Compiled(g, r, checkpoint, certificate);
    CompiledParts(g, r, checkpoint, certificate);
    if op in AllTacticOps(g, r.tactics) {
      TacticOpFromBlock(g, r.tactics, op);
    }
  }

  lemma {:induction false} BlockIsEmitted(g: Graph, r: SearchResult, ops: seq<Op>, t: TacticReport, op: Op)
    requires CompiledSomehow(g, r, ops) && FromTactic(g, r.tactics, op, t)
    ensures op in ops
  {
    var checkpoint, certificate :| ops == Compiled(g, r, checkpoint, certificate);
    CompiledParts(g, r, checkpoint, certificate);
    BlockOpIsTacticOp(g, r.tactics, op, t);
  }

  // ---- the children of a tactic, in order ----

  /** The targets and positions of the required children a list of ops gives a tactic. */
  function ChildrenOf(ops: seq<Op>, t: Id): seq<(Id, Value)> {
    if ops == [] then []
    else
      var before, op := ChildrenOf(ops[..|ops| - 1], t), ops[|ops| - 1];
      if IsEdgeOf(op, FormalRequires, t) then before + [(op.dst, Get(op.fields, ChildIndex))] else before
  }

  lemma {:induction false} ChildrenAreEntries(ops: seq<Op>, t: Id)
    ensures var entries := EdgesOf(ops, FormalRequires, t);
            |entries| == |ChildrenOf(ops, t)| &&
            forall k :: 0 <= k < |entries| ==>
              ChildrenOf(ops, t)[k] == (entries[k].target, entries[k].position)
  {
    if ops != [] {
      ChildrenAreEntries(ops[..|ops| - 1], t);
    }
  }

  lemma {:induction false} ChildrenOfConcat(a: seq<Op>, b: seq<Op>, t: Id)
    ensures ChildrenOf(a + b, t) == ChildrenOf(a, t) + ChildrenOf(b, t)
  {
    if b == [] {
      assert a + b == a;
    } else {
      assert (a + b)[..|a + b| - 1] == a + b[..|b| - 1];
      ChildrenOfConcat(a, b[..|b| - 1], t);
    }
  }

  lemma {:induction false} NoChildren(ops: seq<Op>, t: Id)
    requires forall op :: op in ops ==> !IsEdgeOf(op, FormalRequires, t)
    ensures ChildrenOf(ops, t) == []
  {
    if ops != [] {
      assert ops[|ops| - 1] in ops;
      NoChildren(ops[..|ops| - 1], t);
    }
  }

  /** Children listed at positions 0, 1, 2, ... */
  function Listed(ids: seq<Id>): (r: seq<(Id, Value)>)
    ensures |r| == |ids| && forall k :: 0 <= k < |r| ==> r[k] == (ids[k], Num(k))
  {
    seq(|ids|, k requires 0 <= k < |ids| => (ids[k], Num(k)))
  }

  lemma {:induction false} ChildEdgesListed(t: TacticReport, n: nat)
    requires n <= |t.produced|
    ensures ChildrenOf(ChildEdges(t, n), t.id) == Listed(t.produced)[..n]
  {
    if n > 0 {
      assert ChildEdges(t, n)[..n - 1] == ChildEdges(t, n - 1);
      ChildEdgesListed(t, n - 1);
    }
  }

  lemma {:induction false} BlockListed(t: TacticReport)
    ensures ChildrenOf(TacticBlock(t), t.id) == Listed(t.produced)
  {
    var head := [TacticNode(t), AtEdge(t)];
    var tail := if ClosesItsState(t) then [ClosingEdge(t)] else [];
    ChildrenBetween(head, ChildEdges(t, |t.produced|), tail, t.id);
    ChildEdgesListed(t, |t.produced|);
    assert Listed(t.produced)[..|t.produced|] == Listed(t.produced);
  }

  lemma {:induction false} ChildrenBetween(head: seq<Op>, middle: seq<Op>, tail: seq<Op>, t: Id)
    requires forall op :: op in head || op in tail ==> !IsEdgeOf(op, FormalRequires, t)
    ensures ChildrenOf(head + middle + tail, t) == ChildrenOf(middle, t)
  {
    ChildrenOfConcat(head + middle, tail, t);
    ChildrenOfConcat(head, middle, t);
    NoChildren(head, t);
    NoChildren(tail, t);
  }

  lemma {:induction false} AbsentListed(g: Graph, tactics: seq<TacticReport>, t: Id)
    requires forall s :: s in tactics ==> s.id != t
    ensures ChildrenOf(AllTacticOps(g, tactics), t) == []
  {
    if tactics != [] {
      var rest, last := tactics[..|tactics| - 1], tactics[|tactics| - 1];
      AbsentListed(g, rest, t);
      OtherBlock(last, t);
      ChildrenOfConcat(AllTacticOps(g, rest), TacticOps(g, last), t);
    }
  }

  lemma {:induction false} TacticsListed(g: Graph, tactics: seq<TacticReport>, t: TacticReport)
    requires t.id !in g.nodes && t in tactics
    requires forall i, j :: 0 <= i < j < |tactics| ==> tactics[i].id != tactics[j].id
    ensures ChildrenOf(AllTacticOps(g, tactics), t.id) == Listed(t.produced)
  {
    var rest, last := tactics[..|tactics| - 1], tactics[|tactics| - 1];
    ChildrenOfConcat(AllTacticOps(g, rest), TacticOps(g, last), t.id);
    if last == t {
      BlockListed(t);
      AbsentListed(g, rest, t.id);
    } else {
      OtherBlock(last, t.id);
      TacticsListed(g, rest, t);
    }
  }

  lemma {:induction false} OtherBlock(s: TacticReport, t: Id)
    requires s.id != t
    ensures ChildrenOf(TacticBlock(s), t) == []
  {
    forall op | op in TacticBlock(s)
      ensures !IsEdgeOf(op, FormalRequires, t)
    {
      BlockOps(s, op);
    }
    NoChildren(TacticBlock(s), t);
  }

  lemma {:induction false} CompiledListed(g: Graph, r: SearchResult, ops: seq<Op>, t: TacticReport)
    requires CompiledSomehow(g, r, ops) && SoundResult(g, r) && t in r.tactics
    ensures ChildrenOf(ops, t.id) == Listed(t.produced)
  {
    var checkpoint, certificate :| ops == Compiled(g, r, checkpoint, certificate);
    CompiledParts(g, r, checkpoint, certificate);
    ChildrenBetween(Before(g, r), AllTacticOps(g, r.tactics), After(g, r, checkpoint, certificate), t.id);
    TacticsListed(g, r.tactics, t);
  }

  // ---- the ops pass the gate's arity and closure checks ----

  lemma {:induction false} EmittedTactic(g: Graph, r: SearchResult, ops: seq<Op>, id: Id)
    returns (t: TacticReport)
    requires CompiledSomehow(g, r, ops) && SoundResult(g, r) && LastTactic(ops, id).Some?
    ensures t in r.tactics && t.id == id && LastTactic(ops, id).value.fields == TacticFields(t)
  {
    LastTacticIsAnUpsert(ops, id);
    var op :| op in ops && IsTactic(op) && op.id == id && op.fields == LastTactic(ops, id).value.fields;
    CompiledOp(g, r, ops, op);
    t :| FromTactic(g, r.tactics, op, t);
    BlockOps(t, op);
  }

  /** The tactic an emitted child or closing edge comes from is emitted too. */
  lemma {:induction false} EmittedEdge(g: Graph, r: SearchResult, ops: seq<Op>, op: Op)
    returns (t: TacticReport)
    requires CompiledSomehow(g, r, ops) && op in ops
    requires IsEdge(op, FormalRequires) || IsEdge(op, ClosesState)
    ensures t in r.tactics && op in TacticBlock(t) && op.src == t.id && LastTactic(ops, t.id).Some?
  {
    CompiledOp(g, r, ops, op);
    t :| FromTactic(g, r.tactics, op, t);
    BlockOps(t, op);
    TacticIsEmitted(g, r, ops, t);
  }

  lemma {:induction false} TacticIsEmitted(g: Graph, r: SearchResult, ops: seq<Op>, t: TacticReport)
    requires CompiledSomehow(g, r, ops) && t in r.tactics && t.id !in g.nodes
    ensures LastTactic(ops, t.id).Some?
  {
    var op := TacticNode(t);
    assert TacticBlock(t)[0] == op;
    BlockIsEmitted(g, r, ops, t, op);
    assert IsTactic(op) && op.id == t.id;
    LastTacticIsAnUpsert(ops, t.id);
  }

  /** The emitted ops pass subgoal conservation. */
  lemma {:induction false} CompiledConservesSubgoals(g: Graph, r: SearchResult, ops: seq<Op>)
    requires CompiledSomehow(g, r, ops) && SoundResult(g, r)
    ensures SubgoalClean(ops)
  {
    forall op | op in ops
      ensures !RemovesObligation(op)
    {
      CompiledOp(g, r, ops, op);
      if t :| FromTactic(g, r.tactics, op, t) {
        BlockOps(t, op);
      }
    }
    forall id
      ensures SubgoalRejections(ops, id) == {}
    {
      if LastTactic(ops, id).None? {
        NoEdgesWithoutTactic(g, r, ops, FormalRequires, id);
      } else {
        var t := EmittedTactic(g, r, ops, id);
        ArityIsRight(g, r, ops, t);
      }
    }
  }

  lemma {:induction false} FirstEntry(ops: seq<Op>, rel: Rel, src: Id) returns (op: Op)
    requires EdgesOf(ops, rel, src) != []
    ensures op in ops && IsEdgeOf(op, rel, src)
  {
    EntriesAreTheEdges(ops, rel, src);
    var entries := EdgesOf(ops, rel, src);
    var k := 0;
    assert 0 <= k < |entries| && entries[k].index < |ops|;
    op := ops[entries[k].index];
  }

  lemma {:induction false} NoEdgesWithoutTactic(g: Graph, r: SearchResult, ops: seq<Op>, rel: Rel, id: Id)
    requires CompiledSomehow(g, r, ops) && LastTactic(ops, id).None?
    requires rel == FormalRequires || rel == ClosesState
    ensures EdgesOf(ops, rel, id) == []
  {
    if EdgesOf(ops, rel, id) != [] {
      var op := FirstEntry(ops, rel, id);
      var t := EmittedEdge(g, r, ops, op);
    }
  }

  /** A reported tactic has no defect exactly when it declares as many goals as it lists, lists none twice
      and none without a state, and is not a fallback that passes for Lean. */
  lemma {:induction false} NoDefectIff(r: SearchResult, t: TacticReport)
    ensures TacticDefect(r, t).None? <==>
            && SubgoalCount in t.fields && t.fields[SubgoalCount] == Num(|t.produced|)
            && (forall j, k :: 0 <= j < k < |t.produced| ==> t.produced[j] != t.produced[k])
            && (forall c :: c in t.produced ==> HasState(r, c))
            && !(TacticLabel in t.fields && t.fields[TacticLabel] == Str(Text("PLN_fallback")) &&
                 ExecutorResult in t.fields && t.fields[ExecutorResult] == Str(LeanAccepted))
  {
    assert (exists c :: c in t.produced && forall s :: s in r.states ==> s.id != c) <==>
           (exists c :: c in t.produced && !HasState(r, c));
  }

  /** The result reports a state of this id. */
  predicate HasState(r: SearchResult, id: Id) {
    exists s :: s in r.states && s.id == id
  }

  lemma {:induction false} SoundCount(r: SearchResult, t: TacticReport)
    requires TacticDefect(r, t).None?
    ensures Get(TacticFields(t), SubgoalCount) == Num(|t.produced|)
    ensures forall j, k :: 0 <= j < k < |t.produced| ==> t.produced[j] != t.produced[k]
  {
  }

  lemma {:induction false} ListedIsOrdered(entries: seq<Entry>, ids: seq<Id>)
    requires |entries| == |ids|
    requires forall k :: 0 <= k < |ids| ==> entries[k].target == ids[k] && entries[k].position == Num(k)
    requires forall j, k :: 0 <= j < k < |ids| ==> ids[j] != ids[k]
    ensures ArityReasons(Num(|ids|), entries) == {}
  {
    var order := seq(|entries|, k requires 0 <= k < |entries| => k as nat);
    assert InOrder(entries, order);
    ArityCheckMeans(Num(|ids|), entries);
  }

  lemma {:induction false} ArityIsRight(g: Graph, r: SearchResult, ops: seq<Op>, t: TacticReport)
    requires CompiledSomehow(g, r, ops) && SoundResult(g, r) && t in r.tactics
    ensures ArityReasons(Get(TacticFields(t), SubgoalCount), EdgesOf(ops, FormalRequires, t.id)) == {}
  {
    ChildrenAreEntries(ops, t.id);
    CompiledListed(g, r, ops, t);
    SoundCount(r, t);
    ListedIsOrdered(EdgesOf(ops, FormalRequires, t.id), t.produced);
  }

  lemma {:induction false} SoundClosure(r: SearchResult, t: TacticReport)
    requires TacticDefect(r, t).None? && ClosesItsState(t)
    ensures ClosureReasons(TacticFields(t)) == {}
  {
    SoundCount(r, t);
    assert Get(TacticFields(t), ExecutorResult) == Get(t.fields, ExecutorResult);
    assert Get(TacticFields(t), TacticLabel) == Get(t.fields, TacticLabel);
  }

  lemma {:induction false} ClosingTactic(g: Graph, r: SearchResult, ops: seq<Op>, t: TacticReport, op: Op)
    requires CompiledSomehow(g, r, ops) && SoundResult(g, r) && t in r.tactics
    requires op in ops && IsEdgeOf(op, ClosesState, t.id)
    ensures ClosesItsState(t)
  {
    var s := EmittedEdge(g, r, ops, op);
    BlockOps(s, op);
    SameTactic(r, s, t);
  }

  /** A state is closed by the emitted ops only through a Lean-accepted tactic with no goal left. */
  lemma {:induction false} CompiledClosesSoundly(g: Graph, r: SearchResult, ops: seq<Op>, id: Id)
    requires CompiledSomehow(g, r, ops) && SoundResult(g, r)
    ensures ClosureRejections(ops, id) == {}
  {
    if LastTactic(ops, id).None? {
      NoEdgesWithoutTactic(g, r, ops, ClosesState, id);
    } else {
      var t := EmittedTactic(g, r, ops, id);
      if EdgesOf(ops, ClosesState, id) != [] {
        var op := FirstEntry(ops, ClosesState, id);
        ClosingTactic(g, r, ops, t, op);
        SoundClosure(r, t);
      }
    }
  }

  lemma {:induction false} SameTactic(r: SearchResult, s: TacticReport, t: TacticReport)
    requires forall i, j :: 0 <= i < j < |r.tactics| ==> r.tactics[i].id != r.tactics[j].id
    requires s in r.tactics && t in r.tactics && s.id == t.id
    ensures s == t
  {
    var i :| 0 <= i < |r.tactics| && r.tactics[i] == s;
    var j :| 0 <= j < |r.tactics| && r.tactics[j] == t;
  }

  // ---- reading the children back ----

  /** The id the k-th child takes is free, or already holds that very edge. */
  predicate ChildIdOpen(g: Graph, t: TacticReport, k: nat)
    requires k < |t.produced|
  {
    ChildEdgeId(t.id, k) in g.edges ==> g.edges[ChildEdgeId(t.id, k)] == WrittenChild(t, k)
  }

  function WrittenChild(t: TacticReport, k: nat): Edge
    requires k < |t.produced|
  {
    Edge(FormalRequires, t.id, t.produced[k], map[ChildIndex := Num(k)])
  }

  lemma {:induction false} CompiledApplies(g: Graph, r: SearchResult, ops: seq<Op>)
    requires CompiledSomehow(g, r, ops)
    ensures ApplyOps(g, ops).ok
  {
    forall i | 0 <= i < |ops| && ops[i].SetField?
      ensures ops[i].id in g.nodes
    {
      CompiledOp(g, r, ops, ops[i]);
      if t :| FromTactic(g, r.tactics, ops[i], t) {
        BlockOps(t, ops[i]);
      }
    }
    AppliesIffSetsFollowUpserts(g, ops);
  }

  /** After applying, the k-th child of a tactic is the k-th goal it produced exactly when the id of
      that child was free or already held that edge; `apply_ops` skips a taken id without a word. */
  lemma {:induction false} ChildrenReadBack(g: Graph, r: SearchResult, ops: seq<Op>, t: TacticReport,
                                            k: nat)
    requires CompiledSomehow(g, r, ops) && SoundResult(g, r)
    requires t in r.tactics && k < |t.produced|
    ensures ApplyOps(g, ops).ok
    ensures EdgeOf(ApplyOps(g, ops).graph, ChildEdgeId(t.id, k)) == Some(WrittenChild(t, k)) <==>
            ChildIdOpen(g, t, k)
  {
    CompiledApplies(g, r, ops);
    var e := ChildEdgeId(t.id, k);
    ChildIsEmitted(g, r, ops, t, k);
    forall op | op in ops && op.AddEdge? && op.eid == e
      ensures op == ChildEdge(t, k)
    {
      OnlyChild(g, r, ops, t, k, op);
    }
    RemovesNothing(g, r, ops, e);
    EdgeAfter(g, ops, e);
    EdgeSurvives(ops, e, EdgeOf(g, e));
    assert Adds(ChildEdge(t, k), e);
    if e !in g.edges {
      EdgeIsCommittedOrAdded(ops, e, None);
    }
  }

  lemma {:induction false} ChildIsEmitted(g: Graph, r: SearchResult, ops: seq<Op>, t: TacticReport, k: nat)
    requires CompiledSomehow(g, r, ops) && SoundResult(g, r)
    requires t in r.tactics && k < |t.produced|
    ensures ChildEdge(t, k) in ops
  {
    assert ChildEdges(t, |t.produced|)[k] == ChildEdge(t, k);
    assert FromTactic(g, r.tactics, ChildEdge(t, k), t);
    BlockIsEmitted(g, r, ops, t, ChildEdge(t, k));
  }

  lemma {:induction false} RemovesNothing(g: Graph, r: SearchResult, ops: seq<Op>, eid: Id)
    requires CompiledSomehow(g, r, ops)
    ensures forall op :: op in ops ==> !Removes(op, eid)
  {
    forall op | op in ops
      ensures !Removes(op, eid)
    {
      CompiledOp(g, r, ops, op);
      if t :| FromTactic(g, r.tactics, op, t) {
        BlockOps(t, op);
      }
    }
  }

  lemma {:induction false} OnlyChild(g: Graph, r: SearchResult, ops: seq<Op>, t: TacticReport, k: nat,
                                     op: Op)
    requires CompiledSomehow(g, r, ops) && SoundResult(g, r) && t in r.tactics && k < |t.produced|
    requires op in ops && op.AddEdge? && op.eid == ChildEdgeId(t.id, k)
    ensures op == ChildEdge(t, k)
  {
    CompiledOp(g, r, ops, op);
    var s :| FromTactic(g, r.tactics, op, s);
    BlockOps(s, op);
    var j :| 0 <= j < |s.produced| && op == ChildEdge(s, j);
    NumberedIsInjective(s.id + "-req", j, t.id + "-req", k);
    assert s.id == (s.id + "-req")[..|s.id + "-req"| - 4] == t.id;
    SameTactic(r, s, t);
  }

  ghost predicate IsOwnChildId(t: TacticReport, e: Id) {
    exists k: nat :: k < |t.produced| && e == ChildEdgeId(t.id, k)
  }

  /** Every required-child edge that leaves the tactic has one of the ids of its children. */
  ghost predicate OnlyOwnChildren(g: Graph, t: TacticReport) {
    forall e :: e in g.edges && IsChild(g.edges[e], t.id) ==> IsOwnChildId(t, e)
  }

  /** A compiled tactic has no other children afterwards exactly when no required-child edge under
      another id left it before. */
  lemma {:induction false} NoOtherChildren(g: Graph, r: SearchResult, ops: seq<Op>, t: TacticReport)
    requires CompiledSomehow(g, r, ops) && SoundResult(g, r) && t in r.tactics
    ensures OnlyOwnChildren(ApplyOps(g, ops).graph, t) <==> OnlyOwnChildren(g, t)
  {
    CompiledApplies(g, r, ops);
    var h := ApplyOps(g, ops).graph;
    forall e
      ensures e in g.edges ==> e in h.edges && h.edges[e] == g.edges[e]
      ensures e in h.edges && e !in g.edges && IsChild(h.edges[e], t.id) ==> IsOwnChildId(t, e)
    {
      EdgeAfter(g, ops, e);
      RemovesNothing(g, r, ops, e);
      EdgeSurvives(ops, e, EdgeOf(g, e));
      if e in h.edges && e !in g.edges && IsChild(h.edges[e], t.id) {
        AddedChildIsOwn(g, r, ops, t, e);
      }
    }
  }

  lemma {:induction false} AddedChildIsOwn(g: Graph, r: SearchResult, ops: seq<Op>, t: TacticReport, e: Id)
    requires CompiledSomehow(g, r, ops) && SoundResult(g, r) && t in r.tactics && e !in g.edges
    requires ApplyOps(g, ops).ok && e in ApplyOps(g, ops).graph.edges
    requires IsChild(ApplyOps(g, ops).graph.edges[e], t.id)
    ensures IsOwnChildId(t, e)
  {
    EdgeAfter(g, ops, e);
    EdgeIsCommittedOrAdded(ops, e, None);
    var op :| op in ops && Adds(op, e) &&
      EdgeFate(ops, e, None) == Some(Edge(op.rel, op.src, op.dst, op.fields));
    CompiledOp(g, r, ops, op);
    var s :| FromTactic(g, r.tactics, op, s);
    BlockOps(s, op);
    var k :| 0 <= k < |s.produced| && op == ChildEdge(s, k);
    SameTactic(r, s, t);
  }

  /** Over a graph that keeps its obligations a new tactic has only the children it reported. */
  lemma {:induction false} NewTacticHasItsChildren(g: Graph, r: SearchResult, ops: seq<Op>, t: TacticReport)
    requires CompiledSomehow(g, r, ops) && SoundResult(g, r) && t in r.tactics && ObligationsHold(g)
    ensures OnlyOwnChildren(ApplyOps(g, ops).graph, t)
  {
    assert forall e :: e in g.edges && IsChild(g.edges[e], t.id) ==> IsTacticNode(g, t.id);
    NoOtherChildren(g, r, ops, t);
  }
}
