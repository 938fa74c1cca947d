/** Committing a search result that is already committed. */
module Resubmission {
  import opened Vocabulary
  import opened Ops
  import opened GraphState
  import opened Apply
  import opened Ids
  import opened Dispatch
  import opened Compilation

  lemma {:induction false} LastSetConcat(a: seq<Op>, b: seq<Op>, id: Id, name: Field)
    ensures LastSet(a + b, id, name) ==
            if LastSet(b, id, name).Some? then LastSet(b, id, name) else LastSet(a, id, name)
  {
    if b == [] {
      assert a + b == a;
    } else {
      assert (a + b)[..|a + b| - 1] == a + b[..|b| - 1];
      LastSetConcat(a, b[..|b| - 1], id, name);
    }
  }

  lemma {:induction false} FirstUpsertConcat(a: seq<Op>, b: seq<Op>, id: Id)
    ensures FirstUpsert(a + b, id) ==
            if FirstUpsert(a, id).Some? then FirstUpsert(a, id) else FirstUpsert(b, id)
  {
    if b == [] {
      assert a + b == a;
    } else {
      assert (a + b)[..|a + b| - 1] == a + b[..|b| - 1];
      FirstUpsertConcat(a, b[..|b| - 1], id);
    }
  }

  // ---- the statuses a result reports ----

  predicate ReportsIn(states: seq<StateReport>, id: Id, v: Value) {
    exists s :: s in states && s.id == id && Get(s.fields, Status) == v
  }

  /** The result reports this status for this id, for a state or for the run. */
  predicate Reports(r: SearchResult, id: Id, v: Value) {
    ReportsIn(r.states, id, v) || (r.runId == Some(id) && r.disposition == v)
  }

  function FirstIn(states: seq<StateReport>, id: Id): Option<Value> {
    if states == [] then None
    else
      var before, last := FirstIn(states[..|states| - 1], id), states[|states| - 1];
      if before.None? && last.id == id then Some(Get(last.fields, Status)) else before
  }

  /** The status reported first for an id: states come before the run. */
  function FirstReported(r: SearchResult, id: Id): Option<Value> {
    if FirstIn(r.states, id).Some? then FirstIn(r.states, id)
    else if r.runId == Some(id) then Some(r.disposition) else None
  }

  function StatusOf(g: Graph, id: Id): Value {
    if id in g.nodes then Get(g.nodes[id].fields, Status) else Null
  }

  /** The reports on one id do not contradict each other: where the node is committed, all that carry
      a status carry the same one; where it is new, the one that creates it. */
  ghost predicate AgreesOn(g: Graph, r: SearchResult, id: Id) {
    forall v :: Reports(r, id, v) && Truthy(v) ==>
      if id in g.nodes then forall w :: Reports(r, id, w) && Truthy(w) ==> v == w
      else FirstReported(r, id) == Some(v)
  }

  ghost predicate StatusesAgree(g: Graph, r: SearchResult) {
    forall id :: AgreesOn(g, r, id)
  }

  /** Nothing reported for the id is still to be written. */
  ghost predicate SettledOn(h: Graph, r: SearchResult, id: Id) {
    forall v :: Reports(r, id, v) && Truthy(v) ==> v == StatusOf(h, id)
  }

  /** Reporting each state once, and not under the id of the run, is enough. */
  lemma {:induction false} DistinctReportsAgree(g: Graph, r: SearchResult)
    requires forall i, j :: 0 <= i < j < |r.states| ==> r.states[i].id != r.states[j].id
    requires forall s :: s in r.states ==> Some(s.id) != r.runId
    ensures StatusesAgree(g, r)
  {
    forall id
      ensures AgreesOn(g, r, id)
    {
      OnlyReportIsFirst(r.states, id);
    }
  }

  lemma {:induction false} OnlyReportIsFirst(states: seq<StateReport>, id: Id)
    requires forall i, j :: 0 <= i < j < |states| ==> states[i].id != states[j].id
    ensures forall v :: ReportsIn(states, id, v) <==> FirstIn(states, id) == Some(v)
  {
    if states != [] {
      var rest, last := states[..|states| - 1], states[|states| - 1];
      OnlyReportIsFirst(rest, id);
      assert states == rest + [last];
      assert ReportsIn(states, last.id, Get(last.fields, Status));
      forall v
        ensures ReportsIn(states, id, v) <==>
                ReportsIn(rest, id, v) || (last.id == id && Get(last.fields, Status) == v)
      {
      }
      forall s | s in rest
        ensures s.id != last.id
      {
      }
    }
  }

  // ---- what the ops do to the status of an id ----

  /** What a batch of ops may do to the status of `id`, when these are the reports it was made from:
      it writes a reported status that differs, if there is one, and creates the node with the first. */
  ghost predicate Writes(g: Graph, ops: seq<Op>, id: Id, reported: set<Value>, first: Option<Value>) {
    var last, up := LastSet(ops, id, Status), FirstUpsert(ops, id);
    && (last.Some? ==>
          id in g.nodes && last.value in reported && Truthy(last.value) && last.value != StatusOf(g, id))
    && (last.None? && id in g.nodes ==> forall v :: v in reported && Truthy(v) ==> v == StatusOf(g, id))
    && (id !in g.nodes ==>
          (up.Some? <==> first.Some?) && (up.Some? ==> Get(up.value.fields, Status) == first.value))
  }

  lemma {:induction false} WritesConcat(g: Graph, a: seq<Op>, b: seq<Op>, id: Id, some: set<Value>,
                                        more: set<Value>, first: Option<Value>, second: Option<Value>)
    requires Writes(g, a, id, some, first) && Writes(g, b, id, more, second)
    ensures Writes(g, a + b, id, some + more, if first.Some? then first else second)
  {
    LastSetConcat(a, b, id, Status);
    FirstUpsertConcat(a, b, id);
  }

  lemma {:induction false} SingleOp(op: Op, id: Id)
    ensures LastSet([op], id, Status) == if Sets(op, id, Status) then Some(op.value) else None
    ensures FirstUpsert([op], id) == if Upserts(op, id) then Some(Node(op.lab, op.fields)) else None
  {
    assert [op][..0] == [];
  }

  lemma {:induction false} OneStateWrites(g: Graph, s: StateReport, id: Id)
    ensures Writes(g, StateOps(g, s), id, if s.id == id then {Get(s.fields, Status)} else {},
                   if s.id == id then Some(Get(s.fields, Status)) else None)
  {
    var ops := StateOps(g, s);
    if ops != [] {
      SingleOp(ops[0], id);
      assert ops == [ops[0]];
    }
  }

  function StatusesIn(states: seq<StateReport>, id: Id): set<Value> {
    set s | s in states && s.id == id :: Get(s.fields, Status)
  }

  lemma {:induction false} StatesWrite(g: Graph, states: seq<StateReport>, id: Id)
    ensures Writes(g, AllStateOps(g, states), id, StatusesIn(states, id), FirstIn(states, id))
  {
    if states != [] {
      var rest, last := states[..|states| - 1], states[|states| - 1];
      StatesWrite(g, rest, id);
      OneStateWrites(g, last, id);
      WritesConcat(g, AllStateOps(g, rest), StateOps(g, last), id, StatusesIn(rest, id),
                   if last.id == id then {Get(last.fields, Status)} else {}, FirstIn(rest, id),
                   if last.id == id then Some(Get(last.fields, Status)) else None);
      assert states == rest + [last];
      assert StatusesIn(states, id) ==
             StatusesIn(rest, id) + if last.id == id then {Get(last.fields, Status)} else {};
    }
  }

  /** Everything but the states and the run. */
  function Tail(g: Graph, r: SearchResult, checkpoint: nat, certificate: nat): seq<Op> {
    AllTacticOps(g, r.tactics) + After(g, r, checkpoint, certificate)
  }

  lemma {:induction false} ObstructionsSetNothing(g: Graph, r: SearchResult, obstructions: seq<ObstructionReport>)
    ensures forall op :: op in AllObstructionOps(g, r, obstructions) ==> !op.SetField?
  {
    if obstructions != [] {
      ObstructionsSetNothing(g, r, obstructions[..|obstructions| - 1]);
    }
  }

  lemma {:induction false} TacticsSetNothing(g: Graph, r: SearchResult)
    ensures forall op :: op in AllTacticOps(g, r.tactics) ==> !op.SetField?
  {
    forall op | op in AllTacticOps(g, r.tactics)
      ensures !op.SetField?
    {
      TacticOpFromBlock(g, r.tactics, op);
      var t :| FromTactic(g, r.tactics, op, t);
      BlockOps(t, op);
    }
  }

  lemma {:induction false} MintedSetNothing(r: SearchResult, checkpoint: nat, certificate: nat)
    ensures forall op :: op in CheckpointOps(r, checkpoint) ==> !op.SetField?
    ensures forall op :: op in CertificateOps(r, certificate) ==> !op.SetField?
  {
  }

  lemma {:induction false} TailSetsNothing(g: Graph, r: SearchResult, checkpoint: nat, certificate: nat, id: Id)
    ensures LastSet(Tail(g, r, checkpoint, certificate), id, Status) == None
  {
    ObstructionsSetNothing(g, r, r.obstructions);
    MintedSetNothing(r, checkpoint, certificate);
    TacticsSetNothing(g, r);
    var tail := Tail(g, r, checkpoint, certificate);
    forall op | op in tail
      ensures !Sets(op, id, Status)
    {
      assert op in AllTacticOps(g, r.tactics) || op in CheckpointOps(r, checkpoint) ||
             op in CertificateOps(r, certificate) || op in AllObstructionOps(g, r, r.obstructions);
    }
    NeverSet(tail, id, Status);
  }

  lemma {:induction false} NestRight<T>(a: seq<T>, b: seq<T>, c: seq<T>, d: seq<T>)
    ensures a + b + c + d == a + (b + (c + d))
  {
  }

  lemma {:induction false} CompiledThree(g: Graph, r: SearchResult, checkpoint: nat, certificate: nat)
    ensures Compiled(g, r, checkpoint, certificate) ==
            AllStateOps(g, r.states) + (RunOps(g, r) + Tail(g, r, checkpoint, certificate))
  {
    CompiledSplits(g, r, checkpoint, certificate);
    NestRight(AllStateOps(g, r.states), RunOps(g, r), AllTacticOps(g, r.tactics),
              After(g, r, checkpoint, certificate));
  }

  function StatusOfRun(r: SearchResult, id: Id): set<Value> {
    if r.runId == Some(id) then {r.disposition} else {}
  }

  function FirstOfRun(r: SearchResult, id: Id): Option<Value> {
    if r.runId == Some(id) then Some(r.disposition) else None
  }

  lemma {:induction false} RunWrites(g: Graph, r: SearchResult, id: Id)
    ensures Writes(g, RunOps(g, r), id, StatusOfRun(r, id), FirstOfRun(r, id))
  {
    if r.runId.Some? {
      var run := r.runId.value;
      var node, search := RunNodeOps(g, r, run), SearchOps(g, r, run);
      RunNodeWrites(g, r, run, id);
      assert Writes(g, search, id, {}, None) by {
        NeverSet(search, id, Status);
        FirstUpsertIsAnOp(search, id);
      }
      WritesConcat(g, node, search, id, StatusOfRun(r, id), {}, FirstOfRun(r, id), None);
      assert StatusOfRun(r, id) + {} == StatusOfRun(r, id);
    }
  }

  lemma {:induction false} RunNodeWrites(g: Graph, r: SearchResult, run: Id, id: Id)
    requires r.runId == Some(run)
    ensures Writes(g, RunNodeOps(g, r, run), id, StatusOfRun(r, id), FirstOfRun(r, id))
  {
    var ops := RunNodeOps(g, r, run);
    if ops != [] {
      var tail := ops[1..];
      SingleOp(ops[0], id);
      assert ops == [ops[0]] + tail;
      LastSetConcat([ops[0]], tail, id, Status);
      FirstUpsertConcat([ops[0]], tail, id);
      NeverSet(tail, id, Status);
      FirstUpsertIsAnOp(tail, id);
    }
  }

  /** All of a result's ops, on an id it reports: whatever is written or created first is a report. */
  lemma {:induction false} CompiledWrites(g: Graph, r: SearchResult, checkpoint: nat, certificate: nat, id: Id)
    ensures var ops := Compiled(g, r, checkpoint, certificate);
            var last := LastSet(ops, id, Status);
            && (last.Some? ==> id in g.nodes && Reports(r, id, last.value) && Truthy(last.value) &&
                               last.value != StatusOf(g, id))
            && (last.None? && id in g.nodes ==> SettledOn(g, r, id))
            && (id !in g.nodes && FirstReported(r, id).Some? ==>
                  FirstUpsert(ops, id).Some? &&
                  Get(FirstUpsert(ops, id).value.fields, Status) == FirstReported(r, id).value)
  {
    StatesWrite(g, r.states, id);
    RunWrites(g, r, id);
    WritesConcat(g, AllStateOps(g, r.states), RunOps(g, r), id, StatusesIn(r.states, id), StatusOfRun(r, id),
                 FirstIn(r.states, id), FirstOfRun(r, id));
    HeadDecides(g, r, checkpoint, certificate, id);
    ReportedStatuses(r, id);
  }

  lemma {:induction false} ReportedStatuses(r: SearchResult, id: Id)
    ensures forall v :: Reports(r, id, v) <==> v in StatusesIn(r.states, id) + StatusOfRun(r, id)
    ensures FirstReported(r, id) ==
            if FirstIn(r.states, id).Some? then FirstIn(r.states, id) else FirstOfRun(r, id)
  {
  }

  lemma {:induction false} HeadDecides(g: Graph, r: SearchResult, checkpoint: nat, certificate: nat, id: Id)
    ensures var ops := Compiled(g, r, checkpoint, certificate);
            var head := AllStateOps(g, r.states) + RunOps(g, r);
            && LastSet(ops, id, Status) == LastSet(head, id, Status)
            && (FirstUpsert(head, id).Some? ==> FirstUpsert(ops, id) == FirstUpsert(head, id))
  {
    CompiledThree(g, r, checkpoint, certificate);
    TailSetsNothing(g, r, checkpoint, certificate, id);
    TailIgnored(AllStateOps(g, r.states), RunOps(g, r), Tail(g, r, checkpoint, certificate), id);
  }

  lemma {:induction false} TailIgnored(a: seq<Op>, b: seq<Op>, tail: seq<Op>, id: Id)
    requires LastSet(tail, id, Status).None?
    ensures LastSet(a + (b + tail), id, Status) == LastSet(a + b, id, Status)
    ensures FirstUpsert(a + b, id).Some? ==> FirstUpsert(a + (b + tail), id) == FirstUpsert(a + b, id)
  {
    assert a + (b + tail) == (a + b) + tail;
    LastSetConcat(a + b, tail, id, Status);
    FirstUpsertConcat(a + b, tail, id);
  }

  /** After the first pass, nothing is left to write for an id exactly when its reports agree. */
  lemma {:induction false} SettledIffAgrees(g: Graph, r: SearchResult, checkpoint: nat, certificate: nat, id: Id)
    requires ApplyOps(g, Compiled(g, r, checkpoint, certificate)).ok
    ensures SettledOn(ApplyOps(g, Compiled(g, r, checkpoint, certificate)).graph, r, id) <==> AgreesOn(g, r, id)
    ensures FirstReported(r, id).Some? ==> id in ApplyOps(g, Compiled(g, r, checkpoint, certificate)).graph.nodes
  {
    var ops := Compiled(g, r, checkpoint, certificate);
    var h := ApplyOps(g, ops).graph;
    CompiledWrites(g, r, checkpoint, certificate, id);
    NodeAfter(g, ops, id);
    ReportedHasFirst(r, id);
    if Origin(g, ops, id).Some? {
      FinalValueHolds(g, ops, id, Status);
    }
  }

  lemma {:induction false} ReportedHasFirst(r: SearchResult, id: Id)
    ensures (exists v :: Reports(r, id, v)) <==> FirstReported(r, id).Some?
    ensures FirstReported(r, id).Some? ==> Reports(r, id, FirstReported(r, id).value)
  {
    FirstIsReported(r.states, id);
    if FirstReported(r, id).Some? {
      assert Reports(r, id, FirstReported(r, id).value);
    }
  }

  lemma {:induction false} FirstIsReported(states: seq<StateReport>, id: Id)
    ensures FirstIn(states, id).Some? ==> ReportsIn(states, id, FirstIn(states, id).value)
    ensures FirstIn(states, id).None? ==> forall s :: s in states ==> s.id != id
  {
    if states != [] {
      var rest, last := states[..|states| - 1], states[|states| - 1];
      FirstIsReported(rest, id);
      assert states == rest + [last];
      if v :| FirstIn(rest, id) == Some(v) {
        var s :| s in rest && s.id == id && Get(s.fields, Status) == v;
        assert s in states;
      } else {
        assert last in states;
      }
    }
  }

  // ---- a committed result ----

  lemma {:induction false} StatesSettled(h: Graph, states: seq<StateReport>)
    requires forall s :: s in states ==> StateOps(h, s) == []
    ensures AllStateOps(h, states) == []
  {
    if states != [] {
      StatesSettled(h, states[..|states| - 1]);
    }
  }

  lemma {:induction false} TacticsSettled(h: Graph, tactics: seq<TacticReport>)
    requires forall t :: t in tactics ==> t.id in h.nodes
    ensures AllTacticOps(h, tactics) == []
  {
    if tactics != [] {
      TacticsSettled(h, tactics[..|tactics| - 1]);
    }
  }

  lemma {:induction false} ObstructionsSettled(h: Graph, r: SearchResult, obstructions: seq<ObstructionReport>)
    requires forall o :: o in obstructions ==> o.id in h.nodes
    ensures AllObstructionOps(h, r, obstructions) == []
  {
    if obstructions != [] {
      ObstructionsSettled(h, r, obstructions[..|obstructions| - 1]);
    }
  }

  lemma {:induction false} UpsertedExists(g: Graph, ops: seq<Op>, op: Op)
    requires ApplyOps(g, ops).ok && op in ops && op.UpsertNode?
    ensures op.id in ApplyOps(g, ops).graph.nodes
  {
    NodeAfter(g, ops, op.id);
    FirstUpsertIsAnOp(ops, op.id);
    assert Upserts(op, op.id);
  }

  lemma {:induction false} TacticCommitted(g: Graph, r: SearchResult, ops: seq<Op>, t: TacticReport)
    requires CompiledSomehow(g, r, ops) && ApplyOps(g, ops).ok && t in r.tactics
    ensures t.id in ApplyOps(g, ops).graph.nodes
  {
    if t.id in g.nodes {
      NodeAfter(g, ops, t.id);
    } else {
      assert FromTactic(g, r.tactics, TacticNode(t), t);
      BlockIsEmitted(g, r, ops, t, TacticNode(t));
      UpsertedExists(g, ops, TacticNode(t));
    }
  }

  lemma {:induction false} ObstructionEmitted(g: Graph, r: SearchResult, obstructions: seq<ObstructionReport>,
                                              o: ObstructionReport)
    requires o in obstructions && o.id !in g.nodes
    ensures ObstructionHead(r, o)[0] in AllObstructionOps(g, r, obstructions)
  {
    var rest, last := obstructions[..|obstructions| - 1], obstructions[|obstructions| - 1];
    if last == o {
      var ops := ObstructionOps(g, r, o);
      assert ops[0] == ObstructionHead(r, o)[0];
      assert ops[0] in ops;
    } else {
      ObstructionEmitted(g, r, rest, o);
    }
  }

  lemma {:induction false} ObstructionCommitted(g: Graph, r: SearchResult, ops: seq<Op>, o: ObstructionReport)
    requires CompiledSomehow(g, r, ops) && ApplyOps(g, ops).ok && o in r.obstructions
    ensures o.id in ApplyOps(g, ops).graph.nodes
  {
    if o.id in g.nodes {
      NodeAfter(g, ops, o.id);
    } else {
      var checkpoint, certificate :| ops == Compiled(g, r, checkpoint, certificate);
    CompiledThree(g, r, checkpoint, certificate);
      ObstructionEmitted(g, r, r.obstructions, o);
      assert ObstructionHead(r, o)[0] in After(g, r, checkpoint, certificate);
      UpsertedExists(g, ops, ObstructionHead(r, o)[0]);
    }
  }

  /** The search edge, if asked for again, finds its id taken. */
  lemma {:induction false} SearchSettled(g: Graph, r: SearchResult, ops: seq<Op>, run: Id, op: Op)
    requires CompiledSomehow(g, r, ops) && ApplyOps(g, ops).ok && r.runId == Some(run)
    requires op in SearchOps(ApplyOps(g, ops).graph, r, run)
    ensures op.AddEdge? && op.eid in ApplyOps(g, ops).graph.edges
  {
    SearchedStays(g, r, ops, run, r.declaration.value);
    var checkpoint, certificate :| ops == Compiled(g, r, checkpoint, certificate);
    CompiledThree(g, r, checkpoint, certificate);
    assert SearchOps(g, r, run) == [op];
    assert op in RunOps(g, r);
    assert op in ops;
    RemovesNothing(g, r, ops, op.eid);
    EdgeAfter(g, ops, op.eid);
    EdgeSurvives(ops, op.eid, EdgeOf(g, op.eid));
    assert Adds(op, op.eid);
  }

  lemma {:induction false} SearchedStays(g: Graph, r: SearchResult, ops: seq<Op>, run: Id, declaration: Id)
    requires CompiledSomehow(g, r, ops) && ApplyOps(g, ops).ok
    ensures HasSearched(g, run, declaration) ==> HasSearched(ApplyOps(g, ops).graph, run, declaration)
  {
    if e :| e in ScanFrom(g, run, Searches) && g.edges[e].dst == declaration {
      EdgeKept(g, r, ops, e);
      assert e in ScanFrom(ApplyOps(g, ops).graph, run, Searches);
    }
  }

  lemma {:induction false} EdgeKept(g: Graph, r: SearchResult, ops: seq<Op>, eid: Id)
    requires CompiledSomehow(g, r, ops) && ApplyOps(g, ops).ok && eid in g.edges
    ensures EdgeOf(ApplyOps(g, ops).graph, eid) == EdgeOf(g, eid)
  {
    RemovesNothing(g, r, ops, eid);
    EdgeAfter(g, ops, eid);
    EdgeSurvives(ops, eid, EdgeOf(g, eid));
  }

  // ---- resubmission ----

  lemma {:induction false} PartsSettled(g: Graph, r: SearchResult, ops: seq<Op>)
    requires CompiledSomehow(g, r, ops) && ApplyOps(g, ops).ok
    ensures AllTacticOps(ApplyOps(g, ops).graph, r.tactics) == []
    ensures AllObstructionOps(ApplyOps(g, ops).graph, r, r.obstructions) == []
  {
    var h := ApplyOps(g, ops).graph;
    forall t | t in r.tactics
      ensures t.id in h.nodes
    {
      TacticCommitted(g, r, ops, t);
    }
    TacticsSettled(h, r.tactics);
    forall o | o in r.obstructions
      ensures o.id in h.nodes
    {
      ObstructionCommitted(g, r, ops, o);
    }
    ObstructionsSettled(h, r, r.obstructions);
  }

  /** What is settled emits no op on a node. */
  lemma {:induction false} SettledEmitsNothing(h: Graph, r: SearchResult)
    requires forall id :: SettledOn(h, r, id)
    requires forall id :: FirstReported(r, id).Some? ==> id in h.nodes
    ensures AllStateOps(h, r.states) == []
    ensures r.runId.Some? ==> RunNodeOps(h, r, r.runId.value) == []
  {
    forall s | s in r.states
      ensures StateOps(h, s) == []
    {
      assert Reports(r, s.id, Get(s.fields, Status));
      ReportedHasFirst(r, s.id);
      assert SettledOn(h, r, s.id);
    }
    StatesSettled(h, r.states);
    if r.runId.Some? {
      assert Reports(r, r.runId.value, r.disposition);
      ReportedHasFirst(r, r.runId.value);
      assert SettledOn(h, r, r.runId.value);
    }
  }

  /** Every node and edge these ops would add has its id taken. */
  predicate AllTaken(h: Graph, ops: seq<Op>) {
    forall op :: op in ops ==>
      (op.UpsertNode? && op.id in h.nodes) || (op.AddEdge? && op.eid in h.edges)
  }

  lemma {:induction false} TakenChangesNothing(h: Graph, ops: seq<Op>)
    requires AllTaken(h, ops)
    ensures ApplyOps(h, ops) == Outcome(h, true)
  {
    if ops != [] {
      assert ops[|ops| - 1] in ops;
      TakenChangesNothing(h, ops[..|ops| - 1]);
    }
  }

  /** Ops that only add, and leave everything as it was, add only what is taken. */
  lemma {:induction false} NothingChangesIsTaken(h: Graph, ops: seq<Op>)
    requires forall op :: op in ops ==> op.UpsertNode? || op.AddEdge?
    requires ApplyOps(h, ops) == Outcome(h, true)
    ensures AllTaken(h, ops)
  {
    forall op | op in ops
      ensures (op.UpsertNode? && op.id in h.nodes) || (op.AddEdge? && op.eid in h.edges)
    {
      if op.UpsertNode? {
        UpsertedExists(h, ops, op);
      } else {
        EdgeAfter(h, ops, op.eid);
        EdgeSurvives(ops, op.eid, EdgeOf(h, op.eid));
        assert Adds(op, op.eid);
      }
    }
  }

  /** The checkpoint and certificate ops. */
  function Minted(r: SearchResult, checkpoint: nat, certificate: nat): seq<Op> {
    CheckpointOps(r, checkpoint) + CertificateOps(r, certificate)
  }

  lemma {:induction false} MintedOnlyAdds(r: SearchResult, checkpoint: nat, certificate: nat)
    ensures forall op :: op in Minted(r, checkpoint, certificate) ==> op.UpsertNode? || op.AddEdge?
  {
  }

  /** A settled result emits, at most, a search edge whose id is taken, then what it mints. */
  lemma {:induction false} SecondOps(g: Graph, r: SearchResult, ops: seq<Op>, checkpoint: nat, certificate: nat)
    returns (search: seq<Op>)
    requires CompiledSomehow(g, r, ops) && ApplyOps(g, ops).ok
    requires AllStateOps(ApplyOps(g, ops).graph, r.states) == []
    requires r.runId.Some? ==> RunNodeOps(ApplyOps(g, ops).graph, r, r.runId.value) == []
    ensures Compiled(ApplyOps(g, ops).graph, r, checkpoint, certificate) ==
            search + Minted(r, checkpoint, certificate)
    ensures AllTaken(ApplyOps(g, ops).graph, search)
  {
    var h := ApplyOps(g, ops).graph;
    search := RunOps(h, r);
    CompiledThree(h, r, checkpoint, certificate);
    PartsSettled(g, r, ops);
    EmptyEnds(search, Minted(r, checkpoint, certificate));
    if r.runId.Some? {
      forall op | op in search
        ensures op.AddEdge? && op.eid in h.edges
      {
        SearchSettled(g, r, ops, r.runId.value, op);
      }
    }
  }

  lemma {:induction false} EmptyEnds<T>(a: seq<T>, b: seq<T>)
    ensures [] + (a + ([] + (b + []))) == a + b
  {
  }

  /** Something left to write changes the status it is written to. */
  lemma {:induction false} UnsettledChanges(h: Graph, r: SearchResult, checkpoint: nat, certificate: nat, id: Id)
    requires !SettledOn(h, r, id) && id in h.nodes
    requires ApplyOps(h, Compiled(h, r, checkpoint, certificate)).ok
    ensures ApplyOps(h, Compiled(h, r, checkpoint, certificate)).graph != h
  {
    var ops := Compiled(h, r, checkpoint, certificate);
    CompiledWrites(h, r, checkpoint, certificate, id);
    FinalValueHolds(h, ops, id, Status);
  }

  /** Applying a compiled result a second time leaves the view as it is exactly when its reports do not
      contradict each other and the ids it mints, and their edges, are taken. */
  lemma {:induction false} SecondPassIsSilentIff(g: Graph, r: SearchResult, ops: seq<Op>, checkpoint: nat,
                                                 certificate: nat)
    requires CompiledSomehow(g, r, ops)
    ensures ApplyOps(g, ops).ok
    ensures var h := ApplyOps(g, ops).graph;
            var again := ApplyOps(h, Compiled(h, r, checkpoint, certificate));
            again.ok && (again.graph == h <==>
                           StatusesAgree(g, r) && AllTaken(h, Minted(r, checkpoint, certificate)))
  {
    CompiledApplies(g, r, ops);
    var h := ApplyOps(g, ops).graph;
    CompiledApplies(h, r, Compiled(h, r, checkpoint, certificate));
    var c, k :| ops == Compiled(g, r, c, k);
    forall id
      ensures SettledOn(h, r, id) <==> AgreesOn(g, r, id)
      ensures FirstReported(r, id).Some? ==> id in h.nodes
    {
      SettledIffAgrees(g, r, c, k, id);
    }
    if StatusesAgree(g, r) {
      SettledPass(g, r, ops, checkpoint, certificate);
    } else {
      var id :| !AgreesOn(g, r, id);
      ReportedHasFirst(r, id);
      UnsettledChanges(h, r, checkpoint, certificate, id);
    }
  }

  lemma {:induction false} SettledPass(g: Graph, r: SearchResult, ops: seq<Op>, checkpoint: nat, certificate: nat)
    requires CompiledSomehow(g, r, ops) && ApplyOps(g, ops).ok
    requires forall id :: SettledOn(ApplyOps(g, ops).graph, r, id)
    requires forall id :: FirstReported(r, id).Some? ==> id in ApplyOps(g, ops).graph.nodes
    requires ApplyOps(ApplyOps(g, ops).graph, Compiled(ApplyOps(g, ops).graph, r, checkpoint, certificate)).ok
    ensures var h := ApplyOps(g, ops).graph;
            ApplyOps(h, Compiled(h, r, checkpoint, certificate)).graph == h <==>
            AllTaken(h, Minted(r, checkpoint, certificate))
  {
    var h := ApplyOps(g, ops).graph;
    SettledEmitsNothing(h, r);
    var search := SecondOps(g, r, ops, checkpoint, certificate);
    TakenChangesNothing(h, search);
    ApplyConcat(h, search, Minted(r, checkpoint, certificate));
    if AllTaken(h, Minted(r, checkpoint, certificate)) {
      TakenChangesNothing(h, Minted(r, checkpoint, certificate));
    }
    if ApplyOps(h, Minted(r, checkpoint, certificate)) == Outcome(h, true) {
      MintedOnlyAdds(r, checkpoint, certificate);
      NothingChangesIsTaken(h, Minted(r, checkpoint, certificate));
    }
  }

  /** With the serials the allocator gives for a proof id without a slash, minted ids are never taken:
      committing a result twice is silent exactly when its reports do not contradict each other and it
      carries neither a checkpoint with a frontier nor a certificate. */
  lemma {:induction false} ResubmissionIsSilentIff(g: Graph, r: SearchResult, ops: seq<Op>, again: seq<Op>)
    requires r.proofId != "" && '/' !in r.proofId
    requires IsCompiled(g, r, ops) && IsCompiled(ApplyOps(g, ops).graph, r, again)
    ensures ApplyOps(g, ops).ok && ApplyOps(ApplyOps(g, ops).graph, again).ok
    ensures ApplyOps(ApplyOps(g, ops).graph, again).graph == ApplyOps(g, ops).graph <==>
            StatusesAgree(g, r) && !MakesCheckpoint(r) && r.certificate.None?
  {
    var h := ApplyOps(g, ops).graph;
    var checkpoint, certificate :|
      IsNextSerial(h.nodes.Keys, "fc", checkpoint) && IsNextSerial(h.nodes.Keys, "cert", certificate) &&
      again == Compiled(h, r, checkpoint, certificate);
    SecondPassIsSilentIff(g, r, ops, checkpoint, certificate);
    var minted := Minted(r, checkpoint, certificate);
    MintedIsNew(h.nodes.Keys, r.proofId, "fc", checkpoint);
    MintedIsNew(h.nodes.Keys, r.proofId, "cert", certificate);
    if MakesCheckpoint(r) {
      assert CheckpointOps(r, checkpoint)[0] in minted;
    } else if r.certificate.Some? {
      assert CertificateOps(r, certificate)[0] in minted;
    }
  }

  /** With a slash in the proof id the allocator may give the same serials again, and then even a
      checkpoint or certificate is taken. */
  lemma {:induction false} SameSerialsAreTaken(g: Graph, r: SearchResult, checkpoint: nat, certificate: nat)
    ensures var ops := Compiled(g, r, checkpoint, certificate);
            ApplyOps(g, ops).ok && AllTaken(ApplyOps(g, ops).graph, Minted(r, checkpoint, certificate))
  {
    var ops := Compiled(g, r, checkpoint, certificate);
    CompiledApplies(g, r, ops);
    MintedOnlyAdds(r, checkpoint, certificate);
    forall op | op in Minted(r, checkpoint, certificate)
      ensures op in ops
    {
    }
    forall op | op in Minted(r, checkpoint, certificate) && op.UpsertNode?
      ensures op.id in ApplyOps(g, ops).graph.nodes
    {
      UpsertedExists(g, ops, op);
    }
    forall op | op in Minted(r, checkpoint, certificate) && op.AddEdge?
      ensures op.eid in ApplyOps(g, ops).graph.edges
    {
      RemovesNothing(g, r, ops, op.eid);
      EdgeAfter(g, ops, op.eid);
      EdgeSurvives(ops, op.eid, EdgeOf(g, op.eid));
      assert Adds(op, op.eid);
    }
  }
}
