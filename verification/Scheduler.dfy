/** The global scheduler: the frontier, its scores, and leasing best first. */
module Scheduler {
  import opened Vocabulary
  import opened GraphState
  import opened Sorting
  import opened Ledger

  datatype Feature =
    | DependencyCentrality | TheoremImpact | InformationGain | Novelty | VerificationValue
    | Readiness | Cost | FailureRisk | HumanPriority | WorkerAvailability

  const FEATURES := [DependencyCentrality, TheoremImpact, InformationGain, Novelty,
                     VerificationValue, Readiness, Cost, FailureRisk, HumanPriority,
                     WorkerAvailability]

  datatype Category = ResearchTask | FormalTask | CriticTask

  datatype Candidate = FrontierEntry(move: Move, category: Category, features: map<Feature, real>)

  /** The weights of a policy and the failure rates on record: fixed while nothing is recorded. */
  datatype Policy = Policy(weight: Feature -> real, risk: Category -> real)

  // ---- the frontier ----

  predicate HasStatus(fields: Fields, statuses: set<Token>) {
    exists t :: t in statuses && Get(fields, Status) == Str(t)
  }

  predicate InProof(proofId: string, id: Id) {
    proofId + "/" <= id
  }

  /** A PROPOSES edge from a live research state of the proof to a waiting move. */
  predicate LiveProposal(g: Graph, proofId: string, e: Id) {
    && e in g.edges && g.edges[e].rel == Proposes
    && LiveState(g, proofId, g.edges[e].src)
    && WaitingMove(g, g.edges[e].dst)
  }

  predicate LiveState(g: Graph, proofId: string, s: Id) {
    && s in g.nodes && InProof(proofId, s) && g.nodes[s].lab == ResearchState
    && !HasStatus(g.nodes[s].fields, {Token.Superseded, Refuted, Stale})
  }

  predicate WaitingMove(g: Graph, m: Id) {
    m in g.nodes && g.nodes[m].lab == ResearchMove && HasStatus(g.nodes[m].fields, {Queued, Open})
  }

  function ResearchCandidate(m: Id): Candidate {
    FrontierEntry(m, ResearchTask, map[InformationGain := 0.6, Readiness := 0.3, Cost := 1.0])
  }

  /** `_has_favorable_verdict`. */
  predicate Favors(g: Graph, attempt: Id) {
    && attempt in g.nodes && g.nodes[attempt].lab == Attempt
    && Get(g.nodes[attempt].fields, WorkerClass) == Str(Critic)
    && HasStatus(g.nodes[attempt].fields, {Supported, CriticAccepted})
  }

  predicate HasFavorable(g: Graph, claim: Id) {
    exists e :: e in ScanTo(g, claim, ReviewsClaim) && Favors(g, g.edges[e].src)
  }

  /** `_run_has_open_checkpoint`. */
  predicate IsOpenState(g: Graph, s: Id) {
    s in g.nodes && HasStatus(g.nodes[s].fields, {Open, Expanded})
  }

  predicate IsOpenCheckpoint(g: Graph, checkpoint: Id) {
    checkpoint in g.nodes &&
    exists e :: e in ScanFrom(g, checkpoint, CheckpointFrontier) && IsOpenState(g, g.edges[e].dst)
  }

  predicate HasOpenCheckpoint(g: Graph, run: Id) {
    exists e :: e in ScanFrom(g, run, HasCheckpoint) && IsOpenCheckpoint(g, g.edges[e].dst)
  }

  function Centrality(dependencies: nat): real {
    var scaled := 0.25 * (dependencies + 1) as real;
    if scaled < 1.0 then scaled else 1.0
  }

  /** What a node of the proof itself offers to work on. */
  function TaskOf(g: Graph, id: Id): Option<Candidate>
    requires id in g.nodes
  {
    var node := g.nodes[id];
    if node.lab == FormalDeclaration && HasStatus(node.fields, {Aligned, Searching}) then
      Some(FrontierEntry(id, FormalTask, map[Readiness := 1.0, TheoremImpact := 0.8,
                                         VerificationValue := 0.7, Cost := 3.0]))
    else if node.lab == FormalRun && Get(node.fields, Status) == Str(Searching) && HasOpenCheckpoint(g, id) then
      Some(FrontierEntry(id, FormalTask, map[Readiness := 0.9, TheoremImpact := 0.8,
                                         VerificationValue := 0.7, Cost := 2.0]))
    else if node.lab == Claim && Get(node.fields, Status) == Str(Provisional) && !HasFavorable(g, id) then
      Some(FrontierEntry(id, CriticTask,
                     map[VerificationValue := 0.9, Cost := 1.5,
                         DependencyCentrality := Centrality(|ScanFrom(g, id, DependsOn)|)]))
    else None
  }

  ghost predicate OnFrontier(g: Graph, proofId: string, c: Candidate) {
    || (c == ResearchCandidate(c.move) &&
        exists e :: LiveProposal(g, proofId, e) && g.edges[e].dst == c.move)
    || (c.move in g.nodes && InProof(proofId, c.move) && TaskOf(g, c.move) == Some(c))
  }

  /** A move proposed by several states is on the frontier several times, always as the same
      candidate. */
  lemma {:induction false} MoveDeterminesCandidate(g: Graph, proofId: string, c: Candidate, d: Candidate)
    requires OnFrontier(g, proofId, c) && OnFrontier(g, proofId, d) && c.move == d.move
    ensures c == d
  {
    if c == ResearchCandidate(c.move) && exists e :: LiveProposal(g, proofId, e) && g.edges[e].dst == c.move {
      assert WaitingMove(g, c.move);
    }
  }

  method FindFavorable(view: MemoryView, claim: Id) returns (found: bool)
    requires view.Valid()
    ensures found <==> HasFavorable(view.Contents(), claim)
  {
    ghost var g := view.Contents();
    var edges := view.EdgesTo(claim, ReviewsClaim);
    for k := 0 to |edges|
      invariant forall j :: 0 <= j < k ==> !Favors(g, edges[j].1.src)
    {
      if edges[k].1.src in view.nodes {
        var attempt := view.nodes[edges[k].1.src];
        if attempt.lab == Attempt && Get(attempt.fields, WorkerClass) == Str(Critic) &&
           HasStatus(attempt.fields, {Supported, CriticAccepted})
        {
          assert edges[k].0 in ScanTo(g, claim, ReviewsClaim) && Favors(g, g.edges[edges[k].0].src);
          return true;
        }
      }
    }
    forall e | e in ScanTo(g, claim, ReviewsClaim)
      ensures !Favors(g, g.edges[e].src)
    {
      assert (e, g.edges[e]) in edges;
    }
    return false;
  }

  method FindOpenState(view: MemoryView, checkpoint: Id) returns (found: bool)
    requires view.Valid() && checkpoint in view.nodes
    ensures found <==> IsOpenCheckpoint(view.Contents(), checkpoint)
  {
    ghost var g := view.Contents();
    var edges := view.EdgesFrom(checkpoint, CheckpointFrontier);
    for k := 0 to |edges|
      invariant forall j :: 0 <= j < k ==> !IsOpenState(g, edges[j].1.dst)
    {
      if edges[k].1.dst in view.nodes && HasStatus(view.nodes[edges[k].1.dst].fields, {Open, Expanded}) {
        assert edges[k].0 in ScanFrom(g, checkpoint, CheckpointFrontier) &&
               IsOpenState(g, g.edges[edges[k].0].dst);
        return true;
      }
    }
    forall e | e in ScanFrom(g, checkpoint, CheckpointFrontier)
      ensures !IsOpenState(g, g.edges[e].dst)
    {
      assert (e, g.edges[e]) in edges;
    }
    return false;
  }

  method FindOpenCheckpoint(view: MemoryView, run: Id) returns (found: bool)
    requires view.Valid()
    ensures found <==> HasOpenCheckpoint(view.Contents(), run)
  {
    ghost var g := view.Contents();
    var edges := view.EdgesFrom(run, HasCheckpoint);
    for k := 0 to |edges|
      invariant forall j :: 0 <= j < k ==> !IsOpenCheckpoint(g, edges[j].1.dst)
    {
      if edges[k].1.dst in view.nodes {
        var open := FindOpenState(view, edges[k].1.dst);
        if open {
          assert edges[k].0 in ScanFrom(g, run, HasCheckpoint) &&
                 IsOpenCheckpoint(g, g.edges[edges[k].0].dst);
          return true;
        }
      }
    }
    forall e | e in ScanFrom(g, run, HasCheckpoint)
      ensures !IsOpenCheckpoint(g, g.edges[e].dst)
    {
      assert (e, g.edges[e]) in edges;
    }
    return false;
  }

  method FindTask(view: MemoryView, id: Id) returns (task: Option<Candidate>)
    requires view.Valid() && id in view.nodes
    ensures task == TaskOf(view.Contents(), id)
  {
    var node := view.nodes[id];
    match node.lab {
      case FormalDeclaration =>
        if HasStatus(node.fields, {Aligned, Searching}) {
          return Some(FrontierEntry(id, FormalTask, map[Readiness := 1.0, TheoremImpact := 0.8,
                                                    VerificationValue := 0.7, Cost := 3.0]));
        }
      case FormalRun =>
        if Get(node.fields, Status) == Str(Searching) {
          var open := FindOpenCheckpoint(view, id);
          if open {
            return Some(FrontierEntry(id, FormalTask, map[Readiness := 0.9, TheoremImpact := 0.8,
                                                      VerificationValue := 0.7, Cost := 2.0]));
          }
        }
      case Claim =>
        if Get(node.fields, Status) == Str(Provisional) {
          var favorable := FindFavorable(view, id);
          if !favorable {
            var dependencies := view.EdgesFrom(id, DependsOn);
            return Some(FrontierEntry(id, CriticTask,
                                  map[VerificationValue := 0.9, Cost := 1.5,
                                      DependencyCentrality := Centrality(|dependencies|)]));
          }
        }
      case _ =>
    }
    return None;
  }

  /** These candidates are exactly the research candidates for these moves. */
  ghost predicate ListsResearch(found: seq<Candidate>, moves: set<Move>) {
    forall c :: c in found <==> c == ResearchCandidate(c.move) && c.move in moves
  }

  function ProposedBy(g: Graph, s: Id): set<Move> {
    set e | e in ScanFrom(g, s, Proposes) && WaitingMove(g, g.edges[e].dst) :: g.edges[e].dst
  }

  function LiveMoves(g: Graph, proofId: string, sources: set<Id>): set<Move> {
    set e | e in g.edges && LiveProposal(g, proofId, e) && g.edges[e].src in sources :: g.edges[e].dst
  }

  function WaitingAmong(g: Graph, edges: seq<(Id, Edge)>): set<Move> {
    set e | e in edges && WaitingMove(g, e.1.dst) :: e.1.dst
  }

  lemma {:induction false} OneMoreEdge(g: Graph, edges: seq<(Id, Edge)>, k: nat)
    requires k < |edges|
    ensures WaitingAmong(g, edges[..k + 1]) ==
            WaitingAmong(g, edges[..k]) + if WaitingMove(g, edges[k].1.dst) then {edges[k].1.dst} else {}
  {
    assert edges[..k + 1] == edges[..k] + [edges[k]];
  }

  lemma {:induction false} OneMoreListed(found: seq<Candidate>, moves: set<Move>, m: Move)
    requires ListsResearch(found, moves)
    ensures ListsResearch(found + [ResearchCandidate(m)], moves + {m})
  {
  }

  lemma {:induction false} BothListed(a: seq<Candidate>, b: seq<Candidate>, some: set<Move>, more: set<Move>)
    requires ListsResearch(a, some) && ListsResearch(b, more)
    ensures ListsResearch(a + b, some + more)
  {
  }

  lemma {:induction false} OneMoreSource(g: Graph, proofId: string, sources: set<Id>, s: Id)
    ensures LiveMoves(g, proofId, sources + {s}) ==
            LiveMoves(g, proofId, sources) + if LiveState(g, proofId, s) then ProposedBy(g, s) else {}
  {
    var before, after := LiveMoves(g, proofId, sources), LiveMoves(g, proofId, sources + {s});
    forall m | m in after && m !in before
      ensures LiveState(g, proofId, s) && m in ProposedBy(g, s)
    {
      var e :| e in g.edges && LiveProposal(g, proofId, e) && g.edges[e].src in sources + {s} && g.edges[e].dst == m;
      assert e in ScanFrom(g, s, Proposes);
    }
    if LiveState(g, proofId, s) {
      forall m | m in ProposedBy(g, s)
        ensures m in after
      {
        var e :| e in ScanFrom(g, s, Proposes) && WaitingMove(g, g.edges[e].dst) && g.edges[e].dst == m;
        assert LiveProposal(g, proofId, e);
      }
    }
  }

  /** The waiting moves one state proposes. */
  method ProposedMoves(view: MemoryView, state: Id) returns (found: seq<Candidate>)
    requires view.Valid()
    ensures ListsResearch(found, ProposedBy(view.Contents(), state))
  {
    ghost var g := view.Contents();
    var edges := view.EdgesFrom(state, Proposes);
    found := [];
    for k := 0 to |edges|
      invariant ListsResearch(found, WaitingAmong(g, edges[..k]))
    {
      OneMoreEdge(g, edges, k);
      var m := edges[k].1.dst;
      if m in view.nodes && view.nodes[m].lab == ResearchMove &&
         HasStatus(view.nodes[m].fields, {Queued, Open})
      {
        OneMoreListed(found, WaitingAmong(g, edges[..k]), m);
        found := found + [ResearchCandidate(m)];
      }
    }
    assert edges[..|edges|] == edges;
    WaitingAreProposed(g, state, edges);
  }

  lemma {:induction false} WaitingAreProposed(g: Graph, state: Id, edges: seq<(Id, Edge)>)
    requires forall k :: 0 <= k < |edges| ==>
               edges[k].0 in ScanFrom(g, state, Proposes) && edges[k].1 == g.edges[edges[k].0]
    requires forall e :: e in ScanFrom(g, state, Proposes) ==> (e, g.edges[e]) in edges
    ensures WaitingAmong(g, edges) == ProposedBy(g, state)
  {
    forall m | m in ProposedBy(g, state)
      ensures m in WaitingAmong(g, edges)
    {
      var e :| e in ScanFrom(g, state, Proposes) && WaitingMove(g, g.edges[e].dst) && g.edges[e].dst == m;
      assert (e, g.edges[e]) in edges;
    }
  }

  /** `build_frontier`: exactly the eligible candidates; the order follows the view's node order,
      which is left open. */
  method BuildFrontier(view: MemoryView, proofId: string) returns (frontier: seq<Candidate>)
    requires view.Valid()
    ensures forall c :: c in frontier <==> OnFrontier(view.Contents(), proofId, c)
  {
    var research := BuildResearch(view, proofId);
    var tasks := BuildTasks(view, proofId);
    ghost var g := view.Contents();
    forall c: Candidate
      ensures c.move in LiveMoves(g, proofId, g.nodes.Keys) <==>
              exists e :: LiveProposal(g, proofId, e) && g.edges[e].dst == c.move
    {
      if e :| LiveProposal(g, proofId, e) && g.edges[e].dst == c.move {
        assert g.edges[e].src in g.nodes.Keys;
      }
    }
    return research + tasks;
  }

  method BuildResearch(view: MemoryView, proofId: string) returns (frontier: seq<Candidate>)
    requires view.Valid()
    ensures ListsResearch(frontier, LiveMoves(view.Contents(), proofId, view.nodes.Keys))
  {
    ghost var g := view.Contents();
    frontier := [];
    var pending := view.nodes.Keys;
    while pending != {}
      invariant pending <= view.nodes.Keys
      invariant ListsResearch(frontier, LiveMoves(g, proofId, view.nodes.Keys - pending))
    {
      var s :| s in pending;
      ghost var done := view.nodes.Keys - pending;
      OneMoreSource(g, proofId, done, s);
      assert view.nodes.Keys - (pending - {s}) == done + {s};
      if InProof(proofId, s) && view.nodes[s].lab == ResearchState &&
         !HasStatus(view.nodes[s].fields, {Token.Superseded, Refuted, Stale})
      {
        var found := ProposedMoves(view, s);
        BothListed(frontier, found, LiveMoves(g, proofId, done), ProposedBy(g, s));
        frontier := frontier + found;
      }
      pending := pending - {s};
    }
    assert view.nodes.Keys - {} == view.nodes.Keys;
  }

  method BuildTasks(view: MemoryView, proofId: string) returns (frontier: seq<Candidate>)
    requires view.Valid()
    ensures forall c :: c in frontier <==>
              c.move in view.nodes && InProof(proofId, c.move) && TaskOf(view.Contents(), c.move) == Some(c)
  {
    ghost var g := view.Contents();
    frontier := [];
    var pending := view.nodes.Keys;
    while pending != {}
      invariant pending <= view.nodes.Keys
      invariant forall c :: c in frontier <==>
        c.move in view.nodes && c.move !in pending && InProof(proofId, c.move) &&
        TaskOf(g, c.move) == Some(c)
    {
      var id :| id in pending;
      if InProof(proofId, id) {
        var task := FindTask(view, id);
        TaskKeepsId(g, id);
        if task.Some? {
          frontier := frontier + [task.value];
        }
      }
      pending := pending - {id};
    }
  }

  lemma {:induction false} TaskKeepsId(g: Graph, id: Id)
    requires id in g.nodes
    ensures TaskOf(g, id).Some? ==> TaskOf(g, id).value.move == id
  {
  }

  // ---- scores ----

  /** NEUTRAL_DEFAULTS. */
  function Neutral(f: Feature): real {
    if f == Cost || f == WorkerAvailability then 1.0 else 0.5
  }

  /** CATEGORY_WORKER_CLASS. */
  function NaturalWorker(category: Category): string {
    match category
    case ResearchTask => "llm-research"
    case FormalTask => "formal-atp"
    case CriticTask => "critic"
  }

  /** `_feature_vector`: defaults, then the candidate's own features, then risk and availability. */
  function FeatureOf(policy: Policy, worker: string, c: Candidate, f: Feature): real {
    if f == FailureRisk then policy.risk(c.category)
    else if f == WorkerAvailability then (if worker == NaturalWorker(c.category) then 1.0 else 0.3)
    else if f in c.features then c.features[f]
    else Neutral(f)
  }

  function WeightedSum(policy: Policy, worker: string, c: Candidate, features: seq<Feature>): real {
    if features == [] then 0.0
    else
      var last := features[|features| - 1];
      WeightedSum(policy, worker, c, features[..|features| - 1]) +
      policy.weight(last) * FeatureOf(policy, worker, c, last)
  }

  /** `SchedulerPolicy.score`. */
  function Priority(policy: Policy, worker: string, c: Candidate): real {
    WeightedSum(policy, worker, c, FEATURES)
  }

  // ---- ranking ----

  function ActiveMoves(l: Ledger): set<Move> {
    set id | id in l.leases && l.leases[id].status == Active && l.leases[id].move.Some?
      :: l.leases[id].move.value
  }

  /** The candidates no active lease covers, keyed so that the best comes first. */
  function Scored(policy: Policy, worker: string, frontier: seq<Candidate>, active: set<Move>)
    : (r: seq<Keyed<Candidate>>)
    ensures forall x :: x in r <==>
              x.item in frontier && x.item.move !in active && x.key == -Priority(policy, worker, x.item)
  {
    if frontier == [] then []
    else
      var last := frontier[|frontier| - 1];
      var before := Scored(policy, worker, frontier[..|frontier| - 1], active);
      if last.move in active then before else before + [Keyed(-Priority(policy, worker, last), last)]
  }

  function MovesOf(s: seq<Keyed<Candidate>>): (r: seq<Move>)
    ensures |r| == |s| && forall k :: 0 <= k < |r| ==> r[k] == s[k].item.move
  {
    seq(|s|, k requires 0 <= k < |s| => s[k].item.move)
  }

  /** The moves in the order they are offered to the store. */
  function Ranked(policy: Policy, worker: string, frontier: seq<Candidate>, active: set<Move>): seq<Move> {
    MovesOf(Sort(Scored(policy, worker, frontier, active)))
  }

  function Moves(frontier: seq<Candidate>): set<Move> {
    set c | c in frontier :: c.move
  }
}
