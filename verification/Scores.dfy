/** What a score is made of, and what that means for who is leased first. */
module Scores {
  import opened Vocabulary
  import opened GraphState
  import opened Sorting
  import opened Ledger
  import opened Scheduler
  import opened Leasing

  /** The value of a feature the candidate may carry; a missing one counts as 0.5, a missing cost as 1. */
  function Shown(c: Candidate, f: Feature): real {
    if f in c.features then c.features[f] else if f == Cost then 1.0 else 0.5
  }

  /** The worker class the category is meant for. */
  predicate Suits(worker: string, category: Category) {
    || (category == ResearchTask && worker == "llm-research")
    || (category == FormalTask && worker == "formal-atp")
    || (category == CriticTask && worker == "critic")
  }

  function Availability(worker: string, category: Category): real {
    if Suits(worker, category) then 1.0 else 0.3
  }

  /** The score is the weighted sum of ten features: eight the candidate shows, the failure rate of its
      category, and whether the worker suits it. */
  lemma {:induction false} ScoreIs(policy: Policy, worker: string, c: Candidate)
    ensures Priority(policy, worker, c) ==
            policy.weight(DependencyCentrality) * Shown(c, DependencyCentrality) +
            policy.weight(TheoremImpact) * Shown(c, TheoremImpact) +
            policy.weight(InformationGain) * Shown(c, InformationGain) +
            policy.weight(Novelty) * Shown(c, Novelty) +
            policy.weight(VerificationValue) * Shown(c, VerificationValue) +
            policy.weight(Readiness) * Shown(c, Readiness) +
            policy.weight(Cost) * Shown(c, Cost) +
            policy.weight(FailureRisk) * policy.risk(c.category) +
            policy.weight(HumanPriority) * Shown(c, HumanPriority) +
            policy.weight(WorkerAvailability) * Availability(worker, c.category)
  {
    TenTerms(policy, worker, c);
  }

  lemma {:induction false} TenTerms(policy: Policy, worker: string, c: Candidate)
    ensures Priority(policy, worker, c) ==
            Term(policy, worker, c, 0) + Term(policy, worker, c, 1) + Term(policy, worker, c, 2) +
            Term(policy, worker, c, 3) + Term(policy, worker, c, 4) + Term(policy, worker, c, 5) +
            Term(policy, worker, c, 6) + Term(policy, worker, c, 7) + Term(policy, worker, c, 8) +
            Term(policy, worker, c, 9)
  {
    SumsUp(policy, worker, c, 10);
    assert FEATURES[..10] == FEATURES;
    TwoMore(policy, worker, c, 0);
    TwoMore(policy, worker, c, 2);
    TwoMore(policy, worker, c, 4);
    TwoMore(policy, worker, c, 6);
    TwoMore(policy, worker, c, 8);
  }

  lemma {:induction false} TwoMore(policy: Policy, worker: string, c: Candidate, k: nat)
    requires k + 2 <= 10
    ensures Sum(policy, worker, c, k + 2) ==
            Sum(policy, worker, c, k) + Term(policy, worker, c, k) + Term(policy, worker, c, k + 1)
  {
  }

  function Term(policy: Policy, worker: string, c: Candidate, k: nat): real
    requires k < 10
  {
    policy.weight(FEATURES[k]) * FeatureOf(policy, worker, c, FEATURES[k])
  }

  function Sum(policy: Policy, worker: string, c: Candidate, k: nat): real
    requires k <= 10
  {
    if k == 0 then 0.0 else Sum(policy, worker, c, k - 1) + Term(policy, worker, c, k - 1)
  }

  lemma {:induction false} SumsUp(policy: Policy, worker: string, c: Candidate, k: nat)
    requires k <= 10
    ensures WeightedSum(policy, worker, c, FEATURES[..k]) == Sum(policy, worker, c, k)
  {
    if k > 0 {
      SumsUp(policy, worker, c, k - 1);
      assert FEATURES[..k][..k - 1] == FEATURES[..k - 1];
    }
  }

  /** Two candidates of one category that differ in one feature only. */
  predicate DifferIn(c: Candidate, d: Candidate, f: Feature) {
    && c.category == d.category && f != FailureRisk && f != WorkerAvailability
    && forall other :: other != f && other != FailureRisk && other != WorkerAvailability ==>
         Shown(c, other) == Shown(d, other)
  }

  /** Their scores differ by the weight of the feature times the difference in its value. */
  lemma {:induction false} OneFeature(policy: Policy, worker: string, c: Candidate, d: Candidate, f: Feature)
    requires DifferIn(c, d, f)
    ensures Priority(policy, worker, c) - Priority(policy, worker, d) ==
            policy.weight(f) * (Shown(c, f) - Shown(d, f))
  {
    TenTerms(policy, worker, c);
    TenTerms(policy, worker, d);
    var j :| 0 <= j < 10 && FEATURES[j] == f;
    var gap := policy.weight(f) * (Shown(c, f) - Shown(d, f));
    var x := seq(10, k requires 0 <= k < 10 => Term(policy, worker, c, k));
    var y := seq(10, k requires 0 <= k < 10 => Term(policy, worker, d, k));
    forall k | 0 <= k < 10
      ensures x[k] - y[k] == if k == j then gap else 0.0
    {
      TermDiffers(policy, worker, c, d, f, k);
      assert FEATURES[k] == f <==> k == j;
    }
    OneDiffers(x, y, j, gap);
  }

  lemma {:induction false} TermDiffers(policy: Policy, worker: string, c: Candidate, d: Candidate, f: Feature, k: nat)
    requires DifferIn(c, d, f) && k < 10
    ensures Term(policy, worker, c, k) - Term(policy, worker, d, k) ==
            if FEATURES[k] == f then policy.weight(f) * (Shown(c, f) - Shown(d, f)) else 0.0
  {
    var other := FEATURES[k];
    assert other != FailureRisk && other != WorkerAvailability ==>
      FeatureOf(policy, worker, c, other) == Shown(c, other) && FeatureOf(policy, worker, d, other) == Shown(d, other);
  }

  lemma {:induction false} OneDiffers(x: seq<real>, y: seq<real>, j: nat, gap: real)
    requires |x| == |y| == 10 && j < 10
    requires forall k :: 0 <= k < 10 ==> x[k] - y[k] == if k == j then gap else 0.0
    ensures x[0] + x[1] + x[2] + x[3] + x[4] + x[5] + x[6] + x[7] + x[8] + x[9] ==
            y[0] + y[1] + y[2] + y[3] + y[4] + y[5] + y[6] + y[7] + y[8] + y[9] + gap
  {
  }

  /** The failure rate of the category counts by its weight. */
  lemma {:induction false} RiskCounts(policy: Policy, other: Policy, worker: string, c: Candidate)
    requires forall f :: policy.weight(f) == other.weight(f)
    ensures Priority(policy, worker, c) - Priority(other, worker, c) ==
            policy.weight(FailureRisk) * (policy.risk(c.category) - other.risk(c.category))
  {
    ScoreIs(policy, worker, c);
    ScoreIs(other, worker, c);
  }

  /** A worker of the right class counts 0.7 of the weight of availability more than one of another. */
  lemma {:induction false} WorkersCount(policy: Policy, suited: string, other: string, c: Candidate)
    requires Suits(suited, c.category) && !Suits(other, c.category)
    ensures Priority(policy, suited, c) - Priority(policy, other, c) == policy.weight(WorkerAvailability) * 0.7
  {
    ScoreIs(policy, suited, c);
    ScoreIs(policy, other, c);
  }

  lemma {:induction false} NoWeightNoScore(policy: Policy, worker: string, c: Candidate)
    requires forall f :: policy.weight(f) == 0.0
    ensures Priority(policy, worker, c) == 0.0
  {
    ScoreIs(policy, worker, c);
  }

  /** Of two free candidates that differ in one feature, the one offered first has the larger value if the
      weight is positive and the smaller value if it is negative. */
  lemma {:induction false} WeightDecides(g: Graph, proofId: string, policy: Policy, worker: string,
                                         frontier: seq<Candidate>, l: Ledger, c: Candidate, d: Candidate, f: Feature)
    requires IsFrontier(g, proofId, frontier) && c in frontier && d in frontier && DifferIn(c, d, f)
    requires var ranked := Ranked(policy, worker, frontier, ActiveMoves(l));
             ranked != [] && c.move == ranked[0]
    requires d.move !in ActiveMoves(l)
    ensures policy.weight(f) > 0.0 ==> Shown(c, f) >= Shown(d, f)
    ensures policy.weight(f) < 0.0 ==> Shown(c, f) <= Shown(d, f)
  {
    FirstRankedIsBest(g, proofId, policy, worker, frontier, l, c, d);
    WeightSays(policy, worker, c, d, f);
  }

  lemma {:induction false} WeightSays(policy: Policy, worker: string, c: Candidate, d: Candidate, f: Feature)
    requires DifferIn(c, d, f) && Priority(policy, worker, c) >= Priority(policy, worker, d)
    ensures policy.weight(f) > 0.0 ==> Shown(c, f) >= Shown(d, f)
    ensures policy.weight(f) < 0.0 ==> Shown(c, f) <= Shown(d, f)
  {
    OneFeature(policy, worker, c, d, f);
    Decides(policy.weight(f), Shown(c, f), Shown(d, f), Priority(policy, worker, c), Priority(policy, worker, d));
  }

  lemma {:induction false} Decides(w: real, x: real, y: real, p: real, q: real)
    requires p >= q && p - q == w * (x - y)
    ensures w > 0.0 ==> x >= y
    ensures w < 0.0 ==> x <= y
  {
  }

  /** The moves of these candidates that no lease covers, in order. */
  function Unleased(frontier: seq<Candidate>, active: set<Move>): seq<Move> {
    if frontier == [] then []
    else (if frontier[0].move in active then [] else [frontier[0].move]) + Unleased(frontier[1..], active)
  }

  /** Where no candidate outscores an earlier one, the moves are offered in the order of the frontier; so ties
      keep their order. */
  lemma {:induction false} TiesKeepOrder(policy: Policy, worker: string, frontier: seq<Candidate>, active: set<Move>)
    requires forall i, j :: 0 <= i < j < |frontier| ==>
               Priority(policy, worker, frontier[i]) >= Priority(policy, worker, frontier[j])
    ensures Ranked(policy, worker, frontier, active) == Unleased(frontier, active)
  {
    ScoredAscends(policy, worker, frontier, active);
    SortKeepsAscending(Scored(policy, worker, frontier, active));
    ScoredInOrder(policy, worker, frontier, active);
  }

  lemma {:induction false} ScoredAscends(policy: Policy, worker: string, frontier: seq<Candidate>, active: set<Move>)
    requires forall i, j :: 0 <= i < j < |frontier| ==>
               Priority(policy, worker, frontier[i]) >= Priority(policy, worker, frontier[j])
    ensures Ascending(Scored(policy, worker, frontier, active))
  {
    if frontier != [] {
      var rest, last := frontier[..|frontier| - 1], frontier[|frontier| - 1];
      ScoredAscends(policy, worker, rest, active);
      forall x | x in Scored(policy, worker, rest, active)
        ensures x.key <= -Priority(policy, worker, last)
      {
        var i :| 0 <= i < |rest| && rest[i] == x.item;
        assert frontier[i] == x.item;
      }
    }
  }

  lemma {:induction false} ScoredInOrder(policy: Policy, worker: string, frontier: seq<Candidate>, active: set<Move>)
    ensures MovesOf(Scored(policy, worker, frontier, active)) == Unleased(frontier, active)
  {
    if frontier != [] {
      var rest, last := frontier[..|frontier| - 1], frontier[|frontier| - 1];
      ScoredInOrder(policy, worker, rest, active);
      UnleasedGrows(frontier, active);
    }
  }

  lemma {:induction false} UnleasedGrows(frontier: seq<Candidate>, active: set<Move>)
    requires frontier != []
    ensures var last := frontier[|frontier| - 1];
            Unleased(frontier, active) ==
            Unleased(frontier[..|frontier| - 1], active) + if last.move in active then [] else [last.move]
  {
    if |frontier| > 1 {
      UnleasedGrows(frontier[1..], active);
      assert frontier[1..][..|frontier| - 2] == frontier[..|frontier| - 1][1..];
    }
  }

  // ---- the default policy ----

  function DefaultWeight(f: Feature): real {
    match f
    case TheoremImpact => 1.2
    case InformationGain => 1.0
    case VerificationValue => 1.0
    case DependencyCentrality => 0.8
    case Novelty => 0.6
    case Readiness => 0.6
    case HumanPriority => 0.8
    case WorkerAvailability => 0.7
    case Cost => -0.4
    case FailureRisk => -0.6
  }

  /** The default weights, with no history to go by. */
  const DEFAULT_POLICY := Policy(DefaultWeight, (_: Category) => 0.5)

  lemma {:induction false} CandidateIs(g: Graph, proofId: string, c: Candidate)
    requires OnFrontier(g, proofId, c) && c.move in g.nodes
    ensures g.nodes[c.move].lab == FormalRun ==>
              c.category == FormalTask &&
              c.features == map[Readiness := 0.9, TheoremImpact := 0.8, VerificationValue := 0.7, Cost := 2.0]
    ensures g.nodes[c.move].lab == FormalDeclaration ==>
              c.category == FormalTask &&
              c.features == map[Readiness := 1.0, TheoremImpact := 0.8, VerificationValue := 0.7, Cost := 3.0]
    ensures g.nodes[c.move].lab == ResearchMove ==>
              c.category == ResearchTask &&
              c.features == map[InformationGain := 0.6, Readiness := 0.3, Cost := 1.0]
  {
  }

  /** By default a formal prover scores an open run 3.4, an aligned declaration 3.06 and a waiting research
      move 2.49. */
  lemma {:induction false} RunScores(g: Graph, proofId: string, c: Candidate)
    requires OnFrontier(g, proofId, c) && c.move in g.nodes && g.nodes[c.move].lab == FormalRun
    ensures Priority(DEFAULT_POLICY, "formal-atp", c) == 3.4
  {
    CandidateIs(g, proofId, c);
    ScoreIs(DEFAULT_POLICY, "formal-atp", c);
  }

  lemma {:induction false} DeclarationScores(g: Graph, proofId: string, c: Candidate)
    requires OnFrontier(g, proofId, c) && c.move in g.nodes && g.nodes[c.move].lab == FormalDeclaration
    ensures Priority(DEFAULT_POLICY, "formal-atp", c) == 3.06
  {
    CandidateIs(g, proofId, c);
    ScoreIs(DEFAULT_POLICY, "formal-atp", c);
  }

  lemma {:induction false} ResearchScores(g: Graph, proofId: string, c: Candidate)
    requires OnFrontier(g, proofId, c) && c.move in g.nodes && g.nodes[c.move].lab == ResearchMove
    ensures Priority(DEFAULT_POLICY, "formal-atp", c) == 2.49
  {
    CandidateIs(g, proofId, c);
    ScoreIs(DEFAULT_POLICY, "formal-atp", c);
  }

  /** To a critic a claim scores 3, and 0.2 more for each of its dependencies up to three. */
  lemma {:induction false} CriticScores(g: Graph, proofId: string, c: Candidate)
    requires OnFrontier(g, proofId, c) && c.move in g.nodes && g.nodes[c.move].lab == Claim
    ensures var dependencies := |ScanFrom(g, c.move, DependsOn)|;
            Priority(DEFAULT_POLICY, "critic", c) == 3.0 + 0.2 * (if dependencies <= 3 then dependencies else 3) as real
  {
    ScoreIs(DEFAULT_POLICY, "critic", c);
  }
}
