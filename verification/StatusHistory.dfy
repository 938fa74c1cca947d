/** Status histories follow the transition tables, over every run. */
module StatusHistory {
  import opened Vocabulary
  import opened Ops
  import opened Transitions
  import opened GraphState
  import opened Rules
  import opened Gate

  function ValueAt(g: Graph, id: Id, name: Field): Value {
    if id in g.nodes then Get(g.nodes[id].fields, name) else Null
  }

  /** One proposal moves a tabled status at most one step, however often it writes it and wherever its
      application raises. */
  lemma {:induction false} StatusStep(g: Graph, p: Proposal, h: Graph, id: Id, name: Field)
    requires Commits(g, p, h) && LabelsKept(p.ops, g)
    requires id in g.nodes && HasTable(g.nodes[id].lab, name) && ValueAt(g, id, name) != Null
    ensures id in h.nodes && h.nodes[id].lab == g.nodes[id].lab
    ensures ValueAt(h, id, name) == ValueAt(g, id, name) ||
            MayFollow(g.nodes[id].lab, name, ValueAt(g, id, name), ValueAt(h, id, name))
    ensures ValueAt(h, id, name) != Null
  {
    KeptLabelIsKnown(p, g, id);
    CommittedStays(p, g, h, id);
    FieldAfterCommit(p, g, h, id, name);
    if op :| op in p.ops && Sets(op, id, name) && Lookup(h.nodes[id].fields, name) == Some(op.value) {
      AcceptedSet(p, g, op);
      assert IllegalStatusTransition !in TransitionDefects(g, op);
    }
  }

  /** What one accepted proposal may do to a tabled status. */
  ghost predicate Lawful(g: Graph, h: Graph, id: Id, name: Field) {
    id in g.nodes && HasTable(g.nodes[id].lab, name) && ValueAt(g, id, name) != Null ==>
      && id in h.nodes && h.nodes[id].lab == g.nodes[id].lab
      && ValueAt(h, id, name) != Null
      && (ValueAt(h, id, name) == ValueAt(g, id, name) ||
          MayFollow(g.nodes[id].lab, name, ValueAt(g, id, name), ValueAt(h, id, name)))
  }

  ghost predicate LawfulStep(g: Graph, h: Graph) {
    forall id, name :: Lawful(g, h, id, name)
  }

  ghost predicate LawfulAt(graphs: seq<Graph>, k: nat) {
    0 < k < |graphs| ==> LawfulStep(graphs[k - 1], graphs[k])
  }

  ghost predicate LawfulRun(graphs: seq<Graph>) {
    forall k :: LawfulAt(graphs, k)
  }

  lemma {:induction false} StepIsLawful(g: Graph, p: Proposal, h: Graph)
    requires Commits(g, p, h) && LabelsKept(p.ops, g)
    ensures LawfulStep(g, h)
  {
    forall id, name
      ensures Lawful(g, h, id, name)
    {
      if id in g.nodes && HasTable(g.nodes[id].lab, name) && ValueAt(g, id, name) != Null {
        StatusStep(g, p, h, id, name);
      }
    }
  }

  /** Any run, with applications that raise and ids upserted twice, whose upserts keep labels. */
  ghost predicate LabelsKeptRun(graphs: seq<Graph>, proposals: seq<Proposal>) {
    && IsRun(graphs, proposals)
    && forall k :: 0 <= k < |proposals| ==> LabelsKept(proposals[k].ops, graphs[k])
  }

  /** Every run whose upserts keep labels moves statuses lawfully, one table step at a time. */
  lemma {:induction false} RunsAreLawful(graphs: seq<Graph>, proposals: seq<Proposal>)
    requires LabelsKeptRun(graphs, proposals)
    ensures LawfulRun(graphs)
  {
    forall k: nat
      ensures LawfulAt(graphs, k)
    {
      if 0 < k < |graphs| {
        assert Commits(graphs[k - 1], proposals[k - 1], graphs[k]);
        StepIsLawful(graphs[k - 1], proposals[k - 1], graphs[k]);
      }
    }
  }

  /** From any earlier non-null value, every later value is reachable in the node's table. */
  lemma {:induction false} StatusReachable(graphs: seq<Graph>, i: nat, j: nat, id: Id, name: Field)
    requires LawfulRun(graphs) && i <= j < |graphs|
    requires id in graphs[i].nodes && HasTable(graphs[i].nodes[id].lab, name)
    requires ValueAt(graphs[i], id, name) != Null
    ensures id in graphs[j].nodes && graphs[j].nodes[id].lab == graphs[i].nodes[id].lab
    ensures ValueAt(graphs[j], id, name) != Null
    ensures Reachable(graphs[i].nodes[id].lab, name, ValueAt(graphs[i], id, name),
                      ValueAt(graphs[j], id, name))
  {
    var lab := graphs[i].nodes[id].lab;
    if i == j {
      ReachableRefl(lab, name, ValueAt(graphs[i], id, name));
    } else {
      StatusReachable(graphs, i, j - 1, id, name);
      assert LawfulAt(graphs, j) && LawfulStep(graphs[j - 1], graphs[j]);
      assert Lawful(graphs[j - 1], graphs[j], id, name);
      if ValueAt(graphs[j], id, name) != ValueAt(graphs[j - 1], id, name) {
        ReachableStep(lab, name, ValueAt(graphs[i], id, name), ValueAt(graphs[j - 1], id, name),
                      ValueAt(graphs[j], id, name));
      }
    }
  }

  /** Terminal statuses are absorbing and a formal state that left open never reopens as open. */
  lemma {:induction false} TerminalForever(graphs: seq<Graph>, i: nat, j: nat, id: Id, name: Field)
    requires LawfulRun(graphs) && i <= j < |graphs|
    requires id in graphs[i].nodes && HasTable(graphs[i].nodes[id].lab, name)
    requires ValueAt(graphs[i], id, name) != Null
    ensures ValueAt(graphs[i], id, name).Str? &&
            Next(graphs[i].nodes[id].lab, name, ValueAt(graphs[i], id, name).token) == {} ==>
              ValueAt(graphs[j], id, name) == ValueAt(graphs[i], id, name)
    ensures graphs[i].nodes[id].lab == FormalState && name == Status &&
            ValueAt(graphs[i], id, name) != Str(Open) ==>
              ValueAt(graphs[j], id, name) != Str(Open)
  {
    StatusReachable(graphs, i, j, id, name);
    var from, to := ValueAt(graphs[i], id, name), ValueAt(graphs[j], id, name);
    if from.Str? && Next(graphs[i].nodes[id].lab, name, from.token) == {} {
      TerminalIsAbsorbing(graphs[i].nodes[id].lab, name, from, to);
    }
    if graphs[i].nodes[id].lab == FormalState && name == Status && from != Str(Open) {
      NothingReturnsToOpen(from, to);
    }
  }

  /** How many steps of the run between i and j changed the field. */
  function Changes(graphs: seq<Graph>, i: nat, j: nat, id: Id, name: Field): nat
    requires i <= j < |graphs|
  {
    if i == j then 0
    else
      Changes(graphs, i, j - 1, id, name) +
      if ValueAt(graphs[j], id, name) == ValueAt(graphs[j - 1], id, name) then 0 else 1
  }

  /** A claim's status changes at most eight times over any run. */
  lemma {:induction false} ClaimChangesAtMostEightTimes(graphs: seq<Graph>, i: nat, j: nat, id: Id)
    requires LawfulRun(graphs) && i <= j < |graphs|
    requires id in graphs[i].nodes && graphs[i].nodes[id].lab == Claim
    requires ValueAt(graphs[i], id, Status) != Null
    ensures id in graphs[j].nodes && graphs[j].nodes[id].lab == Claim
    ensures ValueAt(graphs[j], id, Status) != Null
    ensures Changes(graphs, i, j, id, Status) + ClaimRank(ValueAt(graphs[j], id, Status)) <=
            ClaimRank(ValueAt(graphs[i], id, Status)) <= 8
  {
    if i < j {
      ClaimChangesAtMostEightTimes(graphs, i, j - 1, id);
      assert LawfulAt(graphs, j) && LawfulStep(graphs[j - 1], graphs[j]);
      assert Lawful(graphs[j - 1], graphs[j], id, Status);
      var from := ValueAt(graphs[j - 1], id, Status);
      var to := ValueAt(graphs[j], id, Status);
      if from != to {
        ClaimRankFalls(from, to);
      }
    }
  }

  /** Nodes are never lost or relabelled, and immutable fields never change. */
  lemma {:induction false} ImmutableForever(graphs: seq<Graph>, proposals: seq<Proposal>, i: nat, j: nat,
                                            id: Id)
    requires LabelsKeptRun(graphs, proposals) && i <= j < |graphs| && id in graphs[i].nodes
    ensures id in graphs[j].nodes && graphs[j].nodes[id].lab == graphs[i].nodes[id].lab
    ensures forall name :: name in ImmutableFields(graphs[i].nodes[id].lab) ==>
              Lookup(graphs[j].nodes[id].fields, name) == Lookup(graphs[i].nodes[id].fields, name)
  {
    if i < j {
      ImmutableForever(graphs, proposals, i, j - 1, id);
      assert Commits(graphs[j - 1], proposals[j - 1], graphs[j]);
      ImmutableKept(proposals[j - 1], graphs[j - 1], graphs[j], id);
    }
  }
}
