/** The order of the ops of a compiled result: no edge comes before the nodes it joins. */
module EmissionOrder {
  import opened Vocabulary
  import opened Ops
  import opened GraphState
  import opened Ids
  import opened Dispatch
  import opened References

  function Created(ops: seq<Op>): set<Id> {
    set op | op in ops && op.UpsertNode? :: op.id
  }

  /** Each edge joins ids known at the start or created earlier. */
  ghost predicate Follows(known: set<Id>, ops: seq<Op>) {
    forall i :: 0 <= i < |ops| && ops[i].AddEdge? ==>
      ops[i].src in known + Created(ops[..i]) && ops[i].dst in known + Created(ops[..i])
  }

  lemma {:induction false} FollowsThen(known: set<Id>, a: seq<Op>, b: seq<Op>)
    requires Follows(known, a) && Follows(known + Created(a), b)
    ensures Follows(known, a + b)
  {
    var ops := a + b;
    forall i | 0 <= i < |ops| && ops[i].AddEdge?
      ensures ops[i].src in known + Created(ops[..i]) && ops[i].dst in known + Created(ops[..i])
    {
      if i < |a| {
        assert ops[..i] == a[..i];
      } else {
        assert ops[..i] == a + b[..i - |a|];
        CreatedBoth(a, b[..i - |a|]);
      }
    }
  }

  lemma {:induction false} CreatedBoth(a: seq<Op>, b: seq<Op>)
    ensures Created(a + b) == Created(a) + Created(b)
  {
  }

  /** Edges between ids known from the start. */
  lemma {:induction false} KnownFollow(known: set<Id>, ops: seq<Op>)
    requires forall op :: op in ops && op.AddEdge? ==> op.src in known && op.dst in known
    ensures Follows(known, ops)
  {
    forall i | 0 <= i < |ops| && ops[i].AddEdge?
      ensures ops[i].src in known && ops[i].dst in known
    {
      assert ops[i] in ops;
    }
  }

  /** A node followed by edges between it and what is known. */
  lemma {:induction false} NodeThenEdges(known: set<Id>, node: Op, edges: seq<Op>)
    requires node.UpsertNode?
    requires forall op :: op in edges && op.AddEdge? ==> op.src in known + {node.id} && op.dst in known + {node.id}
    ensures Follows(known, [node] + edges) && node.id in Created([node] + edges)
  {
    assert node in [node] && Created([node]) == {node.id};
    KnownFollow(known, [node]);
    KnownFollow(known + {node.id}, edges);
    FollowsThen(known, [node], edges);
    CreatedBoth([node], edges);
  }

  lemma {:induction false} MoreKnown(known: set<Id>, more: set<Id>, ops: seq<Op>)
    requires Follows(known, ops) && known <= more
    ensures Follows(more, ops)
  {
  }

  // ---- part by part ----

  lemma {:induction false} StatesFollow(g: Graph, states: seq<StateReport>)
    ensures Follows(g.nodes.Keys, AllStateOps(g, states))
    ensures forall s :: s in states ==> s.id in g.nodes.Keys + Created(AllStateOps(g, states))
  {
    if states != [] {
      var rest, last := states[..|states| - 1], states[|states| - 1];
      StatesFollow(g, rest);
      KnownFollow(g.nodes.Keys + Created(AllStateOps(g, rest)), StateOps(g, last));
      FollowsThen(g.nodes.Keys, AllStateOps(g, rest), StateOps(g, last));
      CreatedBoth(AllStateOps(g, rest), StateOps(g, last));
      if last.id !in g.nodes {
        assert StateOps(g, last)[0] in StateOps(g, last);
      }
      assert forall s :: s in states <==> s in rest || s == last;
    }
  }

  /** The states that the result knows, once its states have been recorded. */
  ghost predicate HasStates(g: Graph, r: SearchResult, known: set<Id>) {
    g.nodes.Keys <= known && forall s :: s in r.states ==> s.id in known
  }

  lemma {:induction false} RunFollows(g: Graph, r: SearchResult, n: Serials, known: set<Id>)
    requires References.Resolves(g, r, n) && HasStates(g, r, known)
    ensures Follows(known, RunOps(g, r))
    ensures r.runId.Some? ==> r.runId.value in known + Created(RunOps(g, r))
  {
    if r.runId.Some? {
      var run := r.runId.value;
      var search := SearchOps(g, r, run);
      if run in g.nodes {
        KnownFollow(known, RunOps(g, r));
      } else {
        var node := RunNodeOps(g, r, run)[0];
        var edges := RunNodeOps(g, r, run)[1..] + search;
        assert RunOps(g, r) == [node] + edges;
        NodeThenEdges(known, node, edges);
      }
    }
  }

  lemma {:induction false} TacticsFollow(g: Graph, r: SearchResult, n: Serials, tactics: seq<TacticReport>,
                                         known: set<Id>)
    requires References.Resolves(g, r, n) && HasStates(g, r, known)
    requires forall t :: t in tactics ==> t in r.tactics
    ensures Follows(known, AllTacticOps(g, tactics))
  {
    if tactics != [] {
      var rest, last := tactics[..|tactics| - 1], tactics[|tactics| - 1];
      TacticsFollow(g, r, n, rest, known);
      if last.id !in g.nodes {
        BlockFollows(g, r, n, last, known);
        MoreKnown(known, known + Created(AllTacticOps(g, rest)), TacticBlock(last));
        FollowsThen(known, AllTacticOps(g, rest), TacticBlock(last));
      } else {
        assert AllTacticOps(g, tactics) == AllTacticOps(g, rest);
      }
    }
  }

  lemma {:induction false} BlockFollows(g: Graph, r: SearchResult, n: Serials, t: TacticReport, known: set<Id>)
    requires References.Resolves(g, r, n) && HasStates(g, r, known) && t in r.tactics
    ensures Follows(known, TacticBlock(t))
  {
    assert TacticResolves(g, r, n, t);
    var edges := TacticBlock(t)[1..];
    assert TacticBlock(t) == [TacticNode(t)] + edges;
    assert edges == [AtEdge(t)] + ChildEdges(t, |t.produced|) + (if ClosesItsState(t) then [ClosingEdge(t)] else []);
    forall op | op in edges && op.AddEdge?
      ensures op.src in known + {t.id} && op.dst in known + {t.id}
    {
      if op in ChildEdges(t, |t.produced|) {
        var k :| 0 <= k < |t.produced| && ChildEdges(t, |t.produced|)[k] == op;
        assert t.produced[k] in t.produced;
      }
    }
    NodeThenEdges(known, TacticNode(t), edges);
  }

  lemma {:induction false} CheckpointFollows(g: Graph, r: SearchResult, n: Serials, known: set<Id>)
    requires References.Resolves(g, r, n) && HasStates(g, r, known)
    requires r.runId.Some? ==> r.runId.value in known
    ensures Follows(known, CheckpointOps(r, n.checkpoint))
  {
    if MakesCheckpoint(r) {
      var id, frontier := ScopedId(r.proofId, "fc", n.checkpoint), r.checkpoint.value.frontier;
      var numbered := NumberedEdges(CheckpointFrontier, id, id, frontier, |frontier|);
      var edges := [CheckpointHead(r, id)[1]] + numbered;
      assert CheckpointOps(r, n.checkpoint) == [CheckpointHead(r, id)[0]] + edges;
      forall op | op in edges && op.AddEdge?
        ensures op.src in known + {id} && op.dst in known + {id}
      {
        if op in numbered {
          var k :| 0 <= k < |frontier| && numbered[k] == op;
          assert frontier[k] in frontier;
        }
      }
      NodeThenEdges(known, CheckpointHead(r, id)[0], edges);
    }
  }

  lemma {:induction false} CertificateFollows(g: Graph, r: SearchResult, n: Serials, known: set<Id>)
    requires References.Resolves(g, r, n) && HasStates(g, r, known)
    requires r.runId.Some? ==> r.runId.value in known
    ensures Follows(known, CertificateOps(r, n.certificate))
  {
    if r.certificate.Some? {
      var ops := CertificateOps(r, n.certificate);
      assert ops == [ops[0]] + ops[1..];
      NodeThenEdges(known, ops[0], ops[1..]);
    }
  }

  lemma {:induction false} ObstructionsFollow(g: Graph, r: SearchResult, n: Serials,
                                              obstructions: seq<ObstructionReport>, known: set<Id>)
    requires References.Resolves(g, r, n) && HasStates(g, r, known)
    requires r.runId.Some? ==> r.runId.value in known
    requires forall o :: o in obstructions ==> o in r.obstructions
    ensures Follows(known, AllObstructionOps(g, r, obstructions))
  {
    if obstructions != [] {
      var rest, last := obstructions[..|obstructions| - 1], obstructions[|obstructions| - 1];
      ObstructionsFollow(g, r, n, rest, known);
      ObstructionFollows(g, r, n, last, known);
      MoreKnown(known, known + Created(AllObstructionOps(g, r, rest)), ObstructionOps(g, r, last));
      FollowsThen(known, AllObstructionOps(g, r, rest), ObstructionOps(g, r, last));
    }
  }

  lemma {:induction false} ObstructionFollows(g: Graph, r: SearchResult, n: Serials, o: ObstructionReport,
                                              known: set<Id>)
    requires References.Resolves(g, r, n) && HasStates(g, r, known) && o in r.obstructions
    requires r.runId.Some? ==> r.runId.value in known
    ensures Follows(known, ObstructionOps(g, r, o))
  {
    assert ObstructionResolves(g, r, n, o);
    if o.id !in g.nodes {
      var numbered := NumberedEdges(AtState, o.id, o.id + "-state", o.states, |o.states|);
      var edges := [ObstructionHead(r, o)[1]] + numbered;
      assert ObstructionOps(g, r, o) == [ObstructionHead(r, o)[0]] + edges;
      forall op | op in edges && op.AddEdge?
        ensures op.src in known + {o.id} && op.dst in known + {o.id}
      {
        if op in numbered {
          var k :| 0 <= k < |o.states| && numbered[k] == op;
          assert o.states[k] in o.states;
        }
      }
      NodeThenEdges(known, ObstructionHead(r, o)[0], edges);
    }
  }

  /** In a compiled result whose references resolve, each edge joins nodes that are committed or created by
      an earlier op. */
  lemma {:induction false} EdgesFollowNodes(g: Graph, r: SearchResult, n: Serials)
    requires References.Resolves(g, r, n)
    ensures Follows(g.nodes.Keys, Compiled(g, r, n.checkpoint, n.certificate))
  {
    var states, run, tactics := AllStateOps(g, r.states), RunOps(g, r), AllTacticOps(g, r.tactics);
    var k0 := g.nodes.Keys;
    var k1 := k0 + Created(states);
    StatesFollow(g, r.states);
    RunFollows(g, r, n, k1);
    FollowsThen(k0, states, run);
    CreatedBoth(states, run);
    var k2 := k0 + Created(states + run);
    TacticsFollow(g, r, n, r.tactics, k2);
    FollowsThen(k0, states + run, tactics);
    CreatedBoth(states + run, tactics);
    LaterPartsFollow(g, r, n, states + run + tactics);
  }

  lemma {:induction false} LaterPartsFollow(g: Graph, r: SearchResult, n: Serials, ops: seq<Op>)
    requires References.Resolves(g, r, n) && Follows(g.nodes.Keys, ops)
    requires HasStates(g, r, g.nodes.Keys + Created(ops))
    requires r.runId.Some? ==> r.runId.value in g.nodes.Keys + Created(ops)
    ensures Follows(g.nodes.Keys, ops + CheckpointOps(r, n.checkpoint) + CertificateOps(r, n.certificate) +
                                  AllObstructionOps(g, r, r.obstructions))
  {
    var k0, a, b := g.nodes.Keys, CheckpointOps(r, n.checkpoint), CertificateOps(r, n.certificate);
    CheckpointFollows(g, r, n, k0 + Created(ops));
    FollowsThen(k0, ops, a);
    CreatedBoth(ops, a);
    CertificateFollows(g, r, n, k0 + Created(ops + a));
    FollowsThen(k0, ops + a, b);
    CreatedBoth(ops + a, b);
    ObstructionsFollow(g, r, n, r.obstructions, k0 + Created(ops + a + b));
    FollowsThen(k0, ops + a + b, AllObstructionOps(g, r, r.obstructions));
  }
}
