/** Committed state: the graph as a value, and the in-process view that holds it. */
module GraphState {
  import opened Vocabulary

  datatype Node = Node(lab: Label, fields: Fields)
  datatype Edge = Edge(rel: Rel, src: Id, dst: Id, fields: Fields)
  datatype Graph = Graph(nodes: map<Id, Node>, edges: map<Id, Edge>)

  const EMPTY_GRAPH := Graph(map[], map[])

  function EdgeOf(g: Graph, eid: Id): Option<Edge> {
    if eid in g.edges then Some(g.edges[eid]) else None
  }

  /** The edges of one type leaving (entering) a node, found by scanning. */
  function ScanFrom(g: Graph, id: Id, rel: Rel): set<Id> {
    set e | e in g.edges && g.edges[e].src == id && g.edges[e].rel == rel
  }

  function ScanTo(g: Graph, id: Id, rel: Rel): set<Id> {
    set e | e in g.edges && g.edges[e].dst == id && g.edges[e].rel == rel
  }

  predicate NoDuplicates<T(==)>(s: seq<T>) {
    forall i, j :: 0 <= i < j < |s| ==> s[i] != s[j]
  }

  /** One list of an index says exactly what a scan says, each edge once. */
  ghost predicate Lists(index: map<(Id, Rel), seq<Id>>, key: (Id, Rel), scan: set<Id>) {
    var listed := if key in index then index[key] else [];
    NoDuplicates(listed) && forall e :: e in listed <==> e in scan
  }

  /** The outgoing (incoming) index agrees with a scan at every node and type. */
  ghost predicate OutAgrees(index: map<(Id, Rel), seq<Id>>, g: Graph) {
    forall id, rel :: Lists(index, (id, rel), ScanFrom(g, id, rel))
  }

  ghost predicate InAgrees(index: map<(Id, Rel), seq<Id>>, g: Graph) {
    forall id, rel :: Lists(index, (id, rel), ScanTo(g, id, rel))
  }

  /** Position of the first occurrence, or the length when there is none. */
  function FirstIndex<T(==)>(s: seq<T>, x: T): (k: nat)
    ensures k <= |s| && (k < |s| ==> s[k] == x) && (k < |s| <==> x in s)
  {
    if s == [] || s[0] == x then 0 else 1 + FirstIndex(s[1..], x)
  }

  /** `list.remove`: drop the first occurrence; ValueError when there is none. */
  function RemoveFirst<T(==)>(s: seq<T>, x: T): seq<T>
    requires x in s
  {
    var k := FirstIndex(s, x);
    s[..k] + s[k + 1..]
  }

  lemma {:induction false} RemoveFirstFromDistinct<T>(s: seq<T>, x: T)
    requires x in s && NoDuplicates(s)
    ensures NoDuplicates(RemoveFirst(s, x))
    ensures forall y :: y in RemoveFirst(s, x) <==> y in s && y != x
  {
    var k := FirstIndex(s, x);
    var r := RemoveFirst(s, x);
    forall y | y in s && y != x
      ensures y in r
    {
      var j :| 0 <= j < |s| && s[j] == y;
      assert r[if j < k then j else j - 1] == y;
    }
  }

  /** `MemoryView`: two dictionaries and two secondary edge indexes. */
  class MemoryView {
    var nodes: map<Id, Node>
    var edges: map<Id, Edge>
    var outIndex: map<(Id, Rel), seq<Id>>
    var inIndex: map<(Id, Rel), seq<Id>>

    function Contents(): Graph
      reads this
    {
      Graph(nodes, edges)
    }

    /** Both indexes agree with a scan of the edges. */
    ghost predicate Valid()
      reads this
    {
      OutAgrees(outIndex, Contents()) && InAgrees(inIndex, Contents())
    }

    constructor ()
      ensures Valid() && Contents() == EMPTY_GRAPH
    {
      nodes, edges, outIndex, inIndex := map[], map[], map[], map[];
    }

    method AddNode(id: Id, lab: Label, fields: Fields)
      modifies this
      ensures Contents() == old(Contents()).(nodes := old(nodes)[id := Node(lab, fields)])
      ensures outIndex == old(outIndex) && inIndex == old(inIndex)
      ensures old(Valid()) ==> Valid()
    {
      nodes := nodes[id := Node(lab, fields)];
      assert forall id, rel :: ScanFrom(Contents(), id, rel) == ScanFrom(old(Contents()), id, rel);
      assert forall id, rel :: ScanTo(Contents(), id, rel) == ScanTo(old(Contents()), id, rel);
    }

    method SetField(id: Id, name: Field, value: Value)
      requires id in nodes
      modifies this
      ensures Contents() == old(Contents()).(nodes := old(nodes)[id :=
                Node(old(nodes)[id].lab, old(nodes)[id].fields[name := value])])
      ensures outIndex == old(outIndex) && inIndex == old(inIndex)
      ensures old(Valid()) ==> Valid()
    {
      var current := nodes[id];
      AddNode(id, current.lab, current.fields[name := value]);
    }

    /** The view itself does not guard against a taken id; the indexes stay right exactly
        when the id is free. */
    method AddEdge(rel: Rel, src: Id, dst: Id, eid: Id, fields: Fields)
      modifies this
      ensures Contents() == old(Contents()).(edges := old(edges)[eid := Edge(rel, src, dst, fields)])
      ensures old(Valid()) ==> (Valid() <==> eid !in old(edges))
    {
      ghost var before := Contents();
      edges := edges[eid := Edge(rel, src, dst, fields)];
      outIndex := outIndex[(src, rel) := ListAt(outIndex, (src, rel)) + [eid]];
      inIndex := inIndex[(dst, rel) := ListAt(inIndex, (dst, rel)) + [eid]];
      if old(Valid()) {
        if eid !in before.edges {
          FreeIdKeepsOut(old(outIndex), before, eid, rel, src, dst, fields);
          FreeIdKeepsIn(old(inIndex), before, eid, rel, src, dst, fields);
        } else {
          TakenIdBreaksIndex(old(outIndex), before, eid, rel, src, dst, fields);
        }
      }
    }

    method RemoveEdge(eid: Id)
      requires Valid()
      modifies this
      ensures Contents() == old(Contents()).(edges := old(edges) - {eid})
      ensures Valid()
    {
      if eid !in edges { return; }
      ghost var before := Contents();
      var record := edges[eid];
      edges := edges - {eid};
      RemovalKeepsOut(outIndex, before, eid);
      RemovalKeepsIn(inIndex, before, eid);
      outIndex := outIndex[(record.src, record.rel) :=
        RemoveFirst(outIndex[(record.src, record.rel)], eid)];
      inIndex := inIndex[(record.dst, record.rel) :=
        RemoveFirst(inIndex[(record.dst, record.rel)], eid)];
    }

    /** `edges_from`: every listed edge resolves, and the list is the scan, each edge once. */
    method EdgesFrom(id: Id, rel: Rel) returns (found: seq<(Id, Edge)>)
      requires Valid()
      ensures forall k :: 0 <= k < |found| ==> found[k].0 in edges && edges[found[k].0] == found[k].1
      ensures forall k :: 0 <= k < |found| ==> found[k].1.src == id && found[k].1.rel == rel
      ensures forall e :: e in ScanFrom(Contents(), id, rel) ==> (e, edges[e]) in found
      ensures |found| == |ScanFrom(Contents(), id, rel)|
    {
      assert Lists(outIndex, (id, rel), ScanFrom(Contents(), id, rel));
      found := Resolve(ListAt(outIndex, (id, rel)), ScanFrom(Contents(), id, rel));
    }

    method EdgesTo(id: Id, rel: Rel) returns (found: seq<(Id, Edge)>)
      requires Valid()
      ensures forall k :: 0 <= k < |found| ==> found[k].0 in edges && edges[found[k].0] == found[k].1
      ensures forall k :: 0 <= k < |found| ==> found[k].1.dst == id && found[k].1.rel == rel
      ensures forall e :: e in ScanTo(Contents(), id, rel) ==> (e, edges[e]) in found
      ensures |found| == |ScanTo(Contents(), id, rel)|
    {
      assert Lists(inIndex, (id, rel), ScanTo(Contents(), id, rel));
      found := Resolve(ListAt(inIndex, (id, rel)), ScanTo(Contents(), id, rel));
    }

    /** `tuple(self.edges[e] for e in listed)`. */
    method Resolve(listed: seq<Id>, ghost scan: set<Id>) returns (found: seq<(Id, Edge)>)
      requires NoDuplicates(listed) && forall e :: e in listed <==> e in scan
      requires scan <= edges.Keys
      ensures |found| == |listed| == |scan|
      ensures forall k :: 0 <= k < |found| ==> found[k].0 in scan && found[k].1 == edges[found[k].0]
      ensures forall e :: e in scan ==> (e, edges[e]) in found
    {
      found := [];
      for k := 0 to |listed|
        invariant |found| == k
        invariant forall j :: 0 <= j < k ==> found[j] == (listed[j], edges[listed[j]])
      {
        assert listed[k] in listed;
        found := found + [(listed[k], edges[listed[k]])];
      }
      DistinctLength(listed, scan);
      forall e | e in scan
        ensures (e, edges[e]) in found
      {
        var k :| 0 <= k < |listed| && listed[k] == e;
        assert found[k] == (e, edges[e]);
      }
    }
  }

  /** Appending a free id keeps every list of the index in step with its scan. */
  lemma {:induction false} ListsAfterAppend(index: map<(Id, Rel), seq<Id>>, at: (Id, Rel), eid: Id, key: (Id, Rel),
                         scan: set<Id>)
    requires Lists(index, key, scan) && eid !in scan
    ensures Lists(index[at := ListAt(index, at) + [eid]], key, if key == at then scan + {eid} else scan)
  {
    var listed := ListAt(index, key);
    assert forall e :: e in listed + [eid] <==> e in listed || e == eid;
  }

  lemma {:induction false} ListsAfterRemove(index: map<(Id, Rel), seq<Id>>, at: (Id, Rel), eid: Id, key: (Id, Rel),
                         scan: set<Id>)
    requires Lists(index, key, scan)
    requires at in index && eid in index[at] && (key != at ==> eid !in scan)
    ensures Lists(index[at := RemoveFirst(index[at], eid)], key, scan - {eid})
  {
    if key == at {
      RemoveFirstFromDistinct(index[at], eid);
    }
  }

  function ListAt(index: map<(Id, Rel), seq<Id>>, key: (Id, Rel)): seq<Id> {
    if key in index then index[key] else []
  }

  lemma {:induction false} EmptyOrInhabited<T>(s: seq<T>)
    ensures s == [] || exists x :: x in s
  {
    if s != [] {
      assert s[0] in s;
    }
  }

  lemma {:induction false} DistinctLength<T>(s: seq<T>, elements: set<T>)
    requires NoDuplicates(s) && forall x :: x in s <==> x in elements
    ensures |s| == |elements|
  {
    if s == [] {
      assert elements == {};
    } else {
      var rest := s[..|s| - 1];
      assert s == rest + [s[|s| - 1]];
      DistinctLength(rest, elements - {s[|s| - 1]});
    }
  }

  lemma {:induction false} SubsetSize<T>(a: set<T>, b: set<T>)
    requires a <= b
    ensures |a| <= |b|
  {
    if a != {} {
      var x :| x in a;
      SubsetSize(a - {x}, b - {x});
    }
  }

  lemma {:induction false} FreeIdKeepsOut(index: map<(Id, Rel), seq<Id>>, g: Graph, eid: Id, rel: Rel, src: Id,
                       dst: Id, fields: Fields)
    requires OutAgrees(index, g) && eid !in g.edges
    ensures OutAgrees(index[(src, rel) := ListAt(index, (src, rel)) + [eid]],
                      g.(edges := g.edges[eid := Edge(rel, src, dst, fields)]))
  {
    var after := g.(edges := g.edges[eid := Edge(rel, src, dst, fields)]);
    forall id, r
      ensures Lists(index[(src, rel) := ListAt(index, (src, rel)) + [eid]], (id, r),
                    ScanFrom(after, id, r))
    {
      ListsAfterAppend(index, (src, rel), eid, (id, r), ScanFrom(g, id, r));
      assert ScanFrom(after, id, r) ==
        if (id, r) == (src, rel) then ScanFrom(g, id, r) + {eid} else ScanFrom(g, id, r);
    }
  }

  lemma {:induction false} FreeIdKeepsIn(index: map<(Id, Rel), seq<Id>>, g: Graph, eid: Id, rel: Rel, src: Id,
                      dst: Id, fields: Fields)
    requires InAgrees(index, g) && eid !in g.edges
    ensures InAgrees(index[(dst, rel) := ListAt(index, (dst, rel)) + [eid]],
                     g.(edges := g.edges[eid := Edge(rel, src, dst, fields)]))
  {
    var after := g.(edges := g.edges[eid := Edge(rel, src, dst, fields)]);
    forall id, r
      ensures Lists(index[(dst, rel) := ListAt(index, (dst, rel)) + [eid]], (id, r),
                    ScanTo(after, id, r))
    {
      ListsAfterAppend(index, (dst, rel), eid, (id, r), ScanTo(g, id, r));
      assert ScanTo(after, id, r) ==
        if (id, r) == (dst, rel) then ScanTo(g, id, r) + {eid} else ScanTo(g, id, r);
    }
  }

  /** Removing a committed edge finds it in its list and leaves the index right. */
  lemma {:induction false} RemovalKeepsOut(index: map<(Id, Rel), seq<Id>>, g: Graph, eid: Id)
    requires OutAgrees(index, g) && eid in g.edges
    ensures var at := (g.edges[eid].src, g.edges[eid].rel);
            && at in index && eid in index[at]
            && OutAgrees(index[at := RemoveFirst(index[at], eid)], g.(edges := g.edges - {eid}))
  {
    var at := (g.edges[eid].src, g.edges[eid].rel);
    var after := g.(edges := g.edges - {eid});
    assert Lists(index, at, ScanFrom(g, at.0, at.1)) && eid in ScanFrom(g, at.0, at.1);
    forall id, r
      ensures Lists(index[at := RemoveFirst(index[at], eid)], (id, r), ScanFrom(after, id, r))
    {
      ListsAfterRemove(index, at, eid, (id, r), ScanFrom(g, id, r));
      assert ScanFrom(after, id, r) == ScanFrom(g, id, r) - {eid};
    }
  }

  lemma {:induction false} RemovalKeepsIn(index: map<(Id, Rel), seq<Id>>, g: Graph, eid: Id)
    requires InAgrees(index, g) && eid in g.edges
    ensures var at := (g.edges[eid].dst, g.edges[eid].rel);
            && at in index && eid in index[at]
            && InAgrees(index[at := RemoveFirst(index[at], eid)], g.(edges := g.edges - {eid}))
  {
    var at := (g.edges[eid].dst, g.edges[eid].rel);
    var after := g.(edges := g.edges - {eid});
    assert Lists(index, at, ScanTo(g, at.0, at.1)) && eid in ScanTo(g, at.0, at.1);
    forall id, r
      ensures Lists(index[at := RemoveFirst(index[at], eid)], (id, r), ScanTo(after, id, r))
    {
      ListsAfterRemove(index, at, eid, (id, r), ScanTo(g, id, r));
      assert ScanTo(after, id, r) == ScanTo(g, id, r) - {eid};
    }
  }

  /** Listing a taken id leaves a stale or repeated entry behind. */
  lemma {:induction false} TakenIdBreaksIndex(index: map<(Id, Rel), seq<Id>>, g: Graph, eid: Id, rel: Rel, src: Id,
                           dst: Id, fields: Fields)
    requires OutAgrees(index, g) && eid in g.edges
    ensures !OutAgrees(index[(src, rel) := ListAt(index, (src, rel)) + [eid]],
                       g.(edges := g.edges[eid := Edge(rel, src, dst, fields)]))
  {
    var was := g.edges[eid];
    var after := g.(edges := g.edges[eid := Edge(rel, src, dst, fields)]);
    var index' := index[(src, rel) := ListAt(index, (src, rel)) + [eid]];
    assert Lists(index, (was.src, was.rel), ScanFrom(g, was.src, was.rel));
    assert eid in ScanFrom(g, was.src, was.rel);
    if (was.src, was.rel) == (src, rel) {
      var listed := index[(src, rel)];
      var k :| 0 <= k < |listed| && listed[k] == eid;
      assert index'[(src, rel)][k] == index'[(src, rel)][|listed|];
      assert !Lists(index', (src, rel), ScanFrom(after, src, rel));
    } else {
      assert eid !in ScanFrom(after, was.src, was.rel);
      assert !Lists(index', (was.src, was.rel), ScanFrom(after, was.src, was.rel));
    }
  }
}
