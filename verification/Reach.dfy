/** Reachability over a finite set of directed edges. */
module Reach {

  ghost predicate IsPath<T(!new)>(edges: set<(T, T)>, path: seq<T>) {
    forall k :: 0 <= k < |path| - 1 ==> (path[k], path[k + 1]) in edges
  }

  ghost predicate Links<T(!new)>(edges: set<(T, T)>, path: seq<T>, from: T, to: T) {
    |path| >= 2 && path[0] == from && path[|path| - 1] == to && IsPath(edges, path)
  }

  /** One edge or more, as in a `*1..` pattern. */
  ghost predicate Reaches<T(!new)>(edges: set<(T, T)>, from: T, to: T) {
    exists path :: Links(edges, path, from, to)
  }

  /** Zero edges or more. */
  ghost predicate ReachesOrIs<T(!new)>(edges: set<(T, T)>, from: T, to: T) {
    from == to || Reaches(edges, from, to)
  }

  ghost predicate Acyclic<T(!new)>(edges: set<(T, T)>) {
    forall x :: !Reaches(edges, x, x)
  }

  lemma {:induction false} EdgeReaches<T(!new)>(edges: set<(T, T)>, from: T, to: T)
    requires (from, to) in edges
    ensures Reaches(edges, from, to)
  {
    assert Links(edges, [from, to], from, to);
  }

  lemma {:induction false} ReachesTransitive<T(!new)>(edges: set<(T, T)>, a: T, b: T, c: T)
    requires Reaches(edges, a, b) && Reaches(edges, b, c)
    ensures Reaches(edges, a, c)
  {
    var p :| Links(edges, p, a, b);
    var q :| Links(edges, q, b, c);
    var path := p + q[1..];
    forall k | 0 <= k < |path| - 1
      ensures (path[k], path[k + 1]) in edges
    {
      if k >= |p| - 1 {
        assert path[k] == q[k - |p| + 1] && path[k + 1] == q[k - |p| + 2];
      }
    }
    assert Links(edges, path, a, c);
  }

  /** A longer walk starts with an edge. */
  lemma {:induction false} FirstEdge<T(!new)>(edges: set<(T, T)>, from: T, to: T) returns (next: T)
    requires Reaches(edges, from, to)
    ensures (from, next) in edges && ReachesOrIs(edges, next, to)
  {
    var path :| Links(edges, path, from, to);
    next := path[1];
    if |path| > 2 {
      assert Links(edges, path[1..], next, to);
    }
  }

  lemma {:induction false} EdgeThenReaches<T(!new)>(edges: set<(T, T)>, from: T, next: T, to: T)
    requires (from, next) in edges && ReachesOrIs(edges, next, to)
    ensures Reaches(edges, from, to)
  {
    EdgeReaches(edges, from, next);
    if next != to {
      ReachesTransitive(edges, from, next, to);
    }
  }

  lemma {:induction false} MoreEdgesReachMore<T(!new)>(edges: set<(T, T)>, more: set<(T, T)>, from: T, to: T)
    requires edges <= more && Reaches(edges, from, to)
    ensures Reaches(more, from, to)
  {
    var path :| Links(edges, path, from, to);
    assert Links(more, path, from, to);
  }

  /** A walk that may use one extra edge avoids it, or goes through it. */
  lemma {:induction false} ThroughNewEdge<T(!new)>(edges: set<(T, T)>, a: T, b: T, path: seq<T>, from: T, to: T)
    requires Links(edges + {(a, b)}, path, from, to)
    ensures Reaches(edges, from, to) || (ReachesOrIs(edges, from, a) && ReachesOrIs(edges, b, to))
    decreases |path|
  {
    var next := path[1];
    assert (from, path[0 + 1]) in edges + {(a, b)};
    if |path| == 2 {
      if (from, to) in edges {
        EdgeReaches(edges, from, to);
      }
    } else {
      var rest := path[1..];
      forall k | 0 <= k < |rest| - 1
        ensures (rest[k], rest[k + 1]) in edges + {(a, b)}
      {
        assert rest[k] == path[k + 1] && rest[k + 1] == path[k + 1 + 1];
      }
      ThroughNewEdge(edges, a, b, rest, next, to);
      if (from, next) in edges {
        if Reaches(edges, next, to) {
          EdgeThenReaches(edges, from, next, to);
        } else if ReachesOrIs(edges, next, a) {
          EdgeThenReaches(edges, from, next, a);
        }
      } else if ReachesOrIs(edges, next, a) && ReachesOrIs(edges, b, to) {
        assert (from, next) == (a, b);
      }
    }
  }

  /** Exactly when one more edge leaves a graph acyclic. */
  lemma {:induction false} AcyclicWithEdge<T(!new)>(edges: set<(T, T)>, a: T, b: T)
    requires Acyclic(edges)
    ensures Acyclic(edges + {(a, b)}) <==> !ReachesOrIs(edges, b, a)
  {
    var more := edges + {(a, b)};
    if ReachesOrIs(edges, b, a) {
      if b != a {
        MoreEdgesReachMore(edges, more, b, a);
      }
      EdgeThenReaches(more, a, b, a);
    } else {
      forall x
        ensures !Reaches(more, x, x)
      {
        if path :| Links(more, path, x, x) {
          ThroughNewEdge(edges, a, b, path, x, x);
          if x != a && x != b {
            ReachesTransitive(edges, b, x, a);
          }
        }
      }
    }
  }

  // ---- the query behind a variable-length match ----

  function Sources<T>(edges: set<(T, T)>): set<T> {
    set e | e in edges :: e.0
  }

  function StepBack<T>(edges: set<(T, T)>, root: T, found: set<T>): set<T> {
    set e | e in edges && (e.1 == root || e.1 in found) :: e.0
  }

  /** Every node from which the root is reached by one edge or more. */
  method Dependents<T(!new,==)>(edges: set<(T, T)>, root: T) returns (found: set<T>)
    ensures forall x :: x in found <==> Reaches(edges, x, root)
  {
    found := {};
    var more := StepBack(edges, root, found);
    while !(more <= found)
      invariant more == StepBack(edges, root, found)
      invariant found <= Sources(edges)
      invariant forall x :: x in found ==> Reaches(edges, x, root)
      decreases Sources(edges) - found
    {
      forall x | x in more
        ensures Reaches(edges, x, root)
      {
        var e :| e in edges && (e.1 == root || e.1 in found) && e.0 == x;
        EdgeThenReaches(edges, x, e.1, root);
      }
      found := found + more;
      more := StepBack(edges, root, found);
    }
    forall x | Reaches(edges, x, root)
      ensures x in found
    {
      var path :| Links(edges, path, x, root);
      BackFromRoot(edges, root, found, path);
    }
  }

  lemma {:induction false} BackFromRoot<T(!new)>(edges: set<(T, T)>, root: T, found: set<T>, path: seq<T>)
    requires StepBack(edges, root, found) <= found
    requires |path| >= 2 && path[|path| - 1] == root && IsPath(edges, path)
    ensures path[0] in found
    decreases |path|
  {
    assert (path[0], path[0 + 1]) in edges;
    if |path| > 2 {
      var rest := path[1..];
      forall k | 0 <= k < |rest| - 1
        ensures (rest[k], rest[k + 1]) in edges
      {
        assert rest[k] == path[k + 1] && rest[k + 1] == path[k + 1 + 1];
      }
      BackFromRoot(edges, root, found, rest);
    }
    assert (path[0], path[1]).0 in StepBack(edges, root, found);
  }

  // ---- descending an acyclic graph ----

  function Targets<T>(edges: set<(T, T)>): set<T> {
    set e | e in edges :: e.1
  }

  /** Everything strictly below a node. */
  ghost function Below<T(!new)>(edges: set<(T, T)>, x: T): set<T> {
    set y | y in Targets(edges) && Reaches(edges, x, y)
  }

  /** In an acyclic graph an edge leads to strictly less. */
  lemma {:induction false} BelowShrinks<T(!new)>(edges: set<(T, T)>, x: T, y: T)
    requires Acyclic(edges) && (x, y) in edges
    ensures Below(edges, y) < Below(edges, x)
  {
    EdgeReaches(edges, x, y);
    assert (x, y).1 in Targets(edges);
    assert y in Below(edges, x) && y !in Below(edges, y);
    forall z | z in Below(edges, y)
      ensures z in Below(edges, x)
    {
      ReachesTransitive(edges, x, y, z);
    }
  }
}
