/** Stable sorting by a key, as Python's `sorted` does it. */
module Sorting {

  datatype Keyed<T> = Keyed(key: real, item: T)

  /** Put `x` after every element whose key is not larger. */
  function Insert<T>(s: seq<Keyed<T>>, x: Keyed<T>): seq<Keyed<T>> {
    if s != [] && x.key < s[|s| - 1].key then Insert(s[..|s| - 1], x) + [s[|s| - 1]]
    else s + [x]
  }

  function Sort<T>(s: seq<Keyed<T>>): seq<Keyed<T>> {
    if s == [] then [] else Insert(Sort(s[..|s| - 1]), s[|s| - 1])
  }

  predicate Ascending<T>(s: seq<Keyed<T>>) {
    forall i, j :: 0 <= i < j < |s| ==> s[i].key <= s[j].key
  }

  predicate DistinctKeys<T>(s: seq<Keyed<T>>) {
    forall i, j :: 0 <= i < j < |s| ==> s[i].key != s[j].key
  }

  lemma {:induction false} SplitLast<T>(s: seq<T>)
    requires s != []
    ensures s == s[..|s| - 1] + [s[|s| - 1]]
    ensures multiset(s[..|s| - 1]) == multiset(s) - multiset{s[|s| - 1]}
    ensures forall y :: y in s <==> y in s[..|s| - 1] || y == s[|s| - 1]
  {
    assert s == s[..|s| - 1] + [s[|s| - 1]];
  }

  lemma {:induction false} InsertAdds<T>(s: seq<Keyed<T>>, x: Keyed<T>)
    ensures multiset(Insert(s, x)) == multiset(s) + multiset{x}
    ensures forall y :: y in Insert(s, x) <==> y == x || y in s
    ensures |Insert(s, x)| == |s| + 1
  {
    if s != [] && x.key < s[|s| - 1].key {
      InsertAdds(s[..|s| - 1], x);
      SplitLast(s);
    }
  }

  lemma {:induction false} LastIsLargest<T>(s: seq<Keyed<T>>, y: Keyed<T>)
    requires Ascending(s) && y in s
    ensures y.key <= s[|s| - 1].key
    ensures DistinctKeys(s) && y in s[..|s| - 1] ==> y.key != s[|s| - 1].key
  {
  }

  lemma {:induction false} AppendLargest<T>(t: seq<Keyed<T>>, z: Keyed<T>)
    requires Ascending(t) && forall y :: y in t ==> y.key <= z.key
    ensures Ascending(t + [z])
  {
    assert forall k :: 0 <= k < |t| ==> t[k] in t;
  }

  lemma {:induction false} AppendNewKey<T>(t: seq<Keyed<T>>, z: Keyed<T>)
    requires DistinctKeys(t) && forall y :: y in t ==> y.key != z.key
    ensures DistinctKeys(t + [z])
  {
    assert forall k :: 0 <= k < |t| ==> t[k] in t;
  }

  lemma {:induction false} InsertSorts<T>(s: seq<Keyed<T>>, x: Keyed<T>)
    requires Ascending(s)
    ensures Ascending(Insert(s, x))
  {
    forall y | y in s
      ensures y.key <= s[|s| - 1].key
    {
      LastIsLargest(s, y);
    }
    if s != [] && x.key < s[|s| - 1].key {
      var rest := s[..|s| - 1];
      InsertSorts(rest, x);
      InsertAdds(rest, x);
      SplitLast(s);
      forall y | y in Insert(rest, x)
        ensures y.key <= s[|s| - 1].key
      {
        assert y in multiset(Insert(rest, x)) && (y == x || y in multiset(rest));
      }
      AppendLargest(Insert(rest, x), s[|s| - 1]);
    } else {
      AppendLargest(s, x);
    }
  }

  lemma {:induction false} InsertKeepsDistinct<T>(s: seq<Keyed<T>>, x: Keyed<T>)
    requires DistinctKeys(s) && forall y :: y in s ==> y.key != x.key
    ensures DistinctKeys(Insert(s, x))
  {
    if s != [] && x.key < s[|s| - 1].key {
      var rest := s[..|s| - 1];
      SplitLast(s);
      InsertKeepsDistinct(rest, x);
      InsertAdds(rest, x);
      forall y | y in Insert(rest, x)
        ensures y.key != s[|s| - 1].key
      {
        assert y in multiset(Insert(rest, x)) && (y == x || y in multiset(rest));
      }
      AppendNewKey(Insert(rest, x), s[|s| - 1]);
    } else {
      AppendNewKey(s, x);
    }
  }

  /** The result is a rearrangement of the input. */
  lemma {:induction false} SortRearranges<T>(s: seq<Keyed<T>>)
    ensures multiset(Sort(s)) == multiset(s)
    ensures forall y :: y in Sort(s) <==> y in s
    ensures |Sort(s)| == |s|
  {
    if s != [] {
      SortRearranges(s[..|s| - 1]);
      SplitLast(s);
      InsertAdds(Sort(s[..|s| - 1]), s[|s| - 1]);
    }
  }

  /** The result is ordered, and strictly when the keys are distinct. */
  lemma {:induction false} SortSorts<T>(s: seq<Keyed<T>>)
    ensures Ascending(Sort(s))
    ensures DistinctKeys(s) ==> DistinctKeys(Sort(s))
  {
    if s != [] {
      var t, x := Sort(s[..|s| - 1]), s[|s| - 1];
      SortSorts(s[..|s| - 1]);
      SortRearranges(s[..|s| - 1]);
      if DistinctKeys(s) {
        forall y | y in t
          ensures y.key != x.key
        {
          assert y in multiset(t) && y in multiset(s[..|s| - 1]);
        }
        InsertKeepsDistinct(t, x);
      }
      InsertSorts(t, x);
    }
  }

  lemma {:induction false} LastElementsAgree<T>(a: seq<Keyed<T>>, b: seq<Keyed<T>>)
    requires multiset(a) == multiset(b) && |a| == |b| > 0
    requires Ascending(a) && Ascending(b) && DistinctKeys(a)
    ensures a[|a| - 1] == b[|b| - 1]
  {
    assert a[|a| - 1] in multiset(b) && b[|b| - 1] in multiset(a);
    LastIsLargest(b, a[|a| - 1]);
    LastIsLargest(a, b[|b| - 1]);
    SplitLast(a);
  }

  /** With distinct keys there is one ordered arrangement. */
  lemma {:induction false} OrderedArrangementIsUnique<T>(a: seq<Keyed<T>>, b: seq<Keyed<T>>)
    requires multiset(a) == multiset(b)
    requires Ascending(a) && Ascending(b) && DistinctKeys(a)
    ensures a == b
  {
    assert |multiset(a)| == |multiset(b)|;
    if a != [] {
      LastElementsAgree(a, b);
      SplitLast(a);
      SplitLast(b);
      OrderedArrangementIsUnique(a[..|a| - 1], b[..|b| - 1]);
    }
  }

  /** With distinct keys the order of the input is irrelevant. */
  lemma {:induction false} SortIgnoresInputOrder<T>(a: seq<Keyed<T>>, b: seq<Keyed<T>>)
    requires multiset(a) == multiset(b) && DistinctKeys(a)
    ensures Sort(a) == Sort(b)
  {
    SortSorts(a);
    SortSorts(b);
    SortRearranges(a);
    SortRearranges(b);
    OrderedArrangementIsUnique(Sort(a), Sort(b));
  }

  /** Equal keys keep their order, so what is in order is left alone. */
  lemma {:induction false} SortKeepsAscending<T>(s: seq<Keyed<T>>)
    requires Ascending(s)
    ensures Sort(s) == s
  {
    if s != [] {
      SortKeepsAscending(s[..|s| - 1]);
      SplitLast(s);
    }
  }
}
