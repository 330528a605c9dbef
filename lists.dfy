/**
 * The array operations the source relies on (`filter`, `find`, `some`, and the
 * stable `sort` of ECMAScript 2019), as functions on sequences, with the facts
 * about them that the rest of the model uses.
 */
module Lists {
  import opened Base

  /** The elements of `xs` that satisfy `keep`, in their original order. */
  function Filter<T>(xs: seq<T>, keep: T -> bool): (r: seq<T>)
    ensures |r| <= |xs|
    ensures forall x :: x in r ==> x in xs && keep(x)
  {
    if xs == [] then []
    else (if keep(xs[0]) then [xs[0]] else []) + Filter(xs[1..], keep)
  }

  /** `a` is obtained from `b` by deleting elements, keeping the order of the rest. */
  ghost predicate SubseqOf<T>(a: seq<T>, b: seq<T>)
    decreases |b|
  {
    a == [] || (b != [] && ((a[0] == b[0] && SubseqOf(a[1..], b[1..])) || SubseqOf(a, b[1..])))
  }

  /**
   * `Filter` keeps the order of what it keeps, and keeps every occurrence of an
   * element that satisfies `keep` and none of the others. Together these two facts
   * determine the result completely.
   */
  lemma {:induction false} FilterIsOrderedSelection<T>(xs: seq<T>, keep: T -> bool)
    ensures SubseqOf(Filter(xs, keep), xs)
    ensures forall x :: multiset(Filter(xs, keep))[x] == if keep(x) then multiset(xs)[x] else 0
  {
    if xs != [] {
      FilterIsOrderedSelection(xs[1..], keep);
      assert xs == [xs[0]] + xs[1..];
      var rest := Filter(xs[1..], keep);
      if keep(xs[0]) {
        assert Filter(xs, keep) == [xs[0]] + rest;
        assert (Filter(xs, keep))[1..] == rest;
      } else {
        assert Filter(xs, keep) == rest;
        SubseqOfTail(rest, xs);
      }
    }
  }

  /** A subsequence of the tail is a subsequence of the whole. */
  lemma SubseqOfTail<T>(a: seq<T>, b: seq<T>)
    requires b != [] && SubseqOf(a, b[1..])
    ensures SubseqOf(a, b)
  {
  }

  /** Nothing is dropped when every element satisfies `keep`. */
  lemma {:induction false} FilterKeepsAll<T>(xs: seq<T>, keep: T -> bool)
    requires forall i :: 0 <= i < |xs| ==> keep(xs[i])
    ensures Filter(xs, keep) == xs
  {
    if xs != [] {
      FilterKeepsAll(xs[1..], keep);
    }
  }

  /** Filtering distributes over concatenation. */
  lemma {:induction false} FilterAppend<T>(a: seq<T>, b: seq<T>, keep: T -> bool)
    ensures Filter(a + b, keep) == Filter(a, keep) + Filter(b, keep)
  {
    if a == [] {
      assert a + b == b;
    } else {
      assert (a + b)[1..] == a[1..] + b;
      FilterAppend(a[1..], b, keep);
    }
  }

  /** No two elements share a key. */
  ghost predicate DistinctBy<T, K>(xs: seq<T>, key: T -> K) {
    forall i, j :: 0 <= i < j < |xs| ==> key(xs[i]) != key(xs[j])
  }

  /** Dropping elements cannot create a duplicate key. */
  lemma {:induction false} FilterKeepsDistinct<T, K>(xs: seq<T>, keep: T -> bool, key: T -> K)
    requires DistinctBy(xs, key)
    ensures DistinctBy(Filter(xs, keep), key)
  {
    if xs != [] {
      FilterKeepsDistinct(xs[1..], keep, key);
      var rest := Filter(xs[1..], keep);
      forall y | y in rest
        ensures key(y) != key(xs[0])
      {
        var m :| 0 <= m < |xs[1..]| && xs[1..][m] == y;
        assert xs[m + 1] == y;
      }
    }
  }

  /** The index of the first element satisfying `p`, if there is one. */
  function FirstIndex<T>(xs: seq<T>, p: T -> bool): (r: Option<nat>)
    ensures r.Some? ==> r.value < |xs| && p(xs[r.value])
    ensures r.Some? ==> forall j :: 0 <= j < r.value ==> !p(xs[j])
    ensures r.None? ==> forall j :: 0 <= j < |xs| ==> !p(xs[j])
  {
    if xs == [] then None
    else if p(xs[0]) then Some(0)
    else match FirstIndex(xs[1..], p)
      case None => None
      case Some(k) => Some(k + 1)
  }

  /** `Array.prototype.find`: the first element satisfying `p`, or nothing. */
  function Find<T>(xs: seq<T>, p: T -> bool): (r: Option<T>)
    ensures r.None? <==> forall j :: 0 <= j < |xs| ==> !p(xs[j])
    ensures r.Some? ==> exists i :: 0 <= i < |xs| && xs[i] == r.value && p(xs[i])
                                   && forall j :: 0 <= j < i ==> !p(xs[j])
  {
    match FirstIndex(xs, p)
    case None => None
    case Some(k) => Some(xs[k])
  }

  /** `Array.prototype.some`: whether any element satisfies `p`. */
  function Any<T>(xs: seq<T>, p: T -> bool): (r: bool)
    ensures r <==> exists i :: 0 <= i < |xs| && p(xs[i])
  {
    if xs == [] then false
    else p(xs[0]) || Any(xs[1..], p)
  }

  /** `some` and `find` agree: something satisfies `p` exactly when `find` finds it. */
  lemma AnyIffFound<T>(xs: seq<T>, p: T -> bool)
    ensures Any(xs, p) <==> Find(xs, p).Some?
  {
  }

  /** Searching past a prefix with no match finds the first match of the rest. */
  lemma FindAfterMiss<T>(xs: seq<T>, ys: seq<T>, p: T -> bool)
    requires forall j :: 0 <= j < |xs| ==> !p(xs[j])
    ensures Find(xs + ys, p) == Find(ys, p)
  {
    var a, b := FirstIndex(xs + ys, p), FirstIndex(ys, p);
    if a.Some? {
      assert a.value >= |xs|;
      assert (xs + ys)[a.value] == ys[a.value - |xs|];
      assert b.Some? && b.value <= a.value - |xs|;
      assert (xs + ys)[b.value + |xs|] == ys[b.value];
      assert a.value == b.value + |xs|;
      assert Find(xs + ys, p) == Some((xs + ys)[a.value]);
      assert Find(ys, p) == Some(ys[b.value]);
    } else {
      assert forall j :: 0 <= j < |ys| ==> (xs + ys)[j + |xs|] == ys[j];
    }
  }

  // ---------------------------------------------------------------------------
  // Stable sort by an integer key (`[...xs].sort((a, b) => key(a) - key(b))`)

  ghost predicate SortedBy<T>(xs: seq<T>, key: T -> int) {
    forall i, j :: 0 <= i < j < |xs| ==> key(xs[i]) <= key(xs[j])
  }

  /** Puts `x` in front of the first element whose key is not smaller than its own. */
  function InsertBy<T>(x: T, xs: seq<T>, key: T -> int): (r: seq<T>)
    ensures multiset(r) == multiset(xs) + multiset{x}
  {
    if xs == [] || key(x) <= key(xs[0]) then [x] + xs
    else
      assert xs == [xs[0]] + xs[1..];
      [xs[0]] + InsertBy(x, xs[1..], key)
  }

  /** Insertion sort; an element is placed before the equal-key elements that followed it. */
  function SortBy<T>(xs: seq<T>, key: T -> int): (r: seq<T>)
  {
    if xs == [] then [] else InsertBy(xs[0], SortBy(xs[1..], key), key)
  }

  /** The elements whose key is `k`. */
  function KeyIs<T>(key: T -> int, k: int): T -> bool {
    x => key(x) == k
  }

  lemma {:induction false} InsertBySorted<T>(x: T, xs: seq<T>, key: T -> int)
    requires SortedBy(xs, key)
    ensures SortedBy(InsertBy(x, xs, key), key)
  {
    if xs != [] && key(x) > key(xs[0]) {
      InsertBySorted(x, xs[1..], key);
      var tail := InsertBy(x, xs[1..], key);
      forall y | y in tail
        ensures key(xs[0]) <= key(y)
      {
        assert y in multiset(tail);
        assert y == x || y in multiset(xs[1..]);
      }
    }
  }

  lemma {:induction false} InsertByStable<T>(x: T, xs: seq<T>, key: T -> int, k: int)
    ensures Filter(InsertBy(x, xs, key), KeyIs(key, k))
         == (if key(x) == k then [x] else []) + Filter(xs, KeyIs(key, k))
  {
    var keep := KeyIs(key, k);
    if xs == [] || key(x) <= key(xs[0]) {
      assert ([x] + xs)[1..] == xs;
    } else {
      InsertByStable(x, xs[1..], key, k);
      assert ([xs[0]] + InsertBy(x, xs[1..], key))[1..] == InsertBy(x, xs[1..], key);
    }
  }

  /**
   * The sort returns the same elements, in non-decreasing key order, and
   * elements with equal keys stay in the order they had (the sort is stable).
   */
  lemma {:induction false} SortBySpec<T>(xs: seq<T>, key: T -> int)
    ensures SortedBy(SortBy(xs, key), key)
    ensures multiset(SortBy(xs, key)) == multiset(xs)
    ensures forall k :: Filter(SortBy(xs, key), KeyIs(key, k)) == Filter(xs, KeyIs(key, k))
  {
    if xs != [] {
      SortBySpec(xs[1..], key);
      InsertBySorted(xs[0], SortBy(xs[1..], key), key);
      assert xs == [xs[0]] + xs[1..];
      forall k
        ensures Filter(SortBy(xs, key), KeyIs(key, k)) == Filter(xs, KeyIs(key, k))
      {
        InsertByStable(xs[0], SortBy(xs[1..], key), key, k);
      }
    }
  }
}
