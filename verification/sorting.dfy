/** Ordering by a comparison function, as Go's `slices.SortFunc` does it.  The source sorts
    platforms and object keys with comparators that return 0 only for equal values, so every
    correct sort yields the same sequence (SortedUnique); `SortBy` is one such sort. */
module Sorting {

  ghost predicate StrictTotalOrder<T(!new)>(less: (T, T) -> bool) {
    && (forall a :: !less(a, a))
    && (forall a, b, c :: less(a, b) && less(b, c) ==> less(a, c))
    && (forall a, b :: less(a, b) || a == b || less(b, a))
  }

  /** Non-decreasing: no later element is below an earlier one. */
  predicate Sorted<T>(s: seq<T>, less: (T, T) -> bool) {
    forall i, j :: 0 <= i < j < |s| ==> !less(s[j], s[i])
  }

  /** Strictly increasing, hence also free of duplicates. */
  predicate StrictlySorted<T>(s: seq<T>, less: (T, T) -> bool) {
    forall i, j :: 0 <= i < j < |s| ==> less(s[i], s[j])
  }

  predicate Distinct<T(==)>(s: seq<T>) {
    forall i, j :: 0 <= i < j < |s| ==> s[i] != s[j]
  }

  function Insert<T>(x: T, s: seq<T>, less: (T, T) -> bool): seq<T> {
    if |s| == 0 then [x]
    else if less(s[0], x) then [s[0]] + Insert(x, s[1..], less)
    else [x] + s
  }

  /** Insertion sort. */
  function SortBy<T>(s: seq<T>, less: (T, T) -> bool): seq<T> {
    if |s| == 0 then [] else Insert(s[0], SortBy(s[1..], less), less)
  }

  lemma {:induction false} InsertPermutes<T>(x: T, s: seq<T>, less: (T, T) -> bool)
    ensures multiset(Insert(x, s, less)) == multiset(s) + multiset{x}
    decreases |s|
  {
    if |s| > 0 && less(s[0], x) {
      InsertPermutes(x, s[1..], less);
      assert s == [s[0]] + s[1..];
    }
  }

  lemma {:induction false} InsertSorted<T(!new)>(x: T, s: seq<T>, less: (T, T) -> bool)
    requires StrictTotalOrder(less)
    requires Sorted(s, less)
    ensures Sorted(Insert(x, s, less), less)
    decreases |s|
  {
    if |s| > 0 {
      if less(s[0], x) {
        SortedTail(s, less);
        InsertSorted(x, s[1..], less);
        assert !less(x, s[0]);
        forall k | 0 <= k < |s| - 1
          ensures !less(s[1..][k], s[0])
        {
          assert s[1..][k] == s[k + 1];
        }
        InsertAbove(x, s[1..], s[0], less);
        SortedCons(s[0], Insert(x, s[1..], less), less);
      } else {
        forall k | 0 <= k < |s| ensures !less(s[k], x) {
          if k > 0 {
            assert !less(s[k], s[0]);
          }
        }
      }
    }
  }

  /** SortBy returns a sorted permutation of its input. */
  lemma {:induction false} SortBySpec<T(!new)>(s: seq<T>, less: (T, T) -> bool)
    requires StrictTotalOrder(less)
    ensures Sorted(SortBy(s, less), less)
    ensures multiset(SortBy(s, less)) == multiset(s)
    decreases |s|
  {
    if |s| > 0 {
      SortBySpec(s[1..], less);
      InsertSorted(s[0], SortBy(s[1..], less), less);
      InsertPermutes(s[0], SortBy(s[1..], less), less);
      assert s == [s[0]] + s[1..];
    }
  }

  /** The head of a sorted sequence is not above any of its elements. */
  lemma SortedHead<T(!new)>(s: seq<T>, x: T, less: (T, T) -> bool)
    requires StrictTotalOrder(less)
    requires Sorted(s, less) && x in s
    ensures !less(x, s[0])
  {
    var i :| 0 <= i < |s| && s[i] == x;
    if i > 0 {
      assert !less(s[i], s[0]);
    }
  }

  /** A sorted sequence is determined by its multiset of elements. */
  lemma {:induction false} SortedUnique<T(!new)>(s: seq<T>, t: seq<T>, less: (T, T) -> bool)
    requires StrictTotalOrder(less)
    requires Sorted(s, less) && Sorted(t, less)
    requires multiset(s) == multiset(t)
    ensures s == t
    decreases |s|
  {
    assert |t| == |multiset(t)| == |s|;
    if |s| > 0 {
      SortedSameHead(s, t, less);
      SortedTail(s, less);
      SortedTail(t, less);
      SameTails(s, t);
      SortedUnique(s[1..], t[1..], less);
      assert s == [s[0]] + s[1..] && t == [t[0]] + t[1..];
    }
  }

  /** Two sorted sequences with the same elements start with the same element. */
  lemma SortedSameHead<T(!new)>(s: seq<T>, t: seq<T>, less: (T, T) -> bool)
    requires StrictTotalOrder(less)
    requires Sorted(s, less) && Sorted(t, less)
    requires |s| > 0 && multiset(s) == multiset(t)
    ensures |t| > 0 && s[0] == t[0]
  {
    assert s[0] in multiset(s);
    assert |t| > 0;
    assert t[0] in multiset(t);
    SortedHead(s, t[0], less);
    SortedHead(t, s[0], less);
  }

  /** Inserting an element that is not below `y` into elements that are not below `y` keeps
      every element not below `y`. */
  lemma {:induction false} InsertAbove<T>(x: T, s: seq<T>, y: T, less: (T, T) -> bool)
    requires forall k :: 0 <= k < |s| ==> !less(s[k], y)
    requires !less(x, y)
    ensures forall k :: 0 <= k < |Insert(x, s, less)| ==> !less(Insert(x, s, less)[k], y)
    decreases |s|
  {
    if |s| > 0 && less(s[0], x) {
      forall k | 0 <= k < |s| - 1
        ensures !less(s[1..][k], y)
      {
        assert s[1..][k] == s[k + 1];
      }
      InsertAbove(x, s[1..], y, less);
    }
  }

  /** A sorted sequence behind an element not above any of it is sorted. */
  lemma SortedCons<T>(h: T, r: seq<T>, less: (T, T) -> bool)
    requires Sorted(r, less)
    requires forall k :: 0 <= k < |r| ==> !less(r[k], h)
    ensures Sorted([h] + r, less)
  {
    forall i, j | 0 <= i < j < |r| + 1
      ensures !less(([h] + r)[j], ([h] + r)[i])
    {
      if i > 0 {
        assert ([h] + r)[i] == r[i - 1];
      }
      assert ([h] + r)[j] == r[j - 1];
    }
  }

  /** Sequences with the same elements and the same head have tails with the same elements. */
  lemma SameTails<T>(s: seq<T>, t: seq<T>)
    requires |s| > 0 && |t| > 0 && s[0] == t[0] && multiset(s) == multiset(t)
    ensures multiset(s[1..]) == multiset(t[1..])
  {
    assert s == [s[0]] + s[1..] && t == [t[0]] + t[1..];
    assert multiset(s[1..]) == multiset(s) - multiset{s[0]};
    assert multiset(t[1..]) == multiset(t) - multiset{s[0]};
  }

  /** The tail of a sorted sequence is sorted. */
  lemma SortedTail<T>(s: seq<T>, less: (T, T) -> bool)
    requires Sorted(s, less) && |s| > 0
    ensures Sorted(s[1..], less)
  {
    forall i, j | 0 <= i < j < |s| - 1
      ensures !less(s[1..][j], s[1..][i])
    {
      assert s[1..][j] == s[j + 1] && s[1..][i] == s[i + 1];
    }
  }

  /** Sorted without duplicates means strictly increasing. */
  lemma SortedDistinctStrict<T(!new)>(s: seq<T>, less: (T, T) -> bool)
    requires StrictTotalOrder(less)
    requires Sorted(s, less) && Distinct(s)
    ensures StrictlySorted(s, less)
  {
    forall i, j | 0 <= i < j < |s| ensures less(s[i], s[j]) {
      assert !less(s[j], s[i]) && s[i] != s[j];
    }
  }

  /** A strictly increasing sequence is determined by its set of elements. */
  lemma {:induction false} StrictlySortedUnique<T(!new)>(s: seq<T>, t: seq<T>, less: (T, T) -> bool)
    requires StrictTotalOrder(less)
    requires StrictlySorted(s, less) && StrictlySorted(t, less)
    requires forall x :: x in s <==> x in t
    ensures s == t
    decreases |s|
  {
    assert |s| > 0 <==> |t| > 0 by {
      if |s| > 0 {
        assert s[0] in t;
      }
      if |t| > 0 {
        assert t[0] in s;
      }
    }
    if |s| > 0 {
      assert t[0] in s && s[0] in t;
      assert s[0] == t[0] by {
        var i :| 0 <= i < |s| && s[i] == t[0];
        var j :| 0 <= j < |t| && t[j] == s[0];
      }
      forall x ensures x in s[1..] <==> x in t[1..] {
        if x in s[1..] {
          var i :| 1 <= i < |s| && s[i] == x;
          assert less(s[0], x);
          assert x in t;
          var j :| 0 <= j < |t| && t[j] == x;
          assert j != 0;
          assert t[1..][j - 1] == x;
        }
        if x in t[1..] {
          var i :| 1 <= i < |t| && t[i] == x;
          assert less(t[0], x);
          assert x in s;
          var j :| 0 <= j < |s| && s[j] == x;
          assert j != 0;
          assert s[1..][j - 1] == x;
        }
      }
      StrictlySortedUnique(s[1..], t[1..], less);
      assert s == [s[0]] + s[1..] && t == [t[0]] + t[1..];
    }
  }

  /** A repeat-free list holds each value at most once. */
  lemma {:induction false} DistinctCount<T>(d: seq<T>, x: T)
    requires Distinct(d)
    ensures multiset(d)[x] <= 1
    decreases |d|
  {
    if |d| > 0 {
      DistinctCount(d[1..], x);
      assert d == [d[0]] + d[1..];
      if x == d[0] {
        assert x !in d[1..];
      }
    }
  }

  /** Repeat-free lists with the same elements are permutations of each other. */
  lemma DistinctMultiset<T>(a: seq<T>, b: seq<T>)
    requires Distinct(a) && Distinct(b)
    requires forall x :: x in a <==> x in b
    ensures multiset(a) == multiset(b)
  {
    forall x ensures multiset(a)[x] == multiset(b)[x] {
      DistinctCount(a, x);
      DistinctCount(b, x);
      assert x in a <==> x in multiset(a);
      assert x in b <==> x in multiset(b);
    }
  }
}
