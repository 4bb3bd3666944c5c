/**
 The in-place insertion sort behind `sort.Slice`, `sort.Sort` and
 `sort.SliceStable` (the branch Go's library takes for short slices), for an
 arbitrary comparator, as a function and as the method that refines it.
 */
module Sorting {

  /** x moves left past every element it is `less` than, and stops at the first other one. */
  function Insert<T>(sorted: seq<T>, x: T, less: (T, T) -> bool): seq<T> {
    if sorted == [] || !less(x, sorted[|sorted| - 1]) then sorted + [x]
    else Insert(sorted[..|sorted| - 1], x, less) + [sorted[|sorted| - 1]]
  }

  function InsertionSort<T>(s: seq<T>, less: (T, T) -> bool): seq<T> {
    if s == [] then []
    else Insert(InsertionSort(s[..|s| - 1], less), s[|s| - 1], less)
  }

  /** The array while x is on its way left: x at position j, the rest of `sorted` around it, then `tail`. */
  ghost function Moving<T>(sorted: seq<T>, j: nat, x: T, tail: seq<T>): (r: seq<T>)
    requires j <= |sorted|
  {
    sorted[..j] + [x] + sorted[j..] + tail
  }

  lemma {:induction false} MovingSwap<T>(sorted: seq<T>, j: nat, x: T, tail: seq<T>)
    requires 0 < j <= |sorted|
    ensures var m := Moving(sorted, j, x, tail);
            m[j - 1] == sorted[j - 1] && m[j] == x && m[j := m[j - 1]][j - 1 := m[j]] == Moving(sorted, j - 1, x, tail)
  {
    var m, r := Moving(sorted, j, x, tail), Moving(sorted, j - 1, x, tail);
    assert forall k :: 0 <= k < |r| ==> m[j := m[j - 1]][j - 1 := m[j]][k] == r[k];
  }

  lemma {:induction false} InsertStep<T>(sorted: seq<T>, j: nat, x: T, less: (T, T) -> bool)
    requires 0 < j <= |sorted| && less(x, sorted[j - 1])
    ensures Insert(sorted[..j], x, less) + sorted[j..] == Insert(sorted[..j - 1], x, less) + sorted[j - 1..]
  {
    assert sorted[..j][..j - 1] == sorted[..j - 1];
    assert sorted[j - 1..] == [sorted[j - 1]] + sorted[j..];
  }

  /** One round: the element at position i moves left into the sorted prefix. */
  method InsertLeft<T>(a: array<T>, i: nat, less: (T, T) -> bool, ghost sorted: seq<T>, ghost tail: seq<T>)
    requires i < a.Length && |sorted| == i
    requires a[..] == sorted + [a[i]] + tail
    modifies a
    ensures a[..] == Insert(sorted, old(a[i]), less) + tail
  {
    ghost var x := a[i];
    var j := i;
    assert sorted[..i] == sorted && sorted[i..] == [];
    while j > 0 && less(a[j], a[j - 1])
      invariant 0 <= j <= i
      invariant a[..] == Moving(sorted, j, x, tail)
      invariant Insert(sorted, x, less) == Insert(sorted[..j], x, less) + sorted[j..]
    {
      MovingSwap(sorted, j, x, tail);
      assert a[j] == a[..][j] && a[j - 1] == a[..][j - 1];
      InsertStep(sorted, j, x, less);
      ghost var before := a[..];
      a[j], a[j - 1] := a[j - 1], a[j];
      assert a[..] == before[j := before[j - 1]][j - 1 := before[j]];
      j := j - 1;
    }
    if j > 0 {
      MovingSwap(sorted, j, x, tail);
      assert a[j] == a[..][j] && a[j - 1] == a[..][j - 1];
      assert sorted[..j][j - 1] == sorted[j - 1];
    }
    assert Insert(sorted[..j], x, less) == sorted[..j] + [x];
  }

  lemma {:induction false} SortStep<T>(was: seq<T>, i: nat, less: (T, T) -> bool)
    requires i < |was|
    ensures InsertionSort(was[..i + 1], less) == Insert(InsertionSort(was[..i], less), was[i], less)
    ensures |InsertionSort(was[..i], less)| == i
    ensures InsertionSort(was[..i], less) + was[i..] == InsertionSort(was[..i], less) + [was[i]] + was[i + 1..]
  {
    assert was[..i + 1][..i] == was[..i];
    SortPermutes(was[..i], less);
    assert was[i..] == [was[i]] + was[i + 1..];
  }

  method SortSlice<T>(a: array<T>, less: (T, T) -> bool)
    modifies a
    ensures a[..] == InsertionSort(old(a[..]), less)
  {
    ghost var was := a[..];
    assert was[..0] == [];
    var i := 0;
    while i < a.Length
      invariant 0 <= i <= a.Length
      invariant a[..] == InsertionSort(was[..i], less) + was[i..]
    {
      SortStep(was, i, less);
      ghost var sorted, tail := InsertionSort(was[..i], less), was[i + 1..];
      assert a[i] == a[..][i] == was[i];
      InsertLeft(a, i, less, sorted, tail);
      i := i + 1;
    }
    assert was[..a.Length] == was;
  }

  lemma {:induction false} InsertElements<T>(s: seq<T>, x: T, less: (T, T) -> bool)
    ensures multiset(Insert(s, x, less)) == multiset(s) + multiset{x}
    ensures |Insert(s, x, less)| == |s| + 1
  {
    if s != [] && less(x, s[|s| - 1]) {
      InsertElements(s[..|s| - 1], x, less);
      assert s == s[..|s| - 1] + [s[|s| - 1]];
    }
  }

  /** Sorting permutes, whatever the comparator. */
  lemma {:induction false} SortPermutes<T>(s: seq<T>, less: (T, T) -> bool)
    ensures multiset(InsertionSort(s, less)) == multiset(s)
    ensures |InsertionSort(s, less)| == |s|
    ensures forall x :: x in InsertionSort(s, less) <==> x in s
  {
    if s != [] {
      SortPermutes(s[..|s| - 1], less);
      InsertElements(InsertionSort(s[..|s| - 1], less), s[|s| - 1], less);
      assert s == s[..|s| - 1] + [s[|s| - 1]];
    }
    forall x
      ensures x in InsertionSort(s, less) <==> x in s
    {
      assert x in InsertionSort(s, less) <==> x in multiset(InsertionSort(s, less));
      assert x in s <==> x in multiset(s);
    }
  }

  /** No element is `less` than an earlier one. */
  ghost predicate Ordered<T>(s: seq<T>, less: (T, T) -> bool) {
    forall i, j :: 0 <= i < j < |s| ==> !less(s[j], s[i])
  }

  /** less is a strict weak order on the elements of s. */
  ghost predicate StrictWeak<T>(s: seq<T>, less: (T, T) -> bool) {
    && (forall x, y :: x in s && y in s && less(x, y) ==> !less(y, x))
    && (forall x, y, z :: x in s && y in s && z in s && !less(x, y) && !less(y, z) ==> !less(x, z))
  }

  lemma {:induction false} InsertOrdered<T>(s: seq<T>, x: T, less: (T, T) -> bool)
    requires StrictWeak(s + [x], less) && Ordered(s, less)
    ensures Ordered(Insert(s, x, less), less)
  {
    if s == [] {
    } else {
      var last, front := s[|s| - 1], s[..|s| - 1];
      assert forall y :: y in s ==> y in s + [x];
      assert x in s + [x] && last in s + [x];
      if less(x, last) {
        assert forall y :: y in front + [x] ==> y in s + [x];
        InsertOrdered(front, x, less);
        InsertElements(front, x, less);
        var r := Insert(front, x, less);
        forall i | 0 <= i < |r|
          ensures !less(last, r[i])
        {
          assert r[i] in multiset(r);
          assert r[i] == x || r[i] in front;
        }
      } else {
        forall i | 0 <= i < |s|
          ensures !less(x, s[i])
        {
          assert s[i] in s + [x];
          assert i < |s| - 1 ==> !less(last, s[i]);
        }
      }
    }
  }

  /** With a strict weak order the result is ordered. */
  lemma {:induction false} SortOrders<T>(s: seq<T>, less: (T, T) -> bool)
    requires StrictWeak(s, less)
    ensures Ordered(InsertionSort(s, less), less)
  {
    if s != [] {
      var front := s[..|s| - 1];
      assert forall y :: y in front ==> y in s;
      SortOrders(front, less);
      SortPermutes(front, less);
      var r := InsertionSort(front, less);
      forall y | y in r + [s[|s| - 1]]
        ensures y in s
      {
        if y in r {
          assert y in multiset(r);
          assert y in multiset(front);
        }
      }
      InsertOrdered(r, s[|s| - 1], less);
    }
  }

  /** The elements of s that x is neither less than nor more than, in their order. */
  ghost function Alike<T>(s: seq<T>, x: T, less: (T, T) -> bool): seq<T> {
    if s == [] then []
    else
      var last := s[|s| - 1];
      Alike(s[..|s| - 1], x, less) + if less(x, last) || less(last, x) then [] else [last]
  }

  lemma {:induction false} AlikeAppend<T>(s: seq<T>, y: T, x: T, less: (T, T) -> bool)
    ensures Alike(s + [y], x, less) == Alike(s, x, less) + if less(x, y) || less(y, x) then [] else [y]
  {
    assert (s + [y])[..|s|] == s;
  }

  lemma {:induction false} SubsetIsWeak<T>(s: seq<T>, t: seq<T>, less: (T, T) -> bool)
    requires StrictWeak(s, less) && forall z :: z in t ==> z in s
    ensures StrictWeak(t, less)
  {
  }

  /** Two elements of which one is less than the other are not both like x, so they may change places. */
  lemma {:induction false} SwapAlike<T>(s: seq<T>, y: T, last: T, x: T, less: (T, T) -> bool)
    requires StrictWeak([y, last, x], less) && less(y, last)
    ensures Alike(s + [last] + [y], x, less) == Alike(s + [y] + [last], x, less)
  {
    AlikeAppend(s + [last], y, x, less);
    AlikeAppend(s, last, x, less);
    AlikeAppend(s + [y], last, x, less);
    AlikeAppend(s, y, x, less);
    var all := [y, last, x];
    assert all[0] == y && all[1] == last && all[2] == x;
    assert y in all && last in all && x in all;
  }

  lemma {:induction false} InsertIsStable<T>(s: seq<T>, y: T, x: T, less: (T, T) -> bool)
    requires StrictWeak(s + [y, x], less)
    ensures Alike(Insert(s, y, less), x, less) == Alike(s + [y], x, less)
  {
    if s != [] && less(y, s[|s| - 1]) {
      var front, last := s[..|s| - 1], s[|s| - 1];
      assert s == front + [last];
      SubsetIsWeak(s + [y, x], front + [y, x], less);
      InsertIsStable(front, y, x, less);
      AlikeAppend(Insert(front, y, less), last, x, less);
      AlikeAppend(front + [y], last, x, less);
      SubsetIsWeak(s + [y, x], [y, last, x], less);
      SwapAlike(front, y, last, x, less);
    }
  }

  /** With a strict weak order, elements that are alike keep their order. */
  lemma {:induction false} SortIsStable<T>(s: seq<T>, x: T, less: (T, T) -> bool)
    requires StrictWeak(s + [x], less)
    ensures Alike(InsertionSort(s, less), x, less) == Alike(s, x, less)
  {
    if s != [] {
      var front, last := s[..|s| - 1], s[|s| - 1];
      forall z | z in front + [x]
        ensures z in s + [x]
      {
      }
      SortIsStable(front, x, less);
      var r := InsertionSort(front, less);
      SortPermutes(front, less);
      forall z | z in r + [last, x]
        ensures z in s + [x]
      {
        assert s[|s| - 1] == last;
        if z in r {
          assert z in multiset(r);
          assert z in multiset(front);
        }
      }
      InsertIsStable(r, last, x, less);
      AlikeAppend(r, last, x, less);
    }
  }

  /** Up to this length `sort.SliceStable` is a plain insertion sort. */
  const INSERTION_BLOCK := 20

  /**
   What `sort.SliceStable` may return.  Its contract asks for a strict weak order, and then the
   stable result is the one of insertion sort.  A comparator that is no such order still gets
   insertion sort on a short list; on a longer one any permutation is allowed here.
   */
  ghost predicate StablySorted<T>(s: seq<T>, r: seq<T>, less: (T, T) -> bool) {
    && multiset(r) == multiset(s)
    && (|s| <= INSERTION_BLOCK || StrictWeak(s, less) ==> r == InsertionSort(s, less))
  }

  lemma {:induction false} InsertionIsStable<T>(s: seq<T>, less: (T, T) -> bool)
    ensures StablySorted(s, InsertionSort(s, less), less)
  {
    SortPermutes(s, less);
  }

  lemma {:induction false} OccursOnce<T>(s: seq<T>, x: T)
    requires forall i, j :: 0 <= i < j < |s| ==> s[i] != s[j]
    ensures multiset(s)[x] <= 1
  {
    if s != [] {
      var front, last := s[..|s| - 1], s[|s| - 1];
      assert s == front + [last];
      OccursOnce(front, x);
      if last == x { assert x !in front; }
    }
  }

  lemma {:induction false} OccursTwice<T>(r: seq<T>, i: nat, j: nat)
    requires i < j < |r| && r[i] == r[j]
    ensures multiset(r)[r[i]] >= 2
  {
    assert r == r[..i] + [r[i]] + r[i + 1..j] + [r[j]] + r[j + 1..];
  }

  /** A permutation of a list without repetitions has none. */
  lemma {:induction false} PermutationKeepsUnique<T>(s: seq<T>, r: seq<T>)
    requires multiset(s) == multiset(r)
    requires forall i, j :: 0 <= i < j < |s| ==> s[i] != s[j]
    ensures forall i, j :: 0 <= i < j < |r| ==> r[i] != r[j]
    ensures |r| == |s|
  {
    forall i, j | 0 <= i < j < |r|
      ensures r[i] != r[j]
    {
      if r[i] == r[j] {
        OccursTwice(r, i, j);
        OccursOnce(s, r[i]);
      }
    }
    assert |multiset(s)| == |s| && |multiset(r)| == |r|;
  }
}
