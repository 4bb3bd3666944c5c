/**
 The order in which changed segments are rolled out (pkg/core/traffic.go,
 controller/stackset.go).  The comment in the source asks for growing segments
 first; the comparator falls through to the id test even when the other segment
 grows more.  The comparator is modelled as coded, and the condition under which
 it still delivers the intended order is given exactly.
 */
module Rollout {
  import opened Names
  import opened Sums
  import opened Sorting
  import opened Layout
  import opened Partition

  // ----- the intended order and the coded comparator -----

  /** Larger growth first; ids only break ties. */
  predicate GrowsFirst(x: Change, y: Change) {
    x.Diff() > y.Diff() || (x.Diff() == y.Diff() && Less(x.id, y.id))
  }

  ghost predicate DistinctIds(c: seq<Change>) {
    forall i, j :: 0 <= i < j < |c| ==> c[i].id != c[j].id
  }

  ghost predicate Descending(c: seq<Change>) {
    forall i, j :: 0 <= i < j < |c| ==> c[i].Diff() >= c[j].Diff()
  }

  /** Of the earlier changes that have to come before c[j], c[i] comes last. */
  ghost predicate Closest(c: seq<Change>, i: nat, j: nat) {
    && i < j < |c| && GrowsFirst(c[i], c[j])
    && forall k :: 0 <= k < j && k != i && GrowsFirst(c[k], c[j]) ==> GrowsFirst(c[k], c[i])
  }

  /** Whenever an earlier change has to stop a later one, it also has the smaller id. */
  ghost predicate WellNumbered(c: seq<Change>) {
    forall i: nat, j: nat :: Closest(c, i, j) ==> Less(c[i].id, c[j].id)
  }

  /** The comparator as coded can put each of two segments before the other: it is no order. */
  lemma {:induction false} ComparatorIsNoOrder()
    ensures exists x: Change, y: Change :: RollsOutBefore(x, y) && RollsOutBefore(y, x)
  {
    var x := Change("v1", Interval(0.3, 1.0), Interval(0.6, 1.0));
    var y := Change("v2", Interval(0.0, 0.3), Interval(0.0, 0.6));
    assert Less(x.id, y.id) by { assert x.id[0] == y.id[0] && x.id[1..] == "1" && y.id[1..] == "2"; }
    assert RollsOutBefore(x, y) && RollsOutBefore(y, x);
  }

  lemma {:induction false} GrowsFirstTotal(x: Change, y: Change)
    requires x.id != y.id
    ensures GrowsFirst(x, y) != GrowsFirst(y, x)
  {
    LessTotal(x.id, y.id);
    if Less(x.id, y.id) { LessAsymmetric(x.id, y.id); } else { LessAsymmetric(y.id, x.id); }
  }

  lemma {:induction false} GrowsFirstTransitive(x: Change, y: Change, z: Change)
    requires GrowsFirst(x, y) && GrowsFirst(y, z)
    ensures GrowsFirst(x, z)
  {
    if Less(x.id, y.id) && Less(y.id, z.id) { LessTransitive(x.id, y.id, z.id); }
  }

  /** Strictly sorted in the intended order. */
  ghost predicate Sorted(s: seq<Change>) {
    forall i, j :: 0 <= i < j < |s| ==> GrowsFirst(s[i], s[j])
  }

  lemma {:induction false} SortedDescends(s: seq<Change>)
    requires Sorted(s)
    ensures Descending(s)
  {
    forall i, j | 0 <= i < j < |s|
      ensures s[i].Diff() >= s[j].Diff()
    {
      assert GrowsFirst(s[i], s[j]);
    }
  }

  // ----- one insertion -----

  ghost predicate NewId(s: seq<Change>, x: Change) {
    forall i :: 0 <= i < |s| ==> s[i].id != x.id
  }

  /** The element of s that x must stop at, if any, has a smaller id than x. */
  ghost predicate Stops(s: seq<Change>, x: Change) {
    forall z :: z in s && GrowsFirst(z, x) && (forall y :: y in s && y != z && GrowsFirst(y, x) ==>
            GrowsFirst(y, z)) ==>
      Less(z.id, x.id)
  }

  lemma {:induction false} StopsEarlier(s: seq<Change>, x: Change)
    requires s != [] && Stops(s, x) && !GrowsFirst(s[|s| - 1], x)
    ensures Stops(s[..|s| - 1], x)
  {
    var front, last := s[..|s| - 1], s[|s| - 1];
    assert s == front + [last];
    forall z | z in front && GrowsFirst(z, x)
               && (forall y :: y in front && y != z && GrowsFirst(y, x) ==> GrowsFirst(y, z))
      ensures Less(z.id, x.id)
    {
      assert z in s;
      assert forall y :: y in s && y != z && GrowsFirst(y, x) ==> y in front && GrowsFirst(y, z);
    }
  }

  /** If x stops where it must, one insertion keeps the list sorted as intended. */
  lemma {:induction false} InsertSorted(s: seq<Change>, x: Change)
    requires Sorted(s) && NewId(s, x) && Stops(s, x)
    ensures Sorted(Insert(s, x, RollsOutBefore))
  {
    if s != [] {
      var front, last := s[..|s| - 1], s[|s| - 1];
      GrowsFirstTotal(x, last);
      if GrowsFirst(x, last) {
        StopsEarlier(s, x);
        InsertSorted(front, x);
        var r := Insert(front, x, RollsOutBefore);
        InsertElements(front, x, RollsOutBefore);
        forall i | 0 <= i < |r|
          ensures GrowsFirst(r[i], last)
        {
          FromInsert(front, x, r, i);
        }
      } else {
        LastStops(s, x);
        forall i | 0 <= i < |s|
          ensures GrowsFirst(s[i], x)
        {
          if i < |s| - 1 { GrowsFirstTransitive(s[i], last, x); }
        }
      }
    }
  }

  lemma {:induction false} FromInsert(s: seq<Change>, x: Change, r: seq<Change>, i: nat)
    requires multiset(r) == multiset(s) + multiset{x} && i < |r|
    ensures r[i] == x || exists k :: 0 <= k < |s| && s[k] == r[i]
  {
    assert r[i] in multiset(r);
    assert r[i] == x || r[i] in multiset(s);
  }

  /** The last element, when it has to come before x, is the one that stops x. */
  lemma {:induction false} LastStops(s: seq<Change>, x: Change)
    requires s != [] && Sorted(s) && NewId(s, x) && Stops(s, x) && GrowsFirst(s[|s| - 1], x)
    ensures !RollsOutBefore(x, s[|s| - 1])
  {
    var last := s[|s| - 1];
    assert forall y :: y in s && y != last ==> GrowsFirst(y, last);
    assert Less(last.id, x.id);
    LessAsymmetric(last.id, x.id);
  }

  ghost predicate Inverted(s: seq<Change>) {
    exists i, j :: 0 <= i < j < |s| && s[i].Diff() < s[j].Diff()
  }

  /** A shrinking segment once placed before a growing one stays there. */
  lemma {:induction false} InsertKeepsInversion(s: seq<Change>, x: Change, less: (Change, Change) -> bool)
    requires Inverted(s)
    ensures Inverted(Insert(s, x, less))
  {
    var i, j :| 0 <= i < j < |s| && s[i].Diff() < s[j].Diff();
    var front, last := s[..|s| - 1], s[|s| - 1];
    if less(x, last) {
      var r := Insert(front, x, less);
      InsertElements(front, x, less);
      if j < |s| - 1 {
        assert front[i].Diff() < front[j].Diff();
        InsertKeepsInversion(front, x, less);
        InvertedPrefix(r, [last]);
      } else {
        InvertedByLast(front, x, r, i, last);
      }
    } else {
      assert (s + [x])[i] == s[i] && (s + [x])[j] == s[j];
    }
  }

  lemma {:induction false} InvertedPrefix(r: seq<Change>, more: seq<Change>)
    requires Inverted(r)
    ensures Inverted(r + more)
  {
    var i, j :| 0 <= i < j < |r| && r[i].Diff() < r[j].Diff();
    assert (r + more)[i] == r[i] && (r + more)[j] == r[j];
  }

  lemma {:induction false} InvertedByLast(front: seq<Change>, x: Change, r: seq<Change>, i: nat, last: Change)
    requires multiset(r) == multiset(front) + multiset{x} && i < |front| && front[i].Diff() < last.Diff()
    ensures Inverted(r + [last])
  {
    assert front[i] in multiset(front);
    assert front[i] in multiset(r);
    var k :| 0 <= k < |r| && r[k] == front[i];
    assert (r + [last])[k] == r[k] && (r + [last])[|r|] == last;
  }

  /** If x passes the element it should stop at, it ends up before a segment that grows more. */
  lemma {:induction false} PassingInverts(s: seq<Change>, x: Change, p: nat)
    requires Sorted(s) && NewId(s, x) && p < |s|
    requires s[p].Diff() > x.Diff() && RollsOutBefore(x, s[p])
    requires forall k :: p < k < |s| ==> GrowsFirst(x, s[k])
    ensures Inverted(Insert(s, x, RollsOutBefore))
  {
    var front, last := s[..|s| - 1], s[|s| - 1];
    var r := Insert(front, x, RollsOutBefore);
    InsertElements(front, x, RollsOutBefore);
    if p == |s| - 1 {
      assert x in multiset(r);
      var k :| 0 <= k < |r| && r[k] == x;
      assert (r + [last])[k] == x && (r + [last])[|r|] == last;
    } else {
      PassingInverts(front, x, p);
      InvertedPrefix(r, [last]);
    }
  }

  // ----- the whole list -----

  lemma {:induction false} WellNumberedFront(c: seq<Change>)
    requires c != [] && WellNumbered(c)
    ensures WellNumbered(c[..|c| - 1])
  {
    var front := c[..|c| - 1];
    forall i: nat, j: nat | Closest(front, i, j)
      ensures Less(front[i].id, front[j].id)
    {
      assert forall k :: 0 <= k < |front| ==> front[k] == c[k];
      assert Closest(c, i, j);
    }
  }

  /** The last change stops correctly in the sorted rest exactly when its closest predecessor has a smaller id. */
  lemma {:induction false} LastStopsWhenNumbered(c: seq<Change>, s: seq<Change>)
    requires c != [] && WellNumbered(c) && DistinctIds(c)
    requires multiset(s) == multiset(c[..|c| - 1])
    ensures Stops(s, c[|c| - 1])
  {
    var front, j := c[..|c| - 1], |c| - 1;
    var x := c[j];
    forall z | z in s && GrowsFirst(z, x) && (forall y :: y in s && y != z && GrowsFirst(y, x) ==> GrowsFirst(y, z))
      ensures Less(z.id, x.id)
    {
      assert z in multiset(s);
      assert z in front;
      var i :| 0 <= i < |front| && front[i] == z;
      forall k | 0 <= k < j && k != i && GrowsFirst(c[k], x)
        ensures GrowsFirst(c[k], c[i])
      {
        assert front[k] in multiset(front);
        assert c[k] in s && c[k] != z;
      }
      assert Closest(c, i, j);
    }
  }

  lemma {:induction false} FrontIsNew(c: seq<Change>, s: seq<Change>)
    requires c != [] && DistinctIds(c) && multiset(s) == multiset(c[..|c| - 1])
    ensures NewId(s, c[|c| - 1])
  {
    forall i | 0 <= i < |s|
      ensures s[i].id != c[|c| - 1].id
    {
      assert s[i] in multiset(s);
      assert s[i] in c[..|c| - 1];
    }
  }

  /** If the last change is numbered wrongly it passes its closest predecessor. */
  lemma {:induction false} LastPassesWhenMisnumbered(c: seq<Change>, s: seq<Change>, i: nat)
    requires c != [] && DistinctIds(c) && Sorted(s) && multiset(s) == multiset(c[..|c| - 1])
    requires Closest(c, i, |c| - 1) && !Less(c[i].id, c[|c| - 1].id)
    ensures Inverted(Insert(s, c[|c| - 1], RollsOutBefore))
  {
    var front, x := c[..|c| - 1], c[|c| - 1];
    LessTotal(c[i].id, x.id);
    assert c[i].Diff() > x.Diff();
    assert front[i] in multiset(front);
    assert c[i] in multiset(s);
    var p :| 0 <= p < |s| && s[p] == c[i];
    FrontIsNew(c, s);
    forall k | p < k < |s|
      ensures GrowsFirst(x, s[k])
    {
      GrowsFirstTotal(x, s[k]);
      assert GrowsFirst(s[p], s[k]);
      if GrowsFirst(s[k], x) {
        assert s[k] in multiset(s);
        assert s[k] in front;
        var m :| 0 <= m < |front| && front[m] == s[k];
        ClosestIsLast(c, i, |c| - 1, m);
        GrowsFirstAsymmetric(s[p], s[k]);
      }
    }
    PassingInverts(s, x, p);
  }

  lemma {:induction false} ClosestIsLast(c: seq<Change>, i: nat, j: nat, m: nat)
    requires Closest(c, i, j) && m < j && GrowsFirst(c[m], c[j])
    ensures m == i || GrowsFirst(c[m], c[i])
  {
  }

  lemma {:induction false} GrowsFirstAsymmetric(x: Change, y: Change)
    requires GrowsFirst(x, y)
    ensures !GrowsFirst(y, x) && x != y
  {
    if Less(x.id, y.id) { LessAsymmetric(x.id, y.id); }
  }

  lemma {:induction false} RolloutSorts(c: seq<Change>)
    requires DistinctIds(c)
    ensures if WellNumbered(c) then Sorted(InsertionSort(c, RollsOutBefore)) else Inverted(InsertionSort(c,
                        RollsOutBefore))
  {
    if c == [] {
      assert !exists i: nat, j: nat :: Closest(c, i, j);
    } else {
      var front, x := c[..|c| - 1], c[|c| - 1];
      var s := InsertionSort(front, RollsOutBefore);
      RolloutSorts(front);
      SortPermutes(front, RollsOutBefore);
      if !WellNumbered(front) {
        InsertKeepsInversion(s, x, RollsOutBefore);
        if WellNumbered(c) { WellNumberedFront(c); }
      } else if WellNumbered(c) {
        FrontIsNew(c, s);
        LastStopsWhenNumbered(c, s);
        InsertSorted(s, x);
      } else {
        var i := MisnumberedLast(c);
        LastPassesWhenMisnumbered(c, s, i);
      }
    }
  }

  /** If only the last change spoils the numbering, it is the one that is numbered wrongly. */
  lemma {:induction false} MisnumberedLast(c: seq<Change>) returns (i: nat)
    requires c != [] && WellNumbered(c[..|c| - 1]) && !WellNumbered(c)
    ensures Closest(c, i, |c| - 1) && !Less(c[i].id, c[|c| - 1].id)
  {
    var front := c[..|c| - 1];
    var p: nat, q: nat :| Closest(c, p, q) && !Less(c[p].id, c[q].id);
    i := p;
    if q < |c| - 1 {
      assert forall k :: 0 <= k < |front| ==> front[k] == c[k];
      assert Closest(front, p, q);
    }
  }

  /**
   Of up to 20 changes the rollout list is descending by growth, as its comment asks, exactly if
   every change has a larger id than the closest earlier change that must come before it.
   */
  lemma {:induction false} RolloutDescendsIff(c: seq<Change>, r: seq<Change>)
    requires DistinctIds(c) && |c| <= 20 && StablySorted(c, r, RollsOutBefore)
    ensures Descending(r) <==> WellNumbered(c)
  {
    RolloutSorts(c);
    if WellNumbered(c) {
      SortedDescends(r);
    }
  }

  // ----- lists of any length -----

  /** Whatever grows more has the smaller id. */
  ghost predicate IdsFollowGrowth(c: seq<Change>) {
    forall x, y :: x in c && y in c && x.Diff() > y.Diff() ==> Less(x.id, y.id)
  }

  /** For any number of changes the coded comparator is a strict weak order exactly if the ids follow the growth. */
  lemma {:induction false} ComparatorIsOrderIff(c: seq<Change>)
    requires DistinctIds(c)
    ensures StrictWeak(c, RollsOutBefore) <==> IdsFollowGrowth(c)
  {
    if StrictWeak(c, RollsOutBefore) {
      forall x, y | x in c && y in c && x.Diff() > y.Diff()
        ensures Less(x.id, y.id)
      {
        LessTotal(x.id, y.id);
        assert RollsOutBefore(x, y);
      }
    }
    if IdsFollowGrowth(c) {
      FollowedIsStrictWeak(c);
    }
  }

  lemma {:induction false} FollowedIsLess(c: seq<Change>, x: Change, y: Change)
    requires IdsFollowGrowth(c) && x in c && y in c
    ensures RollsOutBefore(x, y) <==> Less(x.id, y.id)
  {
  }

  lemma {:induction false} FollowedIsStrictWeak(c: seq<Change>)
    requires DistinctIds(c) && IdsFollowGrowth(c)
    ensures StrictWeak(c, RollsOutBefore)
  {
    forall x, y | x in c && y in c && RollsOutBefore(x, y)
      ensures !RollsOutBefore(y, x)
    {
      FollowedIsLess(c, x, y);
      FollowedIsLess(c, y, x);
      LessAsymmetric(x.id, y.id);
    }
    forall x, y, z | x in c && y in c && z in c && !RollsOutBefore(x, y) && !RollsOutBefore(y, z)
      ensures !RollsOutBefore(x, z)
    {
      FollowedIsLess(c, x, y);
      FollowedIsLess(c, y, z);
      FollowedIsLess(c, x, z);
      NotLess(x.id, y.id, z.id);
    }
  }

  lemma {:induction false} NotLess(a: Name, b: Name, d: Name)
    requires !Less(a, b) && !Less(b, d)
    ensures !Less(a, d)
  {
    LessTotal(a, b);
    LessTotal(b, d);
    if a != b && b != d {
      LessTransitive(d, b, a);
      LessAsymmetric(d, a);
    }
  }

  /** Then every correct sort of any number of changes puts the larger growth first. */
  lemma {:induction false} OrderedDescends(r: seq<Change>)
    requires Ordered(r, RollsOutBefore)
    ensures Descending(r)
  {
    forall i, j | 0 <= i < j < |r|
      ensures r[i].Diff() >= r[j].Diff()
    {
      assert !RollsOutBefore(r[j], r[i]);
    }
  }

  lemma {:induction false} FollowedDescends(c: seq<Change>, r: seq<Change>)
    requires DistinctIds(c) && IdsFollowGrowth(c) && StablySorted(c, r, RollsOutBefore)
    ensures Descending(r)
  {
    ComparatorIsOrderIff(c);
    SortOrders(c, RollsOutBefore);
    OrderedDescends(r);
  }

  /** The list is sure to come out largest growth first. */
  ghost predicate WellIdentified(c: seq<Change>) {
    IdsFollowGrowth(c) || (|c| <= 20 && WellNumbered(c))
  }

  lemma {:induction false} WellIdentifiedDescends(c: seq<Change>, r: seq<Change>)
    requires DistinctIds(c) && WellIdentified(c) && StablySorted(c, r, RollsOutBefore)
    ensures Descending(r)
  {
    if IdsFollowGrowth(c) { FollowedDescends(c, r); } else { RolloutDescendsIff(c, r); }
  }

  // ----- widths while the list is applied -----

  /** The segments in the cluster once the first k changes of the list are applied. */
  ghost function Applied(found: Found, list: seq<Change>, k: nat): Found
    requires k <= |list|
  {
    if k == 0 then found else Applied(found, list, k - 1)[list[k - 1].id := list[k - 1].now]
  }

  ghost function Widths(limits: Found): Shares {
    map n | n in limits :: limits[n].Width()
  }

  ghost function TotalWidth(limits: Found): real {
    Sum(Widths(limits))
  }

  ghost predicate ChangesOf(found: Found, list: seq<Change>) {
    DistinctIds(list) && forall i :: 0 <= i < |list| ==> list[i].id in found && found[list[i].id] == list[i].was
  }

  lemma {:induction false} AppliedAt(found: Found, list: seq<Change>, k: nat, n: Name)
    requires k <= |list| && ChangesOf(found, list) && n in found
    ensures Applied(found, list, k).Keys == found.Keys
    ensures forall i :: 0 <= i < k && list[i].id == n ==> Applied(found, list, k)[n] == list[i].now
    ensures (forall i :: 0 <= i < k ==> list[i].id != n) ==> Applied(found, list, k)[n] == found[n]
  {
    if k > 0 { AppliedAt(found, list, k - 1, n); }
  }

  ghost function Growth(list: seq<Change>, k: nat): real
    requires k <= |list|
  {
    if k == 0 then 0.0 else Growth(list, k - 1) + list[k - 1].Diff()
  }

  lemma {:induction false} WidthAfter(found: Found, list: seq<Change>, k: nat)
    requires k <= |list| && ChangesOf(found, list)
    ensures TotalWidth(Applied(found, list, k)) == TotalWidth(found) + Growth(list, k)
  {
    if k > 0 {
      WidthAfter(found, list, k - 1);
      var c, before := list[k - 1], Applied(found, list, k - 1);
      AppliedAt(found, list, k - 1, c.id);
      assert before[c.id] == c.was;
      SumReplace(Widths(before), c.id, c.now.Width());
      assert Widths(before)[c.id := c.now.Width()] == Widths(Applied(found, list, k));
    }
  }

  /** Prefix sums of a descending list never drop below both ends. */
  lemma {:induction false} GrowthRisesThenFalls(list: seq<Change>, k: nat)
    requires Descending(list) && k <= |list|
    ensures Growth(list, k) >= 0.0 || Growth(list, k) >= Growth(list, |list|)
  {
    if k > 0 && list[k - 1].Diff() >= 0.0 {
      AllGrow(list, k);
    } else if k > 0 {
      AllShrink(list, k, |list|);
    }
  }

  lemma {:induction false} AllGrow(list: seq<Change>, k: nat)
    requires k <= |list| && forall i :: 0 <= i < k ==> list[i].Diff() >= 0.0
    ensures Growth(list, k) >= 0.0
  {
    if k > 0 { AllGrow(list, k - 1); }
  }

  lemma {:induction false} AllShrink(list: seq<Change>, k: nat, m: nat)
    requires k <= m <= |list| && forall i :: k <= i < m ==> list[i].Diff() <= 0.0
    ensures Growth(list, m) <= Growth(list, k)
  {
    if k < m { AllShrink(list, k, m - 1); }
  }

  /**
   Rolling out in descending order of growth, for any number of stacks: at every step the
   segments together are at least as wide as at the start or at the end.
   */
  lemma {:induction false} WidthNeverDips(found: Found, list: seq<Change>, k: nat)
    requires ChangesOf(found, list) && Descending(list) && k <= |list|
    ensures TotalWidth(Applied(found, list, k)) >= TotalWidth(found)
            || TotalWidth(Applied(found, list, k)) >= TotalWidth(Applied(found, list, |list|))
  {
    WidthAfter(found, list, k);
    WidthAfter(found, list, |list|);
    GrowthRisesThenFalls(list, k);
  }

  // ----- the rollout of a layout -----

  lemma {:induction false} ChangesAreDistinct(shares: Shares, order: seq<Segment>, i: nat)
    requires i <= |order| && Known(shares, order) && Distinct(order)
    ensures DistinctIds(ChangesUpTo(shares, order, i))
  {
    if i > 0 {
      ChangesAreDistinct(shares, order, i - 1);
      ChangeMembers(shares, order, i - 1);
      var c := ChangesUpTo(shares, order, i - 1);
      forall k | 0 <= k < |c|
        ensures c[k].id != order[i - 1].id
      {
        assert c[k] in c;
      }
    }
  }

  /** r lists the changes of the layout, in some order. */
  ghost predicate Rearranges(shares: Shares, order: seq<Segment>, r: seq<Change>)
    requires Known(shares, order)
  {
    multiset(r) == multiset(Changes(shares, order))
  }

  lemma {:induction false} PermutedIds(c: seq<Change>, r: seq<Change>)
    requires DistinctIds(c) && multiset(c) == multiset(r)
    ensures DistinctIds(r) && |r| == |c|
  {
    PermutationKeepsUnique(c, r);
    forall i, j | 0 <= i < j < |r|
      ensures r[i].id != r[j].id
    {
      assert r[i] in multiset(r) && r[j] in multiset(r);
      assert r[i] in c && r[j] in c;
    }
  }

  lemma {:induction false} RolloutIsChanges(found: Found, shares: Shares, order: seq<Segment>, r: seq<Change>)
    requires Complete(found, shares, order) && Rearranges(shares, order, r)
    ensures ChangesOf(found, r) && DistinctIds(Changes(shares, order)) && |r| == |Changes(shares, order)|
  {
    var c := Changes(shares, order);
    ChangesAreDistinct(shares, order, |order|);
    ChangeMembers(shares, order, |order|);
    PermutedIds(c, r);
    forall i | 0 <= i < |r|
      ensures r[i].id in found && found[r[i].id] == r[i].was
    {
      assert r[i] in multiset(r);
      assert r[i] in c;
    }
  }

  /** Every entry of the rollout list is the change of a laid out stack, and every change is listed. */
  lemma {:induction false} RolloutEntries(shares: Shares, order: seq<Segment>, r: seq<Change>)
    requires Known(shares, order) && Rearranges(shares, order, r)
    ensures forall i :: 0 <= i < |r| ==>
              r[i].was != r[i].now && exists k :: 0 <= k < |order| && r[i] == ChangeOf(shares, order, k)
    ensures forall k :: 0 <= k < |order| && ChangeOf(shares, order, k).was != ChangeOf(shares, order, k).now ==>
              ChangeOf(shares, order, k) in r
  {
    ChangeMembers(shares, order, |order|);
    forall i | 0 <= i < |r|
      ensures r[i] in Changes(shares, order)
    {
      assert r[i] in multiset(r);
    }
    forall k | 0 <= k < |order| && ChangeOf(shares, order, k).was != ChangeOf(shares, order, k).now
      ensures ChangeOf(shares, order, k) in r
    {
      assert ChangeOf(shares, order, k) in multiset(Changes(shares, order));
    }
  }

  lemma {:induction false} AppliedMentioned(found: Found, shares: Shares, order: seq<Segment>, r: seq<Change>, k: nat)
    requires Complete(found, shares, order) && Rearranges(shares, order, r) && k < |order|
    ensures order[k].id in Applied(found, r, |r|) && Applied(found, r, |r|)[order[k].id] == Placed(shares, order, k)
  {
    var n := order[k].id;
    RolloutIsChanges(found, shares, order, r);
    RolloutEntries(shares, order, r);
    AppliedAt(found, r, |r|, n);
    forall i | 0 <= i < |r| && r[i].id == n
      ensures r[i] == ChangeOf(shares, order, k)
    {
      var m :| 0 <= m < |order| && r[i] == ChangeOf(shares, order, m);
      assert m == k;
    }
    if ChangeOf(shares, order, k).was != ChangeOf(shares, order, k).now {
      assert ChangeOf(shares, order, k) in r;
    }
  }

  lemma {:induction false} AppliedUnmentioned(found: Found, shares: Shares, order: seq<Segment>, r: seq<Change>,
                                              n: Name)
    requires Complete(found, shares, order) && Rearranges(shares, order, r) && n in found && !Mentions(order, n)
    ensures n in Applied(found, r, |r|) && Applied(found, r, |r|)[n] == found[n]
  {
    RolloutIsChanges(found, shares, order, r);
    RolloutEntries(shares, order, r);
    AppliedAt(found, r, |r|, n);
  }

  /** Once the whole list is applied every stack has the segment the layout gave it. */
  lemma {:induction false} FullyApplied(found: Found, shares: Shares, order: seq<Segment>, r: seq<Change>, n: Name)
    requires Complete(found, shares, order) && Rearranges(shares, order, r) && n in found
    ensures n in Applied(found, r, |r|)
    ensures Applied(found, r, |r|)[n] ==
            if Mentions(order, n) then Placed(shares, order, Position(order, n)) else found[n]
  {
    if Mentions(order, n) {
      AppliedMentioned(found, shares, order, r, Position(order, n));
    } else {
      AppliedUnmentioned(found, shares, order, r, n);
    }
  }

  /** Whatever its order, the rollout ends in the new layout: every segment as wide as its share. */
  lemma {:induction false} RolloutEndsAtShares(found: Found, shares: Shares, active: seq<Segment>,
                                               newcomers: seq<Segment>, r: seq<Change>)
    requires IsOrder(found, shares, active, newcomers) && Known(shares, active + newcomers)
    requires Rearranges(shares, active + newcomers, r)
    ensures Complete(found, shares, active + newcomers)
    ensures TotalWidth(Applied(found, r, |r|)) == Sum(shares)
  {
    var end := Applied(found, r, |r|);
    OrderIsComplete(found, shares, active, newcomers);
    RolloutIsChanges(found, shares, active + newcomers, r);
    WidthKeys(found, r, |r|);
    forall n | n in found
      ensures n in end && end[n].Width() == shares[n]
    {
      EndWidthInOrder(found, shares, active, newcomers, r, n);
    }
    WidthsAre(end, shares);
  }

  lemma {:induction false} WidthsAre(limits: Found, shares: Shares)
    requires limits.Keys == shares.Keys && forall n :: n in limits ==> limits[n].Width() == shares[n]
    ensures Widths(limits) == shares
  {
  }

  lemma {:induction false} EndWidthInOrder(found: Found, shares: Shares, active: seq<Segment>,
                                           newcomers: seq<Segment>, r: seq<Change>, n: Name)
    requires IsOrder(found, shares, active, newcomers) && Known(shares, active + newcomers)
    requires Rearranges(shares, active + newcomers, r) && n in found
    ensures n in Applied(found, r, |r|) && Applied(found, r, |r|)[n].Width() == shares[n]
  {
    OrderIsComplete(found, shares, active, newcomers);
    OrderLists(found, shares, active, newcomers);
    EndWidth(found, shares, active + newcomers, r, n);
  }

  lemma {:induction false} EndWidth(found: Found, shares: Shares, order: seq<Segment>, r: seq<Change>, n: Name)
    requires Complete(found, shares, order) && Rearranges(shares, order, r) && n in found
    requires !Mentions(order, n) ==> found[n].Width() == 0.0
    ensures n in Applied(found, r, |r|) && Applied(found, r, |r|)[n].Width() == shares[n]
  {
    FullyApplied(found, shares, order, r, n);
    if Mentions(order, n) {
      PlacedWidth(shares, order, Position(order, n));
    } else {
      assert ListedOrEmpty(shares, order, n);
    }
  }

  lemma {:induction false} WidthKeys(found: Found, list: seq<Change>, k: nat)
    requires k <= |list| && ChangesOf(found, list)
    ensures Applied(found, list, k).Keys == found.Keys
  {
    if k > 0 { WidthKeys(found, list, k - 1); }
  }

  /** Any list of the changes with the largest growth first keeps the segments at least 1 wide together. */
  lemma {:induction false} DescendingRolloutKeepsWidth(found: Found, shares: Shares, active: seq<Segment>,
                                                       newcomers: seq<Segment>, r: seq<Change>, k: nat)
    requires IsOrder(found, shares, active, newcomers) && Sum(shares) == 1.0 && TotalWidth(found) >= 1.0
    requires Known(shares, active + newcomers) && Rearranges(shares, active + newcomers, r)
    requires Descending(r) && k <= |r|
    ensures TotalWidth(Applied(found, r, k)) >= 1.0
  {
    RolloutEndsAtShares(found, shares, active, newcomers, r);
    RolloutIsChanges(found, shares, active + newcomers, r);
    WidthNeverDips(found, r, k);
  }

  /**
   If whatever grows more has the smaller id, or up to 20 changes are well numbered, then no step of
   the coded rollout leaves the segments together narrower than 1, for any number of stacks.
   */
  lemma {:induction false} WellIdentifiedRolloutKeepsWidth(found: Found, shares: Shares, active: seq<Segment>,
                                                           newcomers: seq<Segment>, r: seq<Change>, k: nat)
    requires IsOrder(found, shares, active, newcomers) && Sum(shares) == 1.0 && TotalWidth(found) >= 1.0
    requires Known(shares, active + newcomers) && RollsOut(shares, active + newcomers, r) && k <= |r|
    requires WellIdentified(Changes(shares, active + newcomers))
    ensures TotalWidth(Applied(found, r, k)) >= 1.0
  {
    OrderIsComplete(found, shares, active, newcomers);
    RolloutIsChanges(found, shares, active + newcomers, r);
    WellIdentifiedDescends(Changes(shares, active + newcomers), r);
    DescendingRolloutKeepsWidth(found, shares, active, newcomers, r, k);
  }

  // ----- the intended order -----

  /** r lists the changes in the order the source's comment asks for. */
  ghost predicate Intended(shares: Shares, order: seq<Segment>, r: seq<Change>)
    requires Known(shares, order)
  {
    Rearranges(shares, order, r) && Sorted(r)
  }

  /** The intended order exists for every layout. */
  lemma {:induction false} IntendedExists(found: Found, shares: Shares, order: seq<Segment>) returns (r: seq<Change>)
    requires Complete(found, shares, order)
    ensures Intended(shares, order, r)
  {
    var c := Changes(shares, order);
    r := InsertionSort(c, GrowsFirst);
    SortPermutes(c, GrowsFirst);
    RolloutIsChanges(found, shares, order, r);
    GrowsFirstIsStrictWeak(c);
    SortOrders(c, GrowsFirst);
    OrderedIsSorted(r);
  }

  lemma {:induction false} OrderedIsSorted(r: seq<Change>)
    requires DistinctIds(r) && Ordered(r, GrowsFirst)
    ensures Sorted(r)
  {
    forall i, j | 0 <= i < j < |r|
      ensures GrowsFirst(r[i], r[j])
    {
      assert !GrowsFirst(r[j], r[i]);
      GrowsFirstTotal(r[i], r[j]);
    }
  }

  lemma {:induction false} GrowsFirstIsStrictWeak(c: seq<Change>)
    requires DistinctIds(c)
    ensures StrictWeak(c, GrowsFirst)
  {
    forall x, y | x in c && y in c && GrowsFirst(x, y)
      ensures !GrowsFirst(y, x)
    {
      GrowsFirstAsymmetric(x, y);
    }
    forall x, y, z | x in c && y in c && z in c && !GrowsFirst(x, y) && !GrowsFirst(y, z)
      ensures !GrowsFirst(x, z)
    {
      NotBefore(c, x, y);
      NotBefore(c, y, z);
      if GrowsFirst(x, z) {
        if y == x || z == y {
        } else {
          GrowsFirstTransitive(z, y, x);
          GrowsFirstAsymmetric(x, z);
        }
      }
    }
  }

  lemma {:induction false} NotBefore(c: seq<Change>, x: Change, y: Change)
    requires DistinctIds(c) && x in c && y in c && !GrowsFirst(x, y)
    ensures x == y || GrowsFirst(y, x)
  {
    if x != y { GrowsFirstTotal(x, y); }
  }

  /**
   For any number of stacks, in the order the source's comment asks for (largest growth first,
   ids on ties only) no step leaves the segments together narrower than 1.
   */
  lemma {:induction false} IntendedRolloutKeepsWidth(found: Found, shares: Shares, active: seq<Segment>,
                                                     newcomers: seq<Segment>, r: seq<Change>, k: nat)
    requires IsOrder(found, shares, active, newcomers) && Sum(shares) == 1.0 && TotalWidth(found) >= 1.0
    requires Known(shares, active + newcomers) && Intended(shares, active + newcomers, r) && k <= |r|
    ensures TotalWidth(Applied(found, r, k)) >= 1.0
  {
    SortedDescends(r);
    DescendingRolloutKeepsWidth(found, shares, active, newcomers, r, k);
  }

  /** A list is put into the intended order in one way only. */
  lemma {:induction false} SortedIsUnique(r: seq<Change>, s: seq<Change>)
    requires Sorted(r) && Sorted(s) && multiset(r) == multiset(s)
    ensures r == s
  {
    assert |multiset(r)| == |r| && |multiset(s)| == |s|;
    if r != [] {
      FirstIsFirst(r, s);
      assert r == [r[0]] + r[1..] && s == [s[0]] + s[1..];
      assert multiset(r[1..]) == multiset(r) - multiset{r[0]};
      assert multiset(s[1..]) == multiset(s) - multiset{s[0]};
      SortedIsUnique(r[1..], s[1..]);
    }
  }

  lemma {:induction false} FirstIsFirst(r: seq<Change>, s: seq<Change>)
    requires Sorted(r) && Sorted(s) && multiset(r) == multiset(s) && r != [] && s != []
    ensures r[0] == s[0]
  {
    assert r[0] in multiset(s) && s[0] in multiset(r);
    assert r[0] in s && s[0] in r;
    if r[0] != s[0] {
      GrowsFirstAsymmetric(r[0], s[0]);
    }
  }

  /** When the list is sure to come out largest growth first, it comes out in the intended order. */
  lemma {:induction false} WellIdentifiedIsIntended(c: seq<Change>, r: seq<Change>)
    requires DistinctIds(c) && WellIdentified(c) && StablySorted(c, r, RollsOutBefore)
    ensures Sorted(r)
  {
    if IdsFollowGrowth(c) {
      ComparatorIsOrderIff(c);
      SortOrders(c, RollsOutBefore);
      PermutedIds(c, r);
      OrderedGrowsFirst(r);
    } else {
      RolloutSorts(c);
    }
  }

  lemma {:induction false} OrderedGrowsFirst(r: seq<Change>)
    requires DistinctIds(r) && Ordered(r, RollsOutBefore)
    ensures Sorted(r)
  {
    forall i, j | 0 <= i < j < |r|
      ensures GrowsFirst(r[i], r[j])
    {
      assert !RollsOutBefore(r[j], r[i]);
      LessTotal(r[i].id, r[j].id);
    }
  }
}
