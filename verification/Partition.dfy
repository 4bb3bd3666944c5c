/**
 The layout partitions [0, 1): disjoint contiguous segments, one for every stack
 with traffic, as wide as its share; survivors keep their order; and laying out a
 partition again changes nothing (pkg/core/traffic.go).
 */
module Partition {
  import opened Names
  import opened Sums
  import opened Sorting
  import opened Layout

  ghost predicate CoveredAt(limits: Found, x: real) {
    exists n :: n in limits && limits[n].Holds(x)
  }

  ghost predicate Covers(limits: Found) {
    forall x :: 0.0 <= x < 1.0 ==> CoveredAt(limits, x)
  }

  ghost predicate Apart(limits: Found) {
    forall m, n :: m in limits && n in limits && m != n && limits[m].Width() > 0.0 && limits[n].Width() > 0.0 ==>
      limits[m].upper <= limits[n].lower || limits[n].upper <= limits[m].lower
  }

  /** The segments are disjoint, lie in [0, 1) and leave no point of it uncovered. */
  ghost predicate IsPartition(limits: Found) {
    Bounded(limits) && Covers(limits) && Apart(limits)
  }

  ghost predicate Bounded(limits: Found) {
    forall n :: n in limits ==> 0.0 <= limits[n].lower <= limits[n].upper <= 1.0
  }

  /** The segment is as wide as the share and ends by `end`; an empty one is (0, 0). */
  ghost predicate FitsAt(at: Interval, share: real, end: real) {
    at.Width() == share && 0.0 <= at.lower <= at.upper <= end && (share == 0.0 ==> at == EMPTY)
  }

  ghost predicate Fits(limits: Found, shares: Shares, end: real) {
    limits.Keys == shares.Keys && forall n :: n in limits ==> FitsAt(limits[n], shares[n], end)
  }

  /** No point belongs to two stacks. */
  lemma {:induction false} HolderIsUnique(limits: Found, x: real, m: Name, n: Name)
    requires Apart(limits) && m in limits && n in limits && limits[m].Holds(x) && limits[n].Holds(x)
    ensures m == n
  {
  }

  ghost function Position(order: seq<Segment>, n: Name): (i: nat)
    requires Mentions(order, n)
    ensures i < |order| && order[i].id == n
  {
    var i :| 0 <= i < |order| && order[i].id == n;
    i
  }

  /** The segments after a layout; a stack that is not laid out has none. */
  ghost function After(found: Found, shares: Shares, order: seq<Segment>): Found
    requires Known(shares, order)
  {
    map n | n in found :: if Mentions(order, n) then Placed(shares, order, Position(order, n)) else EMPTY
  }

  lemma {:induction false} AfterAt(found: Found, shares: Shares, order: seq<Segment>, i: nat)
    requires Known(shares, order) && Distinct(order) && i < |order| && order[i].id in found
    ensures After(found, shares, order)[order[i].id] == Placed(shares, order, i)
  {
    assert Mentions(order, order[i].id);
    assert Position(order, order[i].id) == i;
  }

  // ----- the layout is a partition -----

  ghost function SharesUpTo(shares: Shares, order: seq<Segment>, i: nat): Shares
    requires i <= |order|
  {
    map n | n in shares && Mentions(order[..i], n) :: shares[n]
  }

  lemma {:induction false} OffsetIsTotal(shares: Shares, order: seq<Segment>, i: nat)
    requires i <= |order| && Known(shares, order) && Distinct(order)
    ensures Offset(shares, order, i) == Sum(SharesUpTo(shares, order, i))
  {
    if i == 0 {
      assert SharesUpTo(shares, order, 0) == map[];
      SumEmpty();
    } else {
      OffsetIsTotal(shares, order, i - 1);
      var id := order[i - 1].id;
      var before := SharesUpTo(shares, order, i - 1);
      assert order[..i] == order[..i - 1] + [order[i - 1]];
      forall n {
        MentionsAppend(order[..i - 1], order[i - 1], n);
      }
      assert !Mentions(order[..i - 1], id);
      assert SharesUpTo(shares, order, i) == before[id := shares[id]];
      SumPut(before, id, shares[id]);
    }
  }

  /** Laid end to end, the segments reach exactly as far as all shares together. */
  lemma {:induction false} LayoutReach(found: Found, shares: Shares, active: seq<Segment>, newcomers: seq<Segment>)
    requires IsOrder(found, shares, active, newcomers)
    ensures var order := active + newcomers;
            Known(shares, order) && Distinct(order) && Offset(shares, order, |order|) == Sum(shares)
  {
    var order := active + newcomers;
    OrderLists(found, shares, active, newcomers);
    OffsetIsTotal(shares, order, |order|);
    assert order[..|order|] == order;
    SumSupport(shares, SharesUpTo(shares, order, |order|));
  }

  /** A point to the left of the k-th offset lies in one of the first k segments. */
  lemma {:induction false} FindSlot(shares: Shares, order: seq<Segment>, k: nat, x: real) returns (i: nat)
    requires k <= |order| && Known(shares, order) && NonNegative(shares)
    requires 0.0 <= x < Offset(shares, order, k)
    ensures i < k && Placed(shares, order, i).Holds(x)
  {
    if x < Offset(shares, order, k - 1) {
      i := FindSlot(shares, order, k - 1, x);
    } else {
      i := k - 1;
    }
  }

  /** Segments follow each other in the order of layout. */
  lemma {:induction false} PlacedInOrder(shares: Shares, order: seq<Segment>, i: nat, j: nat)
    requires i < j < |order| && Known(shares, order) && NonNegative(shares)
    requires shares[order[i].id] > 0.0 && shares[order[j].id] > 0.0
    ensures Placed(shares, order, i).upper <= Placed(shares, order, j).lower
  {
    OffsetGrows(shares, order, i + 1, j);
  }

  lemma {:induction false} PlacedWidth(shares: Shares, order: seq<Segment>, i: nat)
    requires i < |order| && Known(shares, order) && NonNegative(shares)
    ensures var at := Placed(shares, order, i);
            && at.Width() == shares[order[i].id]
            && 0.0 <= at.lower <= at.upper <= Offset(shares, order, |order|)
            && (shares[order[i].id] == 0.0 ==> at == EMPTY)
  {
    OffsetGrows(shares, order, i + 1, |order|);
    OffsetGrows(shares, order, 0, i);
  }

  /** order lists found segments, among them those of all stacks with a share. */
  ghost predicate Complete(found: Found, shares: Shares, order: seq<Segment>) {
    && Given(found, shares) && Lists(found, order) && Known(shares, order)
    && forall n :: ListedOrEmpty(shares, order, n)
  }

  ghost predicate ListedOrEmpty(shares: Shares, order: seq<Segment>, n: Name) {
    n in shares && !Mentions(order, n) ==> shares[n] == 0.0
  }

  lemma {:induction false} OrderIsComplete(found: Found, shares: Shares, active: seq<Segment>, newcomers: seq<Segment>)
    requires IsOrder(found, shares, active, newcomers)
    ensures Complete(found, shares, active + newcomers)
    ensures Offset(shares, active + newcomers, |active + newcomers|) == Sum(shares)
  {
    OrderLists(found, shares, active, newcomers);
    LayoutReach(found, shares, active, newcomers);
    forall n
      ensures ListedOrEmpty(shares, active + newcomers, n)
    {
    }
  }

  lemma {:induction false} PlacedFits(shares: Shares, order: seq<Segment>, i: nat)
    requires i < |order| && Known(shares, order) && NonNegative(shares)
    ensures FitsAt(Placed(shares, order, i), shares[order[i].id], Offset(shares, order, |order|))
  {
    PlacedWidth(shares, order, i);
  }

  lemma {:induction false} AfterWidths(found: Found, shares: Shares, order: seq<Segment>, n: Name)
    requires Complete(found, shares, order) && n in found
    ensures FitsAt(After(found, shares, order)[n], shares[n], Offset(shares, order, |order|))
  {
    if Mentions(order, n) {
      PlacedFits(shares, order, Position(order, n));
    } else {
      assert ListedOrEmpty(shares, order, n);
      OffsetGrows(shares, order, 0, |order|);
    }
  }

  lemma {:induction false} AfterCovers(found: Found, shares: Shares, order: seq<Segment>)
    requires Lists(found, order) && Known(shares, order) && NonNegative(shares)
    requires Offset(shares, order, |order|) == 1.0
    ensures Covers(After(found, shares, order))
  {
    var limits := After(found, shares, order);
    forall x | 0.0 <= x < 1.0
      ensures CoveredAt(limits, x)
    {
      var i := FindSlot(shares, order, |order|, x);
      AfterAt(found, shares, order, i);
      assert limits[order[i].id].Holds(x);
    }
  }

  lemma {:induction false} AfterIsApart(found: Found, shares: Shares, order: seq<Segment>)
    requires Lists(found, order) && Known(shares, order) && NonNegative(shares)
    ensures Apart(After(found, shares, order))
  {
    var limits := After(found, shares, order);
    forall m, n | m in limits && n in limits && m != n && limits[m].Width() > 0.0 && limits[n].Width() > 0.0
      ensures limits[m].upper <= limits[n].lower || limits[n].upper <= limits[m].lower
    {
      AfterApart(found, shares, order, m, n);
    }
  }

  lemma {:induction false} AfterApart(found: Found, shares: Shares, order: seq<Segment>, m: Name, n: Name)
    requires Lists(found, order) && Known(shares, order) && NonNegative(shares) && m in found && n in found && m != n
    requires After(found, shares, order)[m].Width() > 0.0 && After(found, shares, order)[n].Width() > 0.0
    ensures var limits := After(found, shares, order);
            limits[m].upper <= limits[n].lower || limits[n].upper <= limits[m].lower
  {
    var i, j := Position(order, m), Position(order, n);
    if i < j { PlacedInOrder(shares, order, i, j); } else { PlacedInOrder(shares, order, j, i); }
  }

  /**
   From any found segments (overlapping, with gaps, or missing) and any order of iteration,
   the layout partitions [0, 1): every stack's segment is exactly as wide as its share, and a
   stack without a share ends with the empty segment.
   */
  lemma {:induction false} LayoutPartitions(found: Found, shares: Shares, active: seq<Segment>, newcomers: seq<Segment>)
    requires IsOrder(found, shares, active, newcomers) && Sum(shares) == 1.0
    ensures Known(shares, active + newcomers)
    ensures var limits := After(found, shares, active + newcomers);
            IsPartition(limits) && Fits(limits, shares, 1.0)
  {
    var order := active + newcomers;
    OrderIsComplete(found, shares, active, newcomers);
    AfterCovers(found, shares, order);
    AfterIsApart(found, shares, order);
    AfterFits(found, shares, order);
    FitsIsBounded(After(found, shares, order), shares);
  }

  lemma {:induction false} FitsIsBounded(limits: Found, shares: Shares)
    requires Fits(limits, shares, 1.0)
    ensures Bounded(limits)
  {
  }

  lemma {:induction false} AfterFits(found: Found, shares: Shares, order: seq<Segment>)
    requires Complete(found, shares, order)
    ensures Fits(After(found, shares, order), shares, Offset(shares, order, |order|))
  {
    var limits, end := After(found, shares, order), Offset(shares, order, |order|);
    assert limits.Keys == shares.Keys;
    forall n | n in limits
      ensures FitsAt(limits[n], shares[n], end)
    {
      AfterWidths(found, shares, order, n);
    }
  }

  // ----- survivors keep their order -----

  /**
   Two stacks that are active before and after keep the left-to-right order of their found
   segments, and a stack that newly gets traffic ends to the right of every survivor.
   */
  lemma {:induction false} SurvivorsKeepOrder(found: Found, shares: Shares, active: seq<Segment>,
                                        newcomers: seq<Segment>, m: Name, n: Name)
    requires IsOrder(found, shares, active, newcomers) && Known(shares, active + newcomers)
    requires m in found && n in found && shares[m] > 0.0 && shares[n] > 0.0
    requires found[m].Width() != 0.0
    requires found[n].Width() == 0.0 || found[m].lower < found[n].lower
             || (found[m].lower == found[n].lower && found[m].upper < found[n].upper)
    ensures var limits := After(found, shares, active + newcomers);
            limits[m].upper <= limits[n].lower
  {
    var order := active + newcomers;
    OrderLists(found, shares, active, newcomers);
    var i := Position(active, m);
    assert order[i] == active[i];
    var j;
    if found[n].Width() == 0.0 {
      j := |active| + Position(newcomers, n);
      assert order[j] == newcomers[j - |active|];
    } else {
      j := Position(active, n);
      assert order[j] == active[j];
      SortedPositions(active, i, j);
    }
    AfterAt(found, shares, order, i);
    AfterAt(found, shares, order, j);
    PlacedInOrder(shares, order, i, j);
  }

  lemma {:induction false} SortedPositions(active: seq<Segment>, i: nat, j: nat)
    requires Ordered(active, LeftOf) && i < |active| && j < |active| && LeftOf(active[i], active[j])
    ensures i < j
  {
  }

  // ----- laying out a partition again -----

  /** Segments that partition [0, 1) and already have the wanted widths. */
  ghost predicate Settled(found: Found, shares: Shares) {
    Given(found, shares) && IsPartition(found) && forall n :: n in found ==> found[n].Width() == shares[n]
  }

  /** In a settled state the i-th stack from the left already starts where the layout puts it. */
  lemma {:induction false} SettledOffset(found: Found, shares: Shares, active: seq<Segment>, i: nat)
    requires Given(found, shares) && ActiveAmong(found, found.Keys, active) && Ordered(active, LeftOf)
    requires Settled(found, shares) && i < |active| && Known(shares, active)
    ensures Offset(shares, active, i) == active[i].at.lower
  {
    var x := Offset(shares, active, i);
    OffsetGrows(shares, active, 0, i);
    if i > 0 {
      SettledOffset(found, shares, active, i - 1);
      assert active[i - 1].at.upper == x;
      StartsAfter(found, active, i);
    }
    var here := active[i];
    assert found[here.id] == here.at && here.at.Width() > 0.0;
    if here.at.lower > x {
      assert CoveredAt(found, x);
      var n :| n in found && found[n].Holds(x);
      var j := Position(active, n);
      assert active[j].at == found[n];
      if j < i {
        PreviousEnds(found, shares, active, j, i - 1);
      } else {
        SortedLower(active, i, j);
      }
      assert false;
    }
  }

  lemma {:induction false} SortedLower(active: seq<Segment>, i: nat, j: nat)
    requires Ordered(active, LeftOf) && i <= j < |active|
    ensures active[i].at.lower <= active[j].at.lower
  {
    if i < j { assert !LeftOf(active[j], active[i]); }
  }

  /** Neighbours in the sorted list of disjoint segments do not overlap. */
  lemma {:induction false} StartsAfter(found: Found, active: seq<Segment>, i: nat)
    requires ActiveAmong(found, found.Keys, active) && Ordered(active, LeftOf) && Apart(found)
    requires forall n :: n in found ==> found[n].lower <= found[n].upper
    requires 0 < i < |active|
    ensures active[i - 1].at.upper <= active[i].at.lower
  {
    var (a, b) := (active[i - 1], active[i]);
    assert Mentions(active, a.id) && Mentions(active, b.id);
    assert !LeftOf(b, a);
    assert found[a.id] == a.at && found[b.id] == b.at && a.id != b.id;
  }

  lemma {:induction false} PreviousEnds(found: Found, shares: Shares, active: seq<Segment>, j: nat, i: nat)
    requires Given(found, shares) && ActiveAmong(found, found.Keys, active) && Ordered(active, LeftOf) && Apart(found)
    requires j <= i < |active|
    ensures active[j].at.upper <= active[i].at.upper
  {
    if j < i {
      PreviousEnds(found, shares, active, j, i - 1);
      StartsAfter(found, active, i);
      assert found[active[i].id] == active[i].at;
    }
  }

  /**
   Fixed point: recomputing from a settled state, in any order of iteration, finds no newcomer,
   changes no segment and returns the empty rollout list.
   */
  lemma {:induction false} SettledIsFixed(found: Found, shares: Shares, active: seq<Segment>, newcomers: seq<Segment>)
    requires IsOrder(found, shares, active, newcomers) && Settled(found, shares)
    ensures newcomers == [] && Known(shares, active + newcomers)
    ensures Changes(shares, active + newcomers) == []
    ensures forall n :: n in found && found[n].Width() > 0.0 ==> After(found, shares, active + newcomers)[n] == found[n]
  {
    if newcomers != [] {
      FirstIsMentioned(newcomers);
      assert false;
    }
    var order := active + newcomers;
    assert order == active;
    OrderLists(found, shares, active, newcomers);
    NoChanges(found, shares, active, |active|);
    forall n | n in found && found[n].Width() > 0.0
      ensures After(found, shares, order)[n] == found[n]
    {
      var i := Position(active, n);
      AfterAt(found, shares, order, i);
      PlacedSettled(found, shares, active, i);
    }
  }

  lemma {:induction false} FirstIsMentioned(s: seq<Segment>)
    requires s != []
    ensures Mentions(s, s[0].id)
  {
  }

  lemma {:induction false} PlacedSettled(found: Found, shares: Shares, active: seq<Segment>, i: nat)
    requires Given(found, shares) && ActiveAmong(found, found.Keys, active) && Ordered(active, LeftOf)
    requires Settled(found, shares) && i < |active| && Known(shares, active)
    ensures Placed(shares, active, i) == active[i].at
  {
    SettledOffset(found, shares, active, i);
    assert Mentions(active, active[i].id);
    assert found[active[i].id] == active[i].at;
  }

  lemma {:induction false} NoChanges(found: Found, shares: Shares, active: seq<Segment>, i: nat)
    requires Given(found, shares) && ActiveAmong(found, found.Keys, active) && Ordered(active, LeftOf)
    requires Settled(found, shares) && i <= |active| && Known(shares, active)
    ensures ChangesUpTo(shares, active, i) == []
  {
    forall k | 0 <= k < i
      ensures Placed(shares, active, k) == active[k].at
    {
      PlacedSettled(found, shares, active, k);
    }
    NothingMoves(shares, active, i);
  }

  lemma {:induction false} NothingMoves(shares: Shares, order: seq<Segment>, i: nat)
    requires i <= |order| && Known(shares, order) && forall k :: 0 <= k < i ==> Placed(shares, order, k) == order[k].at
    ensures ChangesUpTo(shares, order, i) == []
  {
    if i > 0 { NothingMoves(shares, order, i - 1); }
  }
}
