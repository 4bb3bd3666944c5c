/**
 Which points of [0, 1) stay routed while changed segments are rolled out one stack
 at a time, for any number of stacks and any order (pkg/core/traffic.go,
 controller/stackset.go).
 */
module Coverage {
  import opened Names
  import opened Sums
  import opened Sorting
  import opened Layout
  import opened Partition
  import opened Rollout

  /** The segments share a point. */
  predicate Overlap(a: Interval, b: Interval) {
    a.lower < a.upper && b.lower < b.upper && a.lower < b.upper && b.lower < a.upper
  }

  lemma {:induction false} OverlapAt(a: Interval, b: Interval, x: real)
    requires a.Holds(x) && b.Holds(x)
    ensures Overlap(a, b)
  {
  }

  lemma {:induction false} OverlapPoint(a: Interval, b: Interval) returns (x: real)
    requires Overlap(a, b)
    ensures a.Holds(x) && b.Holds(x)
  {
    x := if a.lower < b.lower then b.lower else a.lower;
  }

  /** y gets part of what x had. */
  predicate TakesOver(y: Change, x: Change) {
    Overlap(y.now, x.was)
  }

  /** Every step of the rollout, from none to all changes applied, routes every point. */
  ghost predicate GapFree(found: Found, r: seq<Change>) {
    forall k :: 0 <= k <= |r| ==> Covers(Applied(found, r, k))
  }

  /** r leads from one partition to another. */
  ghost predicate Leads(found: Found, r: seq<Change>) {
    ChangesOf(found, r) && IsPartition(found) && IsPartition(Applied(found, r, |r|))
  }

  // ----- the gaps of one step -----

  /** After k changes the point x is between its old and its new stack. */
  ghost predicate Abandoned(r: seq<Change>, k: nat, x: real) {
    exists i, j :: 0 <= i < k <= j < |r| && r[i].was.Holds(x) && r[j].now.Holds(x)
  }

  lemma {:induction false} AbandonedIsUncovered(found: Found, r: seq<Change>, k: nat, i: nat, j: nat, x: real)
    requires Leads(found, r) && i < k <= j < |r| && r[i].was.Holds(x) && r[j].now.Holds(x)
    ensures !CoveredAt(Applied(found, r, k), x)
  {
    var mid, end := Applied(found, r, k), Applied(found, r, |r|);
    AppliedAt(found, r, k, r[i].id);
    if CoveredAt(mid, x) {
      var t :| t in mid && mid[t].Holds(x);
      AppliedAt(found, r, k, t);
      AppliedAt(found, r, |r|, t);
      AppliedAt(found, r, |r|, r[j].id);
      if m: nat :| m < k && r[m].id == t {
        HolderIsUnique(end, x, t, r[j].id);
      } else {
        HolderIsUnique(found, x, t, r[i].id);
      }
    }
  }

  lemma {:induction false} OldHolder(found: Found, r: seq<Change>, k: nat, x: real) returns (i: nat)
    requires ChangesOf(found, r) && k <= |r| && CoveredAt(found, x) && !CoveredAt(Applied(found, r, k), x)
    ensures i < k && r[i].was.Holds(x)
  {
    var t :| t in found && found[t].Holds(x);
    AppliedAt(found, r, k, t);
    assert !Applied(found, r, k)[t].Holds(x);
    i :| i < k && r[i].id == t;
  }

  lemma {:induction false} NewHolder(found: Found, r: seq<Change>, k: nat, x: real) returns (j: nat)
    requires ChangesOf(found, r) && k <= |r|
    requires CoveredAt(Applied(found, r, |r|), x) && !CoveredAt(Applied(found, r, k), x)
    ensures k <= j < |r| && r[j].now.Holds(x)
  {
    WidthKeys(found, r, |r|);
    var u :| u in Applied(found, r, |r|) && Applied(found, r, |r|)[u].Holds(x);
    AppliedAt(found, r, k, u);
    AppliedAt(found, r, |r|, u);
    assert !Applied(found, r, k)[u].Holds(x);
    j :| k <= j < |r| && r[j].id == u;
  }

  lemma {:induction false} UncoveredIsAbandoned(found: Found, r: seq<Change>, k: nat, x: real)
    requires Leads(found, r) && k <= |r| && 0.0 <= x < 1.0 && !CoveredAt(Applied(found, r, k), x)
    ensures Abandoned(r, k, x)
  {
    assert CoveredAt(found, x) && CoveredAt(Applied(found, r, |r|), x);
    var i := OldHolder(found, r, k, x);
    var j := NewHolder(found, r, k, x);
  }

  /** A point is unrouted after k changes exactly if its old stack has changed and its new one has not. */
  lemma {:induction false} GapIff(found: Found, r: seq<Change>, k: nat, x: real)
    requires Leads(found, r) && k <= |r| && 0.0 <= x < 1.0
    ensures !CoveredAt(Applied(found, r, k), x) <==> Abandoned(r, k, x)
  {
    if Abandoned(r, k, x) {
      var i, j :| 0 <= i < k <= j < |r| && r[i].was.Holds(x) && r[j].now.Holds(x);
      AbandonedIsUncovered(found, r, k, i, j, x);
    }
    if !CoveredAt(Applied(found, r, k), x) {
      UncoveredIsAbandoned(found, r, k, x);
    }
  }

  ghost predicate NoTakerLeft(r: seq<Change>, k: nat) {
    forall i, j :: 0 <= i < k <= j < |r| ==> !TakesOver(r[j], r[i])
  }

  /** A step routes every point exactly if nothing still to come takes over part of what was already moved. */
  lemma {:induction false} GapFreeStepIff(found: Found, r: seq<Change>, k: nat)
    requires Leads(found, r) && k <= |r|
    ensures Covers(Applied(found, r, k)) <==> NoTakerLeft(r, k)
  {
    if NoTakerLeft(r, k) {
      forall x | 0.0 <= x < 1.0
        ensures CoveredAt(Applied(found, r, k), x)
      {
        GapIff(found, r, k, x);
        NothingAbandoned(r, k, x);
      }
    } else {
      var i, j :| 0 <= i < k <= j < |r| && TakesOver(r[j], r[i]);
      var x := OverlapPoint(r[j].now, r[i].was);
      assert found[r[i].id] == r[i].was;
      AbandonedIsUncovered(found, r, k, i, j, x);
      assert 0.0 <= x < 1.0;
    }
  }

  lemma {:induction false} NothingAbandoned(r: seq<Change>, k: nat, x: real)
    requires NoTakerLeft(r, k)
    ensures !Abandoned(r, k, x)
  {
    if i, j :| 0 <= i < k <= j < |r| && r[i].was.Holds(x) && r[j].now.Holds(x) {
      OverlapAt(r[j].now, r[i].was, x);
    }
  }

  /** No stack is listed before one that takes over part of its old segment. */
  ghost predicate TakersFirst(r: seq<Change>) {
    forall i, j :: 0 <= i < j < |r| ==> !TakesOver(r[j], r[i])
  }

  /**
   A rollout of any number of changes, in any order, leaves no gap at any step exactly if no stack
   is listed before one that takes over part of its old segment.
   */
  lemma {:induction false} GapFreeIff(found: Found, r: seq<Change>)
    requires Leads(found, r)
    ensures GapFree(found, r) <==> TakersFirst(r)
  {
    forall k | 0 <= k <= |r|
      ensures Covers(Applied(found, r, k)) <==> NoTakerLeft(r, k)
    {
      GapFreeStepIff(found, r, k);
    }
    if GapFree(found, r) {
      forall i, j | 0 <= i < j < |r|
        ensures !TakesOver(r[j], r[i])
      {
        assert NoTakerLeft(r, j);
      }
    }
  }

  // ----- rollouts of a layout -----

  lemma {:induction false} EndIs(found: Found, shares: Shares, active: seq<Segment>, newcomers: seq<Segment>,
                                 r: seq<Change>, n: Name)
    requires IsOrder(found, shares, active, newcomers) && Known(shares, active + newcomers)
    requires Rearranges(shares, active + newcomers, r) && n in found
    ensures var (end, limits) := (Applied(found, r, |r|), After(found, shares, active + newcomers));
            && n in end && n in limits
            && (end[n] == limits[n] || (end[n].Width() == 0.0 && end[n] == found[n] && limits[n] == EMPTY))
  {
    OrderIsComplete(found, shares, active, newcomers);
    OrderLists(found, shares, active, newcomers);
    FullyApplied(found, shares, active + newcomers, r, n);
  }

  /** Any rollout of a layout leads from the partition found to a new one. */
  lemma {:induction false} RolloutLeads(found: Found, shares: Shares, active: seq<Segment>, newcomers: seq<Segment>,
                                        r: seq<Change>)
    requires IsOrder(found, shares, active, newcomers) && Known(shares, active + newcomers)
    requires Rearranges(shares, active + newcomers, r) && IsPartition(found) && Sum(shares) == 1.0
    ensures Leads(found, r)
  {
    var end, limits := Applied(found, r, |r|), After(found, shares, active + newcomers);
    OrderIsComplete(found, shares, active, newcomers);
    RolloutIsChanges(found, shares, active + newcomers, r);
    WidthKeys(found, r, |r|);
    LayoutPartitions(found, shares, active, newcomers);
    forall n | n in found
      ensures n in end && n in limits
      ensures end[n] == limits[n] || (end[n].Width() == 0.0 && end[n] == found[n] && limits[n] == EMPTY)
    {
      EndIs(found, shares, active, newcomers, r, n);
    }
    SameHolders(found, end, limits);
  }

  lemma {:induction false} SameHolders(found: Found, end: Found, limits: Found)
    requires found.Keys == end.Keys == limits.Keys && Bounded(found) && IsPartition(limits)
    requires forall n :: n in found ==>
               end[n] == limits[n] || (end[n].Width() == 0.0 && end[n] == found[n] && limits[n] == EMPTY)
    ensures IsPartition(end)
  {
    SameCovers(end, limits);
    SameBounds(found, end, limits);
    SameApart(end, limits);
  }

  lemma {:induction false} SameCovers(end: Found, limits: Found)
    requires end.Keys == limits.Keys && Covers(limits)
    requires forall n :: n in limits && limits[n] != EMPTY ==> end[n] == limits[n]
    ensures Covers(end)
  {
    forall x | 0.0 <= x < 1.0
      ensures CoveredAt(end, x)
    {
      assert CoveredAt(limits, x);
      var n :| n in limits && limits[n].Holds(x);
      assert end[n].Holds(x);
    }
  }

  lemma {:induction false} SameBounds(found: Found, end: Found, limits: Found)
    requires found.Keys == end.Keys == limits.Keys && Bounded(found) && Bounded(limits)
    requires forall n :: n in found ==> end[n] == limits[n] || end[n] == found[n]
    ensures Bounded(end)
  {
  }

  lemma {:induction false} SameApart(end: Found, limits: Found)
    requires end.Keys == limits.Keys && Apart(limits)
    requires forall n :: n in end && end[n].Width() > 0.0 ==> end[n] == limits[n]
    ensures Apart(end)
  {
  }

  /**
   From any partition and to any shares, for any number of stacks: whatever list of the changes is
   rolled out, as coded or not, it leaves no gap exactly if takers come first.
   */
  lemma {:induction false} RolloutIsGapFreeIff(found: Found, shares: Shares, active: seq<Segment>,
                                               newcomers: seq<Segment>, r: seq<Change>)
    requires IsOrder(found, shares, active, newcomers) && Known(shares, active + newcomers)
    requires Rearranges(shares, active + newcomers, r) && IsPartition(found) && Sum(shares) == 1.0
    ensures GapFree(found, r) <==> TakersFirst(r)
  {
    RolloutLeads(found, shares, active, newcomers, r);
    GapFreeIff(found, r);
  }

  // ----- a gap-free order always exists -----

  /** The old segments in r end by `was`, the new ones by `now`. */
  ghost predicate EndBy(r: seq<Change>, was: real, now: real) {
    forall k :: 0 <= k < |r| ==>
      && (r[k].was.Width() > 0.0 ==> r[k].was.upper <= was)
      && (r[k].now.Width() > 0.0 ==> r[k].now.upper <= now)
  }

  /** One more stack on the right goes last if its left border moves right, and first if it moves left. */
  lemma {:induction false} AddRightmost(r: seq<Change>, c: Change, was: real, now: real) returns (s: seq<Change>)
    requires TakersFirst(r) && EndBy(r, was, now)
    requires c.was.Width() > 0.0 ==> c.was.lower >= was
    requires c.now.Width() > 0.0 ==> c.now.lower >= now
    ensures multiset(s) == multiset(r) + multiset{c} && TakersFirst(s)
  {
    if c.now.Width() <= 0.0 || (c.was.Width() > 0.0 && c.now.lower >= c.was.lower) {
      s := r + [c];
    } else {
      s := [c] + r;
      assert forall j :: 0 < j < |s| ==> s[j] == r[j - 1];
    }
  }

  /** Where the old segments of the first i stacks of a layout end. */
  ghost function WasEnd(active: seq<Segment>, i: nat): real {
    if i == 0 then 0.0 else if i <= |active| then active[i - 1].at.upper else 1.0
  }

  lemma {:induction false} WasEndGrows(found: Found, active: seq<Segment>, newcomers: seq<Segment>, shares: Shares,
                                       i: nat)
    requires IsOrder(found, shares, active, newcomers) && IsPartition(found) && i < |active + newcomers|
    ensures var at := (active + newcomers)[i].at;
            && WasEnd(active, i) <= WasEnd(active, i + 1)
            && (at.Width() > 0.0 ==> WasEnd(active, i) <= at.lower && at.upper <= WasEnd(active, i + 1))
  {
    if i < |active| {
      assert found[active[i].id] == active[i].at;
      if i > 0 { StartsAfter(found, active, i); }
    } else {
      assert Mentions(newcomers, newcomers[i - |active|].id);
      assert found[newcomers[i - |active|].id] == newcomers[i - |active|].at;
      if i > 0 && i <= |active| { assert found[active[i - 1].id] == active[i - 1].at; }
    }
  }

  lemma {:induction false} EndByGrows(r: seq<Change>, s: seq<Change>, c: Change, was: real, now: real, was': real,
                                      now': real)
    requires EndBy(r, was, now) && was <= was' && now <= now' && multiset(s) == multiset(r) + multiset{c}
    requires c.was.Width() > 0.0 ==> c.was.upper <= was'
    requires c.now.Width() > 0.0 ==> c.now.upper <= now'
    ensures EndBy(s, was', now')
  {
    forall k | 0 <= k < |s|
      ensures s[k].was.Width() > 0.0 ==> s[k].was.upper <= was'
      ensures s[k].now.Width() > 0.0 ==> s[k].now.upper <= now'
    {
      assert s[k] in multiset(s);
      if s[k] != c {
        assert s[k] in multiset(r);
        var m :| 0 <= m < |r| && r[m] == s[k];
      }
    }
  }

  /** r is a gap-free order of the first i stacks of a layout, within what they had and what they get. */
  ghost predicate GapFreeUpTo(shares: Shares, active: seq<Segment>, newcomers: seq<Segment>, i: nat, r: seq<Change>)
    requires i <= |active + newcomers| && Known(shares, active + newcomers)
  {
    && multiset(r) == multiset(ChangesUpTo(shares, active + newcomers, i)) && TakersFirst(r)
    && EndBy(r, WasEnd(active, i), Offset(shares, active + newcomers, i))
  }

  lemma {:induction false} GapFreeStart(shares: Shares, active: seq<Segment>, newcomers: seq<Segment>)
    requires Known(shares, active + newcomers)
    ensures GapFreeUpTo(shares, active, newcomers, 0, [])
  {
  }

  /** The old segment of the i-th stack of the order, if it has one, begins where the ones before it ended. */
  ghost predicate AdvancesAt(active: seq<Segment>, newcomers: seq<Segment>, i: nat)
    requires i < |active + newcomers|
  {
    var at := (active + newcomers)[i].at;
    && WasEnd(active, i) <= WasEnd(active, i + 1)
    && (at.Width() > 0.0 ==> WasEnd(active, i) <= at.lower && at.upper <= WasEnd(active, i + 1))
  }

  ghost predicate Advances(active: seq<Segment>, newcomers: seq<Segment>) {
    forall i :: 0 <= i < |active + newcomers| ==> AdvancesAt(active, newcomers, i)
  }

  lemma {:induction false} OrderAdvances(found: Found, shares: Shares, active: seq<Segment>, newcomers: seq<Segment>)
    requires IsOrder(found, shares, active, newcomers) && IsPartition(found)
    ensures Advances(active, newcomers) && NonNegative(shares)
  {
    forall i | 0 <= i < |active + newcomers|
      ensures AdvancesAt(active, newcomers, i)
    {
      WasEndGrows(found, active, newcomers, shares, i);
    }
  }

  ghost predicate HasGapFreeOrder(shares: Shares, active: seq<Segment>, newcomers: seq<Segment>, i: nat)
    requires i <= |active + newcomers| && Known(shares, active + newcomers)
  {
    exists r :: GapFreeUpTo(shares, active, newcomers, i, r)
  }

  lemma {:induction false} GapFreeNextOrder(shares: Shares, active: seq<Segment>, newcomers: seq<Segment>, i: nat)
    requires NonNegative(shares) && Known(shares, active + newcomers)
    requires i < |active + newcomers| && AdvancesAt(active, newcomers, i)
    requires HasGapFreeOrder(shares, active, newcomers, i)
    ensures HasGapFreeOrder(shares, active, newcomers, i + 1)
  {
    var front :| GapFreeUpTo(shares, active, newcomers, i, front);
    var r := GapFreeNext(shares, active, newcomers, i, front);
  }

  lemma {:induction false} GapFreePrefix(shares: Shares, active: seq<Segment>, newcomers: seq<Segment>, i: nat)
    requires NonNegative(shares) && Advances(active, newcomers) && Known(shares, active + newcomers)
    requires i <= |active + newcomers|
    ensures HasGapFreeOrder(shares, active, newcomers, i)
  {
    if i == 0 {
      GapFreeStart(shares, active, newcomers);
    } else {
      GapFreePrefix(shares, active, newcomers, i - 1);
      assert AdvancesAt(active, newcomers, i - 1);
      GapFreeNextOrder(shares, active, newcomers, i - 1);
    }
  }

  /** One more stack. */
  lemma {:induction false} GapFreeNext(shares: Shares, active: seq<Segment>, newcomers: seq<Segment>, i: nat,
                                       front: seq<Change>)
    returns (r: seq<Change>)
    requires NonNegative(shares) && Known(shares, active + newcomers)
    requires i < |active + newcomers| && AdvancesAt(active, newcomers, i)
    requires GapFreeUpTo(shares, active, newcomers, i, front)
    ensures GapFreeUpTo(shares, active, newcomers, i + 1, r)
  {
    var order := active + newcomers;
    var c := ChangeOf(shares, order, i);
    OffsetGrows(shares, order, i, i + 1);
    r := GapFreeStep(front, c, WasEnd(active, i), Offset(shares, order, i),
                     WasEnd(active, i + 1), Offset(shares, order, i + 1));
  }

  lemma {:induction false} GapFreeStep(front: seq<Change>, c: Change, was: real, now: real, was': real, now': real)
    returns (r: seq<Change>)
    requires TakersFirst(front) && EndBy(front, was, now) && was <= was' && now <= now'
    requires c.was.Width() > 0.0 ==> was <= c.was.lower && c.was.upper <= was'
    requires c.now.Width() > 0.0 ==> now <= c.now.lower && c.now.upper <= now'
    ensures multiset(r) ==
            multiset(front + if c.was != c.now then [c] else []) && TakersFirst(r) && EndBy(r, was', now')
  {
    if c.was != c.now {
      r := AddRightmost(front, c, was, now);
      EndByGrows(front, r, c, was, now, was', now');
    } else {
      r := front;
      assert front + [] == front;
    }
  }

  /**
   For every layout over a partition, with any number of stacks, the changes can be rolled out one
   at a time without a gap at any step.
   */
  lemma {:induction false} GapFreeOrderExists(found: Found, shares: Shares, active: seq<Segment>,
                                              newcomers: seq<Segment>)
    returns (r: seq<Change>)
    requires IsOrder(found, shares, active, newcomers) && Known(shares, active + newcomers)
    requires IsPartition(found) && Sum(shares) == 1.0
    ensures Rearranges(shares, active + newcomers, r) && GapFree(found, r)
  {
    OrderAdvances(found, shares, active, newcomers);
    GapFreePrefix(shares, active, newcomers, |active + newcomers|);
    r :| GapFreeUpTo(shares, active, newcomers, |active + newcomers|, r);
    RolloutIsGapFreeIff(found, shares, active, newcomers, r);
  }

  // ----- the intended order, and the coded one -----

  /** Whatever takes over part of another stack's old segment comes before it in the intended order. */
  ghost predicate TakersGrowFirst(c: seq<Change>) {
    forall x, y :: x in c && y in c && x != y && TakesOver(y, x) ==> GrowsFirst(y, x)
  }

  lemma {:induction false} SortedTakersFirst(c: seq<Change>, r: seq<Change>)
    requires Sorted(r) && multiset(r) == multiset(c)
    ensures TakersFirst(r) <==> TakersGrowFirst(c)
  {
    assert forall x :: x in c <==> x in multiset(r);
    if TakersGrowFirst(c) {
      forall i, j | 0 <= i < j < |r|
        ensures !TakesOver(r[j], r[i])
      {
        assert GrowsFirst(r[i], r[j]);
        GrowsFirstAsymmetric(r[i], r[j]);
        assert r[i] in multiset(r) && r[j] in multiset(r);
      }
    }
    if TakersFirst(r) {
      forall x, y | x in c && y in c && x != y && TakesOver(y, x)
        ensures GrowsFirst(y, x)
      {
        var i :| 0 <= i < |r| && r[i] == x;
        var j :| 0 <= j < |r| && r[j] == y;
        assert j < i;
      }
    }
  }

  /**
   In the order the source's comment asks for, a rollout of any number of stacks leaves no gap
   exactly if whatever takes over part of another stack's old segment grows more than that stack, or
   as much and has the smaller id.
   */
  lemma {:induction false} IntendedGapFreeIff(found: Found, shares: Shares, active: seq<Segment>,
                                              newcomers: seq<Segment>, r: seq<Change>)
    requires IsOrder(found, shares, active, newcomers) && Known(shares, active + newcomers)
    requires Intended(shares, active + newcomers, r) && IsPartition(found) && Sum(shares) == 1.0
    ensures GapFree(found, r) <==> TakersGrowFirst(Changes(shares, active + newcomers))
  {
    RolloutIsGapFreeIff(found, shares, active, newcomers, r);
    SortedTakersFirst(Changes(shares, active + newcomers), r);
  }

  /** The coded rollout of well identified changes is the intended one, so the same condition is exact for it. */
  lemma {:induction false} CodedGapFreeIff(found: Found, shares: Shares, active: seq<Segment>,
                                           newcomers: seq<Segment>, r: seq<Change>)
    requires IsOrder(found, shares, active, newcomers) && Known(shares, active + newcomers)
    requires RollsOut(shares, active + newcomers, r) && IsPartition(found) && Sum(shares) == 1.0
    requires WellIdentified(Changes(shares, active + newcomers))
    ensures GapFree(found, r) <==> TakersGrowFirst(Changes(shares, active + newcomers))
  {
    OrderIsComplete(found, shares, active, newcomers);
    RolloutIsChanges(found, shares, active + newcomers, r);
    WellIdentifiedIsIntended(Changes(shares, active + newcomers), r);
    IntendedGapFreeIff(found, shares, active, newcomers, r);
  }

  // ----- traffic moves between two stacks, others may shift -----

  /** Only the shares of g and s differ: g gains what s loses. */
  ghost predicate Transfer(previous: Shares, shares: Shares, g: Name, s: Name) {
    && previous.Keys == shares.Keys && g in shares && s in shares && g != s
    && shares[g] > previous[g] && shares[g] - previous[g] == previous[s] - shares[s]
    && forall n :: n in shares && n != g && n != s ==> shares[n] == previous[n]
  }

  /** How far the layout moves the i-th stack: right by what stacks before it gain, left by what they lose. */
  function Shift(previous: Shares, shares: Shares, order: seq<Segment>, i: nat, g: nat, s: nat): real
    requires g < |order| && s < |order| && order[g].id in shares && order[g].id in previous
  {
    var gain := shares[order[g].id] - previous[order[g].id];
    (if g < i then gain else 0.0) - (if s < i then gain else 0.0)
  }

  lemma {:induction false} OffsetShifts(previous: Shares, shares: Shares, order: seq<Segment>, i: nat, g: nat, s: nat)
    requires i <= |order| && Known(shares, order) && Known(previous, order) && Distinct(order)
    requires g < |order| && s < |order| && Transfer(previous, shares, order[g].id, order[s].id)
    ensures Offset(shares, order, i) == Offset(previous, order, i) + Shift(previous, shares, order, i, g, s)
  {
    if i > 0 {
      OffsetShifts(previous, shares, order, i - 1, g, s);
      var id := order[i - 1].id;
      assert id == order[g].id <==> i - 1 == g;
      assert id == order[s].id <==> i - 1 == s;
    }
  }

  /** An active stack of a settled layout starts at its old offset and is as wide as its old share. */
  lemma {:induction false} OldPlace(found: Found, previous: Shares, active: seq<Segment>, newcomers: seq<Segment>,
                                    i: nat)
    requires Settled(found, previous) && ActiveAmong(found, found.Keys, active) && Ordered(active, LeftOf)
    requires Known(previous, active + newcomers) && i < |active|
    ensures (active + newcomers)[i].at ==
            Interval(Offset(previous, active + newcomers, i),
                     Offset(previous, active + newcomers, i) + previous[active[i].id])
  {
    var order := active + newcomers;
    forall k | 0 <= k < |active|
      ensures active[k].id in previous
    {
      assert order[k] == active[k];
    }
    SettledOffset(found, previous, active, i);
    OffsetOfPrefix(previous, active, newcomers, i);
    assert found[active[i].id] == active[i].at;
  }

  /** The stack that loses keeps a part of what it had. */
  lemma {:induction false} GiverOnlyGives(found: Found, previous: Shares, shares: Shares, active: seq<Segment>,
                                          newcomers: seq<Segment>, g: nat, s: nat, x: real)
    requires Settled(found, previous) && IsOrder(found, shares, active, newcomers)
    requires Known(shares, active + newcomers) && Known(previous, active + newcomers) && Distinct(active + newcomers)
    requires g < |active + newcomers| && s < |active|
    requires Transfer(previous, shares, (active + newcomers)[g].id, (active + newcomers)[s].id)
    requires Placed(shares, active + newcomers, s).Holds(x)
    ensures (active + newcomers)[s].at.Holds(x)
  {
    OldPlace(found, previous, active, newcomers, s);
    OffsetShifts(previous, shares, active + newcomers, s, g, s);
  }

  /** The stack that gains keeps all that it had. */
  lemma {:induction false} TakerOnlyTakes(found: Found, previous: Shares, shares: Shares, active: seq<Segment>,
                                          newcomers: seq<Segment>, g: nat, s: nat, x: real)
    requires Settled(found, previous) && IsOrder(found, shares, active, newcomers)
    requires Known(shares, active + newcomers) && Known(previous, active + newcomers) && Distinct(active + newcomers)
    requires g < |active| && s < |active + newcomers|
    requires Transfer(previous, shares, (active + newcomers)[g].id, (active + newcomers)[s].id)
    requires (active + newcomers)[g].at.Holds(x)
    ensures Placed(shares, active + newcomers, g).Holds(x)
  {
    OldPlace(found, previous, active, newcomers, g);
    OffsetShifts(previous, shares, active + newcomers, g, g, s);
  }

  /** A layout that moves traffic from s to g, from a settled state. */
  ghost predicate Moves(found: Found, previous: Shares, shares: Shares, active: seq<Segment>, newcomers: seq<Segment>,
                        g: Name, s: Name) {
    && IsOrder(found, shares, active, newcomers) && Known(shares, active + newcomers)
    && Settled(found, previous) && Sum(shares) == 1.0 && Transfer(previous, shares, g, s)
  }

  lemma {:induction false} PlacedApart(shares: Shares, order: seq<Segment>, i: nat, j: nat, x: real)
    requires i < |order| && j < |order| && Known(shares, order) && NonNegative(shares)
    requires Placed(shares, order, i).Holds(x) && Placed(shares, order, j).Holds(x)
    ensures i == j
  {
    if i < j { PlacedInOrder(shares, order, i, j); }
    if j < i { PlacedInOrder(shares, order, j, i); }
  }

  lemma {:induction false} IndexOfChange(shares: Shares, order: seq<Segment>, y: Change) returns (k: nat)
    requires Known(shares, order) && y in Changes(shares, order)
    ensures k < |order| && y == ChangeOf(shares, order, k)
  {
    ChangeMembers(shares, order, |order|);
    k :| k < |order| && y == ChangeOf(shares, order, k);
  }

  lemma {:induction false} DiffAt(found: Found, previous: Shares, shares: Shares, order: seq<Segment>, k: nat)
    requires Known(shares, order) && NonNegative(shares) && k < |order| && order[k].id in previous
    requires order[k].at.Width() == previous[order[k].id]
    ensures ChangeOf(shares, order, k).Diff() == shares[order[k].id] - previous[order[k].id]
  {
    PlacedWidth(shares, order, k);
  }

  /** A stack grows by exactly what its share gains. */
  lemma {:induction false} DiffIsGain(found: Found, previous: Shares, shares: Shares, active: seq<Segment>,
                                      newcomers: seq<Segment>, k: nat)
    requires IsOrder(found, shares, active, newcomers) && Known(shares, active + newcomers) && Settled(found, previous)
    requires k < |active + newcomers|
    ensures var y := ChangeOf(shares, active + newcomers, k);
            y.id in found && y.id in previous && found[y.id] == y.was && y.Diff() == shares[y.id] - previous[y.id]
  {
    OrderLists(found, shares, active, newcomers);
    var id := (active + newcomers)[k].id;
    assert found[id] == (active + newcomers)[k].at && found[id].Width() == previous[id];
    DiffAt(found, previous, shares, active + newcomers, k);
  }

  /** Where the stacks of a transfer stand in the layout; the one that loses is active. */
  lemma {:induction false} TransferPlaces(found: Found, previous: Shares, shares: Shares, active: seq<Segment>,
                                          newcomers: seq<Segment>, g: Name, s: Name) returns (i: nat, j: nat)
    requires Moves(found, previous, shares, active, newcomers, g, s)
    ensures i < |active + newcomers| && (active + newcomers)[i].id == g
    ensures j < |active| && (active + newcomers)[j].id == s
    ensures Distinct(active + newcomers) && Known(previous, active + newcomers)
    ensures i >= |active| ==> (active + newcomers)[i].at.Width() == 0.0
  {
    OrderLists(found, shares, active, newcomers);
    assert Mentions(active + newcomers, g);
    i := Position(active + newcomers, g);
    assert Mentions(active, s);
    j := Position(active, s);
    if i >= |active| {
      assert Mentions(newcomers, newcomers[i - |active|].id);
    }
  }

  /** The stack that loses takes over nothing. */
  lemma {:induction false} GiverTakesNothing(found: Found, previous: Shares, shares: Shares, active: seq<Segment>,
                                             newcomers: seq<Segment>, g: Name, s: Name, m: nat, k: nat)
    requires Moves(found, previous, shares, active, newcomers, g, s)
    requires m < |active + newcomers| && k < |active + newcomers| && m != k && (active + newcomers)[m].id == s
    ensures !TakesOver(ChangeOf(shares, active + newcomers, m), ChangeOf(shares, active + newcomers, k))
  {
    var y, x := ChangeOf(shares, active + newcomers, m), ChangeOf(shares, active + newcomers, k);
    var i, j := TransferPlaces(found, previous, shares, active, newcomers, g, s);
    assert m == j;
    if TakesOver(y, x) {
      var p := OverlapPoint(y.now, x.was);
      GiverOnlyGives(found, previous, shares, active, newcomers, i, j, p);
      DiffIsGain(found, previous, shares, active, newcomers, m);
      DiffIsGain(found, previous, shares, active, newcomers, k);
      HolderIsUnique(found, p, y.id, x.id);
    }
  }

  /** Nothing is taken over from the stack that gains. */
  lemma {:induction false} TakerLosesNothing(found: Found, previous: Shares, shares: Shares, active: seq<Segment>,
                                             newcomers: seq<Segment>, g: Name, s: Name, m: nat, k: nat)
    requires Moves(found, previous, shares, active, newcomers, g, s)
    requires m < |active + newcomers| && k < |active + newcomers| && m != k && (active + newcomers)[k].id == g
    ensures !TakesOver(ChangeOf(shares, active + newcomers, m), ChangeOf(shares, active + newcomers, k))
  {
    var y, x := ChangeOf(shares, active + newcomers, m), ChangeOf(shares, active + newcomers, k);
    var i, j := TransferPlaces(found, previous, shares, active, newcomers, g, s);
    assert k == i;
    if TakesOver(y, x) {
      var p := OverlapPoint(y.now, x.was);
      TakerOnlyTakes(found, previous, shares, active, newcomers, i, j, p);
      PlacedApart(shares, active + newcomers, m, k, p);
    }
  }

  /** Of the stacks that only shift, every one that takes over part of another's old segment has the smaller id. */
  ghost predicate ShiftsInOrder(c: seq<Change>, g: Name, s: Name) {
    forall x, y :: x in c && y in c && x != y && TakesOver(y, x) && x.id != g && x.id != s && y.id != g && y.id != s ==>
      Less(y.id, x.id)
  }

  lemma {:induction false} TransferPair(found: Found, previous: Shares, shares: Shares, active: seq<Segment>,
                                        newcomers: seq<Segment>, g: Name, s: Name, y: Change, x: Change)
    requires Moves(found, previous, shares, active, newcomers, g, s)
    requires x in Changes(shares, active + newcomers) && y in Changes(shares, active + newcomers)
    requires x != y && TakesOver(y, x)
    ensures y.id != s && x.id != g
    ensures y.id == g || x.id == s ==> GrowsFirst(y, x)
    ensures y.id != g && x.id != s ==> (GrowsFirst(y, x) <==> Less(y.id, x.id))
  {
    var m := IndexOfChange(shares, active + newcomers, y);
    var k := IndexOfChange(shares, active + newcomers, x);
    if y.id == s { GiverTakesNothing(found, previous, shares, active, newcomers, g, s, m, k); }
    if x.id == g { TakerLosesNothing(found, previous, shares, active, newcomers, g, s, m, k); }
    DiffIsGain(found, previous, shares, active, newcomers, m);
    DiffIsGain(found, previous, shares, active, newcomers, k);
  }

  /**
   When traffic moves between two stacks and any number of others keep their weight and shift, the
   intended rollout leaves no gap exactly if, among the stacks that only shift, each one that takes
   over part of another's old segment has the smaller id.
   */
  lemma {:induction false} TransferIsGapFreeIff(found: Found, previous: Shares, shares: Shares, active: seq<Segment>,
                                                newcomers: seq<Segment>, g: Name, s: Name, r: seq<Change>)
    requires Moves(found, previous, shares, active, newcomers, g, s)
    requires Intended(shares, active + newcomers, r)
    ensures GapFree(found, r) <==> ShiftsInOrder(Changes(shares, active + newcomers), g, s)
  {
    var c := Changes(shares, active + newcomers);
    IntendedGapFreeIff(found, shares, active, newcomers, r);
    forall x, y | x in c && y in c && x != y && TakesOver(y, x)
      ensures y.id != s && x.id != g
      ensures y.id == g || x.id == s ==> GrowsFirst(y, x)
      ensures y.id != g && x.id != s ==> (GrowsFirst(y, x) <==> Less(y.id, x.id))
    {
      TransferPair(found, previous, shares, active, newcomers, g, s, y, x);
    }
  }

  // ----- the first step and the last of a transfer -----

  /** Whatever else shifts: rolling out the growing stack first leaves no gap in that step. */
  lemma {:induction false} GrowerFirstCovers(found: Found, previous: Shares, shares: Shares, active: seq<Segment>,
                                             newcomers: seq<Segment>, g: Name, s: Name, r: seq<Change>)
    requires Moves(found, previous, shares, active, newcomers, g, s)
    requires Rearranges(shares, active + newcomers, r) && r != [] && r[0].id == g
    ensures Covers(Applied(found, r, 1))
  {
    RolloutLeads(found, shares, active, newcomers, r);
    forall j | 1 <= j < |r|
      ensures !TakesOver(r[j], r[0])
    {
      ListedPair(found, previous, shares, active, newcomers, g, s, r, j, 0);
    }
    GapFreeStepIff(found, r, 1);
  }

  /** Rolling out the shrinking stack last leaves no gap before that step. */
  lemma {:induction false} ShrinkerLastCovers(found: Found, previous: Shares, shares: Shares, active: seq<Segment>,
                                              newcomers: seq<Segment>, g: Name, s: Name, r: seq<Change>, last: nat)
    requires Moves(found, previous, shares, active, newcomers, g, s)
    requires Rearranges(shares, active + newcomers, r) && |r| == last + 1 && r[last].id == s
    ensures Covers(Applied(found, r, last))
  {
    RolloutLeads(found, shares, active, newcomers, r);
    forall i | 0 <= i < last
      ensures !TakesOver(r[last], r[i])
    {
      ListedPair(found, previous, shares, active, newcomers, g, s, r, last, i);
    }
    LastTakesNothing(found, r, last);
  }

  lemma {:induction false} LastTakesNothing(found: Found, r: seq<Change>, last: nat)
    requires Leads(found, r) && |r| == last + 1 && forall i :: 0 <= i < last ==> !TakesOver(r[last], r[i])
    ensures Covers(Applied(found, r, last))
  {
    GapFreeStepIff(found, r, last);
  }

  /** Two entries of a list of a transfer's changes. */
  lemma {:induction false} ListedPair(found: Found, previous: Shares, shares: Shares, active: seq<Segment>,
                                      newcomers: seq<Segment>, g: Name, s: Name, r: seq<Change>, j: nat, i: nat)
    requires Moves(found, previous, shares, active, newcomers, g, s)
    requires Rearranges(shares, active + newcomers, r) && i < |r| && j < |r| && i != j
    ensures TakesOver(r[j], r[i]) ==> r[j].id != s && r[i].id != g
  {
    OrderIsComplete(found, shares, active, newcomers);
    RolloutIsChanges(found, shares, active + newcomers, r);
    assert r[i] in multiset(r) && r[j] in multiset(r);
    assert r[i].id != r[j].id;
    if TakesOver(r[j], r[i]) {
      TransferPair(found, previous, shares, active, newcomers, g, s, r[j], r[i]);
    }
  }

  /** Whatever else shifts: rolling out the shrinking stack first leaves a gap. */
  lemma {:induction false} ShrinkerFirstGaps(found: Found, previous: Shares, shares: Shares, active: seq<Segment>,
                                             newcomers: seq<Segment>, g: Name, s: Name, r: seq<Change>)
    requires Moves(found, previous, shares, active, newcomers, g, s)
    requires Rearranges(shares, active + newcomers, r) && r != [] && r[0].id == s
    ensures !Covers(Applied(found, r, 1))
  {
    RolloutLeads(found, shares, active, newcomers, r);
    assert r[0] in multiset(r);
    assert r[0] in Changes(shares, active + newcomers);
    GiverNarrows(found, previous, shares, active, newcomers, g, s, r[0]);
    assert found[s] == r[0].was;
    var p := NewPoint(r[0].now, r[0].was);
    NobodyElseHad(found, r, p);
  }

  lemma {:induction false} OnlyOneHad(limits: Found, x: real, m: Name, n: Name)
    requires Apart(limits) && m in limits && n in limits && m != n && limits[n].Holds(x)
    ensures !limits[m].Holds(x)
  {
  }

  lemma {:induction false} HasNot(found: Found, r: seq<Change>, p: real, t: Name)
    requires Leads(found, r) && r != [] && r[0].was.Holds(p) && !r[0].now.Holds(p) && t in found
    ensures t in Applied(found, r, 1) && !Applied(found, r, 1)[t].Holds(p)
  {
    assert found[r[0].id] == r[0].was;
    AppliedAt(found, r, 1, t);
    if t != r[0].id { OnlyOneHad(found, p, t, r[0].id); }
  }

  lemma {:induction false} NobodyElseHad(found: Found, r: seq<Change>, p: real)
    requires Leads(found, r) && r != [] && r[0].was.Holds(p) && !r[0].now.Holds(p)
    ensures 0.0 <= p < 1.0 && !CoveredAt(Applied(found, r, 1), p)
  {
    assert found[r[0].id] == r[0].was;
    WidthKeys(found, r, 1);
    forall t | t in Applied(found, r, 1)
      ensures !Applied(found, r, 1)[t].Holds(p)
    {
      HasNot(found, r, p, t);
    }
  }

  lemma {:induction false} LoserNarrows(found: Found, previous: Shares, shares: Shares, active: seq<Segment>,
                                        newcomers: seq<Segment>, g: Name, s: Name, k: nat)
    requires Moves(found, previous, shares, active, newcomers, g, s)
    requires k < |active + newcomers| && (active + newcomers)[k].id == s
    ensures var y := ChangeOf(shares, active + newcomers, k);
            y.now.Width() < y.was.Width() && y.now.lower <= y.now.upper
  {
    DiffIsGain(found, previous, shares, active, newcomers, k);
    PlacedWidth(shares, active + newcomers, k);
  }

  lemma {:induction false} GiverNarrows(found: Found, previous: Shares, shares: Shares, active: seq<Segment>,
                                        newcomers: seq<Segment>, g: Name, s: Name, y: Change)
    requires Moves(found, previous, shares, active, newcomers, g, s)
    requires y in Changes(shares, active + newcomers) && y.id == s
    ensures y.now.Width() < y.was.Width() && y.now.lower <= y.now.upper
    ensures forall x :: y.now.Holds(x) ==> y.was.Holds(x)
  {
    var k := IndexOfChange(shares, active + newcomers, y);
    LoserNarrows(found, previous, shares, active, newcomers, g, s, k);
    var i, j := TransferPlaces(found, previous, shares, active, newcomers, g, s);
    assert k == j;
    forall x | y.now.Holds(x)
      ensures y.was.Holds(x)
    {
      GiverOnlyGives(found, previous, shares, active, newcomers, i, j, x);
    }
  }

  lemma {:induction false} NewPoint(was: Interval, now: Interval) returns (y: real)
    requires now.Width() > was.Width() && was.lower <= was.upper
    requires forall x :: was.Holds(x) ==> now.Holds(x)
    ensures now.Holds(y) && !was.Holds(y)
  {
    y := if was.Width() <= 0.0 || now.lower < was.lower then now.lower else was.upper;
    if was.Width() > 0.0 { assert was.Holds(was.lower); }
  }

  // ----- two changes -----

  lemma {:induction false} TakenFromOther(found: Found, r: seq<Change>, g: nat, s: nat, y: real)
    requires Leads(found, r) && |r| == 2 && g + s == 1
    requires r[g].now.Holds(y) && !r[g].was.Holds(y) && 0.0 <= y < 1.0
    ensures r[s].was.Holds(y)
  {
    assert CoveredAt(found, y);
    var t :| t in found && found[t].Holds(y);
    AppliedAt(found, r, 2, t);
    AppliedAt(found, r, 2, r[g].id);
    if t != r[s].id {
      HolderIsUnique(Applied(found, r, 2), y, t, r[g].id);
    }
  }

  /** With no other stack shifting, the growing stack takes something over from the shrinking one. */
  lemma {:induction false} SomethingIsTaken(found: Found, r: seq<Change>, g: nat, s: nat)
    requires Leads(found, r) && |r| == 2 && g + s == 1
    requires r[g].now.Width() > r[g].was.Width()
    requires forall x :: r[g].was.Holds(x) ==> r[g].now.Holds(x)
    ensures TakesOver(r[g], r[s])
  {
    assert found[r[g].id] == r[g].was;
    var y := NewPoint(r[g].was, r[g].now);
    AppliedAt(found, r, 2, r[g].id);
    assert Applied(found, r, 2)[r[g].id] == r[g].now;
    TakenFromOther(found, r, g, s, y);
    OverlapAt(r[g].now, r[s].was, y);
  }

  lemma {:induction false} SortTwo(c: seq<Change>)
    requires |c| == 2
    ensures InsertionSort(c, RollsOutBefore) == if RollsOutBefore(c[1], c[0]) then [c[1], c[0]] else [c[0], c[1]]
  {
    assert c[..1] == [c[0]] && c[..1][..0] == [];
    assert InsertionSort([], RollsOutBefore) == [];
    assert InsertionSort(c[..1], RollsOutBefore) == [c[0]];
    assert [c[0]][..0] == [];
    assert Insert([], c[1], RollsOutBefore) == [c[1]];
  }

  /** A stack without a change keeps its share. */
  lemma {:induction false} UnchangedShare(found: Found, previous: Shares, shares: Shares, active: seq<Segment>,
                                          newcomers: seq<Segment>, n: Name)
    requires IsOrder(found, shares, active, newcomers) && Known(shares, active + newcomers) && Settled(found, previous)
    requires n in found && forall y :: y in Changes(shares, active + newcomers) ==> y.id != n
    ensures shares[n] == previous[n]
  {
    var order := active + newcomers;
    OrderLists(found, shares, active, newcomers);
    if Mentions(order, n) {
      var k := Position(order, n);
      ChangeMembers(shares, order, |order|);
      assert ChangeOf(shares, order, k).was == ChangeOf(shares, order, k).now;
      DiffIsGain(found, previous, shares, active, newcomers, k);
    }
  }

  lemma {:induction false} ChangeGain(found: Found, previous: Shares, shares: Shares, active: seq<Segment>,
                                      newcomers: seq<Segment>, y: Change)
    requires IsOrder(found, shares, active, newcomers) && Known(shares, active + newcomers) && Settled(found, previous)
    requires y in Changes(shares, active + newcomers)
    ensures y.id in found && y.id in previous && y.id in shares && y.Diff() == shares[y.id] - previous[y.id]
  {
    var k := IndexOfChange(shares, active + newcomers, y);
    DiffIsGain(found, previous, shares, active, newcomers, k);
  }

  lemma {:induction false} TwoShares(previous: Shares, shares: Shares, a: Name, b: Name)
    requires previous.Keys == shares.Keys && a in shares && b in shares && a != b
    requires forall n :: n in shares && n != a && n != b ==> shares[n] == previous[n]
    requires Sum(shares) == Sum(previous)
    ensures shares[a] - previous[a] == previous[b] - shares[b]
  {
    SumReplace(previous, a, shares[a]);
    SumReplace(previous[a := shares[a]], b, shares[b]);
    assert previous[a := shares[a]][b := shares[b]] == shares;
  }

  lemma {:induction false} OthersKeep(found: Found, previous: Shares, shares: Shares, active: seq<Segment>,
                                      newcomers: seq<Segment>, c: seq<Change>, n: Name)
    requires IsOrder(found, shares, active, newcomers) && Known(shares, active + newcomers)
    requires Settled(found, previous) && c == Changes(shares, active + newcomers) && |c| == 2
    requires n in shares && n != c[0].id && n != c[1].id
    ensures n in previous && shares[n] == previous[n]
  {
    UnchangedShare(found, previous, shares, active, newcomers, n);
  }

  lemma {:induction false} TwoChangesShares(found: Found, previous: Shares, shares: Shares, active: seq<Segment>,
                                            newcomers: seq<Segment>, c: seq<Change>)
    requires IsOrder(found, shares, active, newcomers) && Known(shares, active + newcomers)
    requires Settled(found, previous) && c == Changes(shares, active + newcomers) && |c| == 2
    ensures previous.Keys == shares.Keys && c[0].id in shares && c[1].id in shares
    ensures c[0].Diff() == shares[c[0].id] - previous[c[0].id] && c[1].Diff() == shares[c[1].id] - previous[c[1].id]
  {
    ChangeGain(found, previous, shares, active, newcomers, c[0]);
    ChangeGain(found, previous, shares, active, newcomers, c[1]);
  }

  lemma {:induction false} ChangesDiffer(found: Found, shares: Shares, active: seq<Segment>, newcomers: seq<Segment>)
    requires IsOrder(found, shares, active, newcomers) && Known(shares, active + newcomers)
    ensures DistinctIds(Changes(shares, active + newcomers))
  {
    OrderLists(found, shares, active, newcomers);
    ChangesAreDistinct(shares, active + newcomers, |active + newcomers|);
  }

  lemma {:induction false} SameSharesNoChange(found: Found, previous: Shares, shares: Shares, active: seq<Segment>,
                                              newcomers: seq<Segment>)
    requires IsOrder(found, shares, active, newcomers) && Known(shares, active + newcomers)
    requires Settled(found, previous) && shares == previous
    ensures Changes(shares, active + newcomers) == []
  {
    SettledIsFixed(found, shares, active, newcomers);
  }

  /** Of two shares that make up the same total one gains what the other loses, or both stay. */
  lemma {:induction false} TransferOr(previous: Shares, shares: Shares, a: Name, b: Name)
    requires previous.Keys == shares.Keys && a in shares && b in shares && a != b && Sum(shares) == Sum(previous)
    requires forall n :: n in shares && n != a && n != b ==> shares[n] == previous[n]
    ensures shares[a] - previous[a] == previous[b] - shares[b]
    ensures if shares[a] > previous[a] then Transfer(previous, shares, a, b)
            else if shares[a] < previous[a] then Transfer(previous, shares, b, a)
            else shares == previous
  {
    TwoShares(previous, shares, a, b);
  }

  /** Two changes are a transfer between their stacks. */
  lemma {:induction false} TwoChangesTransfer(found: Found, previous: Shares, shares: Shares, active: seq<Segment>,
                                              newcomers: seq<Segment>, c: seq<Change>)
    requires IsOrder(found, shares, active, newcomers) && Known(shares, active + newcomers)
    requires Settled(found, previous) && Sum(previous) == 1.0 && Sum(shares) == 1.0
    requires c == Changes(shares, active + newcomers) && |c| == 2
    ensures c[0].Diff() + c[1].Diff() == 0.0 && c[0].Diff() != 0.0
    ensures if c[0].Diff() > 0.0 then Transfer(previous, shares, c[0].id, c[1].id)
            else Transfer(previous, shares, c[1].id, c[0].id)
  {
    var a, b := c[0].id, c[1].id;
    ChangesDiffer(found, shares, active, newcomers);
    TwoChangesShares(found, previous, shares, active, newcomers, c);
    forall n | n in shares && n != a && n != b
      ensures n in previous && shares[n] == previous[n]
    {
      OthersKeep(found, previous, shares, active, newcomers, c, n);
    }
    TransferOr(previous, shares, a, b);
    if shares == previous {
      SameSharesNoChange(found, previous, shares, active, newcomers);
    }
  }

  lemma {:induction false} TwoSorted(c: seq<Change>, r: seq<Change>)
    requires |c| == 2 && StablySorted(c, r, RollsOutBefore)
    requires c[0].Diff() + c[1].Diff() == 0.0 && c[0].Diff() != 0.0
    ensures r == if c[0].Diff() < 0.0 || Less(c[1].id, c[0].id) then [c[1], c[0]] else [c[0], c[1]]
  {
    SortTwo(c);
  }

  lemma {:induction false} TwoRollout(found: Found, previous: Shares, shares: Shares, active: seq<Segment>,
                                      newcomers: seq<Segment>, g: Name, s: Name, r: seq<Change>, first: nat)
    requires Moves(found, previous, shares, active, newcomers, g, s)
    requires Rearranges(shares, active + newcomers, r) && |r| == 2 && first < 2
    requires r[first].id == g && r[1 - first].id == s
    ensures GapFree(found, r) <==> first == 0
  {
    RolloutLeads(found, shares, active, newcomers, r);
    GapFreeIff(found, r);
    assert r[0] in multiset(r) && r[1] in multiset(r);
    assert r[0] in Changes(shares, active + newcomers) && r[1] in Changes(shares, active + newcomers);
    if first == 0 {
      if TakesOver(r[1], r[0]) { TransferPair(found, previous, shares, active, newcomers, g, s, r[1], r[0]); }
    } else {
      GainerWidens(found, previous, shares, active, newcomers, g, s, r[1]);
      SomethingIsTaken(found, r, 1, 0);
    }
  }

  lemma {:induction false} GainerWidens(found: Found, previous: Shares, shares: Shares, active: seq<Segment>,
                                        newcomers: seq<Segment>, g: Name, s: Name, y: Change)
    requires Moves(found, previous, shares, active, newcomers, g, s)
    requires y in Changes(shares, active + newcomers) && y.id == g
    ensures y.now.Width() > y.was.Width() && forall x :: y.was.Holds(x) ==> y.now.Holds(x)
  {
    var k := IndexOfChange(shares, active + newcomers, y);
    ChangeGain(found, previous, shares, active, newcomers, y);
    var i, j := TransferPlaces(found, previous, shares, active, newcomers, g, s);
    assert k == i;
    if i < |active| {
      forall x | y.was.Holds(x)
        ensures y.now.Holds(x)
      {
        TakerOnlyTakes(found, previous, shares, active, newcomers, i, j, x);
      }
    }
  }

  /**
   When only two segments change, the coded rollout leaves no gap unless the left stack grows and
   the other one has the smaller id; in that case it leaves one.
   */
  lemma {:induction false} TwoStackRollout(found: Found, previous: Shares, shares: Shares, active: seq<Segment>,
                                           newcomers: seq<Segment>, r: seq<Change>)
    requires IsOrder(found, shares, active, newcomers) && Known(shares, active + newcomers)
    requires Settled(found, previous) && Sum(previous) == 1.0 && Sum(shares) == 1.0
    requires |Changes(shares, active + newcomers)| == 2 && RollsOut(shares, active + newcomers, r)
    ensures var c := Changes(shares, active + newcomers);
            GapFree(found, r) <==> !(c[0].Diff() > 0.0 && Less(c[1].id, c[0].id))
  {
    var c := Changes(shares, active + newcomers);
    TwoChangesTransfer(found, previous, shares, active, newcomers, c);
    TwoSorted(c, r);
    if c[0].Diff() > 0.0 {
      var first := if Less(c[1].id, c[0].id) then 1 else 0;
      TwoRollout(found, previous, shares, active, newcomers, c[0].id, c[1].id, r, first);
    } else {
      TwoRollout(found, previous, shares, active, newcomers, c[1].id, c[0].id, r, 0);
    }
  }
}
