/**
 From one cycle to the next: the computed segments partition [0, 1), are printed
 into the stacks' resources, read back, and recomputed without change
 (pkg/core/traffic.go, pkg/core/stack_resources.go).
 */
module Recompute {
  import opened Names
  import opened Sums
  import opened Sorting
  import W = Weights
  import opened Options
  import opened Stacks
  import opened Predicates
  import opened Layout
  import opened Partition
  import opened Segments
  import Rollout

  // ----- shares of canonical weights -----

  lemma {:induction false} ShareOfWhole(w: real)
    requires w >= 0.0 && W.IsWhole(w)
    ensures IsHundredth(w / 100.0)
  {
    assert w / 100.0 * 100.0 == w;
  }

  lemma {:induction false} SumOfHundredths(x: real, y: real)
    requires IsHundredth(x) && IsHundredth(y)
    ensures IsHundredth(x + y)
  {
    W.WholeAdd(x * 100.0, y * 100.0);
    assert (x + y) * 100.0 == x * 100.0 + y * 100.0;
  }

  ghost predicate WholeShares(shares: Shares) {
    forall n :: n in shares ==> IsHundredth(shares[n])
  }

  /** Canonical weights give shares that total 1, each a whole number of hundredths. */
  lemma {:induction false} CanonicalShares(stacks: StackMap)
    requires W.Canonical(Actual(stacks))
    ensures Sum(SharesIn(stacks)) == 1.0 && WholeShares(SharesIn(stacks))
    ensures forall n :: n in stacks ==> SharesIn(stacks)[n] == stacks[n].actual / 100.0
  {
    var shares, actual := SharesIn(stacks), Actual(stacks);
    assert shares.Keys == actual.Keys;
    forall n | n in stacks
      ensures shares[n] == 0.01 * actual[n] && shares[n] == stacks[n].actual / 100.0 && IsHundredth(shares[n])
    {
      assert actual[n] == stacks[n].actual;
      ShareOfWhole(actual[n]);
    }
    SumScale(actual, 0.01, shares);
  }

  lemma {:induction false} OffsetIsHundredth(shares: Shares, order: seq<Segment>, i: nat)
    requires i <= |order| && Known(shares, order) && WholeShares(shares)
    ensures IsHundredth(Offset(shares, order, i))
  {
    if i > 0 {
      OffsetIsHundredth(shares, order, i - 1);
      SumOfHundredths(Offset(shares, order, i - 1), shares[order[i - 1].id]);
    }
  }

  predicate Printable(at: Interval) {
    IsHundredth(at.lower) && IsHundredth(at.upper) && at.lower <= at.upper
  }

  lemma {:induction false} PlacedIsPrintable(shares: Shares, order: seq<Segment>, i: nat)
    requires i < |order| && Known(shares, order) && WholeShares(shares)
    ensures Printable(Placed(shares, order, i))
  {
    OffsetIsHundredth(shares, order, i);
    OffsetIsHundredth(shares, order, i + 1);
    assert Offset(shares, order, i + 1) == Offset(shares, order, i) + shares[order[i].id];
  }

  // ----- one computation -----

  function Limits(s: Stack): Interval {
    Interval(s.segmentLower, s.segmentUpper)
  }

  ghost function AllLimits(stacks: StackMap): Found {
    map n | n in stacks :: Limits(stacks[n])
  }

  /** Containers start a cycle with the empty segment. */
  ghost predicate Fresh(stacks: StackMap) {
    forall n :: n in stacks ==> Limits(stacks[n]) == EMPTY
  }

  lemma {:induction false} AssignedIsAfter(stacks: StackMap, active: seq<Segment>, newcomers: seq<Segment>,
                                           after: StackMap, rollout: seq<Name>, n: Name)
    requires Parseable(stacks) && Fresh(stacks) && Computes(stacks, active, newcomers, after, rollout) && n in stacks
    ensures n in after
    ensures Limits(after[n]) == After(FoundIn(stacks), SharesIn(stacks), active + newcomers)[n]
    ensures after[n] == WithSegment(stacks[n], Limits(after[n]))
  {
    var order := active + newcomers;
    if Mentions(order, n) {
      var i := Position(order, n);
      assert after[order[i].id] == WithSegment(stacks[order[i].id], Placed(SharesIn(stacks), order, i));
    } else {
      assert Limits(stacks[n]) == EMPTY;
    }
  }

  lemma {:induction false} LimitsFrom(after: StackMap, limits: Found)
    requires after.Keys == limits.Keys && forall n :: n in limits ==> Limits(after[n]) == limits[n]
    ensures AllLimits(after) == limits
  {
  }

  lemma {:induction false} LimitsAreAfter(stacks: StackMap, active: seq<Segment>, newcomers: seq<Segment>,
                                          after: StackMap, rollout: seq<Name>, limits: Found)
    requires Parseable(stacks) && Fresh(stacks) && Computes(stacks, active, newcomers, after, rollout)
    requires limits == After(FoundIn(stacks), SharesIn(stacks), active + newcomers)
    ensures AllLimits(after) == limits && after.Keys == stacks.Keys
  {
    forall n | n in limits
      ensures n in after && Limits(after[n]) == limits[n]
    {
      LimitsAfterAt(stacks, active, newcomers, after, rollout, limits, n);
    }
    LimitsFrom(after, limits);
  }

  lemma {:induction false} LimitsAfterAt(stacks: StackMap, active: seq<Segment>, newcomers: seq<Segment>,
                                         after: StackMap, rollout: seq<Name>, limits: Found, n: Name)
    requires Parseable(stacks) && Fresh(stacks) && Computes(stacks, active, newcomers, after, rollout)
    requires limits == After(FoundIn(stacks), SharesIn(stacks), active + newcomers) && n in limits
    ensures n in after && Limits(after[n]) == limits[n]
  {
    AssignedIsAfter(stacks, active, newcomers, after, rollout, n);
  }

  /**
   With canonical weights, from any readable segments and in any order of iteration, the
   containers end up with segments that partition [0, 1), each exactly as wide as the stack's
   weight; a stack without weight has the empty segment.  All limits are whole hundredths.
   */
  lemma {:induction false} ComputesPartition(stacks: StackMap, active: seq<Segment>, newcomers: seq<Segment>,
                                             after: StackMap, rollout: seq<Name>)
    requires Parseable(stacks) && Fresh(stacks) && W.Canonical(Actual(stacks))
    requires Computes(stacks, active, newcomers, after, rollout)
    ensures after.Keys == stacks.Keys && IsPartition(AllLimits(after))
    ensures forall n :: n in stacks ==>
            Printable(Limits(after[n])) && FitsAt(Limits(after[n]), stacks[n].actual / 100.0, 1.0)
  {
    var found, shares := FoundIn(stacks), SharesIn(stacks);
    CanonicalShares(stacks);
    LayoutPartitions(found, shares, active, newcomers);
    LimitsAreAfter(stacks, active, newcomers, after, rollout, After(found, shares, active + newcomers));
    forall n | n in stacks
      ensures Printable(Limits(after[n])) && FitsAt(Limits(after[n]), stacks[n].actual / 100.0, 1.0)
    {
      assert AllLimits(after)[n] == Limits(after[n]);
      AfterIsPrintable(found, shares, active + newcomers, n);
    }
  }

  lemma {:induction false} AfterIsPrintable(found: Found, shares: Shares, order: seq<Segment>, n: Name)
    requires Known(shares, order) && WholeShares(shares) && n in found
    ensures Printable(After(found, shares, order)[n])
  {
    if Mentions(order, n) { PlacedIsPrintable(shares, order, Position(order, n)); }
  }

  // ----- printing and reading back -----

  /** `GenerateIngressSegment`: the segment goes before the ingress's own predicate, if it has one. */
  function IngressPredicate(at: Interval, own: string): string
    requires Printable(at)
  {
    TrafficSegment(at.lower, at.upper) + if own == "" then "" else " && " + own
  }

  /** `GenerateRouteGroupSegment`: the segment goes after the route's own predicates. */
  function RoutePredicates(at: Interval, own: seq<string>): seq<string>
    requires Printable(at)
  {
    own + [TrafficSegment(at.lower, at.upper)]
  }

  /** None of the route's own predicates is a traffic segment. */
  predicate Unsegmented(own: seq<string>) {
    forall k :: 0 <= k < |own| ==> LimitsIn(own[k]).NotFound?
  }

  /** The stack as the next cycle finds it once its segment resources are written. */
  ghost predicate Rendered(at: Interval, t: Stack)
    requires Printable(at)
  {
    && (t.spec.ingress ==> exists own :: t.resources.ingressSegment == Some(IngressPredicate(at, own)))
    && (t.spec.routeGroup ==>
          exists own :: Unsegmented(own) && t.resources.routeGroupSegment == Some(RoutePredicates(at, own)))
  }

  lemma {:induction false} IngressIsRead(at: Interval, own: string)
    requires Printable(at)
    ensures ParsedInterval(GetSegmentLimits([IngressPredicate(at, own)])) == Ok(at)
  {
    var rest := if own == "" then "" else " && " + own;
    PrintedSegmentIsFound([], at.lower, at.upper, rest, []);
    assert [] + [TrafficSegment(at.lower, at.upper) + rest] + [] == [IngressPredicate(at, own)];
  }

  lemma {:induction false} RouteIsRead(at: Interval, own: seq<string>)
    requires Printable(at) && Unsegmented(own)
    ensures ParsedInterval(GetSegmentLimits(RoutePredicates(at, own))) == Ok(at)
  {
    PrintedSegmentIsFound(own, at.lower, at.upper, "", []);
    assert TrafficSegment(at.lower, at.upper) + "" == TrafficSegment(at.lower, at.upper);
    assert own + [TrafficSegment(at.lower, at.upper)] + [] == RoutePredicates(at, own);
  }

  /** A stack with an ingress or a routegroup of its own carries its segment over to the next cycle. */
  lemma {:induction false} RenderedIsRead(at: Interval, t: Stack)
    requires Printable(at) && Rendered(at, t)
    ensures SegmentOf(t) == Ok(if t.spec.ingress || t.spec.routeGroup then at else EMPTY)
  {
    if t.spec.ingress {
      var own :| t.resources.ingressSegment == Some(IngressPredicate(at, own));
      IngressIsRead(at, own);
    }
    if t.spec.routeGroup {
      var own :| Unsegmented(own) && t.resources.routeGroupSegment == Some(RoutePredicates(at, own));
      RouteIsRead(at, own);
    }
  }

  /** The written texts, for a segment and two predicates of the stack's own. */
  lemma {:induction false} WrittenTexts()
    ensures Printable(Interval(0.0, 0.25))
    ensures IngressPredicate(Interval(0.0, 0.25), "") == "TrafficSegment(0.00, 0.25)"
    ensures IngressPredicate(Interval(0.0, 0.25), "Weight(5)") == "TrafficSegment(0.00, 0.25) && Weight(5)"
    ensures RoutePredicates(Interval(0.0, 0.25), ["Weight(5)"]) == ["Weight(5)", "TrafficSegment(0.00, 0.25)"]
  {
    PrintedSegmentText();
  }

  /** Segments written into both resources are read exactly if they agree. */
  lemma {:induction false} BothAreRead(s: Stack, x: Interval, y: Interval, own: string, others: seq<string>)
    requires Printable(x) && Printable(y) && Unsegmented(others) && s.spec.ingress && s.spec.routeGroup
    requires s.resources.ingressSegment == Some(IngressPredicate(x, own))
    requires s.resources.routeGroupSegment == Some(RoutePredicates(y, others))
    ensures SegmentOf(s) == if x == y then Ok(x) else Mismatch
  {
    IngressIsRead(x, own);
    RouteIsRead(y, others);
  }

  /** A routegroup's segment beside an ingress that has none yet is refused unless it is empty at 0. */
  lemma {:induction false} MissingIngressSegment(s: Stack, y: Interval, others: seq<string>)
    requires Printable(y) && Unsegmented(others) && s.spec.ingress && s.spec.routeGroup
    requires s.resources.ingressSegment == None
    requires s.resources.routeGroupSegment == Some(RoutePredicates(y, others))
    ensures SegmentOf(s) == if y == Interval(0.0, 0.0) then Ok(y) else Mismatch
  {
    RouteIsRead(y, others);
  }

  /** An ingress segment without readable limits makes the whole computation fail. */
  lemma {:induction false} UnreadableIngress(stacks: StackMap, n: Name, text: string)
    requires n in stacks && stacks[n].spec.ingress && stacks[n].resources.ingressSegment == Some(text)
    requires !LimitsIn(text).Limits?
    ensures !Parseable(stacks)
  {
    OnlyPredicate(text);
    assert !SegmentOf(stacks[n]).Ok?;
  }

  // ----- recomputing -----

  /** next is what a later cycle finds of the containers after, with no weight changed. */
  ghost predicate FoundAgain(after: StackMap, next: StackMap) {
    && next.Keys == after.Keys && Fresh(next)
    && forall n :: n in after ==>
         next[n].actual == after[n].actual && Printable(Limits(after[n])) && Rendered(Limits(after[n]), next[n])
  }

  /** Every stack with traffic has resources that can hold its segment. */
  ghost predicate Segmented(stacks: StackMap) {
    forall n :: n in stacks && stacks[n].actual > 0.0 ==> stacks[n].spec.ingress || stacks[n].spec.routeGroup
  }

  lemma {:induction false} FoundAgainIsRead(after: StackMap, next: StackMap)
    requires FoundAgain(after, next)
    ensures Parseable(next)
    ensures forall n :: n in next ==>
              FoundIn(next)[n] == if next[n].spec.ingress || next[n].spec.routeGroup then Limits(after[n]) else EMPTY
    ensures SharesIn(next) == SharesIn(after)
  {
    forall n | n in next
      ensures SegmentOf(next[n]) ==
              Ok(if next[n].spec.ingress || next[n].spec.routeGroup then Limits(after[n]) else EMPTY)
    {
      RenderedIsRead(Limits(after[n]), next[n]);
    }
  }

  ghost predicate WellLaid(after: StackMap) {
    && W.Canonical(Actual(after)) && IsPartition(AllLimits(after))
    && forall n :: n in after ==> FitsAt(Limits(after[n]), after[n].actual / 100.0, 1.0)
  }

  lemma {:induction false} SameActual(stacks: StackMap, after: StackMap)
    requires after.Keys == stacks.Keys && forall n :: n in stacks ==> after[n].actual == stacks[n].actual
    ensures Actual(after) == Actual(stacks)
  {
  }

  lemma {:induction false} ComputesKeepsActual(stacks: StackMap, active: seq<Segment>, newcomers: seq<Segment>,
                                               after: StackMap, rollout: seq<Name>)
    requires Parseable(stacks) && Fresh(stacks) && Computes(stacks, active, newcomers, after, rollout)
    ensures Actual(after) == Actual(stacks)
  {
    forall n | n in stacks
      ensures n in after && after[n].actual == stacks[n].actual
    {
      AssignedIsAfter(stacks, active, newcomers, after, rollout, n);
    }
    SameActual(stacks, after);
  }

  lemma {:induction false} WellLaidFrom(stacks: StackMap, after: StackMap)
    requires after.Keys == stacks.Keys && Actual(after) == Actual(stacks) && W.Canonical(Actual(stacks))
    requires IsPartition(AllLimits(after))
    requires forall n :: n in stacks ==> FitsAt(Limits(after[n]), stacks[n].actual / 100.0, 1.0)
    ensures WellLaid(after)
  {
    forall n | n in after
      ensures FitsAt(Limits(after[n]), after[n].actual / 100.0, 1.0)
    {
      assert Actual(after)[n] == Actual(stacks)[n];
    }
  }

  /** Every computation from canonical weights leaves the containers well laid, with printable limits. */
  lemma {:induction false} ComputesIsWellLaid(stacks: StackMap, active: seq<Segment>, newcomers: seq<Segment>,
                                              after: StackMap, rollout: seq<Name>)
    requires Parseable(stacks) && Fresh(stacks) && W.Canonical(Actual(stacks))
    requires Computes(stacks, active, newcomers, after, rollout)
    ensures WellLaid(after) && forall n :: n in after ==> Printable(Limits(after[n]))
  {
    ComputesPartition(stacks, active, newcomers, after, rollout);
    ComputesKeepsActual(stacks, active, newcomers, after, rollout);
    WellLaidFrom(stacks, after);
  }

  lemma {:induction false} FoundAgainAt(after: StackMap, next: StackMap, n: Name)
    requires FoundAgain(after, next) && WellLaid(after) && Segmented(next) && n in next
    ensures Parseable(next) && FoundIn(next)[n] == Limits(after[n]) && FoundIn(next)[n].Width() == SharesIn(next)[n]
  {
    FoundAgainIsRead(after, next);
    assert FitsAt(Limits(after[n]), after[n].actual / 100.0, 1.0);
    assert Actual(after)[n] == after[n].actual;
  }

  lemma {:induction false} FoundAgainIsSettled(after: StackMap, next: StackMap)
    requires FoundAgain(after, next) && WellLaid(after) && Segmented(next)
    ensures Parseable(next) && FoundIn(next) == AllLimits(after) && Settled(FoundIn(next), SharesIn(next))
  {
    FoundAgainIsRead(after, next);
    forall n | n in next
      ensures FoundIn(next)[n] == Limits(after[n]) && FoundIn(next)[n].Width() == SharesIn(next)[n]
    {
      FoundAgainAt(after, next, n);
    }
    LimitsFrom(after, FoundIn(next));
    GivenIn(next);
  }

  lemma {:induction false} OrderMentions(found: Found, shares: Shares, active: seq<Segment>,
                                         newcomers: seq<Segment>, n: Name)
    requires IsOrder(found, shares, active, newcomers) && n in found
    ensures Known(shares, active + newcomers) && Lists(found, active + newcomers)
    ensures Mentions(active + newcomers, n) <==> found[n].Width() != 0.0 || shares[n] > 0.0
  {
    OrderLists(found, shares, active, newcomers);
  }

  /** A stack with a share and no segment found is in the rollout list. */
  lemma {:induction false} NewcomerRollsOut(next: StackMap, active: seq<Segment>, newcomers: seq<Segment>,
                                            again: StackMap, rollout: seq<Name>, n: Name)
    requires Parseable(next) && Computes(next, active, newcomers, again, rollout)
    requires n in next && FoundIn(next)[n] == EMPTY && SharesIn(next)[n] > 0.0
    ensures n in rollout
  {
    var shares, order := SharesIn(next), active + newcomers;
    var list :| RollsOut(shares, order, list) && rollout == Ids(list);
    OrderMentions(FoundIn(next), shares, active, newcomers, n);
    ListedRollsOut(FoundIn(next), shares, order, list, n);
  }

  lemma {:induction false} ListedRollsOut(found: Found, shares: Shares, order: seq<Segment>, list: seq<Change>, n: Name)
    requires Lists(found, order) && Known(shares, order) && Mentions(order, n) && RollsOut(shares, order, list)
    requires n in found && found[n] == EMPTY && n in shares && shares[n] > 0.0
    ensures n in Ids(list)
  {
    var i := Position(order, n);
    assert found[order[i].id] == order[i].at;
    ChangedIsListed(shares, order, list, i);
  }

  lemma {:induction false} ChangedIsListed(shares: Shares, order: seq<Segment>, list: seq<Change>, i: nat)
    requires Known(shares, order) && RollsOut(shares, order, list)
    requires i < |order| && order[i].at == EMPTY && shares[order[i].id] > 0.0
    ensures order[i].id in Ids(list)
  {
    var c := ChangeOf(shares, order, i);
    assert c.was.Width() != c.now.Width();
    Rollout.RolloutEntries(shares, order, list);
    assert c in list;
    var k :| 0 <= k < |list| && list[k] == c;
    assert Ids(list)[k] == c.id;
  }

  /**
   Segments are a fixed point across cycles: recomputing with the same weights, after the limits
   were printed into the resources and parsed back, has nothing to roll out exactly when every
   stack with traffic has an ingress or a routegroup of its own to print its limits into; and
   then all limits are the same again.
   */
  lemma {:induction false} RecomputeIsFixed(after: StackMap, next: StackMap, active: seq<Segment>,
                                        newcomers: seq<Segment>,
                                            again: StackMap, rollout: seq<Name>)
    requires FoundAgain(after, next) && WellLaid(after)
    ensures Parseable(next)
    ensures Computes(next, active, newcomers, again, rollout) ==>
              && (rollout == [] <==> Segmented(next))
              && (Segmented(next) ==> AllLimits(again) == AllLimits(after))
  {
    FoundAgainIsRead(after, next);
    if Computes(next, active, newcomers, again, rollout) {
      if Segmented(next) {
        FoundAgainIsSettled(after, next);
        SettledIsFixed(FoundIn(next), SharesIn(next), active, newcomers);
        NothingRollsOut(next, active, newcomers, again, rollout);
        SameLimits(after, next, active, newcomers, again, rollout);
      } else {
        var n :| n in next && next[n].actual > 0.0 && !next[n].spec.ingress && !next[n].spec.routeGroup;
        assert SharesIn(next)[n] == next[n].actual / 100.0;
        NewcomerRollsOut(next, active, newcomers, again, rollout, n);
      }
    }
  }

  lemma {:induction false} NothingRollsOut(next: StackMap, active: seq<Segment>, newcomers: seq<Segment>,
                                           again: StackMap, rollout: seq<Name>)
    requires Parseable(next) && Computes(next, active, newcomers, again, rollout)
    requires Changes(SharesIn(next), active + newcomers) == []
    ensures rollout == []
  {
    var list :| RollsOut(SharesIn(next), active + newcomers, list) && rollout == Ids(list);
    assert |multiset(list)| == |list|;
  }

  ghost predicate EmptyOrWide(limits: Found) {
    forall n :: n in limits && limits[n].Width() == 0.0 ==> limits[n] == EMPTY
  }

  lemma {:induction false} WellLaidLimits(after: StackMap)
    requires WellLaid(after)
    ensures EmptyOrWide(AllLimits(after))
  {
    forall n | n in after && Limits(after[n]).Width() == 0.0
      ensures Limits(after[n]) == EMPTY
    {
      assert FitsAt(Limits(after[n]), after[n].actual / 100.0, 1.0);
    }
  }

  lemma {:induction false} SameLimits(after: StackMap, next: StackMap, active: seq<Segment>, newcomers: seq<Segment>,
                                      again: StackMap, rollout: seq<Name>)
    requires FoundAgain(after, next) && WellLaid(after) && Segmented(next)
    requires Parseable(next) && Computes(next, active, newcomers, again, rollout)
    ensures AllLimits(again) == AllLimits(after)
  {
    FoundAgainIsSettled(after, next);
    WellLaidLimits(after);
    SettledRecompute(next, active, newcomers, again, rollout, AllLimits(after));
  }

  lemma {:induction false} SettledRecompute(next: StackMap, active: seq<Segment>, newcomers: seq<Segment>,
                                            again: StackMap, rollout: seq<Name>, limits: Found)
    requires Parseable(next) && Fresh(next) && Computes(next, active, newcomers, again, rollout)
    requires limits == FoundIn(next) && Settled(limits, SharesIn(next)) && EmptyOrWide(limits)
    ensures AllLimits(again) == limits
  {
    forall n | n in limits
      ensures n in again && Limits(again[n]) == limits[n]
    {
      SettledRecomputeAt(next, active, newcomers, again, rollout, limits, n);
    }
    LimitsFrom(again, limits);
  }

  lemma {:induction false} SettledRecomputeAt(next: StackMap, active: seq<Segment>, newcomers: seq<Segment>,
                                              again: StackMap, rollout: seq<Name>, limits: Found, n: Name)
    requires Parseable(next) && Fresh(next) && Computes(next, active, newcomers, again, rollout) && n in limits
    requires limits == FoundIn(next) && Settled(limits, SharesIn(next)) && EmptyOrWide(limits)
    ensures n in again && Limits(again[n]) == limits[n]
  {
    AssignedIsAfter(next, active, newcomers, again, rollout, n);
    SettledAfterAt(limits, SharesIn(next), active, newcomers, n);
  }

  lemma {:induction false} SettledAfterAt(found: Found, shares: Shares, active: seq<Segment>,
                                        newcomers: seq<Segment>, n: Name)
    requires IsOrder(found, shares, active, newcomers) && Settled(found, shares) && Known(shares, active + newcomers)
    requires n in found && (found[n].Width() == 0.0 ==> found[n] == EMPTY)
    ensures After(found, shares, active + newcomers)[n] == found[n]
  {
    if found[n].Width() > 0.0 {
      SettledIsFixed(found, shares, active, newcomers);
    } else {
      OrderMentions(found, shares, active, newcomers, n);
    }
  }

  // ----- stacks without a segment of their own -----

  /** A stack with traffic and no ingress or routegroup of its own is listed by every computation. */
  lemma {:induction false} AlwaysListed(stacks: StackMap, active: seq<Segment>, newcomers: seq<Segment>,
                                        after: StackMap, rollout: seq<Name>, n: Name)
    requires Parseable(stacks) && Computes(stacks, active, newcomers, after, rollout)
    requires n in stacks && stacks[n].actual > 0.0 && !stacks[n].spec.ingress && !stacks[n].spec.routeGroup
    ensures n in rollout
  {
    assert FoundIn(stacks)[n] == SegmentOf(stacks[n]).at == EMPTY;
    assert SharesIn(stacks)[n] == stacks[n].actual / 100.0;
    NewcomerRollsOut(stacks, active, newcomers, after, rollout, n);
  }

  lemma {:induction false} ListedIsLaidOut(found: Found, shares: Shares, active: seq<Segment>, newcomers: seq<Segment>,
                                           list: seq<Change>)
    requires IsOrder(found, shares, active, newcomers) && Known(shares, active + newcomers)
    requires RollsOut(shares, active + newcomers, list)
    ensures Rollout.DistinctIds(list) && forall i :: 0 <= i < |list| ==> list[i].id in found
  {
    OrderIsComplete(found, shares, active, newcomers);
    Rollout.RolloutIsChanges(found, shares, active + newcomers, list);
  }

  /**
   Only segments that change are to be listed (pkg/core/traffic.go:420).  A single stack behind an
   external ingress has all of [0, 1) and nothing to update, and is listed in every cycle.
   */
  lemma {:induction false} ExternalStackIsListedAgain(stacks: StackMap, active: seq<Segment>, newcomers: seq<Segment>,
                                                      after: StackMap, rollout: seq<Name>)
    requires stacks.Keys == {"a"} && Fresh(stacks) && W.Canonical(Actual(stacks)) && stacks["a"].actual == 100.0
    requires !stacks["a"].spec.ingress && !stacks["a"].spec.routeGroup
    requires Parseable(stacks) && Computes(stacks, active, newcomers, after, rollout)
    ensures rollout == ["a"] && "a" in after && Limits(after["a"]) == Interval(0.0, 1.0)
  {
    AlwaysListed(stacks, active, newcomers, after, rollout, "a");
    OnlyListed(stacks, active, newcomers, after, rollout);
    HasEverything(stacks, active, newcomers, after, rollout, "a");
  }

  lemma {:induction false} HasEverything(stacks: StackMap, active: seq<Segment>, newcomers: seq<Segment>,
                                         after: StackMap, rollout: seq<Name>, n: Name)
    requires Fresh(stacks) && W.Canonical(Actual(stacks)) && n in stacks && stacks[n].actual == 100.0
    requires Parseable(stacks) && Computes(stacks, active, newcomers, after, rollout)
    ensures n in after && Limits(after[n]) == Interval(0.0, 1.0)
  {
    var fits := ComputedFits(stacks, active, newcomers, after, rollout, n);
    WholeFits(Limits(after[n]), fits);
  }

  lemma {:induction false} ComputedFits(stacks: StackMap, active: seq<Segment>, newcomers: seq<Segment>,
                                        after: StackMap, rollout: seq<Name>, n: Name) returns (share: real)
    requires Fresh(stacks) && W.Canonical(Actual(stacks)) && n in stacks
    requires Parseable(stacks) && Computes(stacks, active, newcomers, after, rollout)
    ensures share == stacks[n].actual / 100.0 && n in after && FitsAt(Limits(after[n]), share, 1.0)
  {
    ComputesPartition(stacks, active, newcomers, after, rollout);
    share := stacks[n].actual / 100.0;
  }

  lemma {:induction false} WholeFits(at: Interval, share: real)
    requires share == 1.0 && FitsAt(at, share, 1.0)
    ensures at == Interval(0.0, 1.0)
  {
  }

  lemma {:induction false} OnlyListed(stacks: StackMap, active: seq<Segment>, newcomers: seq<Segment>,
                                      after: StackMap, rollout: seq<Name>)
    requires stacks.Keys == {"a"} && "a" in rollout
    requires Parseable(stacks) && Computes(stacks, active, newcomers, after, rollout)
    ensures rollout == ["a"]
  {
    var shares, order := SharesIn(stacks), active + newcomers;
    var list :| RollsOut(shares, order, list) && rollout == Ids(list);
    ListedIsLaidOut(FoundIn(stacks), shares, active, newcomers, list);
    SingleId(list, rollout);
  }

  lemma {:induction false} SingleId(list: seq<Change>, rollout: seq<Name>)
    requires Rollout.DistinctIds(list) && rollout == Ids(list) && "a" in rollout
    requires forall i :: 0 <= i < |list| ==> list[i].id == "a"
    ensures rollout == ["a"]
  {
    if |list| > 1 {
      FirstTwoDiffer(list);
      assert false;
    }
  }

  lemma {:induction false} FirstTwoDiffer(list: seq<Change>)
    requires Rollout.DistinctIds(list) && |list| > 1
    ensures list[0].id != list[1].id
  {
  }
}
