/**
 Layouts whose rollout leaves a gap: each is what the layout computes for the given
 weights, and the whole gap is stated (pkg/core/traffic.go).
 */
module Gaps {
  import opened Names
  import opened Sums
  import opened Sorting
  import opened Layout
  import opened Partition
  import opened Rollout
  import opened Coverage

  /** If all stacks of an order change, the changes are theirs, from left to right. */
  lemma {:induction false} AllChanged(shares: Shares, order: seq<Segment>, c: seq<Change>, i: nat)
    requires Known(shares, order) && |c| == |order| && i <= |c|
    requires forall k :: 0 <= k < |c| ==> c[k] == ChangeOf(shares, order, k) && c[k].was != c[k].now
    ensures ChangesUpTo(shares, order, i) == c[..i]
  {
    if i > 0 {
      AllChanged(shares, order, c, i - 1);
      assert c[..i] == c[..i - 1] + [c[i - 1]];
    }
  }

  /** active lists all stacks, from left to right, and nobody is new. */
  lemma {:induction false} AllActive(found: Found, shares: Shares, active: seq<Segment>)
    requires Given(found, shares) && Lists(found, active) && Ordered(active, LeftOf)
    requires forall n :: n in found ==> Mentions(active, n) && found[n].Width() != 0.0
    ensures IsOrder(found, shares, active, [])
    ensures Known(shares, active + []) && active + [] == active
  {
  }

  // ----- the coded order, two stacks -----

  const CODED_FOUND: Found := map["v2" := Interval(0.0, 0.3), "v1" := Interval(0.3, 1.0)]
  const CODED_ACTIVE := [Segment("v2", Interval(0.0, 0.3)), Segment("v1", Interval(0.3, 1.0))]
  const CODED_SHARES: Shares := map["v2" := 0.6, "v1" := 0.4]
  const CODED_CHANGES := [
    Change("v2", Interval(0.0, 0.3), Interval(0.0, 0.6)),
    Change("v1", Interval(0.3, 1.0), Interval(0.6, 1.0))]

  lemma {:induction false} CodedGiven()
    ensures Given(CODED_FOUND, CODED_SHARES) && forall n :: n in CODED_FOUND ==> CODED_FOUND[n].Width() != 0.0
  {
  }

  lemma {:induction false} CodedLists()
    ensures Lists(CODED_FOUND, CODED_ACTIVE)
  {
  }

  lemma {:induction false} CodedOrdered()
    ensures Ordered(CODED_ACTIVE, LeftOf)
  {
  }

  lemma {:induction false} CodedMentions(n: Name)
    requires n in CODED_FOUND
    ensures Mentions(CODED_ACTIVE, n)
  {
    assert CODED_ACTIVE[0].id == "v2" && CODED_ACTIVE[1].id == "v1";
  }

  lemma {:induction false} CodedChanges()
    ensures Known(CODED_SHARES, CODED_ACTIVE) && Changes(CODED_SHARES, CODED_ACTIVE) == CODED_CHANGES
  {
    assert Offset(CODED_SHARES, CODED_ACTIVE, 0) == 0.0;
    assert Offset(CODED_SHARES, CODED_ACTIVE, 1) == 0.6;
    AllChanged(CODED_SHARES, CODED_ACTIVE, CODED_CHANGES, 2);
    assert CODED_CHANGES[..2] == CODED_CHANGES;
  }

  lemma {:induction false} CodedLayout()
    ensures IsOrder(CODED_FOUND, CODED_SHARES, CODED_ACTIVE, [])
    ensures Known(CODED_SHARES, CODED_ACTIVE + []) && Changes(CODED_SHARES, CODED_ACTIVE + []) == CODED_CHANGES
  {
    CodedGiven();
    CodedLists();
    CodedOrdered();
    forall n | n in CODED_FOUND
      ensures Mentions(CODED_ACTIVE, n)
    {
      CodedMentions(n);
    }
    AllActive(CODED_FOUND, CODED_SHARES, CODED_ACTIVE);
    CodedChanges();
  }

  /**
   Weights move from 30 and 70 to 60 and 40.  The comparator as coded rolls the shrinking stack "v1"
   out before the growing "v2", although the comment beside it asks for the opposite, and in between
   exactly the points of [0.3, 0.6) are unrouted.
   */
  lemma {:induction false} CodedOrderCanGap(r: seq<Change>, x: real)
    requires Known(CODED_SHARES, CODED_ACTIVE + []) && RollsOut(CODED_SHARES, CODED_ACTIVE + [], r)
    requires 0.0 <= x < 1.0
    ensures IsOrder(CODED_FOUND, CODED_SHARES, CODED_ACTIVE, [])
    ensures |r| == 2 && r[0].id == "v1"
    ensures !CoveredAt(Applied(CODED_FOUND, r, 1), x) <==> 0.3 <= x < 0.6
  {
    CodedLayout();
    CodedFirst();
    TwoSorted(CODED_CHANGES, r);
    CodedGap(r, x);
  }

  lemma {:induction false} CodedFirst()
    ensures CODED_CHANGES[0].Diff() + CODED_CHANGES[1].Diff() == 0.0 && CODED_CHANGES[0].Diff() > 0.0
    ensures Less(CODED_CHANGES[1].id, CODED_CHANGES[0].id)
  {
    assert "v1"[1..] == "1" && "v2"[1..] == "2";
  }

  lemma {:induction false} CodedGap(r: seq<Change>, x: real)
    requires r == [CODED_CHANGES[1], CODED_CHANGES[0]] && 0.0 <= x < 1.0
    ensures !CoveredAt(Applied(CODED_FOUND, r, 1), x) <==> 0.3 <= x < 0.6
  {
    var mid := Applied(CODED_FOUND, r, 1);
    assert Applied(CODED_FOUND, r, 0) == CODED_FOUND;
    assert mid == CODED_FOUND["v1" := Interval(0.6, 1.0)];
    assert mid["v2"] == Interval(0.0, 0.3) && mid["v1"] == Interval(0.6, 1.0);
  }

  // ----- the intended order, three stacks -----

  const THREE_FOUND: Found := map["a" := Interval(0.0, 0.1), "b" := Interval(0.1, 0.2), "c" := Interval(0.2, 1.0)]
  const THREE_ACTIVE := [
    Segment("a", Interval(0.0, 0.1)), Segment("b", Interval(0.1, 0.2)), Segment("c", Interval(0.2, 1.0))]
  const THREE_SHARES: Shares := map["a" := 0.2, "b" := 0.3, "c" := 0.5]
  const THREE_CHANGES := [
    Change("a", Interval(0.0, 0.1), Interval(0.0, 0.2)),
    Change("b", Interval(0.1, 0.2), Interval(0.2, 0.5)),
    Change("c", Interval(0.2, 1.0), Interval(0.5, 1.0))]

  lemma {:induction false} ThreeGiven()
    ensures Given(THREE_FOUND, THREE_SHARES) && forall n :: n in THREE_FOUND ==> THREE_FOUND[n].Width() != 0.0
  {
  }

  lemma {:induction false} ThreeLists()
    ensures Lists(THREE_FOUND, THREE_ACTIVE)
  {
  }

  lemma {:induction false} ThreeOrdered()
    ensures Ordered(THREE_ACTIVE, LeftOf)
  {
  }

  lemma {:induction false} ThreeMentions(n: Name)
    requires n in THREE_FOUND
    ensures Mentions(THREE_ACTIVE, n)
  {
    assert THREE_ACTIVE[0].id == "a" && THREE_ACTIVE[1].id == "b";
    assert THREE_ACTIVE[2].id == "c";
  }

  lemma {:induction false} ThreeChanges()
    ensures Known(THREE_SHARES, THREE_ACTIVE) && Changes(THREE_SHARES, THREE_ACTIVE) == THREE_CHANGES
  {
    assert Offset(THREE_SHARES, THREE_ACTIVE, 0) == 0.0;
    assert Offset(THREE_SHARES, THREE_ACTIVE, 1) == 0.2;
    assert Offset(THREE_SHARES, THREE_ACTIVE, 2) == 0.5;
    AllChanged(THREE_SHARES, THREE_ACTIVE, THREE_CHANGES, 3);
    assert THREE_CHANGES[..3] == THREE_CHANGES;
  }

  lemma {:induction false} ThreeLayout()
    ensures IsOrder(THREE_FOUND, THREE_SHARES, THREE_ACTIVE, [])
    ensures Known(THREE_SHARES, THREE_ACTIVE + []) && Changes(THREE_SHARES, THREE_ACTIVE + []) == THREE_CHANGES
  {
    ThreeGiven();
    ThreeLists();
    ThreeOrdered();
    forall n | n in THREE_FOUND
      ensures Mentions(THREE_ACTIVE, n)
    {
      ThreeMentions(n);
    }
    AllActive(THREE_FOUND, THREE_SHARES, THREE_ACTIVE);
    ThreeChanges();
  }

  /**
   Weights move from 10, 10 and 80 to 20, 30 and 50.  In the intended order, largest growth first,
   the middle stack "b" moves first and abandons exactly [0.1, 0.2), which "a" has yet to take over.
   */
  lemma {:induction false} ThreeStacksCanGap(r: seq<Change>, x: real)
    requires Known(THREE_SHARES, THREE_ACTIVE + []) && Intended(THREE_SHARES, THREE_ACTIVE + [], r)
    requires 0.0 <= x < 1.0
    ensures IsOrder(THREE_FOUND, THREE_SHARES, THREE_ACTIVE, [])
    ensures |r| == 3 && r[0].id == "b"
    ensures !CoveredAt(Applied(THREE_FOUND, r, 1), x) <==> 0.1 <= x < 0.2
  {
    ThreeLayout();
    var s := [THREE_CHANGES[1], THREE_CHANGES[0], THREE_CHANGES[2]];
    ThreeSorted(s);
    SortedIsUnique(r, s);
    ThreeGap(r, x);
  }

  lemma {:induction false} ThreeSorted(s: seq<Change>)
    requires s == [THREE_CHANGES[1], THREE_CHANGES[0], THREE_CHANGES[2]]
    ensures Sorted(s) && multiset(s) == multiset(THREE_CHANGES)
  {
  }

  lemma {:induction false} ThreeGap(r: seq<Change>, x: real)
    requires r == [THREE_CHANGES[1], THREE_CHANGES[0], THREE_CHANGES[2]] && 0.0 <= x < 1.0
    ensures !CoveredAt(Applied(THREE_FOUND, r, 1), x) <==> 0.1 <= x < 0.2
  {
    var mid := Applied(THREE_FOUND, r, 1);
    assert Applied(THREE_FOUND, r, 0) == THREE_FOUND;
    assert mid == THREE_FOUND["b" := Interval(0.2, 0.5)];
    assert mid["a"] == Interval(0.0, 0.1) && mid["b"] == Interval(0.2, 0.5) && mid["c"] == Interval(0.2, 1.0);
  }

  // ----- traffic moves between two stacks, two others only shift -----

  const SHIFT_FOUND: Found :=
    map["a" := Interval(0.0, 0.2), "c" := Interval(0.2, 0.4), "b" := Interval(0.4, 0.6), "d" := Interval(0.6, 1.0)]
  const SHIFT_ACTIVE := [
    Segment("a", Interval(0.0, 0.2)), Segment("c", Interval(0.2, 0.4)),
    Segment("b", Interval(0.4, 0.6)), Segment("d", Interval(0.6, 1.0))]
  const SHIFT_SHARES: Shares := map["a" := 0.3, "c" := 0.2, "b" := 0.2, "d" := 0.3]
  const SHIFT_CHANGES := [
    Change("a", Interval(0.0, 0.2), Interval(0.0, 0.3)),
    Change("c", Interval(0.2, 0.4), Interval(0.3, 0.5)),
    Change("b", Interval(0.4, 0.6), Interval(0.5, 0.7)),
    Change("d", Interval(0.6, 1.0), Interval(0.7, 1.0))]

  lemma {:induction false} ShiftGiven()
    ensures Given(SHIFT_FOUND, SHIFT_SHARES) && forall n :: n in SHIFT_FOUND ==> SHIFT_FOUND[n].Width() != 0.0
  {
  }

  lemma {:induction false} ShiftLists()
    ensures Lists(SHIFT_FOUND, SHIFT_ACTIVE)
  {
  }

  lemma {:induction false} ShiftOrdered()
    ensures Ordered(SHIFT_ACTIVE, LeftOf)
  {
  }

  lemma {:induction false} ShiftMentions(n: Name)
    requires n in SHIFT_FOUND
    ensures Mentions(SHIFT_ACTIVE, n)
  {
    assert SHIFT_ACTIVE[0].id == "a" && SHIFT_ACTIVE[1].id == "c";
    assert SHIFT_ACTIVE[2].id == "b" && SHIFT_ACTIVE[3].id == "d";
  }

  lemma {:induction false} ShiftChanges()
    ensures Known(SHIFT_SHARES, SHIFT_ACTIVE) && Changes(SHIFT_SHARES, SHIFT_ACTIVE) == SHIFT_CHANGES
  {
    assert Offset(SHIFT_SHARES, SHIFT_ACTIVE, 0) == 0.0;
    assert Offset(SHIFT_SHARES, SHIFT_ACTIVE, 1) == 0.3;
    assert Offset(SHIFT_SHARES, SHIFT_ACTIVE, 2) == 0.5;
    assert Offset(SHIFT_SHARES, SHIFT_ACTIVE, 3) == 0.7;
    AllChanged(SHIFT_SHARES, SHIFT_ACTIVE, SHIFT_CHANGES, 4);
    assert SHIFT_CHANGES[..4] == SHIFT_CHANGES;
  }

  lemma {:induction false} ShiftLayout()
    ensures IsOrder(SHIFT_FOUND, SHIFT_SHARES, SHIFT_ACTIVE, [])
    ensures Known(SHIFT_SHARES, SHIFT_ACTIVE + []) && Changes(SHIFT_SHARES, SHIFT_ACTIVE + []) == SHIFT_CHANGES
  {
    ShiftGiven();
    ShiftLists();
    ShiftOrdered();
    forall n | n in SHIFT_FOUND
      ensures Mentions(SHIFT_ACTIVE, n)
    {
      ShiftMentions(n);
    }
    AllActive(SHIFT_FOUND, SHIFT_SHARES, SHIFT_ACTIVE);
    ShiftChanges();
  }

  lemma {:induction false} ShiftSorted(s: seq<Change>)
    requires s == [SHIFT_CHANGES[0], SHIFT_CHANGES[2], SHIFT_CHANGES[1], SHIFT_CHANGES[3]]
    ensures Sorted(s) && multiset(s) == multiset(SHIFT_CHANGES)
  {
  }

  lemma {:induction false} FollowsFrom(c: seq<Change>)
    requires forall i, j :: 0 <= i < |c| && 0 <= j < |c| && c[i].Diff() > c[j].Diff() ==> Less(c[i].id, c[j].id)
    ensures IdsFollowGrowth(c)
  {
  }

  lemma {:induction false} ShiftPair(i: nat, j: nat)
    requires i < 4 && j < 4 && SHIFT_CHANGES[i].Diff() > SHIFT_CHANGES[j].Diff()
    ensures Less(SHIFT_CHANGES[i].id, SHIFT_CHANGES[j].id)
  {
    assert i == 0 || j == 3;
  }

  lemma {:induction false} ShiftFollows()
    ensures IdsFollowGrowth(SHIFT_CHANGES)
  {
    var c := SHIFT_CHANGES;
    forall i, j | 0 <= i < |c| && 0 <= j < |c| && c[i].Diff() > c[j].Diff()
      ensures Less(c[i].id, c[j].id)
    {
      ShiftPair(i, j);
    }
    FollowsFrom(c);
  }

  lemma {:induction false} ShiftDistinct()
    ensures DistinctIds(SHIFT_CHANGES)
  {
  }

  lemma {:induction false} ShiftRollout(r: seq<Change>, s: seq<Change>)
    requires StablySorted(SHIFT_CHANGES, r, RollsOutBefore)
    requires s == [SHIFT_CHANGES[0], SHIFT_CHANGES[2], SHIFT_CHANGES[1], SHIFT_CHANGES[3]]
    ensures r == s && Sorted(r)
  {
    ShiftSorted(s);
    ShiftFollows();
    ShiftDistinct();
    WellIdentifiedIsIntended(SHIFT_CHANGES, r);
    SortedIsUnique(r, s);
  }

  /**
   Traffic moves from "d" to "a" only, from weights 20, 20, 20 and 40 to 30, 20, 20 and 30.  The
   comparator is an order here and delivers the intended list "a", "b", "c", "d", and after its second
   step exactly [0.4, 0.5) is unrouted: "b" has left it and "c", which only shifts, has not arrived.
   */
  lemma {:induction false} ShiftingStacksCanGap(r: seq<Change>, x: real)
    requires Known(SHIFT_SHARES, SHIFT_ACTIVE + []) && RollsOut(SHIFT_SHARES, SHIFT_ACTIVE + [], r)
    requires 0.0 <= x < 1.0
    ensures IsOrder(SHIFT_FOUND, SHIFT_SHARES, SHIFT_ACTIVE, [])
    ensures r == [SHIFT_CHANGES[0], SHIFT_CHANGES[2], SHIFT_CHANGES[1], SHIFT_CHANGES[3]] && Sorted(r)
    ensures !CoveredAt(Applied(SHIFT_FOUND, r, 2), x) <==> 0.4 <= x < 0.5
  {
    ShiftLayout();
    var s := [SHIFT_CHANGES[0], SHIFT_CHANGES[2], SHIFT_CHANGES[1], SHIFT_CHANGES[3]];
    ShiftRollout(r, s);
    ShiftGap(r, x);
  }

  lemma {:induction false} ShiftGap(r: seq<Change>, x: real)
    requires r == [SHIFT_CHANGES[0], SHIFT_CHANGES[2], SHIFT_CHANGES[1], SHIFT_CHANGES[3]] && 0.0 <= x < 1.0
    ensures !CoveredAt(Applied(SHIFT_FOUND, r, 2), x) <==> 0.4 <= x < 0.5
  {
    var mid := Applied(SHIFT_FOUND, r, 2);
    assert Applied(SHIFT_FOUND, r, 0) == SHIFT_FOUND;
    assert Applied(SHIFT_FOUND, r, 1) == SHIFT_FOUND["a" := Interval(0.0, 0.3)];
    assert mid == SHIFT_FOUND["a" := Interval(0.0, 0.3)]["b" := Interval(0.5, 0.7)];
    assert mid["a"] == Interval(0.0, 0.3) && mid["b"] == Interval(0.5, 0.7);
    assert mid["c"] == Interval(0.2, 0.4) && mid["d"] == Interval(0.6, 1.0);
  }
}
