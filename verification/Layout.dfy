/**
 Laying out shares of traffic over [0, 1): the specification behind
 `ComputeTrafficSegments` (pkg/core/traffic.go), on the segments found and the
 shares wanted.
 */
module Layout {
  import opened Names
  import opened Sums
  import opened Sorting
  import opened Options
  import opened Stacks

  datatype Interval = Interval(lower: real, upper: real) {
    function Width(): real {
      upper - lower
    }

    predicate Holds(x: real) {
      lower <= x < upper
    }
  }

  datatype Segment = Segment(id: Name, at: Interval)

  /** The segment found for every stack; an empty one is inactive. */
  type Found = map<Name, Interval>

  /** The share of [0, 1) every stack is entitled to. */
  type Shares = map<Name, real>

  const EMPTY := Interval(0.0, 0.0)

  /** `setLimits`: refuses negative or reversed limits; an empty segment becomes (0, 0). */
  function SetLimits(lower: real, upper: real): Option<Interval> {
    if lower < 0.0 || upper < 0.0 then None
    else if upper < lower then None
    else if upper == lower then Some(EMPTY)
    else Some(Interval(lower, upper))
  }

  // ----- the order in which stacks are laid out -----

  /** `segmentList.Less`. */
  predicate LeftOf(x: Segment, y: Segment) {
    if x.at.lower != y.at.lower then x.at.lower < y.at.lower
    else if x.at.upper != y.at.upper then x.at.upper < y.at.upper
    else false
  }

  ghost predicate Distinct(s: seq<Segment>) {
    forall i, j :: 0 <= i < j < |s| ==> s[i].id != s[j].id
  }

  ghost predicate Known(shares: Shares, s: seq<Segment>) {
    forall i :: 0 <= i < |s| ==> s[i].id in shares
  }

  /** s lists found segments, each stack at most once. */
  ghost predicate Lists(found: Found, s: seq<Segment>) {
    Distinct(s) && forall i :: 0 <= i < |s| ==> s[i].id in found && found[s[i].id] == s[i].at
  }

  ghost predicate Mentions(s: seq<Segment>, id: Name) {
    exists i :: 0 <= i < |s| && s[i].id == id
  }

  lemma {:induction false} MentionsAppend(s: seq<Segment>, x: Segment, n: Name)
    ensures Mentions(s + [x], n) <==> Mentions(s, n) || n == x.id
  {
    var r := s + [x];
    assert r[|s|] == x;
    if Mentions(s, n) {
      var i :| 0 <= i < |s| && s[i].id == n;
      assert r[i].id == n;
    }
    if Mentions(r, n) && n != x.id {
      var i :| 0 <= i < |r| && r[i].id == n;
      assert s[i].id == n;
    }
  }

  lemma {:induction false} MentionsEither(s: seq<Segment>, t: seq<Segment>, n: Name)
    ensures Mentions(s + t, n) <==> Mentions(s, n) || Mentions(t, n)
  {
    var r := s + t;
    if Mentions(s, n) {
      var i :| 0 <= i < |s| && s[i].id == n;
      assert r[i].id == n;
    }
    if Mentions(t, n) {
      var i :| 0 <= i < |t| && t[i].id == n;
      assert r[|s| + i].id == n;
    }
    if Mentions(r, n) {
      var i :| 0 <= i < |r| && r[i].id == n;
      if i < |s| { assert s[i].id == n; } else { assert t[i - |s|].id == n; }
    }
  }

  /** active lists exactly the active segments of the stacks seen so far. */
  ghost predicate ActiveAmong(found: Found, seen: set<Name>, active: seq<Segment>) {
    && seen <= found.Keys
    && Lists(found, active)
    && (forall i :: 0 <= i < |active| ==> active[i].id in seen)
    && (forall n :: n in seen ==> (Mentions(active, n) <==> found[n].Width() != 0.0))
  }

  /** newcomers lists exactly the stacks seen so far that have a share and no active segment. */
  ghost predicate NewcomersAmong(found: Found, shares: Shares, seen: set<Name>, newcomers: seq<Segment>) {
    && seen <= found.Keys == shares.Keys
    && Lists(found, newcomers)
    && (forall i :: 0 <= i < |newcomers| ==> newcomers[i].id in seen)
    && (forall n :: n in seen ==> (Mentions(newcomers, n) <==> found[n].Width() == 0.0 && shares[n] > 0.0))
  }

  ghost predicate Given(found: Found, shares: Shares) {
    && found.Keys == shares.Keys && NonNegative(shares)
    && forall n :: n in found ==> 0.0 <= found[n].lower <= found[n].upper
  }

  /**
   An order of layout: first the stacks with an active segment, from left to right, then, in
   any order, the stacks that get a share and have no active segment.
   */
  ghost predicate IsOrder(found: Found, shares: Shares, active: seq<Segment>, newcomers: seq<Segment>) {
    && Given(found, shares)
    && ActiveAmong(found, found.Keys, active) && Ordered(active, LeftOf)
    && NewcomersAmong(found, shares, found.Keys, newcomers)
  }

  /** The two parts of an order do not overlap, and together they list what has a segment or a share. */
  lemma {:induction false} OrderLists(found: Found, shares: Shares, active: seq<Segment>, newcomers: seq<Segment>)
    requires ActiveAmong(found, found.Keys, active) && NewcomersAmong(found, shares, found.Keys, newcomers)
    ensures Lists(found, active + newcomers) && Known(shares, active + newcomers)
    ensures forall n :: n in found ==> (Mentions(active + newcomers, n) <==> found[n].Width() != 0.0 || shares[n] > 0.0)
  {
    var order := active + newcomers;
    forall i, j | 0 <= i < j < |order|
      ensures order[i].id != order[j].id
    {
      if i < |active| <= j {
        assert Mentions(active, active[i].id) && Mentions(newcomers, newcomers[j - |active|].id);
      }
    }
    forall n | n in found
      ensures Mentions(order, n) <==> found[n].Width() != 0.0 || shares[n] > 0.0
    {
      MentionsEither(active, newcomers, n);
    }
  }

  /** Sorting the active segments gives the first part of an order. */
  lemma {:induction false} SortedIsActive(found: Found, segments: seq<Segment>)
    requires ActiveAmong(found, found.Keys, segments)
    ensures var sorted := InsertionSort(segments, LeftOf);
            ActiveAmong(found, found.Keys, sorted) && Ordered(sorted, LeftOf)
  {
    var sorted := InsertionSort(segments, LeftOf);
    SortPermutes(segments, LeftOf);
    SortOrders(segments, LeftOf);
    PermutedIsActive(found, segments, sorted);
  }

  lemma {:induction false} PermutedLists(found: Found, segments: seq<Segment>, sorted: seq<Segment>)
    requires Lists(found, segments) && multiset(sorted) == multiset(segments)
    ensures Lists(found, sorted)
  {
    forall i | 0 <= i < |sorted|
      ensures sorted[i].id in found && found[sorted[i].id] == sorted[i].at
    {
      assert sorted[i] in multiset(sorted);
      assert sorted[i] in segments;
    }
    PermutationKeepsUnique(segments, sorted);
    assert forall i, j :: 0 <= i < j < |sorted| && sorted[i].id == sorted[j].id ==> sorted[i] == sorted[j];
  }

  lemma {:induction false} PermutedIsActive(found: Found, segments: seq<Segment>, sorted: seq<Segment>)
    requires ActiveAmong(found, found.Keys, segments) && multiset(sorted) == multiset(segments)
    ensures ActiveAmong(found, found.Keys, sorted)
  {
    PermutedLists(found, segments, sorted);
    forall n | n in found
      ensures Mentions(sorted, n) <==> Mentions(segments, n)
    {
      if Mentions(segments, n) { SameMentions(segments, sorted, n); }
      if Mentions(sorted, n) { SameMentions(sorted, segments, n); }
    }
  }

  lemma {:induction false} SameMentions(s: seq<Segment>, r: seq<Segment>, n: Name)
    requires multiset(s) == multiset(r) && Mentions(s, n)
    ensures Mentions(r, n)
  {
    var i :| 0 <= i < |s| && s[i].id == n;
    assert s[i] in multiset(s);
    assert s[i] in r;
  }

  // ----- the layout -----

  /** Where the i-th stack of the order starts: the total share of the ones before it. */
  ghost function Offset(shares: Shares, order: seq<Segment>, i: nat): real
    requires i <= |order| && Known(shares, order)
  {
    if i == 0 then 0.0 else Offset(shares, order, i - 1) + shares[order[i - 1].id]
  }

  /** The new segment of the i-th stack of the order. */
  ghost function Placed(shares: Shares, order: seq<Segment>, i: nat): (at: Interval)
    requires i < |order| && Known(shares, order)
  {
    if shares[order[i].id] == 0.0 then EMPTY
    else Interval(Offset(shares, order, i), Offset(shares, order, i) + shares[order[i].id])
  }

  lemma {:induction false} OffsetGrows(shares: Shares, order: seq<Segment>, i: nat, j: nat)
    requires i <= j <= |order| && Known(shares, order) && NonNegative(shares)
    ensures 0.0 <= Offset(shares, order, i) <= Offset(shares, order, j)
    decreases j
  {
    if i < j {
      OffsetGrows(shares, order, i, j - 1);
    } else if j > 0 {
      OffsetGrows(shares, order, i - 1, j - 1);
    }
  }

  /** The limits handed to `setLimits` are never refused. */
  lemma {:induction false} LimitsAreValid(shares: Shares, order: seq<Segment>, i: nat)
    requires i < |order| && Known(shares, order) && NonNegative(shares)
    ensures SetLimits(Offset(shares, order, i), Offset(shares, order, i) + shares[order[i].id])
            == Some(Placed(shares, order, i))
  {
    OffsetGrows(shares, order, i, i);
  }

  lemma {:induction false} OffsetOfPrefix(shares: Shares, order: seq<Segment>, more: seq<Segment>, i: nat)
    requires i <= |order| && Known(shares, order + more) && Known(shares, order)
    ensures Offset(shares, order + more, i) == Offset(shares, order, i)
  {
    if i > 0 { OffsetOfPrefix(shares, order, more, i - 1); }
  }

  // ----- changes and their rollout -----

  datatype Change = Change(id: Name, was: Interval, now: Interval) {
    function Diff(): real {
      now.Width() - was.Width()
    }
  }

  ghost function ChangeOf(shares: Shares, order: seq<Segment>, i: nat): Change
    requires i < |order| && Known(shares, order)
  {
    Change(order[i].id, order[i].at, Placed(shares, order, i))
  }

  /** The changed segments among the first i of the order, from left to right. */
  ghost function ChangesUpTo(shares: Shares, order: seq<Segment>, i: nat): seq<Change>
    requires i <= |order| && Known(shares, order)
  {
    if i == 0 then []
    else
      var c := ChangeOf(shares, order, i - 1);
      ChangesUpTo(shares, order, i - 1) + if c.was != c.now then [c] else []
  }

  /** The segments of the order that stay where they are. */
  ghost function KeptUpTo(shares: Shares, order: seq<Segment>, i: nat): seq<Change>
    requires i <= |order| && Known(shares, order)
  {
    if i == 0 then []
    else
      var c := ChangeOf(shares, order, i - 1);
      KeptUpTo(shares, order, i - 1) + if c.was == c.now then [c] else []
  }

  ghost function Changes(shares: Shares, order: seq<Segment>): seq<Change>
    requires Known(shares, order)
  {
    ChangesUpTo(shares, order, |order|)
  }

  /** The comparator of the rollout list, exactly as coded. */
  predicate RollsOutBefore(x: Change, y: Change) {
    x.Diff() > y.Diff() || Less(x.id, y.id)
  }

  /** r is a list in which the changes of the layout may be rolled out. */
  ghost predicate RollsOut(shares: Shares, order: seq<Segment>, r: seq<Change>)
    requires Known(shares, order)
  {
    StablySorted(Changes(shares, order), r, RollsOutBefore)
  }

  function Ids(changes: seq<Change>): seq<Name> {
    seq(|changes|, i requires 0 <= i < |changes| => changes[i].id)
  }

  lemma {:induction false} ChangesOfPrefix(shares: Shares, order: seq<Segment>, more: seq<Segment>, i: nat)
    requires i <= |order| && Known(shares, order + more) && Known(shares, order)
    ensures ChangesUpTo(shares, order + more, i) == ChangesUpTo(shares, order, i)
    ensures KeptUpTo(shares, order + more, i) == KeptUpTo(shares, order, i)
  {
    if i > 0 {
      ChangesOfPrefix(shares, order, more, i - 1);
      OffsetOfPrefix(shares, order, more, i - 1);
    }
  }

  /** One more stack laid out on the right. */
  lemma {:induction false} LayoutStep(shares: Shares, order: seq<Segment>, s: Segment)
    requires Known(shares, order) && s.id in shares && NonNegative(shares)
    ensures var (more, n) := (order + [s], |order|);
            && Known(shares, more) && |more| == n + 1
            && var limits := SetLimits(Offset(shares, order, n), Offset(shares, order, n) + shares[s.id]);
            && limits.Some?
            && var c := Change(s.id, s.at, limits.value);
            && Offset(shares, more, n + 1) == Offset(shares, order, n) + shares[s.id]
            && ChangesUpTo(shares, more, n + 1) == ChangesUpTo(shares, order, n) + (if c.was != c.now then [c] else [])
            && KeptUpTo(shares, more, n + 1) == KeptUpTo(shares, order, n) + (if c.was == c.now then [c] else [])
  {
    var more := order + [s];
    assert more[|order|] == s;
    assert forall i :: 0 <= i < |order| ==> more[i] == order[i];
    ChangesOfPrefix(shares, order, [s], |order|);
    OffsetOfPrefix(shares, order, [s], |order|);
    LimitsAreValid(shares, more, |order|);
  }

  // ----- steps of the loops that build an order -----

  lemma {:induction false} ActiveStep(found: Found, seen: set<Name>, active: seq<Segment>, id: Name)
    requires ActiveAmong(found, seen, active) && id in found && id !in seen
    ensures ActiveAmong(found, seen + {id},
                        if found[id].Width() != 0.0 then active + [Segment(id, found[id])] else active)
  {
    forall n {
      MentionsAppend(active, Segment(id, found[id]), n);
    }
  }

  lemma {:induction false} NewcomersStep(found: Found, shares: Shares, seen: set<Name>, newcomers: seq<Segment>,
                                        id: Name)
    requires NewcomersAmong(found, shares, seen, newcomers) && id in found && id !in seen
    ensures NewcomersAmong(found, shares, seen + {id},
                           if found[id].Width() == 0.0 && shares[id] > 0.0 then newcomers + [Segment(id, found[id])]
                           else newcomers)
  {
    forall n {
      MentionsAppend(newcomers, Segment(id, found[id]), n);
    }
  }

  /** The lists and the running index of the layout loops, after the stacks of the order. */
  ghost predicate LaidOut(shares: Shares, order: seq<Segment>, changes: seq<Change>, kept: seq<Change>, index: real) {
    && Known(shares, order)
    && changes == ChangesUpTo(shares, order, |order|)
    && kept == KeptUpTo(shares, order, |order|)
    && index == Offset(shares, order, |order|)
  }

  lemma {:induction false} LaidOutStep(shares: Shares, order: seq<Segment>, changes: seq<Change>,
                                       kept: seq<Change>, index: real, s: Segment)
    requires LaidOut(shares, order, changes, kept, index) && s.id in shares && NonNegative(shares)
    ensures var limits := SetLimits(index, index + shares[s.id]);
            && limits.Some?
            && (s.at.Width() == 0.0 && shares[s.id] > 0.0 ==> s.at != limits.value)
            && var c := Change(s.id, s.at, limits.value);
            LaidOut(shares, order + [s], changes + (if c.was != c.now then [c] else []),
                    kept + (if c.was == c.now then [c] else []), index + shares[s.id])
  {
    LayoutStep(shares, order, s);
  }

  /** Every stack of the order is listed once, as a change or as kept, with its new segment. */
  lemma {:induction false} ChangeMembers(shares: Shares, order: seq<Segment>, i: nat)
    requires i <= |order| && Known(shares, order)
    ensures forall c :: c in ChangesUpTo(shares, order, i) ==>
              c.was != c.now && exists k :: 0 <= k < i && c == ChangeOf(shares, order, k)
    ensures forall c :: c in KeptUpTo(shares, order, i) ==>
              c.was == c.now && exists k :: 0 <= k < i && c == ChangeOf(shares, order, k)
    ensures forall k :: 0 <= k < i ==>
              var c := ChangeOf(shares, order, k);
              if c.was != c.now then c in ChangesUpTo(shares, order, i) else c in KeptUpTo(shares, order, i)
  {
    ListedAreChanges(shares, order, i);
    forall k | 0 <= k < i
      ensures var c := ChangeOf(shares, order, k);
              if c.was != c.now then c in ChangesUpTo(shares, order, i) else c in KeptUpTo(shares, order, i)
    {
      ChangeIsListed(shares, order, i, k);
    }
  }

  lemma {:induction false} ListedAreChanges(shares: Shares, order: seq<Segment>, i: nat)
    requires i <= |order| && Known(shares, order)
    ensures forall c :: c in ChangesUpTo(shares, order, i) ==>
              c.was != c.now && exists k :: 0 <= k < i && c == ChangeOf(shares, order, k)
    ensures forall c :: c in KeptUpTo(shares, order, i) ==>
              c.was == c.now && exists k :: 0 <= k < i && c == ChangeOf(shares, order, k)
  {
    if i > 0 { ListedAreChanges(shares, order, i - 1); }
  }

  lemma {:induction false} ChangeIsListed(shares: Shares, order: seq<Segment>, i: nat, k: nat)
    requires k < i <= |order| && Known(shares, order)
    ensures var c := ChangeOf(shares, order, k);
            if c.was != c.now then c in ChangesUpTo(shares, order, i) else c in KeptUpTo(shares, order, i)
  {
    if k < i - 1 { ChangeIsListed(shares, order, i - 1, k); }
  }
}
