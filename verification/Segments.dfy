/**
 `ComputeTrafficSegments` and `newTrafficSegment` (pkg/core/traffic.go), refining
 the layout of the Layout module.
 */
module Segments {
  import opened Names
  import opened Sums
  import opened Sorting
  import opened Options
  import opened Stacks
  import opened Predicates
  import opened Layout

  // ----- segments in the cluster -----

  datatype LimitsResult = Ok(at: Interval) | ParseError | Mismatch

  function ParsedInterval(p: Parsed): LimitsResult {
    if p.Limits? then Ok(Interval(p.lower, p.upper)) else ParseError
  }

  /** `newTrafficSegment`: the segment found in the stack's resources; (0, 0) if there is none. */
  function SegmentOf(s: Stack): (r: LimitsResult)
    ensures r.Ok? ==> 0.0 <= r.at.lower <= r.at.upper
  {
    var ingress :=
      if s.spec.ingress && s.resources.ingressSegment.Some?
      then ParsedInterval(GetSegmentLimits([s.resources.ingressSegment.value])) else Ok(EMPTY);
    if !ingress.Ok? then ingress
    else if s.spec.routeGroup && s.resources.routeGroupSegment.Some? then
      var routeGroup := ParsedInterval(GetSegmentLimits(s.resources.routeGroupSegment.value));
      if routeGroup.Ok? && s.spec.ingress && routeGroup != ingress then Mismatch else routeGroup
    else ingress
  }

  /** Every stack's segments can be read and agree. */
  ghost predicate Parseable(stacks: StackMap) {
    forall n :: n in stacks ==> SegmentOf(stacks[n]).Ok?
  }

  ghost function FoundIn(stacks: StackMap): Found
    requires Parseable(stacks)
  {
    map n | n in stacks :: SegmentOf(stacks[n]).at
  }

  function Share(s: Stack): real {
    if s.actual > 0.0 then s.actual / 100.0 else 0.0
  }

  ghost function SharesIn(stacks: StackMap): Shares {
    map n | n in stacks :: Share(stacks[n])
  }

  function WithSegment(s: Stack, at: Interval): Stack {
    s.(segmentLower := at.lower, segmentUpper := at.upper)
  }

  /** after differs from stacks in the segments of the laid out stacks only. */
  ghost predicate Assigned(stacks: StackMap, shares: Shares, order: seq<Segment>, after: StackMap)
    requires Known(shares, order) && shares.Keys == stacks.Keys
  {
    && after.Keys == stacks.Keys
    && (forall i :: 0 <= i < |order| ==>
          after[order[i].id] == WithSegment(stacks[order[i].id], Placed(shares, order, i)))
    && (forall n :: n in stacks && !Mentions(order, n) ==> after[n] == stacks[n])
  }

  /** A possible result of `ComputeTrafficSegments`. */
  ghost predicate Computes(stacks: StackMap, active: seq<Segment>, newcomers: seq<Segment>, after: StackMap,
                           rollout: seq<Name>)
    requires Parseable(stacks)
  {
    var shares := SharesIn(stacks);
    && IsOrder(FoundIn(stacks), shares, active, newcomers)
    && Known(shares, active + newcomers)
    && Assigned(stacks, shares, active + newcomers, after)
    && exists list :: RollsOut(shares, active + newcomers, list) && rollout == Ids(list)
  }

  // ----- the method -----

  /** First loop: the active segments, and the stacks with traffic. */
  method GatherSegments(stacks: Containers) returns (failed: bool, segments: seq<Segment>, newWeights: map<Name, real>)
    requires Separate(stacks)
    ensures failed <==> !Parseable(Views(stacks))
    ensures !failed ==> ActiveAmong(FoundIn(Views(stacks)), stacks.Keys, segments)
    ensures !failed ==> newWeights == Positive(SharesIn(Views(stacks)))
  {
    ghost var views := Views(stacks);
    ghost var found: Found := map[];
    segments, newWeights := [], map[];
    var todo := stacks.Keys;
    while todo != {}
      invariant todo <= stacks.Keys
      invariant Gathered(views, found, stacks.Keys - todo, segments, newWeights)
    {
      var uid :| uid in todo;
      assert stacks[uid].View() == views[uid];
      var at;
      failed, at, segments, newWeights := GatherSegment(uid, stacks[uid], views, found, stacks.Keys - todo,
                                                        segments, newWeights);
      if failed {
        return true, [], map[];
      }
      found := found[uid := at];
      assert stacks.Keys - (todo - {uid}) == stacks.Keys - todo + {uid};
      todo := todo - {uid};
    }
    assert stacks.Keys - {} == views.Keys;
    GatheredAll(views, found, segments, newWeights);
    failed := false;
  }

  /** Body of the first loop. */
  method GatherSegment(uid: Name, sc: StackContainer, ghost views: StackMap, ghost found: Found, ghost seen: set<Name>,
                       before: seq<Segment>, weights: map<Name, real>)
    returns (failed: bool, at: Interval, segments: seq<Segment>, newWeights: map<Name, real>)
    requires uid in views && uid !in seen && views[uid] == sc.View() && Gathered(views, found, seen, before, weights)
    ensures failed <==> !SegmentOf(sc.View()).Ok?
    ensures !failed ==> Gathered(views, found[uid := at], seen + {uid}, segments, newWeights)
  {
    at, segments, newWeights := EMPTY, before, weights;
    if sc.actualTrafficWeight > 0.0 {
      newWeights := newWeights[uid := Share(sc.View())];
    }
    var trafficSegment := SegmentOf(sc.View());
    failed := !trafficSegment.Ok?;
    if failed {
      return;
    }
    at := trafficSegment.at;
    if at.Width() != 0.0 {
      segments := segments + [Segment(uid, at)];
    }
    GatheredStep(views, found, seen, before, weights, uid, at);
  }

  /** State of the first loop. */
  ghost predicate Gathered(stacks: StackMap, found: Found, seen: set<Name>, segments: seq<Segment>,
                           newWeights: Shares) {
    && found.Keys == seen <= stacks.Keys
    && (forall n :: n in found ==> SegmentOf(stacks[n]) == Ok(found[n]))
    && ActiveAmong(found, seen, segments)
    && newWeights == map n | n in seen && stacks[n].actual > 0.0 :: Share(stacks[n])
  }

  lemma {:induction false} GatheredStep(stacks: StackMap, found: Found, seen: set<Name>, segments: seq<Segment>,
                                        newWeights: Shares,
                     uid: Name, at: Interval)
    requires Gathered(stacks, found, seen, segments, newWeights)
    requires uid in stacks && uid !in seen && SegmentOf(stacks[uid]) == Ok(at)
    ensures Gathered(stacks, found[uid := at], seen + {uid},
                     if at.Width() != 0.0 then segments + [Segment(uid, at)] else segments,
                     if stacks[uid].actual > 0.0 then newWeights[uid := Share(stacks[uid])] else newWeights)
  {
    ActiveGrows(found, segments, uid, at);
    WeightsGrow(stacks, seen, newWeights, uid);
  }

  lemma {:induction false} WeightsGrow(stacks: StackMap, seen: set<Name>, newWeights: Shares, uid: Name)
    requires uid in stacks && uid !in seen && seen <= stacks.Keys
    requires newWeights == map n | n in seen && stacks[n].actual > 0.0 :: Share(stacks[n])
    ensures (if stacks[uid].actual > 0.0 then newWeights[uid := Share(stacks[uid])] else newWeights) ==
            map n | n in seen + {uid} && stacks[n].actual > 0.0 :: Share(stacks[n])
  {
  }

  lemma {:induction false} GatheredAll(stacks: StackMap, found: Found, segments: seq<Segment>, newWeights: Shares)
    requires Gathered(stacks, found, stacks.Keys, segments, newWeights)
    ensures Parseable(stacks) && found == FoundIn(stacks)
    ensures newWeights == Positive(SharesIn(stacks))
  {
  }

  lemma {:induction false} ActiveGrows(found: Found, segments: seq<Segment>, uid: Name, at: Interval)
    requires ActiveAmong(found, found.Keys, segments) && uid !in found
    ensures ActiveAmong(found[uid := at], found.Keys + {uid},
                        if at.Width() != 0.0 then segments + [Segment(uid, at)] else segments)
  {
    ActiveStep(found[uid := at], found.Keys, segments, uid);
  }

  ghost function Positive(shares: Shares): Shares {
    map n | n in shares && shares[n] > 0.0 :: shares[n]
  }

  method SortSegments(segments: seq<Segment>) returns (sorted: seq<Segment>)
    ensures sorted == InsertionSort(segments, LeftOf)
  {
    var a := new Segment[|segments|](i requires 0 <= i < |segments| => segments[i]);
    assert a[..] == segments;
    SortSlice(a, LeftOf);
    sorted := a[..];
  }

  /** `sort.SliceStable`. */
  method SortChanges(changes: seq<Change>) returns (sorted: seq<Change>)
    ensures StablySorted(changes, sorted, RollsOutBefore)
  {
    var a := new Change[|changes|](i requires 0 <= i < |changes| => changes[i]);
    assert a[..] == changes;
    SortSlice(a, RollsOutBefore);
    sorted := a[..];
    InsertionIsStable(changes, RollsOutBefore);
  }

  /** Second loop: the active segments are laid out side by side. */
  method LayOutActive(segments: seq<Segment>, newWeights: map<Name, real>, ghost shares: Shares)
    returns (changes: seq<Change>, kept: seq<Change>, index: real)
    requires Known(shares, segments) && NonNegative(shares) && newWeights == Positive(shares)
    ensures LaidOut(shares, segments, changes, kept, index)
  {
    index, changes, kept := 0.0, [], [];
    assert segments[..0] == [];
    for i := 0 to |segments|
      invariant LaidOut(shares, segments[..i], changes, kept, index)
    {
      var s := segments[i];
      var w := if s.id in newWeights then newWeights[s.id] else 0.0;
      assert w == shares[s.id];
      LaidOutStep(shares, segments[..i], changes, kept, index, s);
      assert segments[..i] + [s] == segments[..i + 1];
      var limits := SetLimits(index, index + w);
      var c := Change(s.id, s.at, limits.value);
      if c.was != c.now {
        changes := changes + [c];
      } else {
        kept := kept + [c];
      }
      index := index + w;
    }
    assert segments[..|segments|] == segments;
  }

  /** State of the third loop. */
  ghost predicate Extended(found: Found, shares: Shares, active: seq<Segment>, newcomers: seq<Segment>, todo: set<Name>,
                           changes: seq<Change>, kept: seq<Change>, index: real) {
    && NewcomersAmong(found, shares, found.Keys - todo, newcomers)
    && LaidOut(shares, active + newcomers, changes, kept, index)
  }

  lemma {:induction false} ExtendedSkip(found: Found, shares: Shares, active: seq<Segment>,
                                        newcomers: seq<Segment>, todo: set<Name>,
                     changes: seq<Change>, kept: seq<Change>, index: real, id: Name)
    requires ActiveAmong(found, found.Keys, active)
    requires Extended(found, shares, active, newcomers, todo, changes, kept, index)
    requires id in todo && id in found && Mentions(active, id)
    ensures Extended(found, shares, active, newcomers, todo - {id}, changes, kept, index)
  {
    NewcomersStep(found, shares, found.Keys - todo, newcomers, id);
    assert found.Keys - todo + {id} == found.Keys - (todo - {id});
  }

  lemma {:induction false} ExtendedNew(found: Found, shares: Shares, active: seq<Segment>, newcomers: seq<Segment>,
                                       todo: set<Name>,
                    changes: seq<Change>, kept: seq<Change>, index: real, id: Name, w: real) returns (c: Change)
    requires Given(found, shares) && ActiveAmong(found, found.Keys, active)
    requires Extended(found, shares, active, newcomers, todo, changes, kept, index)
    requires id in todo && id in found && !Mentions(active, id) && w == shares[id] > 0.0
    ensures SetLimits(index, index + w) == Some(c.now) && c.id == id && c.was == found[id]
    ensures Extended(found, shares, active, newcomers + [Segment(id, found[id])], todo - {id},
                     changes + [c], kept, index + w)
  {
    var s := Segment(id, found[id]);
    NewcomersStep(found, shares, found.Keys - todo, newcomers, id);
    assert found.Keys - todo + {id} == found.Keys - (todo - {id});
    LaidOutStep(shares, active + newcomers, changes, kept, index, s);
    assert active + (newcomers + [s]) == active + newcomers + [s];
    c := Change(id, found[id], SetLimits(index, index + w).value);
    assert kept + [] == kept;
  }

  function IdsOf(segments: seq<Segment>): (ids: set<Name>)
    ensures forall n :: n in ids <==> Mentions(segments, n)
  {
    set i | 0 <= i < |segments| :: segments[i].id
  }

  method ReadSegment(sc: StackContainer, ghost expected: Interval) returns (at: Interval)
    requires SegmentOf(sc.View()) == Ok(expected)
    ensures at == expected
  {
    at := SegmentOf(sc.View()).at;
  }

  /** Third loop: the stacks that newly get traffic are appended, in any order. */
  method AddNewcomers(stacks: Containers, newWeights: map<Name, real>, active: seq<Segment>, start: real,
                      before: seq<Change>, ghost kept: seq<Change>, ghost found: Found, ghost shares: Shares)
    returns (changes: seq<Change>, ghost newcomers: seq<Segment>, ghost index': real)
    requires Given(found, shares) && found.Keys == stacks.Keys
    requires forall n :: n in stacks ==> SegmentOf(stacks[n].View()) == Ok(found[n])
    requires ActiveAmong(found, found.Keys, active) && newWeights == Positive(shares)
    requires LaidOut(shares, active, before, kept, start)
    ensures Extended(found, shares, active, newcomers, {}, changes, kept, index')
  {
    newcomers := [];
    changes := before;
    var index := start;
    var existingStacks := IdsOf(active);
    var todo := newWeights.Keys;
    NewcomersStart(found, shares);
    assert active + [] == active;
    while todo != {}
      invariant todo <= newWeights.Keys
      invariant Extended(found, shares, active, newcomers, todo, changes, kept, index)
    {
      var id :| id in todo;
      if id !in existingStacks {
        var w := newWeights[id];
        ghost var c := ExtendedNew(found, shares, active, newcomers, todo, changes, kept, index, id, w);
        var at := ReadSegment(stacks[id], found[id]);
        var limits := SetLimits(index, index + w);
        changes := changes + [Change(id, at, limits.value)];
        newcomers := newcomers + [Segment(id, at)];
        index := index + w;
      } else {
        ExtendedSkip(found, shares, active, newcomers, todo, changes, kept, index, id);
      }
      todo := todo - {id};
    }
    index' := index;
  }

  /** Before the third loop only the stacks without a share are settled: none of them is a newcomer. */
  lemma {:induction false} NewcomersStart(found: Found, shares: Shares)
    requires Given(found, shares)
    ensures NewcomersAmong(found, shares, found.Keys - Positive(shares).Keys, [])
  {
  }

  ghost function AssignedUpTo(stacks: StackMap, list: seq<Change>, i: nat): StackMap
    requires i <= |list| && forall k :: 0 <= k < |list| ==> list[k].id in stacks
    ensures AssignedUpTo(stacks, list, i).Keys == stacks.Keys
  {
    if i == 0 then stacks
    else
      var m := AssignedUpTo(stacks, list, i - 1);
      m[list[i - 1].id := WithSegment(m[list[i - 1].id], list[i - 1].now)]
  }

  method SetSegment(sc: StackContainer, at: Interval)
    modifies sc
    ensures sc.View() == WithSegment(old(sc.View()), at)
  {
    sc.segmentLowerLimit := at.lower;
    sc.segmentUpperLimit := at.upper;
  }

  /** Closing loops: every listed container takes its segment. */
  method AssignLimits(stacks: Containers, list: seq<Change>)
    requires Separate(stacks) && forall k :: 0 <= k < |list| ==> list[k].id in stacks
    modifies stacks.Values
    ensures Views(stacks) == AssignedUpTo(old(Views(stacks)), list, |list|)
  {
    ghost var before := Views(stacks);
    for i := 0 to |list|
      invariant Views(stacks) == AssignedUpTo(before, list, i)
    {
      ghost var now := Views(stacks);
      SetSegment(stacks[list[i].id], list[i].now);
      assert Views(stacks) == now[list[i].id := WithSegment(now[list[i].id], list[i].now)];
    }
  }

  /** Assigning a list sets the listed stacks and leaves the others. */
  lemma {:induction false} AssignedAt(stacks: StackMap, list: seq<Change>, i: nat, n: Name, at: Interval)
    requires i <= |list| && (forall k :: 0 <= k < |list| ==> list[k].id in stacks) && n in stacks
    requires forall k :: 0 <= k < i && list[k].id == n ==> list[k].now == at
    ensures AssignedUpTo(stacks, list, i)[n] ==
            if exists k :: 0 <= k < i && list[k].id == n then WithSegment(stacks[n], at) else stacks[n]
  {
    if i > 0 {
      AssignedAt(stacks, list, i - 1, n, at);
    }
  }

  /** list holds the changes of stacks of the order. */
  ghost predicate FromOrder(shares: Shares, order: seq<Segment>, list: seq<Change>)
    requires Known(shares, order)
  {
    forall k :: 0 <= k < |list| ==> exists j :: 0 <= j < |order| && list[k] == ChangeOf(shares, order, j)
  }

  lemma {:induction false} ListsAreFromOrder(shares: Shares, order: seq<Segment>, sorted: seq<Change>,
                                        kept: seq<Change>)
    requires Known(shares, order)
    requires multiset(sorted) == multiset(Changes(shares, order)) && kept == KeptUpTo(shares, order, |order|)
    ensures FromOrder(shares, order, sorted) && FromOrder(shares, order, kept)
    ensures forall j :: 0 <= j < |order| ==> ChangeOf(shares, order, j) in sorted || ChangeOf(shares, order, j) in kept
  {
    ChangeMembers(shares, order, |order|);
    forall k | 0 <= k < |sorted|
      ensures exists j :: 0 <= j < |order| && sorted[k] == ChangeOf(shares, order, j)
    {
      assert sorted[k] in multiset(sorted);
      assert sorted[k] in Changes(shares, order);
    }
    forall k | 0 <= k < |kept|
      ensures exists j :: 0 <= j < |order| && kept[k] == ChangeOf(shares, order, j)
    {
      assert kept[k] in KeptUpTo(shares, order, |order|);
    }
    forall j | 0 <= j < |order|
      ensures ChangeOf(shares, order, j) in sorted || ChangeOf(shares, order, j) in kept
    {
      var c := ChangeOf(shares, order, j);
      if c.was != c.now { assert c in multiset(sorted); }
    }
  }

  /** Assigning one list of changes of the order. */
  lemma {:induction false} AssignFromOrder(stacks: StackMap, shares: Shares, order: seq<Segment>,
                                        list: seq<Change>, n: Name)
    requires shares.Keys == stacks.Keys && Known(shares, order) && Distinct(order) && FromOrder(shares, order, list)
    requires n in stacks
    ensures forall k :: 0 <= k < |list| ==> list[k].id in stacks
    ensures !Mentions(order, n) ==> AssignedUpTo(stacks, list, |list|)[n] == stacks[n]
    ensures forall j :: 0 <= j < |order| && order[j].id == n ==>
              AssignedUpTo(stacks, list, |list|)[n] ==
              if ChangeOf(shares, order, j) in list then WithSegment(stacks[n], Placed(shares, order, j)) else stacks[n]
  {
    if Mentions(order, n) {
      var j :| 0 <= j < |order| && order[j].id == n;
      forall k | 0 <= k < |list| && list[k].id == n
        ensures list[k] == ChangeOf(shares, order, j)
      {
        var i :| 0 <= i < |order| && list[k] == ChangeOf(shares, order, i);
        assert i == j;
      }
      AssignedAt(stacks, list, |list|, n, Placed(shares, order, j));
    } else {
      AssignedAt(stacks, list, |list|, n, EMPTY);
    }
  }

  /** Assigning the sorted changes and then the kept segments gives every laid out stack its place. */
  lemma {:induction false} BothListsAssign(stacks: StackMap, shares: Shares, order: seq<Segment>,
                                        sorted: seq<Change>, kept: seq<Change>)
    requires shares.Keys == stacks.Keys && Known(shares, order) && Distinct(order)
    requires FromOrder(shares, order, sorted) && FromOrder(shares, order, kept)
    requires forall j :: 0 <= j < |order| ==> ChangeOf(shares, order, j) in sorted || ChangeOf(shares, order, j) in kept
    ensures forall k :: 0 <= k < |sorted| ==> sorted[k].id in stacks
    ensures forall k :: 0 <= k < |kept| ==> kept[k].id in stacks
    ensures Assigned(stacks, shares, order,
                     AssignedUpTo(AssignedUpTo(stacks, sorted, |sorted|), kept, |kept|))
  {
    assert forall k :: 0 <= k < |sorted| ==> sorted[k].id in stacks;
    assert forall k :: 0 <= k < |kept| ==> kept[k].id in stacks;
    var half := AssignedUpTo(stacks, sorted, |sorted|);
    forall j | 0 <= j < |order|
      ensures AssignedUpTo(half, kept, |kept|)[order[j].id] ==
              WithSegment(stacks[order[j].id], Placed(shares, order, j))
    {
      AssignFromOrder(stacks, shares, order, sorted, order[j].id);
      AssignFromOrder(half, shares, order, kept, order[j].id);
    }
    forall n | n in stacks && !Mentions(order, n)
      ensures AssignedUpTo(half, kept, |kept|)[n] == stacks[n]
    {
      AssignFromOrder(stacks, shares, order, sorted, n);
      AssignFromOrder(half, shares, order, kept, n);
    }
  }

  /** The layout, before any container is touched: the rollout list and the kept segments. */
  method PlanSegments(stacks: Containers, segments: seq<Segment>, newWeights: map<Name, real>,
                      ghost found: Found, ghost shares: Shares)
    returns (rollout: seq<Change>, kept: seq<Change>, ghost active: seq<Segment>, ghost newcomers: seq<Segment>)
    requires Given(found, shares) && found.Keys == stacks.Keys
    requires forall n :: n in stacks ==> SegmentOf(stacks[n].View()) == Ok(found[n])
    requires ActiveAmong(found, found.Keys, segments) && newWeights == Positive(shares)
    ensures IsOrder(found, shares, active, newcomers) && Known(shares, active + newcomers)
    ensures RollsOut(shares, active + newcomers, rollout)
    ensures kept == KeptUpTo(shares, active + newcomers, |active + newcomers|)
  {
    var sorted := SortSegments(segments);
    active := sorted;
    SortedIsActive(found, segments);
    var changes;
    changes, kept, newcomers := LayOut(stacks, sorted, newWeights, found, shares);
    rollout := SortChanges(changes);
  }

  /** Second and third loop. */
  method LayOut(stacks: Containers, sorted: seq<Segment>, newWeights: map<Name, real>,
                ghost found: Found, ghost shares: Shares)
    returns (changes: seq<Change>, kept: seq<Change>, ghost newcomers: seq<Segment>)
    requires Given(found, shares) && found.Keys == stacks.Keys
    requires forall n :: n in stacks ==> SegmentOf(stacks[n].View()) == Ok(found[n])
    requires ActiveAmong(found, found.Keys, sorted) && newWeights == Positive(shares)
    ensures NewcomersAmong(found, shares, found.Keys, newcomers) && Known(shares, sorted + newcomers)
    ensures changes == Changes(shares, sorted + newcomers)
    ensures kept == KeptUpTo(shares, sorted + newcomers, |sorted + newcomers|)
  {
    var index;
    changes, kept, index := LayOutActive(sorted, newWeights, shares);
    ghost var end;
    changes, newcomers, end := AddNewcomers(stacks, newWeights, sorted, index, changes, kept, found, shares);
    assert found.Keys - {} == found.Keys;
  }

  method AssignPlan(stacks: Containers, rollout: seq<Change>, kept: seq<Change>,
                    ghost before: StackMap, ghost shares: Shares, ghost order: seq<Segment>)
    requires Separate(stacks) && Views(stacks) == before
    requires shares.Keys == before.Keys && Known(shares, order) && Distinct(order)
    requires RollsOut(shares, order, rollout) && kept == KeptUpTo(shares, order, |order|)
    modifies stacks.Values
    ensures Assigned(before, shares, order, Views(stacks))
  {
    ListsAreFromOrder(shares, order, rollout, kept);
    BothListsAssign(before, shares, order, rollout, kept);
    AssignLimits(stacks, rollout);
    AssignLimits(stacks, kept);
  }

  /**
   `ComputeTrafficSegments`: fails, without touching any container, exactly when some stack's
   segments cannot be read.
   */
  method ComputeTrafficSegments(stacks: Containers)
    returns (ordered: Option<seq<Name>>, ghost active: seq<Segment>, ghost newcomers: seq<Segment>)
    requires Separate(stacks)
    modifies stacks.Values
    ensures ordered.None? <==> !Parseable(old(Views(stacks)))
    ensures ordered.None? ==> Views(stacks) == old(Views(stacks))
    ensures ordered.Some? ==> Computes(old(Views(stacks)), active, newcomers, Views(stacks), ordered.value)
  {
    ghost var before := Views(stacks);
    var failed, segments, newWeights := GatherSegments(stacks);
    if failed {
      return None, [], [];
    }
    var rollout;
    rollout, active, newcomers := PlanAndAssign(stacks, segments, newWeights, before);
    ordered := Some(rollout);
  }

  method PlanAndAssign(stacks: Containers, segments: seq<Segment>, newWeights: map<Name, real>, ghost before: StackMap)
    returns (ordered: seq<Name>, ghost active: seq<Segment>, ghost newcomers: seq<Segment>)
    requires Separate(stacks) && Views(stacks) == before && Parseable(before)
    requires ActiveAmong(FoundIn(before), stacks.Keys, segments) && newWeights == Positive(SharesIn(before))
    modifies stacks.Values
    ensures Computes(before, active, newcomers, Views(stacks), ordered)
  {
    var rollout, kept;
    rollout, kept, active, newcomers := PlanFor(stacks, segments, newWeights, before);
    AssignPlan(stacks, rollout, kept, before, SharesIn(before), active + newcomers);
    ComputesPlan(before, active, newcomers, Views(stacks), rollout);
    ordered := Ids(rollout);
  }

  method PlanFor(stacks: Containers, segments: seq<Segment>, newWeights: map<Name, real>, ghost before: StackMap)
    returns (rollout: seq<Change>, kept: seq<Change>, ghost active: seq<Segment>, ghost newcomers: seq<Segment>)
    requires Separate(stacks) && Views(stacks) == before && Parseable(before)
    requires ActiveAmong(FoundIn(before), stacks.Keys, segments) && newWeights == Positive(SharesIn(before))
    ensures var (found, shares) := (FoundIn(before), SharesIn(before));
            && IsOrder(found, shares, active, newcomers) && Known(shares, active + newcomers)
            && Distinct(active + newcomers) && RollsOut(shares, active + newcomers, rollout)
            && kept == KeptUpTo(shares, active + newcomers, |active + newcomers|)
  {
    GivenIn(before);
    assert forall n :: n in stacks ==> before[n] == stacks[n].View();
    rollout, kept, active, newcomers := PlanSegments(stacks, segments, newWeights, FoundIn(before), SharesIn(before));
    OrderLists(FoundIn(before), SharesIn(before), active, newcomers);
  }

  lemma {:induction false} GivenIn(stacks: StackMap)
    requires Parseable(stacks)
    ensures Given(FoundIn(stacks), SharesIn(stacks))
    ensures forall n :: n in stacks ==> SegmentOf(stacks[n]) == Ok(FoundIn(stacks)[n])
  {
    forall n | n in stacks
      ensures SegmentOf(stacks[n]) == Ok(FoundIn(stacks)[n])
    {
      assert SegmentOf(stacks[n]).Ok?;
    }
  }

  lemma {:induction false} ComputesPlan(stacks: StackMap, active: seq<Segment>, newcomers: seq<Segment>,
                                        after: StackMap, rollout: seq<Change>)
    requires Parseable(stacks) && IsOrder(FoundIn(stacks), SharesIn(stacks), active, newcomers)
    requires Known(SharesIn(stacks), active + newcomers)
    requires Assigned(stacks, SharesIn(stacks), active + newcomers, after)
    requires RollsOut(SharesIn(stacks), active + newcomers, rollout)
    ensures Computes(stacks, active, newcomers, after, Ids(rollout))
  {
  }
}
