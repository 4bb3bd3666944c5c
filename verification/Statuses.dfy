/**
 What a cycle saves and what the next one reads back: stack statuses, the desired
 traffic in the stack set's spec and the actual traffic in its status
 (pkg/core/types.go, pkg/core/stackset.go, pkg/core/stack_resources.go).
 */
module Statuses {
  import opened Names
  import opened Sums
  import opened Sorting
  import opened Weights
  import opened BackendWeights
  import opened Options
  import opened Stacks
  import opened Reconcilers
  import opened Traffic
  import Switching

  // ----- stack status -----

  datatype PrescalingStatus = PrescalingStatus(
    active: bool, replicas: nat, desiredTrafficWeight: real, lastTrafficIncrease: Option<Time>)

  datatype StackStatus = StackStatus(
    actualTrafficWeight: real, desiredTrafficWeight: real, prescaling: PrescalingStatus, noTrafficSince: Option<Time>)

  const NO_PRESCALING := PrescalingStatus(false, 0, 0.0, None)
  const NEW_STATUS := StackStatus(0.0, 0.0, NO_PRESCALING, None)

  function WrapTime(t: Time): Option<Time> {
    if t == ZERO_TIME then None else Some(t)
  }

  function UnwrapTime(t: Option<Time>): Time {
    if t.None? then ZERO_TIME else t.value
  }

  /** `GenerateStackStatus`. */
  function StatusOf(s: Stack): StackStatus {
    StackStatus(
      s.actual, s.desired,
      if s.prescalingActive
      then PrescalingStatus(true, s.prescalingReplicas, s.prescalingDesired, WrapTime(s.prescalingLastIncrease))
      else NO_PRESCALING,
      WrapTime(s.noTrafficSince))
  }

  /** The status part of `updateFromResources`. */
  function WithStatus(s: Stack, status: StackStatus): Stack {
    var t := s.(noTrafficSince := UnwrapTime(status.noTrafficSince));
    if status.prescaling.active then
      t.(prescalingActive := true, prescalingReplicas := status.prescaling.replicas,
         prescalingDesired := status.prescaling.desiredTrafficWeight,
         prescalingLastIncrease := UnwrapTime(status.prescaling.lastTrafficIncrease))
    else t
  }

  /** A container as it is built for a cycle, before anything is read into it. */
  predicate Blank(s: Stack) {
    && !s.pendingRemoval && s.segmentLower == 0.0 && s.segmentUpper == 0.0
    && s.actual == 0.0 && s.desired == 0.0 && s.noTrafficSince == ZERO_TIME
    && !s.prescalingActive && s.prescalingReplicas == 0 && s.prescalingDesired == 0.0
    && s.prescalingLastIncrease == ZERO_TIME
  }

  /**
   Saving a stack's status and reading it into a new container restores its idle time, and its
   prescaling exactly if that is active or has nothing to remember.
   */
  lemma {:induction false} StatusRoundTrip(s: Stack, blank: Stack)
    requires Blank(blank)
    ensures var t := WithStatus(blank, StatusOf(s));
            && t.noTrafficSince == s.noTrafficSince
            && (Switching.SamePrescaling(t, s) <==> s.prescalingActive || Switching.SamePrescaling(s, blank))
            && (Switching.Sound(s) ==> Switching.Sound(t))
  {
  }

  method UpdateFromStatus(sc: StackContainer, status: StackStatus)
    modifies sc
    ensures sc.View() == WithStatus(old(sc.View()), status)
  {
    sc.noTrafficSince := UnwrapTime(status.noTrafficSince);
    if status.prescaling.active {
      sc.prescalingActive := true;
      sc.prescalingReplicas := status.prescaling.replicas;
      sc.prescalingDesiredTrafficWeight := status.prescaling.desiredTrafficWeight;
      sc.prescalingLastTrafficIncrease := UnwrapTime(status.prescaling.lastTrafficIncrease);
    }
  }

  // ----- reading traffic lists -----

  datatype TrafficEntry = TrafficEntry(stackName: Name, weight: real)

  /** The weights in a list; a later entry for the same stack wins. */
  function Listed(list: seq<TrafficEntry>): Weights {
    if list == [] then map[]
    else
      var last := list[|list| - 1];
      Listed(list[..|list| - 1])[last.stackName := last.weight]
  }

  ghost predicate NonNegativeEntries(list: seq<TrafficEntry>) {
    forall i :: 0 <= i < |list| ==> list[i].weight >= 0.0
  }

  lemma {:induction false} ListedNonNegative(list: seq<TrafficEntry>)
    requires NonNegativeEntries(list)
    ensures NonNegative(Listed(list))
  {
    if list != [] { ListedNonNegative(list[..|list| - 1]); }
  }

  /** The i-th entry of the list is the last one for its stack. */
  predicate IsLast(list: seq<TrafficEntry>, i: nat)
    requires i < |list|
  {
    forall j :: i < j < |list| ==> list[j].stackName != list[i].stackName
  }

  ghost predicate LastEntry(list: seq<TrafficEntry>, n: Name, weight: real) {
    exists i :: 0 <= i < |list| && list[i] == TrafficEntry(n, weight) && IsLast(list, i)
  }

  /** A list says about a stack what its last entry for it says. */
  lemma {:induction false} ListedIff(list: seq<TrafficEntry>, n: Name, weight: real)
    ensures n in Listed(list) && Listed(list)[n] == weight <==> LastEntry(list, n, weight)
  {
    if list != [] {
      var front, last := list[..|list| - 1], list[|list| - 1];
      if last.stackName == n {
        assert IsLast(list, |list| - 1);
      } else {
        ListedIff(front, n, weight);
        SameLastEntry(list, n, weight);
      }
    }
  }

  lemma {:induction false} SameLastEntry(list: seq<TrafficEntry>, n: Name, weight: real)
    requires list != [] && list[|list| - 1].stackName != n
    ensures LastEntry(list[..|list| - 1], n, weight) <==> LastEntry(list, n, weight)
  {
    var front := list[..|list| - 1];
    if i :| 0 <= i < |front| && front[i] == TrafficEntry(n, weight) && IsLast(front, i) {
      assert list[i] == front[i] && IsLast(list, i);
    }
    if i :| 0 <= i < |list| && list[i] == TrafficEntry(n, weight) && IsLast(list, i) {
      assert front[i] == list[i] && IsLast(front, i);
    }
  }

  function Kept(w: Weights, names: set<Name>): Weights {
    map n | n in w && n in names :: w[n]
  }

  ghost function Scaled(w: Weights): (r: Weights)
    requires NonNegative(w)
    ensures r.Keys == w.Keys
  {
    if AllZero(w) then w else Normalized(w)
  }

  function Spread(w: Weights, names: set<Name>): Weights {
    map n | n in names :: if n in w then w[n] else 0.0
  }

  /** The weights a cycle reads for its stacks: those listed, scaled to 100, and 0 for the others. */
  ghost function ReadWeights(list: seq<TrafficEntry>, names: set<Name>): Weights
    requires NonNegativeEntries(list)
  {
    ListedNonNegative(list);
    Spread(Scaled(Kept(Listed(list), names)), names)
  }

  lemma {:induction false} SpreadTotal(w: Weights, names: set<Name>)
    requires w.Keys <= names
    ensures Sum(Spread(w, names)) == Sum(w)
  {
    SumSupport(Spread(w, names), w);
  }

  /** Stacks that are not listed read 0, the others keep the ratios of their listed weights. */
  ghost predicate ReadsLike(read: Weights, listed: Weights, names: set<Name>) {
    && read.Keys == names
    && (forall n :: n in names && n !in listed ==> read[n] == 0.0)
    && (forall m, n :: m in names && n in names && m in listed && n in listed ==>
          read[m] * listed[n] == read[n] * listed[m])
  }

  /** Reading a traffic list keeps ratios. */
  lemma {:induction false} ReadKeepsRatios(list: seq<TrafficEntry>, names: set<Name>)
    requires NonNegativeEntries(list)
    ensures ReadsLike(ReadWeights(list, names), Listed(list), names)
  {
    ListedNonNegative(list);
    var kept := Kept(Listed(list), names);
    ScaledKeepsRatios(kept);
    SpreadKeepsRatios(Listed(list), names, kept, Scaled(kept));
  }

  lemma {:induction false} SpreadKeepsRatios(listed: Weights, names: set<Name>, kept: Weights, scaled: Weights)
    requires kept == Kept(listed, names) && Proportional(kept, scaled)
    ensures ReadsLike(Spread(scaled, names), listed, names)
  {
    var read := Spread(scaled, names);
    forall m, n | m in names && n in names && m in listed && n in listed
      ensures read[m] * listed[n] == read[n] * listed[m]
    {
      assert m in kept && n in kept && kept[m] == listed[m] && kept[n] == listed[n];
      assert read[m] == scaled[m] && read[n] == scaled[n];
    }
  }

  /** What is read totals 100, unless none of the stacks is listed with a weight. */
  lemma {:induction false} ReadTotal(list: seq<TrafficEntry>, names: set<Name>)
    requires NonNegativeEntries(list)
    ensures Sum(ReadWeights(list, names)) ==
            if exists n :: n in names && n in Listed(list) && Listed(list)[n] > 0.0 then 100.0 else 0.0
  {
    ListedNonNegative(list);
    var kept := Kept(Listed(list), names);
    SpreadTotal(Scaled(kept), names);
    ScaledKeepsRatios(kept);
    assert forall n :: n in kept <==> n in names && n in Listed(list);
  }

  lemma {:induction false} ScaledKeepsRatios(w: Weights)
    requires NonNegative(w)
    ensures Proportional(w, Scaled(w))
    ensures Sum(Scaled(w)) == if exists n :: n in w && w[n] > 0.0 then 100.0 else 0.0
  {
    KeepsRatios(w);
    if AllZero(w) { SumZero(w); } else { NormalizedTotal(w); }
  }

  ghost function WithDesired(stacks: StackMap, w: Weights): StackMap
    requires w.Keys == stacks.Keys
  {
    map n | n in stacks :: stacks[n].(desired := w[n])
  }

  method ListedWeights(traffic: seq<TrafficEntry>) returns (weights: Weights)
    ensures weights == Listed(traffic)
  {
    weights := map[];
    for i := 0 to |traffic|
      invariant weights == Listed(traffic[..i])
    {
      assert traffic[..i + 1][..i] == traffic[..i];
      weights := weights[traffic[i].stackName := traffic[i].weight];
    }
    assert traffic[..|traffic|] == traffic;
  }

  /** The entries of stacks that do not exist are deleted. */
  method DropUnknown(listed: Weights, names: set<Name>) returns (weights: Weights)
    ensures weights == Kept(listed, names)
  {
    weights := listed;
    var todo := listed.Keys;
    while todo != {}
      invariant todo <= listed.Keys
      invariant weights == map n | n in listed && (n in todo || n in names) :: listed[n]
    {
      var name :| name in todo;
      if name !in names {
        weights := weights - {name};
      }
      todo := todo - {name};
    }
  }

  /** What `updateDesiredTraffic` and `updateActualTraffic` have in common. */
  method ReadTraffic(traffic: seq<TrafficEntry>, names: set<Name>) returns (weights: Weights)
    requires NonNegativeEntries(traffic)
    ensures weights.Keys == Kept(Listed(traffic), names).Keys
    ensures Spread(weights, names) == ReadWeights(traffic, names)
  {
    ListedNonNegative(traffic);
    var listed := ListedWeights(traffic);
    weights := DropUnknown(listed, names);
    if !AllZero(weights) {
      weights := NormalizeLocal(weights);
    }
  }

  method SetDesiredOf(stacks: Containers, n: Name, weight: real)
    requires Separate(stacks) && n in stacks
    modifies stacks.Values
    ensures Views(stacks) == old(Views(stacks))[n := old(Views(stacks))[n].(desired := weight)]
  {
    stacks[n].desiredTrafficWeight := weight;
  }

  /** `updateDesiredTraffic`. */
  method UpdateDesiredTraffic(stacks: Containers, traffic: seq<TrafficEntry>)
    requires Separate(stacks) && NonNegativeEntries(traffic)
    modifies stacks.Values
    ensures Views(stacks) == WithDesired(old(Views(stacks)), ReadWeights(traffic, stacks.Keys))
  {
    var weights := ReadTraffic(traffic, stacks.Keys);
    ghost var before := Views(stacks);
    ghost var after := WithDesired(before, ReadWeights(traffic, stacks.Keys));
    PartlyEnds(before, after);
    var todo := stacks.Keys;
    while todo != {}
      invariant todo <= stacks.Keys && Views(stacks) == Partly(before, after, todo)
    {
      var name :| name in todo;
      PartlyStep(before, after, todo, name);
      assert Spread(weights, stacks.Keys)[name] == after[name].desired;
      SetDesiredOf(stacks, name, if name in weights then weights[name] else 0.0);
      todo := todo - {name};
    }
  }

  /** `updateActualTraffic`. */
  method UpdateActualTraffic(stacks: Containers, traffic: seq<TrafficEntry>)
    requires Separate(stacks) && NonNegativeEntries(traffic)
    modifies stacks.Values
    ensures Views(stacks) == WithActual(old(Views(stacks)), ReadWeights(traffic, stacks.Keys))
  {
    var weights := ReadTraffic(traffic, stacks.Keys);
    ghost var before := Views(stacks);
    ghost var after := WithActual(before, ReadWeights(traffic, stacks.Keys));
    PartlyEnds(before, after);
    var todo := stacks.Keys;
    while todo != {}
      invariant todo <= stacks.Keys && Views(stacks) == Partly(before, after, todo)
    {
      var name :| name in todo;
      PartlyStep(before, after, todo, name);
      assert Spread(weights, stacks.Keys)[name] == after[name].actual;
      SetActualOf(stacks, name, if name in weights then weights[name] else 0.0);
      todo := todo - {name};
    }
  }

  // ----- writing traffic lists -----

  predicate HasBackendPort(spec: StackSetSpec, s: Stack) {
    spec.Enabled() || s.spec.ingress || s.spec.routeGroup
  }

  /** list has exactly the entries of w, in ascending order of names. */
  ghost predicate Publishes(list: seq<TrafficEntry>, w: Weights) {
    && (forall i, j :: 0 <= i < j < |list| ==> Less(list[i].stackName, list[j].stackName))
    && (forall i :: 0 <= i < |list| ==> list[i].stackName in w && list[i].weight == w[list[i].stackName])
    && (forall n :: n in w ==> TrafficEntry(n, w[n]) in list)
  }

  lemma {:induction false} PublishedEntries(list: seq<TrafficEntry>, w: Weights)
    requires Publishes(list, w)
    ensures forall e :: e in list <==> e.stackName in w && w[e.stackName] == e.weight
  {
    forall e
      ensures e in list <==> e.stackName in w && w[e.stackName] == e.weight
    {
      if e in list {
        var i :| 0 <= i < |list| && list[i] == e;
      }
      if e.stackName in w && w[e.stackName] == e.weight {
        assert TrafficEntry(e.stackName, w[e.stackName]) in list;
      }
    }
  }

  /** Actual weights that are published: those of the stacks that stay. */
  ghost function PublishedActual(spec: StackSetSpec, stacks: StackMap): Weights {
    map n | n in stacks && !stacks[n].pendingRemoval && HasBackendPort(spec, stacks[n]) :: stacks[n].actual
  }

  /** Desired weights that are saved: the positive ones of the stacks that stay. */
  ghost function SavedDesired(spec: StackSetSpec, stacks: StackMap): Weights {
    map n | n in stacks && !stacks[n].pendingRemoval && HasBackendPort(spec, stacks[n]) && stacks[n].desired > 0.0
      :: stacks[n].desired
  }

  predicate ByName(x: TrafficEntry, y: TrafficEntry) {
    Less(x.stackName, y.stackName)
  }

  /** list has exactly the entries of w, in some order. */
  ghost predicate Holds(list: seq<TrafficEntry>, w: Weights) {
    && (forall i, j :: 0 <= i < j < |list| ==> list[i].stackName != list[j].stackName)
    && (forall i :: 0 <= i < |list| ==> list[i].stackName in w && list[i].weight == w[list[i].stackName])
    && (forall n :: n in w ==> TrafficEntry(n, w[n]) in list)
  }

  lemma {:induction false} HoldsStep(list: seq<TrafficEntry>, w: Weights, n: Name, x: real)
    requires Holds(list, w) && n !in w
    ensures Holds(list + [TrafficEntry(n, x)], w[n := x])
  {
    var more := list + [TrafficEntry(n, x)];
    assert more[|list|] == TrafficEntry(n, x);
    var grown := w[n := x];
    forall m | m in grown
      ensures TrafficEntry(m, grown[m]) in more
    {
      if m != n { assert TrafficEntry(m, w[m]) in list; }
    }
  }

  lemma {:induction false} ByNameIsStrictWeak(list: seq<TrafficEntry>)
    ensures StrictWeak(list, ByName)
  {
    forall x, y | x in list && y in list && ByName(x, y)
      ensures !ByName(y, x)
    {
      LessAsymmetric(x.stackName, y.stackName);
    }
    forall x, y, z | x in list && y in list && z in list && !ByName(x, y) && !ByName(y, z)
      ensures !ByName(x, z)
    {
      LessTotal(x.stackName, y.stackName);
      LessTotal(y.stackName, z.stackName);
      if ByName(x, z) {
        if x.stackName == y.stackName || y.stackName == z.stackName {
        } else {
          LessTransitive(z.stackName, y.stackName, x.stackName);
          LessAsymmetric(x.stackName, z.stackName);
        }
      }
    }
  }

  lemma {:induction false} SortedPublishes(list: seq<TrafficEntry>, w: Weights)
    requires Holds(list, w)
    ensures Publishes(InsertionSort(list, ByName), w)
  {
    var sorted := InsertionSort(list, ByName);
    SortPermutes(list, ByName);
    ByNameIsStrictWeak(list);
    SortOrders(list, ByName);
    PermutedHolds(list, sorted, w);
    forall i, j | 0 <= i < j < |sorted|
      ensures Less(sorted[i].stackName, sorted[j].stackName)
    {
      assert !ByName(sorted[j], sorted[i]);
      LessTotal(sorted[i].stackName, sorted[j].stackName);
    }
  }

  lemma {:induction false} PermutedHolds(list: seq<TrafficEntry>, sorted: seq<TrafficEntry>, w: Weights)
    requires Holds(list, w) && multiset(sorted) == multiset(list)
    ensures Holds(sorted, w)
  {
    PermutationKeepsUnique(list, sorted);
    forall i | 0 <= i < |sorted|
      ensures sorted[i].stackName in w && sorted[i].weight == w[sorted[i].stackName]
    {
      assert sorted[i] in multiset(sorted);
      assert sorted[i] in list;
    }
    forall n | n in w
      ensures TrafficEntry(n, w[n]) in sorted
    {
      assert TrafficEntry(n, w[n]) in multiset(list);
    }
    assert forall i, j :: 0 <= i < j < |sorted| && sorted[i].stackName == sorted[j].stackName ==>
            sorted[i] == sorted[j];
  }

  method SortTraffic(traffic: seq<TrafficEntry>) returns (sorted: seq<TrafficEntry>)
    ensures sorted == InsertionSort(traffic, ByName)
  {
    var a := new TrafficEntry[|traffic|](i requires 0 <= i < |traffic| => traffic[i]);
    assert a[..] == traffic;
    SortSlice(a, ByName);
    sorted := a[..];
  }

  /** The container stays and belongs to a stack that can get traffic. */
  predicate IsListed(spec: StackSetSpec, sc: StackContainer)
    reads sc
  {
    && !sc.pendingRemoval
    && (spec.ingress || spec.routeGroup || spec.externalIngress || sc.stack.ingress || sc.stack.routeGroup)
  }

  /** traffic holds the positive desired weights of the listed containers and nothing else. */
  ghost predicate HasDesired(spec: StackSetSpec, stacks: Containers, traffic: seq<TrafficEntry>)
    reads stacks.Values
  {
    forall e :: e in traffic <==>
      && e.stackName in stacks && IsListed(spec, stacks[e.stackName])
      && e.weight == stacks[e.stackName].desiredTrafficWeight > 0.0
  }

  /** The same for the actual weights, zero or not. */
  ghost predicate HasActual(spec: StackSetSpec, stacks: Containers, traffic: seq<TrafficEntry>)
    reads stacks.Values
  {
    forall e :: e in traffic <==>
      && e.stackName in stacks && IsListed(spec, stacks[e.stackName])
      && e.weight == stacks[e.stackName].actualTrafficWeight
  }

  /** The counts of all containers that stay, of the ready ones, and of those with traffic. */
  ghost predicate HasCounts(stacks: Containers, status: StackSetStatus)
    reads stacks.Values
  {
    && status.stacks == |set n | n in stacks && !stacks[n].pendingRemoval|
    && status.readyStacks == |set n | n in stacks && !stacks[n].pendingRemoval && stacks[n].View().IsReady()|
    && status.stacksWithTraffic ==
       |set n | n in stacks && !stacks[n].pendingRemoval
                && (stacks[n].actualTrafficWeight > 0.0 || stacks[n].desiredTrafficWeight > 0.0)|
  }

  /** `GenerateStackSetTraffic`. */
  method GenerateStackSetTraffic(spec: StackSetSpec, stacks: Containers) returns (traffic: seq<TrafficEntry>)
    requires Separate(stacks)
    ensures Publishes(traffic, SavedDesired(spec, Views(stacks)))
    ensures HasDesired(spec, stacks, traffic)
  {
    ghost var views := Views(stacks);
    ghost var wanted := SavedDesired(spec, views);
    traffic := [];
    var todo := stacks.Keys;
    assert wanted - todo == map[];
    while todo != {}
      invariant todo <= stacks.Keys && Holds(traffic, wanted - todo)
    {
      var stackName :| stackName in todo;
      var sc := stacks[stackName].View();
      assert sc == views[stackName];
      if !sc.pendingRemoval && HasBackendPort(spec, sc) && sc.desired > 0.0 {
        HoldsStep(traffic, wanted - todo, stackName, sc.desired);
        traffic := traffic + [TrafficEntry(stackName, sc.desired)];
        assert wanted - (todo - {stackName}) == (wanted - todo)[stackName := sc.desired];
      } else {
        assert wanted - (todo - {stackName}) == wanted - todo;
      }
      todo := todo - {stackName};
    }
    assert wanted - {} == wanted;
    SortedPublishes(traffic, wanted);
    traffic := SortTraffic(traffic);
    SavedEntries(spec, stacks, traffic);
  }

  lemma {:induction false} SavedEntries(spec: StackSetSpec, stacks: Containers, traffic: seq<TrafficEntry>)
    requires Separate(stacks) && Publishes(traffic, SavedDesired(spec, Views(stacks)))
    ensures HasDesired(spec, stacks, traffic)
  {
    PublishedEntries(traffic, SavedDesired(spec, Views(stacks)));
    forall n | n in stacks
      ensures Views(stacks)[n] == stacks[n].View()
    {
    }
  }

  datatype StackSetStatus = StackSetStatus(stacks: nat, readyStacks: nat, stacksWithTraffic: nat,
                                           traffic: seq<TrafficEntry>)

  ghost function Staying(stacks: StackMap): set<Name> {
    set n | n in stacks && !stacks[n].pendingRemoval
  }

  ghost function StayingReady(stacks: StackMap): set<Name> {
    set n | n in stacks && !stacks[n].pendingRemoval && stacks[n].IsReady()
  }

  ghost function StayingWithTraffic(stacks: StackMap): set<Name> {
    set n | n in stacks && !stacks[n].pendingRemoval && stacks[n].HasTraffic()
  }

  /** The counts of the first stacks visited. */
  ghost predicate Counted(stacks: StackMap, todo: set<Name>, status: StackSetStatus) {
    && status.stacks == |Staying(stacks) - todo|
    && status.readyStacks == |StayingReady(stacks) - todo|
    && status.stacksWithTraffic == |StayingWithTraffic(stacks) - todo|
  }

  function CountStack(s: Stack, status: StackSetStatus): StackSetStatus {
    if s.pendingRemoval then status
    else
      status.(stacks := status.stacks + 1,
              readyStacks := status.readyStacks + (if s.IsReady() then 1 else 0),
              stacksWithTraffic := status.stacksWithTraffic + (if s.HasTraffic() then 1 else 0))
  }

  lemma {:induction false} OneMore(all: set<Name>, todo: set<Name>, n: Name)
    requires n in todo
    ensures |all - (todo - {n})| == |all - todo| + if n in all then 1 else 0
  {
    if n in all {
      assert all - (todo - {n}) == all - todo + {n};
    } else {
      assert all - (todo - {n}) == all - todo;
    }
  }

  lemma {:induction false} CountedStep(stacks: StackMap, todo: set<Name>, status: StackSetStatus, n: Name)
    requires Counted(stacks, todo, status) && n in todo && n in stacks
    ensures Counted(stacks, todo - {n}, CountStack(stacks[n], status))
  {
    OneMore(Staying(stacks), todo, n);
    OneMore(StayingReady(stacks), todo, n);
    OneMore(StayingWithTraffic(stacks), todo, n);
  }

  function AddTraffic(spec: StackSetSpec, n: Name, s: Stack, traffic: seq<TrafficEntry>): seq<TrafficEntry> {
    if !s.pendingRemoval && HasBackendPort(spec, s) then traffic + [TrafficEntry(n, s.actual)] else traffic
  }

  lemma {:induction false} TrafficStep(spec: StackSetSpec, stacks: StackMap, todo: set<Name>,
                                       traffic: seq<TrafficEntry>, n: Name)
    requires Holds(traffic, PublishedActual(spec, stacks) - todo) && n in todo && n in stacks
    ensures Holds(AddTraffic(spec, n, stacks[n], traffic), PublishedActual(spec, stacks) - (todo - {n}))
  {
    var wanted := PublishedActual(spec, stacks);
    if !stacks[n].pendingRemoval && HasBackendPort(spec, stacks[n]) {
      HoldsStep(traffic, wanted - todo, n, stacks[n].actual);
      assert wanted - (todo - {n}) == (wanted - todo)[n := stacks[n].actual];
    } else {
      assert wanted - (todo - {n}) == wanted - todo;
    }
  }

  /** State of the loop of `GenerateStackSetStatus`. */
  ghost predicate Collected(spec: StackSetSpec, stacks: StackMap, todo: set<Name>, status: StackSetStatus,
                            traffic: seq<TrafficEntry>) {
    Counted(stacks, todo, status) && Holds(traffic, PublishedActual(spec, stacks) - todo)
  }

  lemma {:induction false} CollectedStep(spec: StackSetSpec, stacks: StackMap, todo: set<Name>, status: StackSetStatus,
                                         traffic: seq<TrafficEntry>, n: Name)
    requires Collected(spec, stacks, todo, status, traffic) && n in todo && n in stacks
    ensures Collected(spec, stacks, todo - {n}, CountStack(stacks[n], status), AddTraffic(spec, n, stacks[n], traffic))
  {
    CountedStep(stacks, todo, status, n);
    TrafficStep(spec, stacks, todo, traffic, n);
  }

  lemma {:induction false} CollectedNothing(spec: StackSetSpec, stacks: StackMap)
    ensures Collected(spec, stacks, stacks.Keys, StackSetStatus(0, 0, 0, []), [])
  {
    assert Staying(stacks) - stacks.Keys == {} && StayingReady(stacks) - stacks.Keys == {};
    assert StayingWithTraffic(stacks) - stacks.Keys == {};
    assert PublishedActual(spec, stacks) - stacks.Keys == map[];
  }

  lemma {:induction false} CollectedAll(spec: StackSetSpec, stacks: StackMap, status: StackSetStatus,
                                        traffic: seq<TrafficEntry>)
    requires Collected(spec, stacks, {}, status, traffic)
    ensures Reports(spec, stacks, status.(traffic := InsertionSort(traffic, ByName)))
  {
    assert Staying(stacks) - {} == Staying(stacks) && StayingReady(stacks) - {} == StayingReady(stacks);
    assert StayingWithTraffic(stacks) - {} == StayingWithTraffic(stacks);
    assert PublishedActual(spec, stacks) - {} == PublishedActual(spec, stacks);
    SortedPublishes(traffic, PublishedActual(spec, stacks));
  }

  /** What the status of the stack set says about its stacks. */
  ghost predicate Reports(spec: StackSetSpec, stacks: StackMap, status: StackSetStatus) {
    && status.stacks == |Staying(stacks)|
    && status.readyStacks == |StayingReady(stacks)|
    && status.stacksWithTraffic == |StayingWithTraffic(stacks)|
    && Publishes(status.traffic, PublishedActual(spec, stacks))
  }

  /** Body of the loop of `GenerateStackSetStatus`. */
  method ReportStack(spec: StackSetSpec, stackName: Name, sc: StackContainer, before: StackSetStatus,
                     sofar: seq<TrafficEntry>)
    returns (status: StackSetStatus, traffic: seq<TrafficEntry>)
    ensures status == CountStack(sc.View(), before) && traffic == AddTraffic(spec, stackName, sc.View(), sofar)
  {
    status, traffic := before, sofar;
    if sc.pendingRemoval {
      return;
    }
    if HasBackendPort(spec, sc.View()) {
      traffic := traffic + [TrafficEntry(stackName, sc.actualTrafficWeight)];
    }
    status := status.(stacks := status.stacks + 1);
    if sc.View().HasTraffic() {
      status := status.(stacksWithTraffic := status.stacksWithTraffic + 1);
    }
    if sc.View().IsReady() {
      status := status.(readyStacks := status.readyStacks + 1);
    }
  }

  /** `GenerateStackSetStatus`. */
  method GenerateStackSetStatus(spec: StackSetSpec, stacks: Containers) returns (status: StackSetStatus)
    requires Separate(stacks)
    ensures Reports(spec, Views(stacks), status)
    ensures HasCounts(stacks, status) && HasActual(spec, stacks, status.traffic)
  {
    ghost var views := Views(stacks);
    var traffic;
    status, traffic := ReportStacks(spec, stacks, views);
    CollectedAll(spec, views, status, traffic);
    traffic := SortTraffic(traffic);
    status := status.(traffic := traffic);
    ReportsInFull(spec, stacks, status);
  }

  lemma {:induction false} ReportsInFull(spec: StackSetSpec, stacks: Containers, status: StackSetStatus)
    requires Separate(stacks) && Reports(spec, Views(stacks), status)
    ensures HasCounts(stacks, status) && HasActual(spec, stacks, status.traffic)
  {
    CountedInFull(stacks);
    PublishedInFull(spec, stacks, status.traffic);
  }

  lemma {:induction false} CountedInFull(stacks: Containers)
    requires Separate(stacks)
    ensures Staying(Views(stacks)) == set n | n in stacks && !stacks[n].pendingRemoval
    ensures StayingReady(Views(stacks)) ==
            set n | n in stacks && !stacks[n].pendingRemoval && stacks[n].View().IsReady()
    ensures StayingWithTraffic(Views(stacks)) ==
            set n | n in stacks && !stacks[n].pendingRemoval
                    && (stacks[n].actualTrafficWeight > 0.0 || stacks[n].desiredTrafficWeight > 0.0)
  {
  }

  lemma {:induction false} PublishedInFull(spec: StackSetSpec, stacks: Containers, traffic: seq<TrafficEntry>)
    requires Separate(stacks) && Publishes(traffic, PublishedActual(spec, Views(stacks)))
    ensures HasActual(spec, stacks, traffic)
  {
    PublishedEntries(traffic, PublishedActual(spec, Views(stacks)));
    forall n | n in stacks
      ensures Views(stacks)[n] == stacks[n].View()
    {
    }
  }

  method ReportStacks(spec: StackSetSpec, stacks: Containers, ghost views: StackMap)
    returns (status: StackSetStatus, traffic: seq<TrafficEntry>)
    requires Separate(stacks) && views == Views(stacks)
    ensures Collected(spec, views, {}, status, traffic)
  {
    status, traffic := StackSetStatus(0, 0, 0, []), [];
    var todo := stacks.Keys;
    CollectedNothing(spec, views);
    while todo != {}
      invariant todo <= stacks.Keys && Collected(spec, views, todo, status, traffic)
    {
      var stackName :| stackName in todo;
      CollectedStep(spec, views, todo, status, traffic, stackName);
      ghost var s := views[stackName];
      status, traffic := ReportStack(spec, stackName, stacks[stackName], status, traffic);
      assert stacks[stackName].View() == s;
      todo := todo - {stackName};
    }
  }

  // ----- what is written is read back -----

  /** The list determines the weights it was written from. */
  lemma {:induction false} PublishedIsListed(list: seq<TrafficEntry>, w: Weights)
    requires Publishes(list, w)
    ensures Listed(list) == w
  {
    ListedMembers(list);
    forall n | n in w
      ensures n in Listed(list) && Listed(list)[n] == w[n]
    {
      assert TrafficEntry(n, w[n]) in list;
      var i :| 0 <= i < |list| && list[i] == TrafficEntry(n, w[n]);
      assert list[i].stackName in Listed(list);
    }
  }

  ghost predicate Ascending(list: seq<TrafficEntry>) {
    forall i, j :: 0 <= i < j < |list| ==> Less(list[i].stackName, list[j].stackName)
  }

  lemma {:induction false} ListedMembers(list: seq<TrafficEntry>)
    requires Ascending(list)
    ensures forall i :: 0 <= i < |list| ==>
            list[i].stackName in Listed(list) && Listed(list)[list[i].stackName] == list[i].weight
    ensures forall n :: n in Listed(list) ==> exists i :: 0 <= i < |list| && list[i].stackName == n
  {
    if list != [] {
      var front, last := list[..|list| - 1], list[|list| - 1];
      ListedMembers(front);
      forall i | 0 <= i < |front|
        ensures front[i] == list[i] && list[i].stackName != last.stackName
      {
        LessAsymmetric(list[i].stackName, last.stackName);
      }
    }
  }

  lemma {:induction false} PublishesSome(a: seq<TrafficEntry>, w: Weights)
    requires Publishes(a, w)
    ensures a == [] <==> w == map[]
  {
    if a != [] { assert a[0].stackName in w; }
    if w != map[] {
      var n :| n in w;
      assert TrafficEntry(n, w[n]) in a;
    }
  }

  /** The list does not depend on the order in which the map of stacks is visited. */
  lemma {:induction false} PublishedIsUnique(a: seq<TrafficEntry>, b: seq<TrafficEntry>, w: Weights)
    requires Publishes(a, w) && Publishes(b, w)
    ensures a == b
    decreases |a|
  {
    PublishesSome(a, w);
    PublishesSome(b, w);
    if a != [] {
      LastIsGreatest(a, b, w);
      PublishesFront(a, w);
      PublishesFront(b, w);
      PublishedIsUnique(a[..|a| - 1], b[..|b| - 1], w - {a[|a| - 1].stackName});
      FrontAndLast(a, b);
    }
  }

  lemma {:induction false} FrontAndLast(a: seq<TrafficEntry>, b: seq<TrafficEntry>)
    requires a != [] && b != [] && a[|a| - 1] == b[|b| - 1] && a[..|a| - 1] == b[..|b| - 1]
    ensures a == b
  {
    assert a == a[..|a| - 1] + [a[|a| - 1]] && b == b[..|b| - 1] + [b[|b| - 1]];
  }

  lemma {:induction false} LastIsGreatest(a: seq<TrafficEntry>, b: seq<TrafficEntry>, w: Weights)
    requires Publishes(a, w) && Publishes(b, w) && w != map[]
    ensures a != [] && b != [] && a[|a| - 1] == b[|b| - 1]
  {
    var n :| n in w;
    assert TrafficEntry(n, w[n]) in a && TrafficEntry(n, w[n]) in b;
    var x, y := a[|a| - 1], b[|b| - 1];
    assert TrafficEntry(x.stackName, w[x.stackName]) in b && TrafficEntry(y.stackName, w[y.stackName]) in a;
    if x.stackName != y.stackName {
      assert Less(x.stackName, y.stackName);
      LessAsymmetric(x.stackName, y.stackName);
    }
  }

  lemma {:induction false} PublishesFront(a: seq<TrafficEntry>, w: Weights)
    requires Publishes(a, w) && a != []
    ensures Publishes(a[..|a| - 1], w - {a[|a| - 1].stackName})
  {
    var front, last := a[..|a| - 1], a[|a| - 1];
    forall i | 0 <= i < |front|
      ensures front[i].stackName != last.stackName
    {
      LessAsymmetric(front[i].stackName, last.stackName);
    }
    forall n | n in w - {last.stackName}
      ensures TrafficEntry(n, w[n]) in front
    {
      assert TrafficEntry(n, w[n]) in a;
    }
  }
}
