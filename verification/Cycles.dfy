/**
 One reconcile cycle over what the cluster stores: read, manage traffic, mark
 expired stacks, compute segments, write back (controller/stackset.go,
 pkg/core/types.go).

 A cycle is a transition between stored states.  Any of its writes may fail, in
 which case the old value stays.
 */
module Cycles {
  import opened Names
  import opened Sums
  import opened Weights
  import opened Options
  import opened Stacks
  import opened Reconcilers
  import opened Traffic
  import opened Statuses
  import opened GarbageCollection
  import opened Layout
  import opened Segments
  import opened Recompute
  import Switching
  import Persistence

  const DEFAULT_SCALEDOWN_TTL: nat := 300

  // ----- what is stored between cycles -----

  datatype StoredStack = StoredStack(spec: StackObject, resources: Resources, status: StackStatus)

  /** The stack set's spec, its desired and actual traffic lists, and its stacks. */
  datatype World = World(
    spec: StackSetSpec,
    desired: seq<TrafficEntry>,
    actual: seq<TrafficEntry>,
    stacks: map<Name, StoredStack>)

  ghost predicate Readable(w: World) {
    NonNegativeEntries(w.desired) && NonNegativeEntries(w.actual)
  }

  function ScaledownTTL(spec: StackSetSpec): nat {
    if spec.scaledownTTL.None? then DEFAULT_SCALEDOWN_TTL else spec.scaledownTTL.value
  }

  function NewContainer(spec: StackSetSpec, s: StoredStack): (c: Stack)
    ensures Blank(c)
  {
    Stack(s.spec, s.resources, ScaledownTTL(spec), false, 0.0, 0.0, 0.0, 0.0, ZERO_TIME, false, 0, 0.0, ZERO_TIME, 0.0)
  }

  ghost function NewContainers(w: World): StackMap {
    map n | n in w.stacks :: NewContainer(w.spec, w.stacks[n])
  }

  ghost function WithStatuses(w: World, stacks: StackMap): StackMap
    requires stacks.Keys == w.stacks.Keys
  {
    map n | n in stacks :: WithStatus(stacks[n], w.stacks[n].status)
  }

  lemma {:induction false} ScaledNonNegative(w: Weights)
    requires NonNegative(w)
    ensures NonNegative(Scaled(w))
  {
    if !AllZero(w) { NormalizedTotal(w); }
  }

  lemma {:induction false} ReadNonNegative(list: seq<TrafficEntry>, names: set<Name>)
    requires NonNegativeEntries(list)
    ensures NonNegative(ReadWeights(list, names)) && ReadWeights(list, names).Keys == names
  {
    ListedNonNegative(list);
    ScaledNonNegative(Kept(Listed(list), names));
  }

  /** Weights are read only if there is traffic to manage. */
  ghost function WeightsFor(w: World, list: seq<TrafficEntry>): (r: Weights)
    requires NonNegativeEntries(list)
    ensures NonNegative(r) && r.Keys == w.stacks.Keys
  {
    ReadNonNegative(list, w.stacks.Keys);
    if w.spec.Enabled() then ReadWeights(list, w.stacks.Keys) else map n | n in w.stacks :: 0.0
  }

  ghost function LoadedStack(spec: StackSetSpec, s: StoredStack, desired: real, actual: real): Stack {
    WithStatus(NewContainer(spec, s), s.status).(desired := desired, actual := actual)
  }

  ghost function LoadedFrom(w: World, d: Weights, a: Weights): StackMap
    requires d.Keys == a.Keys == w.stacks.Keys
  {
    map n | n in w.stacks :: LoadedStack(w.spec, w.stacks[n], d[n], a[n])
  }

  /** The containers after `UpdateFromResources`. */
  ghost function Loaded(w: World): StackMap
    requires Readable(w)
  {
    LoadedFrom(w, WeightsFor(w, w.desired), WeightsFor(w, w.actual))
  }

  lemma {:induction false} LoadedWeights(w: World)
    requires Readable(w)
    ensures Desired(Loaded(w)) == WeightsFor(w, w.desired)
    ensures Actual(Loaded(w)) == WeightsFor(w, w.actual)
  {
  }

  lemma {:induction false} LoadedIsWellFormed(w: World)
    requires Readable(w)
    ensures WellFormed(Loaded(w)) && Loaded(w).Keys == w.stacks.Keys
    ensures forall n :: n in Loaded(w) ==> !Loaded(w)[n].pendingRemoval && Limits(Loaded(w)[n]) == EMPTY
  {
    var d, a := WeightsFor(w, w.desired), WeightsFor(w, w.actual);
    forall n | n in w.stacks
      ensures n in Loaded(w) && Loaded(w)[n].desired >= 0.0 && Loaded(w)[n].actual >= 0.0
      ensures !Loaded(w)[n].pendingRemoval && Limits(Loaded(w)[n]) == EMPTY
    {
      assert d[n] >= 0.0 && a[n] >= 0.0;
    }
  }

  lemma {:induction false} LoadedWithoutTraffic(w: World)
    requires Readable(w) && !w.spec.Enabled()
    ensures Loaded(w) == WithStatuses(w, NewContainers(w))
  {
  }

  lemma {:induction false} LoadedWithTraffic(w: World)
    requires Readable(w) && w.spec.Enabled()
    ensures WithStatuses(w, NewContainers(w)).Keys == w.stacks.Keys
    ensures Loaded(w) == WithActual(
              WithDesired(WithStatuses(w, NewContainers(w)), WeightsFor(w, w.desired)), WeightsFor(w, w.actual))
  {
  }

  // ----- a cycle -----

  /** Which writes the cluster accepts. */
  datatype Writes = Writes(desired: bool, actual: bool, status: set<Name>, deletable: set<Name>)

  /**
   What happens in one cycle: the state after traffic management, the marked and the deleted stacks,
   the clocks, the writes.
   */
  datatype Round = Round(
    managed: StackMap,
    removed: set<Name>,
    deleted: set<Name>,
    now: Time,
    clock: Time,
    writes: Writes)

  /** Deletion goes through the marked stacks in any order and stops at the first that fails. */
  predicate CleansUp(marked: set<Name>, deletable: set<Name>, deleted: set<Name>) {
    deleted <= marked * deletable && (marked <= deletable ==> deleted == marked)
  }

  /** The weights, idle times and removals a cycle decides on. */
  ghost predicate Decides(w: World, r: Round)
    requires Readable(w) && WellFormed(Loaded(w))
  {
    && ZERO_TIME < r.now <= r.clock
    && Manages(w.spec, Loaded(w), r.managed, r.now, r.clock)
    && Expires(w.spec, r.managed, r.removed, r.clock)
    && CleansUp(r.removed, r.writes.deletable, r.deleted)
  }

  ghost function Final(r: Round): StackMap {
    Marked(r.managed, r.removed)
  }

  function SavedStack(s: StoredStack, status: StackStatus, saved: bool): StoredStack {
    if saved then s.(status := status) else s
  }

  ghost function SavedStacks(w: World, views: StackMap, saved: set<Name>, deleted: set<Name>): map<Name, StoredStack>
    requires views.Keys == w.stacks.Keys
  {
    map n | n in w.stacks && n !in deleted :: SavedStack(w.stacks[n], StatusOf(views[n]), n in saved)
  }

  /** w' is what is stored after the containers were written back; some writes may have failed. */
  ghost predicate Written(w: World, views: StackMap, writes: Writes, deleted: set<Name>, w': World)
    requires views.Keys == w.stacks.Keys
  {
    && w'.spec == w.spec
    && w'.stacks == SavedStacks(w, views, writes.status, deleted)
    && (if writes.desired then Publishes(w'.desired, SavedDesired(w.spec, views)) else w'.desired == w.desired)
    && (if writes.actual then Publishes(w'.actual, PublishedActual(w.spec, views)) else w'.actual == w.actual)
  }

  ghost predicate CycleStep(w: World, r: Round, w': World) {
    && Readable(w) && WellFormed(Loaded(w)) && Decides(w, r)
    && r.managed.Keys == w.stacks.Keys && Written(w, Final(r), r.writes, r.deleted, w')
  }

  // ----- the methods -----

  /** A container for every stack, as the controller collects them. */
  method CollectContainers(w: World) returns (stacks: Containers)
    ensures Separate(stacks) && fresh(stacks.Values) && Views(stacks) == NewContainers(w)
  {
    stacks := map[];
    var todo := w.stacks.Keys;
    while todo != {}
      invariant todo <= w.stacks.Keys
      invariant Separate(stacks) && forall n :: n in stacks ==> fresh(stacks[n])
      invariant stacks.Keys == w.stacks.Keys - todo
      invariant forall n :: n in stacks ==> stacks[n].View() == NewContainer(w.spec, w.stacks[n])
    {
      var n :| n in todo;
      var sc := new StackContainer(n, NewContainer(w.spec, w.stacks[n]));
      stacks := stacks[n := sc];
      todo := todo - {n};
    }
  }

  method LoadStatus(stacks: Containers, n: Name, status: StackStatus)
    requires Separate(stacks) && n in stacks
    modifies stacks.Values
    ensures Views(stacks) == old(Views(stacks))[n := WithStatus(old(Views(stacks))[n], status)]
  {
    UpdateFromStatus(stacks[n], status);
  }

  method LoadStatuses(w: World, stacks: Containers)
    requires Separate(stacks) && stacks.Keys == w.stacks.Keys
    modifies stacks.Values
    ensures Views(stacks) == WithStatuses(w, old(Views(stacks)))
  {
    ghost var before := Views(stacks);
    ghost var after := WithStatuses(w, before);
    PartlyEnds(before, after);
    var todo := stacks.Keys;
    while todo != {}
      invariant todo <= stacks.Keys && Views(stacks) == Partly(before, after, todo)
    {
      var n :| n in todo;
      PartlyStep(before, after, todo, n);
      LoadStatus(stacks, n, w.stacks[n].status);
      todo := todo - {n};
    }
  }

  /** `UpdateFromResources`. */
  method UpdateFromResources(w: World, stacks: Containers)
    requires Readable(w) && Separate(stacks) && Views(stacks) == NewContainers(w)
    modifies stacks.Values
    ensures Views(stacks) == Loaded(w)
  {
    assert stacks.Keys == Views(stacks).Keys == w.stacks.Keys;
    LoadStatuses(w, stacks);
    if w.spec.Enabled() { LoadedWithTraffic(w); } else { LoadedWithoutTraffic(w); }
    if w.spec.Enabled() {
      UpdateDesiredTraffic(stacks, w.desired);
      UpdateActualTraffic(stacks, w.actual);
    }
  }

  /** segmented differs from stacks in the segments only. */
  ghost predicate OnlySegments(stacks: StackMap, segmented: StackMap) {
    segmented.Keys == stacks.Keys && forall n :: n in stacks ==>
            segmented[n] == WithSegment(stacks[n], Limits(segmented[n]))
  }

  lemma {:induction false} ComputesOnlySegments(stacks: StackMap, active: seq<Segment>, newcomers: seq<Segment>,
                                                after: StackMap, rollout: seq<Name>)
    requires Parseable(stacks) && Computes(stacks, active, newcomers, after, rollout)
    ensures OnlySegments(stacks, after)
  {
    AssignedOnlySegments(stacks, SharesIn(stacks), active + newcomers, after);
  }

  lemma {:induction false} AssignedOnlySegments(stacks: StackMap, shares: Shares, order: seq<Segment>, after: StackMap)
    requires Known(shares, order) && shares.Keys == stacks.Keys && Assigned(stacks, shares, order, after)
    ensures OnlySegments(stacks, after)
  {
    forall n | n in stacks
      ensures after[n] == WithSegment(stacks[n], Limits(after[n]))
    {
      if Mentions(order, n) {
        var i :| 0 <= i < |order| && order[i].id == n;
        assert after[order[i].id] == WithSegment(stacks[order[i].id], Placed(shares, order, i));
      }
    }
  }

  lemma {:induction false} SegmentsAreNotSaved(spec: StackSetSpec, stacks: StackMap, segmented: StackMap)
    requires OnlySegments(stacks, segmented)
    ensures SavedDesired(spec, segmented) == SavedDesired(spec, stacks)
    ensures PublishedActual(spec, segmented) == PublishedActual(spec, stacks)
    ensures forall n :: n in stacks ==> StatusOf(segmented[n]) == StatusOf(stacks[n])
  {
  }

  /** First half of a cycle: containers read from the store, with traffic managed and expired stacks marked. */
  method Decide(w: World, now: Time, clock: Time) returns (stacks: Containers, ghost managed: StackMap,
                ghost removed: set<Name>)
    requires Readable(w)
    ensures Separate(stacks) && fresh(stacks.Values)
    ensures WellFormed(Loaded(w)) && Manages(w.spec, Loaded(w), managed, now, clock)
    ensures Expires(w.spec, managed, removed, clock) && Views(stacks) == Marked(managed, removed)
  {
    LoadedIsWellFormed(w);
    stacks := CollectContainers(w);
    UpdateFromResources(w, stacks);
    var container := new StackSetContainer(w.spec, stacks);
    var outcome := container.ManageTraffic(now, clock);
    managed := Views(stacks);
    ManagesWithout(w.spec, Loaded(w), managed, now, clock, outcome);
    removed := MarkExpiredStacks(w.spec, stacks, clock);
  }

  /** The traffic segments; an error is only logged. */
  method ReconcileTrafficSegments(stacks: Containers) returns (segsInOrder: seq<Name>)
    requires Separate(stacks)
    modifies stacks.Values
    ensures OnlySegments(old(Views(stacks)), Views(stacks))
    ensures Parseable(old(Views(stacks))) ==>
              exists active, newcomers :: Computes(old(Views(stacks)), active, newcomers, Views(stacks), segsInOrder)
  {
    ghost var before := Views(stacks);
    var ordered;
    ghost var active, newcomers;
    ordered, active, newcomers := ComputeTrafficSegments(stacks);
    segsInOrder := [];
    if ordered.Some? {
      segsInOrder := ordered.value;
      ComputesOnlySegments(before, active, newcomers, Views(stacks), segsInOrder);
    }
  }

  ghost function MarkedIn(stacks: StackMap): set<Name> {
    set n | n in stacks && stacks[n].pendingRemoval
  }

  /** `CleanupOldStacks`: deletes marked stacks until one deletion fails. */
  method CleanupOldStacks(stacks: Containers, deletable: set<Name>) returns (deleted: set<Name>)
    requires Separate(stacks)
    ensures CleansUp(MarkedIn(Views(stacks)), deletable, deleted)
  {
    ghost var marked := MarkedIn(Views(stacks));
    ghost var views := Views(stacks);
    deleted := {};
    var todo := stacks.Keys;
    while todo != {}
      invariant todo <= stacks.Keys
      invariant deleted == marked - todo && deleted <= deletable
    {
      var n :| n in todo;
      assert stacks[n].View() == views[n];
      if stacks[n].pendingRemoval {
        if n !in deletable {
          return;
        }
        deleted := deleted + {n};
      }
      todo := todo - {n};
    }
  }

  /** The stack statuses of `ReconcileStatuses`; deleted stacks are gone. */
  method SaveStatuses(w: World, stacks: Containers, statusSaved: set<Name>,
                      deleted: set<Name>) returns (saved: map<Name, StoredStack>)
    requires Separate(stacks) && stacks.Keys == w.stacks.Keys
    ensures saved == map n | n in w.stacks && n !in deleted ::
                       SavedStack(w.stacks[n], StatusOf(Views(stacks)[n]), n in statusSaved)
  {
    ghost var views := Views(stacks);
    saved := map[];
    var todo := stacks.Keys;
    while todo != {}
      invariant todo <= stacks.Keys
      invariant saved == map n | n in w.stacks && n !in deleted && n !in todo ::
                         SavedStack(w.stacks[n], StatusOf(views[n]), n in statusSaved)
    {
      var n :| n in todo;
      assert stacks[n].View() == views[n];
      if n !in deleted {
        saved := saved[n := SavedStack(w.stacks[n], StatusOf(stacks[n].View()), n in statusSaved)];
      }
      todo := todo - {n};
    }
  }

  /** next is stored once the containers are written back and the marked stacks cleaned up. */
  ghost predicate WrittenBack(w: World, views: StackMap, writes: Writes, next: World)
    requires views.Keys == w.stacks.Keys
  {
    exists deleted :: CleansUp(MarkedIn(views), writes.deletable, deleted) && Written(w, views, writes, deleted, next)
  }

  /** Second half of a cycle: everything is written back, as far as the cluster accepts it. */
  method Save(w: World, stacks: Containers, writes: Writes, ghost views: StackMap) returns (next: World)
    requires Separate(stacks) && Views(stacks) == views && views.Keys == w.stacks.Keys
    ensures WrittenBack(w, views, writes, next)
  {
    assert stacks.Keys == views.Keys;
    var desired := SaveDesired(w, stacks, writes, views);
    var deleted := CleanupOldStacks(stacks, writes.deletable);
    var saved := SaveStatuses(w, stacks, writes.status, deleted);
    var actual := SaveActual(w, stacks, writes, views);
    next := World(w.spec, desired, actual, saved);
    assert Written(w, views, writes, deleted, next);
  }

  /** The traffic list in the stack set's spec. */
  method SaveDesired(w: World, stacks: Containers, writes: Writes, ghost views: StackMap)
    returns (desired: seq<TrafficEntry>)
    requires Separate(stacks) && Views(stacks) == views
    ensures if writes.desired then Publishes(desired, SavedDesired(w.spec, views)) else desired == w.desired
  {
    desired := w.desired;
    var updatedTraffic := GenerateStackSetTraffic(w.spec, stacks);
    if writes.desired { desired := updatedTraffic; }
  }

  /** The traffic list in the stack set's status. */
  method SaveActual(w: World, stacks: Containers, writes: Writes, ghost views: StackMap)
    returns (actual: seq<TrafficEntry>)
    requires Separate(stacks) && Views(stacks) == views
    ensures if writes.actual then Publishes(actual, PublishedActual(w.spec, views)) else actual == w.actual
  {
    actual := w.actual;
    var status := GenerateStackSetStatus(w.spec, stacks);
    if writes.actual { actual := status.traffic; }
  }

  /** next is stored after a cycle on w with these clock readings, of whose writes the given ones succeed. */
  ghost predicate Reconciles(w: World, now: Time, clock: Time, writes: Writes, next: World) {
    exists r :: CycleStep(w, r, next) && RunsAt(r, now, clock, writes)
  }

  predicate RunsAt(r: Round, now: Time, clock: Time, writes: Writes) {
    r.now == now && r.clock == clock && r.writes == writes
  }

  /** `ReconcileStackSet`: one cycle on mutable containers takes the store through a cycle step. */
  method ReconcileStackSet(w: World, now: Time, clock: Time, writes: Writes) returns (next: World)
    requires Readable(w) && ZERO_TIME < now <= clock
    ensures Reconciles(w, now, clock, writes, next)
  {
    var stacks;
    ghost var managed, removed;
    stacks, managed, removed := Decide(w, now, clock);
    DecidedKeys(w, managed, removed, now, clock);
    var segsInOrder := ReconcileTrafficSegments(stacks);
    ghost var views := Views(stacks);
    next := Save(w, stacks, writes, views);
    ghost var r := WrittenIsCycle(w, managed, removed, now, clock, writes, views, next);
  }

  lemma {:induction false} DecidedKeys(w: World, managed: StackMap, removed: set<Name>, now: Time, clock: Time)
    requires Readable(w) && WellFormed(Loaded(w)) && Manages(w.spec, Loaded(w), managed, now, clock)
    ensures managed.Keys == w.stacks.Keys
    ensures forall n :: n in managed ==> !managed[n].pendingRemoval && Limits(managed[n]) == EMPTY
    ensures removed <= managed.Keys ==>
              && Staying(Marked(managed, removed)) == managed.Keys - removed
              && Actual(Marked(managed, removed)) == Actual(managed) && Desired(Marked(managed, removed)) ==
                      Desired(managed)
  {
    LoadedIsWellFormed(w);
    Switching.RoundKeys(w.spec, Loaded(w), managed, now, clock);
    forall n | n in managed
      ensures !managed[n].pendingRemoval && Limits(managed[n]) == EMPTY
    {
      Switching.RoundKeeps(w.spec, Loaded(w), managed, now, clock, n);
    }
    if removed <= managed.Keys {
      Persistence.MarkedIsRemoved(managed, removed);
    }
  }

  lemma {:induction false} SameStatusesSaved(w: World, a: StackMap, b: StackMap, saved: set<Name>, deleted: set<Name>)
    requires a.Keys == b.Keys == w.stacks.Keys && forall n :: n in a ==> StatusOf(a[n]) == StatusOf(b[n])
    ensures SavedStacks(w, a, saved, deleted) == SavedStacks(w, b, saved, deleted)
  {
  }

  /** Writing the containers with their segments is writing them without. */
  lemma {:induction false} WrittenWithoutSegments(w: World, stacks: StackMap, segmented: StackMap, writes: Writes,
                                        deleted: set<Name>, w': World)
    requires OnlySegments(stacks, segmented) && segmented.Keys == w.stacks.Keys
    requires Written(w, segmented, writes, deleted, w')
    ensures Written(w, stacks, writes, deleted, w') && Staying(segmented) == Staying(stacks)
  {
    SegmentsAreNotSaved(w.spec, stacks, segmented);
    SameStatusesSaved(w, stacks, segmented, writes.status, deleted);
  }

  lemma {:induction false} OnlyMarked(stacks: StackMap, segmented: StackMap, removed: set<Name>)
    requires OnlySegments(Marked(stacks, removed), segmented) && removed <= stacks.Keys
    requires forall n :: n in stacks ==> !stacks[n].pendingRemoval
    ensures MarkedIn(segmented) == removed
  {
    forall n | n in stacks
      ensures segmented[n].pendingRemoval <==> n in removed
    {
      assert segmented[n] == WithSegment(Marked(stacks, removed)[n], Limits(segmented[n]));
    }
  }

  lemma {:induction false} WrittenIsCycle(w: World, managed: StackMap, removed: set<Name>, now: Time, clock: Time,
                                          writes: Writes, segmented: StackMap, next: World) returns (r: Round)
    requires Readable(w) && WellFormed(Loaded(w)) && ZERO_TIME < now <= clock
    requires Manages(w.spec, Loaded(w), managed, now, clock) && Expires(w.spec, managed, removed, clock)
    requires OnlySegments(Marked(managed, removed), segmented) && segmented.Keys == w.stacks.Keys
    requires WrittenBack(w, segmented, writes, next)
    ensures CycleStep(w, r, next) && RunsAt(r, now, clock, writes)
  {
    var deleted :| CleansUp(MarkedIn(segmented), writes.deletable, deleted)
                   && Written(w, segmented, writes, deleted, next);
    DecidedKeys(w, managed, removed, now, clock);
    OnlyMarked(managed, segmented, removed);
    r := Round(managed, removed, deleted, now, clock, writes);
    WrittenWithoutSegments(w, Final(r), segmented, writes, deleted, next);
  }
}
