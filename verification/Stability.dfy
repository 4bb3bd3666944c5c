/**
 Once a switch is complete it stays complete: later cycles with unchanged wishes
 change no weight, and within the reset timeout no prescaling target, although
 everything is saved and read again in every cycle and stacks are collected.
 */
module Stability {
  import opened Names
  import opened Sums
  import opened Weights
  import opened Stacks
  import opened Reconcilers
  import opened Traffic
  import opened Switching
  import opened Statuses
  import opened GarbageCollection
  import opened Cycles
  import opened Runs
  import opened Persistence

  /** Nobody changes the stack set or its stacks; the cluster may change resources and stack specs. */
  ghost predicate QuietEdit(w: World, w': World) {
    w'.spec == w.spec && w'.desired == w.desired && w'.stacks.Keys == w.stacks.Keys
  }

  /** A cycle whose traffic writes and deletions succeed. */
  ghost predicate QuietCycle(w: World, r: Round) {
    && w.spec.Enabled() && StacksHaveIngress(w)
    && r.writes.desired && r.writes.actual && r.removed <= r.writes.deletable
  }

  ghost predicate QuietRun(worlds: seq<World>, events: seq<Event>) {
    && Steps(worlds, events)
    && forall i :: 0 <= i < |events| ==> QuietStep(worlds[i], events[i], worlds[i + 1])
  }

  ghost predicate QuietStep(w: World, e: Event, w': World) {
    match e
    case Edit => QuietEdit(w, w')
    case Cycle(r) => QuietCycle(w, r)
  }

  /** The stored lists read as the canonical weights d (desired) and a (actual). */
  ghost predicate Reads(w: World, d: Weights, a: Weights) {
    && Readable(w) && w.spec.Enabled()
    && d.Keys == a.Keys == w.stacks.Keys && Canonical(d) && Canonical(a)
    && ReadWeights(w.desired, w.stacks.Keys) == d && ReadWeights(w.actual, w.stacks.Keys) == a
  }

  /** Both stored lists read as the canonical weights v. */
  ghost predicate AtRest(w: World, v: Weights) {
    Reads(w, v, v)
  }

  // ----- a completed cycle leaves the store at rest -----

  lemma {:induction false} WrittenKeys(w: World, views: StackMap, writes: Writes, deleted: set<Name>, w': World)
    requires views.Keys == w.stacks.Keys && Written(w, views, writes, deleted, w')
    ensures w'.stacks.Keys == w.stacks.Keys - deleted
  {
  }

  lemma {:induction false} StayingSucceeds(stacks: StackMap)
    ensures Succeeds(stacks, Staying(stacks))
  {
  }

  lemma {:induction false} FinalSucceeds(w: World, r: Round, w': World)
    requires CycleStep(w, r, w') && r.removed <= r.writes.deletable
    ensures w'.stacks.Keys == Staying(Final(r)) && Final(r).Keys == w.stacks.Keys
    ensures Succeeds(Final(r), w'.stacks.Keys)
  {
    FinalWeights(w, r);
    WrittenKeys(w, Final(r), r.writes, r.deleted, w');
    StayingSucceeds(Final(r));
  }

  lemma {:induction false} KeptIsCanonical(stacks: StackMap, v: Weights)
    requires v.Keys == stacks.Keys && Canonical(v) && NothingRemoved(stacks, v)
    ensures Canonical(Kept(v, Staying(stacks)))
  {
    StayingTotal(stacks, v);
  }

  lemma {:induction false} RestoredIsKept(stacks: StackMap, v: Weights, read: Weights)
    requires v.Keys == stacks.Keys && read.Keys == Staying(stacks) && Restored(stacks, v, read)
    ensures read == Kept(v, Staying(stacks))
  {
  }

  lemma {:induction false} FinalCarriesNothing(w: World, r: Round, w': World, d: Weights, a: Weights)
    requires CycleStep(w, r, w') && w.spec.Enabled() && StacksHaveIngress(w)
    requires Canonical(d) && Canonical(a) && Desired(r.managed) == d && Actual(r.managed) == a
    ensures Desired(Final(r)) == d && Actual(Final(r)) == a
    ensures NothingRemoved(Final(r), d) && NothingRemoved(Final(r), a)
  {
    FinalWeights(w, r);
    ManagedHaveIngress(w, r);
    CollectionKeepsTotal(w.spec, r.managed, r.removed, r.clock);
  }

  lemma {:induction false} DesiredRests(spec: StackSetSpec, stacks: StackMap, list: seq<TrafficEntry>, v: Weights)
    requires spec.Enabled() && Desired(stacks) == v && Canonical(v) && NothingRemoved(stacks, v)
    requires Publishes(list, SavedDesired(spec, stacks)) && Succeeds(stacks, Staying(stacks))
    ensures NonNegativeEntries(list) && ReadWeights(list, Staying(stacks)) == Kept(v, Staying(stacks))
  {
    DesiredSurvivesIff(spec, stacks, list, Staying(stacks));
    RestoredIsKept(stacks, v, ReadWeights(list, Staying(stacks)));
  }

  lemma {:induction false} ActualRests(spec: StackSetSpec, stacks: StackMap, list: seq<TrafficEntry>, v: Weights)
    requires spec.Enabled() && Actual(stacks) == v && Canonical(v) && NothingRemoved(stacks, v)
    requires Publishes(list, PublishedActual(spec, stacks)) && Succeeds(stacks, Staying(stacks))
    ensures NonNegativeEntries(list) && ReadWeights(list, Staying(stacks)) == Kept(v, Staying(stacks))
  {
    ActualSurvivesIff(spec, stacks, list, Staying(stacks));
    RestoredIsKept(stacks, v, ReadWeights(list, Staying(stacks)));
  }

  /** After a quiet cycle the next one reads exactly the weights this one left, for the stacks that stay. */
  lemma {:induction false} WrittenReads(w: World, r: Round, w': World, d: Weights, a: Weights)
    requires CycleStep(w, r, w') && QuietCycle(w, r)
    requires Canonical(d) && Canonical(a) && Desired(r.managed) == d && Actual(r.managed) == a
    ensures Reads(w', Kept(d, w'.stacks.Keys), Kept(a, w'.stacks.Keys))
  {
    FinalSucceeds(w, r, w');
    FinalCarriesNothing(w, r, w', d, a);
    DesiredRests(w.spec, Final(r), w'.desired, d);
    ActualRests(w.spec, Final(r), w'.actual, a);
    KeptIsCanonical(Final(r), d);
    KeptIsCanonical(Final(r), a);
  }

  // ----- a cycle at rest -----

  lemma {:induction false} RestIsStart(stacks: StackMap, v: Weights, c: Weights)
    requires v.Keys == stacks.Keys && Canonical(v) && Canonicalises(stacks, v, c)
    ensures c == v
  {
    NormalizedFixed(v);
    RoundedFixed(v);
  }

  lemma {:induction false} CanonicalStarts(stacks: StackMap, v: Weights, u: Weights, d: Weights, a: Weights)
    requires WellFormed(stacks) && Canonical(v) && Canonical(u) && Desired(stacks) == v && Actual(stacks) == u
    requires CanonicalStart(stacks, d, a)
    ensures d == v && a == u
  {
    RestIsStart(stacks, v, d);
    RestIsStart(stacks, u, a);
  }

  lemma {:induction false} CanonicalManages(spec: StackSetSpec, before: StackMap, after: StackMap, now: Time,
                                            clock: Time, v: Weights, u: Weights)
    requires WellFormed(before) && spec.Enabled() && before != map[] && Manages(spec, before, after, now, clock)
    requires Canonical(v) && Canonical(u) && Desired(before) == v && Actual(before) == u
    ensures ManagesFrom(spec, before, v, u, after, now, clock)
  {
    var d, a :| ManagesFrom(spec, before, d, a, after, now, clock);
    CanonicalStarts(before, v, u, d, a);
  }

  /** A cycle starts from exactly the canonical weights it reads. */
  lemma {:induction false} ReadsManages(w: World, r: Round, w': World, d: Weights, a: Weights)
    requires CycleStep(w, r, w') && Reads(w, d, a)
    ensures ManagesFrom(w.spec, Loaded(w), d, a, r.managed, r.now, r.clock) && Loaded(w).Keys == w.stacks.Keys
  {
    LoadedWeights(w);
    LoadedIsWellFormed(w);
    CanonicalHasTraffic(d);
    CanonicalManages(w.spec, Loaded(w), r.managed, r.now, r.clock, d, a);
  }

  /** At rest, a cycle changes no weight; prescaling changes only by ending after its timeout. */
  lemma {:induction false} RestCycle(w: World, r: Round, w': World, v: Weights, n: Name)
    requires CycleStep(w, r, w') && AtRest(w, v) && n in w.stacks
    ensures Desired(r.managed) == v && Actual(r.managed) == v && n in r.managed && n in Loaded(w)
    ensures KeepsPrescaling(w.spec.reconciler, r.managed[n], Loaded(w)[n], r.clock)
  {
    ReadsManages(w, r, w', v, v);
    StableRound(w.spec, Loaded(w), v, r.managed, r.now, r.clock, n);
  }

  lemma {:induction false} RestCycleRests(w: World, r: Round, w': World, v: Weights)
    requires CycleStep(w, r, w') && QuietCycle(w, r) && AtRest(w, v)
    ensures AtRest(w', Kept(v, w'.stacks.Keys)) && Desired(r.managed) == v && Actual(r.managed) == v
  {
    CanonicalHasTraffic(v);
    var n :| n in v;
    RestCycle(w, r, w', v, n);
    WrittenReads(w, r, w', v, v);
  }

  lemma {:induction false} KeptTwice(v: Weights, names: set<Name>, fewer: set<Name>)
    requires fewer <= names
    ensures Kept(Kept(v, names), fewer) == Kept(v, fewer)
  {
  }

  lemma {:induction false} KeysShrink(w: World, e: Event, w': World)
    requires Step(w, e, w') && QuietStep(w, e, w')
    ensures w'.stacks.Keys <= w.stacks.Keys
  {
  }

  /** From a completed switch on, the store stays at rest. */
  lemma {:induction false} StaysAtRest(worlds: seq<World>, events: seq<Event>, v: Weights, i: nat)
    requires QuietRun(worlds, events) && 1 <= i <= |events| && events[0].Cycle?
    requires Canonical(v) && Desired(events[0].round.managed) == v && Actual(events[0].round.managed) == v
    ensures AtRest(worlds[i], Kept(v, worlds[i].stacks.Keys))
  {
    assert Step(worlds[i - 1], events[i - 1], worlds[i]) && QuietStep(worlds[i - 1], events[i - 1], worlds[i]);
    if i == 1 {
      WrittenReads(worlds[0], events[0].round, worlds[1], v, v);
    } else {
      StaysAtRest(worlds, events, v, i - 1);
      KeysShrink(worlds[i - 1], events[i - 1], worlds[i]);
      var before := Kept(v, worlds[i - 1].stacks.Keys);
      KeptTwice(v, worlds[i - 1].stacks.Keys, worlds[i].stacks.Keys);
      if events[i - 1].Cycle? {
        RestCycleRests(worlds[i - 1], events[i - 1].round, worlds[i], before);
      }
    }
  }

  /**
   After a cycle in which the actual weights reached the desired ones, every later cycle of a
   quiet run leaves every stack that still exists at exactly its weight, desired and actual.
   */
  lemma {:induction false} SwitchStaysComplete(worlds: seq<World>, events: seq<Event>, i: nat, n: Name)
    requires QuietRun(worlds, events) && 0 < i < |events| && events[0].Cycle? && events[i].Cycle?
    requires Canonical(Desired(events[0].round.managed))
    requires Actual(events[0].round.managed) == Desired(events[0].round.managed)
    requires n in worlds[i].stacks
    ensures var (first, later) := (events[0].round.managed, events[i].round.managed);
            && n in first && n in later
            && later[n].desired == first[n].desired && later[n].actual == first[n].desired
  {
    var first, later := events[0].round.managed, events[i].round.managed;
    var v := Desired(first);
    StaysAtRest(worlds, events, v, i);
    CycleAt(worlds, events, i);
    var rest := Kept(v, worlds[i].stacks.Keys);
    RestCycle(worlds[i], events[i].round, worlds[i + 1], rest, n);
    assert n in rest && rest[n] == v[n];
    assert Desired(later)[n] == rest[n] && Actual(later)[n] == rest[n];
  }

  // ----- prescaling targets -----

  /** The stored status of n has the prescaling of s. */
  ghost predicate Remembers(w: World, n: Name, s: Stack) {
    n in w.stacks && w.stacks[n].status.prescaling == StatusOf(s).prescaling
  }

  lemma {:induction false} RemembersIsLoaded(w: World, n: Name, s: Stack)
    requires Readable(w) && Remembers(w, n, s) && s.prescalingActive
    ensures n in Loaded(w) && SamePrescaling(Loaded(w)[n], s)
  {
  }

  lemma {:induction false} SavedIsRemembered(w: World, r: Round, w': World, n: Name, s: Stack)
    requires CycleStep(w, r, w') && n in w'.stacks && n in r.writes.status
    requires n in r.managed && SamePrescaling(r.managed[n], s)
    ensures Remembers(w', n, s)
  {
    assert StatusOf(Final(r)[n]) == StatusOf(r.managed[n]);
  }

  /** The clock of the cycle is within the reset timeout of the prescaling of s. */
  predicate InTime(spec: StackSetSpec, s: Stack, clock: Time) {
    spec.reconciler.Prescaling? ==> clock - s.prescalingLastIncrease <= spec.reconciler.resetTimeout
  }

  lemma {:induction false} RestKeepsTarget(w: World, r: Round, w': World, v: Weights, n: Name, s: Stack)
    requires CycleStep(w, r, w') && AtRest(w, v) && Remembers(w, n, s) && s.prescalingActive
    requires InTime(w.spec, s, r.clock)
    ensures n in r.managed && SamePrescaling(r.managed[n], s)
  {
    RestCycle(w, r, w', v, n);
    RemembersIsLoaded(w, n, s);
  }

  /** The status of n is saved in every cycle before i, and no cycle up to i comes after the timeout. */
  ghost predicate Followed(worlds: seq<World>, events: seq<Event>, i: nat, n: Name, s: Stack)
    requires |worlds| == |events| + 1 && i <= |events|
  {
    && (forall j :: 0 <= j < i && events[j].Cycle? ==> n in events[j].round.writes.status)
    && (forall j :: 0 < j < i && events[j].Cycle? ==> InTime(worlds[j].spec, s, events[j].round.clock))
  }

  ghost predicate Completed(worlds: seq<World>, events: seq<Event>, v: Weights) {
    && QuietRun(worlds, events) && 1 <= |events| && events[0].Cycle?
    && Canonical(v) && Desired(events[0].round.managed) == v && Actual(events[0].round.managed) == v
  }

  lemma {:induction false} EditRemembers(w: World, w': World, n: Name, s: Stack)
    requires EditStep(w, w') && Remembers(w, n, s) && n in w'.stacks
    ensures Remembers(w', n, s)
  {
  }

  lemma {:induction false} RestRemembers(w: World, r: Round, w': World, v: Weights, n: Name, s: Stack)
    requires CycleStep(w, r, w') && AtRest(w, v) && Remembers(w, n, s) && s.prescalingActive
    requires InTime(w.spec, s, r.clock)
    requires n in w'.stacks && n in r.writes.status
    ensures Remembers(w', n, s)
  {
    RestKeepsTarget(w, r, w', v, n, s);
    SavedIsRemembered(w, r, w', n, s);
  }

  lemma {:induction false} FollowedEarlier(worlds: seq<World>, events: seq<Event>, i: nat, n: Name, s: Stack)
    requires |worlds| == |events| + 1 && 0 < i <= |events| && Followed(worlds, events, i, n, s)
    ensures Followed(worlds, events, i - 1, n, s)
    ensures events[i - 1].Cycle? ==> n in events[i - 1].round.writes.status
    ensures i > 1 && events[i - 1].Cycle? ==> InTime(worlds[i - 1].spec, s, events[i - 1].round.clock)
  {
  }

  lemma {:induction false} KeysShrinkAt(worlds: seq<World>, events: seq<Event>, i: nat)
    requires QuietRun(worlds, events) && i < |events|
    ensures Step(worlds[i], events[i], worlds[i + 1]) && worlds[i + 1].stacks.Keys <= worlds[i].stacks.Keys
  {
    assert Step(worlds[i], events[i], worlds[i + 1]) && QuietStep(worlds[i], events[i], worlds[i + 1]);
    KeysShrink(worlds[i], events[i], worlds[i + 1]);
  }

  lemma {:induction false} StaysAtRestIn(worlds: seq<World>, events: seq<Event>, v: Weights, i: nat)
    requires Completed(worlds, events, v) && 1 <= i <= |events|
    ensures AtRest(worlds[i], Kept(v, worlds[i].stacks.Keys))
  {
    StaysAtRest(worlds, events, v, i);
  }

  lemma {:induction false} CompletedSteps(worlds: seq<World>, events: seq<Event>, v: Weights)
    requires Completed(worlds, events, v)
    ensures QuietRun(worlds, events) && events != [] && events[0].Cycle?
  {
  }

  lemma {:induction false} RememberedStep(worlds: seq<World>, events: seq<Event>, v: Weights, i: nat, n: Name, s: Stack)
    requires Completed(worlds, events, v) && 1 < i <= |events| && n in worlds[i].stacks && s.prescalingActive
    requires |worlds| == |events| + 1 && Followed(worlds, events, i, n, s) && Remembers(worlds[i - 1], n, s)
    ensures Remembers(worlds[i], n, s)
  {
    FollowedEarlier(worlds, events, i, n, s);
    KeysShrinkAt(worlds, events, i - 1);
    if events[i - 1].Cycle? {
      StaysAtRestIn(worlds, events, v, i - 1);
      RestRemembers(worlds[i - 1], events[i - 1].round, worlds[i], Kept(v, worlds[i - 1].stacks.Keys), n, s);
    } else {
      EditRemembers(worlds[i - 1], worlds[i], n, s);
    }
  }

  lemma {:induction false} StaysRemembered(worlds: seq<World>, events: seq<Event>, v: Weights, i: nat, n: Name,
                                           s: Stack)
    requires Completed(worlds, events, v) && 1 <= i <= |events| && n in worlds[i].stacks
    requires n in events[0].round.managed && s == events[0].round.managed[n] && s.prescalingActive
    requires Followed(worlds, events, i, n, s)
    ensures Remembers(worlds[i], n, s)
  {
    CompletedSteps(worlds, events, v);
    FollowedEarlier(worlds, events, i, n, s);
    KeysShrinkAt(worlds, events, i - 1);
    if i == 1 {
      SavedIsRemembered(worlds[0], events[0].round, worlds[1], n, s);
    } else {
      StaysRemembered(worlds, events, v, i - 1, n, s);
      RememberedStep(worlds, events, v, i, n, s);
    }
  }

  /** Within the reset timeout a prescaled stack also keeps its target in every later cycle. */
  lemma {:induction false} TargetStays(worlds: seq<World>, events: seq<Event>, v: Weights, i: nat, n: Name)
    requires Completed(worlds, events, v) && 0 < i < |events| && events[i].Cycle? && n in worlds[i].stacks
    requires n in events[0].round.managed && events[0].round.managed[n].prescalingActive
    requires Followed(worlds, events, i, n, events[0].round.managed[n])
    requires InTime(worlds[i].spec, events[0].round.managed[n], events[i].round.clock)
    ensures n in events[i].round.managed && SamePrescaling(events[i].round.managed[n], events[0].round.managed[n])
  {
    var s := events[0].round.managed[n];
    StaysRemembered(worlds, events, v, i, n, s);
    StaysAtRest(worlds, events, v, i);
    CycleAt(worlds, events, i);
    RestKeepsTarget(worlds[i], events[i].round, worlds[i + 1], Kept(v, worlds[i].stacks.Keys), n, s);
  }
}
