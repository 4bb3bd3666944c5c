/**
 Whole runs: any number of cycles, with edits of users and of the cluster in
 between, from a stack set that was never reconciled.
 */
module Runs {
  import opened Names
  import opened Options
  import opened Sums
  import opened Weights
  import opened Stacks
  import opened Reconcilers
  import opened Traffic
  import opened Switching
  import opened Statuses
  import opened GarbageCollection
  import opened Cycles
  import opened Layout
  import opened Partition
  import opened Segments
  import opened Recompute
  import Persistence

  // ----- runs -----

  /** Between cycles anything may change except what only the controller writes. */
  ghost predicate EditStep(w: World, w': World) {
    && w'.actual == w.actual
    && NonNegativeEntries(w'.desired)
    && forall n :: n in w'.stacks ==> w'.stacks[n].status == if n in w.stacks then w.stacks[n].status else NEW_STATUS
  }

  datatype Event = Edit | Cycle(round: Round)

  ghost predicate Step(w: World, e: Event, w': World) {
    match e
    case Edit => EditStep(w, w')
    case Cycle(r) => CycleStep(w, r, w')
  }

  ghost predicate Initial(w: World) {
    && NonNegativeEntries(w.desired) && w.actual == []
    && forall n :: n in w.stacks ==> w.stacks[n].status == NEW_STATUS
  }

  /** worlds[i] goes through events[i] to worlds[i + 1]. */
  ghost predicate Steps(worlds: seq<World>, events: seq<Event>) {
    |worlds| == |events| + 1 && forall i :: 0 <= i < |events| ==> Step(worlds[i], events[i], worlds[i + 1])
  }

  ghost predicate Run(worlds: seq<World>, events: seq<Event>) {
    Steps(worlds, events) && Initial(worlds[0])
  }

  // ----- the stored state stays sound -----

  ghost predicate SoundStatus(s: StackStatus) {
    s.prescaling.active ==>
      s.prescaling.desiredTrafficWeight > 0.0 && UnwrapTime(s.prescaling.lastTrafficIncrease) != ZERO_TIME
  }

  ghost predicate SoundWorld(w: World) {
    Readable(w) && forall n :: n in w.stacks ==> SoundStatus(w.stacks[n].status)
  }

  lemma {:induction false} LoadedIsSound(w: World)
    requires SoundWorld(w)
    ensures AllSound(Loaded(w))
  {
    forall n | n in w.stacks
      ensures n in Loaded(w) && Sound(Loaded(w)[n])
    {
      assert SoundStatus(w.stacks[n].status);
    }
  }

  lemma {:induction false} SavedIsSound(s: Stack)
    requires Sound(s)
    ensures SoundStatus(StatusOf(s))
  {
  }

  lemma {:induction false} PublishedIsNonNegative(list: seq<TrafficEntry>, w: Weights)
    requires Publishes(list, w) && NonNegative(w)
    ensures NonNegativeEntries(list)
  {
  }

  lemma {:induction false} ManagedIsWellFormed(spec: StackSetSpec, before: StackMap, after: StackMap, now: Time,
                                        clock: Time)
    requires WellFormed(before) && Manages(spec, before, after, now, clock)
    ensures NonNegative(Desired(after)) && NonNegative(Actual(after))
  {
    if spec.Enabled() && before != map[] {
      var d, a :| ManagesFrom(spec, before, d, a, after, now, clock);
      AllOrNothing(spec, before, d, a, after, now, clock);
    }
  }

  lemma {:induction false} FinalWeights(w: World, r: Round)
    requires Readable(w) && WellFormed(Loaded(w)) && Decides(w, r)
    ensures r.managed.Keys == w.stacks.Keys && r.removed <= r.managed.Keys
    ensures Actual(Final(r)) == Actual(r.managed) && Desired(Final(r)) == Desired(r.managed)
    ensures Staying(Final(r)) == r.managed.Keys - r.removed
    ensures forall n :: n in r.managed ==> !r.managed[n].pendingRemoval
  {
    DecidedKeys(w, r.managed, r.removed, r.now, r.clock);
  }

  lemma {:induction false} WrittenIsReadable(w: World, r: Round, w': World)
    requires CycleStep(w, r, w')
    ensures Readable(w')
  {
    FinalWeights(w, r);
    ManagedIsWellFormed(w.spec, Loaded(w), r.managed, r.now, r.clock);
    WritesAreNonNegative(w.spec, Final(r));
    if r.writes.desired { PublishedIsNonNegative(w'.desired, SavedDesired(w.spec, Final(r))); }
    if r.writes.actual { PublishedIsNonNegative(w'.actual, PublishedActual(w.spec, Final(r))); }
  }

  lemma {:induction false} WritesAreNonNegative(spec: StackSetSpec, stacks: StackMap)
    requires NonNegative(Desired(stacks)) && NonNegative(Actual(stacks))
    ensures NonNegative(SavedDesired(spec, stacks)) && NonNegative(PublishedActual(spec, stacks))
  {
    assert forall n :: n in stacks ==> Desired(stacks)[n] == stacks[n].desired && Actual(stacks)[n] == stacks[n].actual;
  }

  lemma {:induction false} CycleManagedIsSound(w: World, r: Round, w': World)
    requires SoundWorld(w) && CycleStep(w, r, w')
    ensures AllSound(r.managed)
  {
    LoadedIsSound(w);
    RoundKeepsSound(w.spec, Loaded(w), r.managed, r.now, r.clock);
  }

  lemma {:induction false} CycleKeepsSound(w: World, r: Round, w': World)
    requires SoundWorld(w) && CycleStep(w, r, w')
    ensures SoundWorld(w')
  {
    WrittenIsReadable(w, r, w');
    CycleManagedIsSound(w, r, w');
    forall n | n in w'.stacks
      ensures SoundStatus(w'.stacks[n].status)
    {
      SavedIsSound(r.managed[n]);
      assert StatusOf(Final(r)[n]) == StatusOf(r.managed[n]);
      assert SoundStatus(w.stacks[n].status);
    }
  }

  lemma {:induction false} EditKeepsSound(w: World, w': World)
    requires SoundWorld(w) && EditStep(w, w')
    ensures SoundWorld(w')
  {
  }

  lemma {:induction false} StepKeepsSound(w: World, e: Event, w': World)
    requires SoundWorld(w) && Step(w, e, w')
    ensures SoundWorld(w')
  {
    match e
    case Edit => EditKeepsSound(w, w');
    case Cycle(r) => CycleKeepsSound(w, r, w');
  }

  lemma {:induction false} InitialIsSound(w: World)
    requires Initial(w)
    ensures SoundWorld(w)
  {
  }

  lemma {:induction false} StepAt(worlds: seq<World>, events: seq<Event>, i: nat)
    requires Steps(worlds, events) && i < |events|
    ensures Step(worlds[i], events[i], worlds[i + 1])
  {
  }

  lemma {:induction false} StaysSound(worlds: seq<World>, events: seq<Event>, i: nat)
    requires Steps(worlds, events) && i < |events| && SoundWorld(worlds[i])
    ensures SoundWorld(worlds[i + 1])
  {
    StepAt(worlds, events, i);
    StepKeepsSound(worlds[i], events[i], worlds[i + 1]);
  }

  /** Whatever the run, and whichever writes fail: active prescaling always remembers a positive weight and a time. */
  lemma {:induction false} RunIsSound(worlds: seq<World>, events: seq<Event>, i: nat)
    requires Run(worlds, events) && i < |worlds|
    ensures SoundWorld(worlds[i])
  {
    if i == 0 {
      InitialIsSound(worlds[0]);
    } else {
      RunIsSound(worlds, events, i - 1);
      StaysSound(worlds, events, i - 1);
    }
  }

  // ----- stored targets and the maximum of the autoscaler -----

  predicate StoredWithin(s: StoredStack) {
    s.status.prescaling.active ==> s.status.prescaling.replicas <= MaximumOf(s.spec)
  }

  ghost predicate AllWithin(w: World) {
    forall n :: n in w.stacks ==> StoredWithin(w.stacks[n])
  }

  /** No stack's maximum is lowered below the target it is prescaled to. */
  ghost predicate KeepsMaxima(w: World, w': World) {
    forall n :: n in w.stacks && n in w'.stacks && w.stacks[n].status.prescaling.active ==>
      w.stacks[n].status.prescaling.replicas <= MaximumOf(w'.stacks[n].spec)
  }

  lemma {:induction false} LoadedIsWithin(w: World, n: Name)
    requires Readable(w) && n in w.stacks && StoredWithin(w.stacks[n])
    ensures n in Loaded(w) && WithinMaximum(Loaded(w)[n])
  {
  }

  /** In a cycle that starts with bounded targets every target is bounded, fresh or old. */
  lemma {:induction false} CycleIsWithin(w: World, r: Round, w': World, n: Name)
    requires CycleStep(w, r, w') && n in w.stacks && StoredWithin(w.stacks[n])
    ensures n in r.managed && WithinMaximum(r.managed[n])
  {
    LoadedIsWithin(w, n);
    RoundKeepsWithin(w.spec, Loaded(w), r.managed, r.now, r.clock, n);
  }

  lemma {:induction false} SavedIsWithin(w: World, r: Round, w': World, n: Name)
    requires CycleStep(w, r, w') && n in w'.stacks && n in w.stacks && StoredWithin(w.stacks[n])
    ensures StoredWithin(w'.stacks[n])
  {
    CycleIsWithin(w, r, w', n);
    ManagedFixed(w, r, n);
    assert StatusOf(Final(r)[n]) == StatusOf(r.managed[n]);
  }

  lemma {:induction false} CycleKeepsWithin(w: World, r: Round, w': World)
    requires CycleStep(w, r, w') && AllWithin(w)
    ensures AllWithin(w')
  {
    forall n | n in w'.stacks
      ensures StoredWithin(w'.stacks[n])
    {
      SavedIsWithin(w, r, w', n);
    }
  }

  lemma {:induction false} EditKeepsWithinIff(w: World, w': World)
    requires EditStep(w, w')
    ensures AllWithin(w') <==> KeepsMaxima(w, w')
  {
  }

  lemma {:induction false} StepKeepsWithin(w: World, e: Event, w': World)
    requires Step(w, e, w') && AllWithin(w) && (e.Edit? ==> KeepsMaxima(w, w'))
    ensures AllWithin(w')
  {
    match e
    case Edit => EditKeepsWithinIff(w, w');
    case Cycle(r) => CycleKeepsWithin(w, r, w');
  }

  lemma {:induction false} RunIsWithin(worlds: seq<World>, events: seq<Event>, i: nat)
    requires Run(worlds, events) && i < |worlds|
    requires forall j :: 0 <= j < |events| && events[j].Edit? ==> KeepsMaxima(worlds[j], worlds[j + 1])
    ensures AllWithin(worlds[i])
  {
    if i > 0 {
      RunIsWithin(worlds, events, i - 1);
      StepAt(worlds, events, i - 1);
      StepKeepsWithin(worlds[i - 1], events[i - 1], worlds[i]);
    }
  }

  /**
   Over a run every stored target stays within the stack's maximum exactly if no edit lowers a
   maximum below a target; cycles never break it, whichever of their writes fail.
   */
  lemma {:induction false} TargetsStayWithinIff(worlds: seq<World>, events: seq<Event>)
    requires Run(worlds, events)
    ensures (forall i :: 0 <= i < |worlds| ==> AllWithin(worlds[i])) <==>
            forall j :: 0 <= j < |events| && events[j].Edit? ==> KeepsMaxima(worlds[j], worlds[j + 1])
  {
    if forall j :: 0 <= j < |events| && events[j].Edit? ==> KeepsMaxima(worlds[j], worlds[j + 1]) {
      forall i | 0 <= i < |worlds|
        ensures AllWithin(worlds[i])
      {
        RunIsWithin(worlds, events, i);
      }
    }
    if forall i :: 0 <= i < |worlds| ==> AllWithin(worlds[i]) {
      forall j | 0 <= j < |events| && events[j].Edit?
        ensures KeepsMaxima(worlds[j], worlds[j + 1])
      {
        StepAt(worlds, events, j);
        EditKeepsWithinIff(worlds[j], worlds[j + 1]);
      }
    }
  }

  /** Lowering the maximum of a stack that is prescaled to 10 replicas to 5 does break it. */
  lemma {:induction false} LoweredMaximumBreaks(w: World, w': World)
    requires w.stacks.Keys == {"a"} && w.stacks["a"].status.prescaling == PrescalingStatus(true, 10, 50.0, Some(1))
    requires w.stacks["a"].spec.autoscaler == Some(Autoscaler(None, 10))
    requires NonNegativeEntries(w.desired) && w' == w.(stacks := map["a" := w.stacks["a"].(spec :=
               w.stacks["a"].spec.(autoscaler := Some(Autoscaler(None, 5))))])
    ensures EditStep(w, w') && AllWithin(w) && !AllWithin(w')
  {
    assert "a" in w'.stacks && !StoredWithin(w'.stacks["a"]);
  }

  // ----- every cycle of every run -----

  /** events[i] is a cycle of the run that manages traffic. */
  ghost predicate Managing(worlds: seq<World>, events: seq<Event>, i: nat)
    requires |worlds| == |events| + 1
  {
    && i < |events| && events[i].Cycle?
    && (worlds[i].spec.ingress || worlds[i].spec.routeGroup || worlds[i].spec.externalIngress)
  }

  lemma {:induction false} CycleAt(worlds: seq<World>, events: seq<Event>, i: nat)
    requires Steps(worlds, events) && i < |events| && events[i].Cycle?
    ensures CycleStep(worlds[i], events[i].round, worlds[i + 1])
  {
    assert Step(worlds[i], events[i], worlds[i + 1]);
  }

  lemma {:induction false} ManagedIsCanonical(spec: StackSetSpec, before: StackMap, after: StackMap, now: Time,
                                        clock: Time)
    requires WellFormed(before) && Manages(spec, before, after, now, clock) && spec.Enabled() && before != map[]
    ensures Canonical(Desired(after)) && Canonical(Actual(after))
  {
    var d, a :| ManagesFrom(spec, before, d, a, after, now, clock);
    AllOrNothing(spec, before, d, a, after, now, clock);
  }

  /**
   After every cycle of every run that has a stack, the desired and the actual weights are whole
   numbers that total exactly 100, and no stack is prescaled without a positive weight and a time.
   */
  lemma {:induction false} CyclesAreCanonical(worlds: seq<World>, events: seq<Event>, i: nat)
    requires Run(worlds, events) && Managing(worlds, events, i) && worlds[i].stacks != map[]
    ensures var managed := events[i].round.managed;
            Canonical(Desired(managed)) && Canonical(Actual(managed)) && AllSound(managed)
  {
    RunIsSound(worlds, events, i);
    CycleAt(worlds, events, i);
    CycleManagedIsSound(worlds[i], events[i].round, worlds[i + 1]);
    LoadedIsWellFormed(worlds[i]);
    assert Loaded(worlds[i]) != map[];
    ManagedIsCanonical(worlds[i].spec, Loaded(worlds[i]), events[i].round.managed, events[i].round.now,
                        events[i].round.clock);
  }

  /** In every cycle of every run the prescaling estimate divides by a positive traffic total. */
  lemma {:induction false} EstimatesHaveTraffic(worlds: seq<World>, events: seq<Event>, i: nat, d: Weights, a: Weights)
    requires Run(worlds, events) && Managing(worlds, events, i)
    requires Readable(worlds[i]) && WellFormed(Loaded(worlds[i])) && CanonicalStart(Loaded(worlds[i]), d, a)
    ensures TotalTraffic(Entered(worlds[i].spec, Loaded(worlds[i]), d, a)) > 0.0
  {
    RunIsSound(worlds, events, i);
    LoadedIsSound(worlds[i]);
    RoundHasTraffic(worlds[i].spec, Loaded(worlds[i]), d, a);
  }

  /** Every stored stack has an ingress or a routegroup of its own, or the stack set an external ingress. */
  predicate StacksHaveIngress(w: World) {
    w.spec.externalIngress || forall n :: n in w.stacks ==> w.stacks[n].spec.ingress || w.stacks[n].spec.routeGroup
  }

  lemma {:induction false} LoadedFixed(w: World, n: Name)
    requires Readable(w) && n in w.stacks
    ensures n in Loaded(w) && Loaded(w)[n].spec == w.stacks[n].spec && Loaded(w)[n].resources == w.stacks[n].resources
    ensures Loaded(w)[n].scaledownTTL == ScaledownTTL(w.spec)
    ensures Loaded(w)[n].noTrafficSince == UnwrapTime(w.stacks[n].status.noTrafficSince)
  {
  }

  lemma {:induction false} ManagedFixed(w: World, r: Round, n: Name)
    requires Readable(w) && WellFormed(Loaded(w)) && Decides(w, r) && n in w.stacks
    ensures n in r.managed && r.managed[n].spec == w.stacks[n].spec && r.managed[n].resources == w.stacks[n].resources
    ensures r.managed[n].scaledownTTL == ScaledownTTL(w.spec)
    ensures r.managed[n].noTrafficSince ==
            if w.spec.Enabled() then IdleSince(r.managed[n], UnwrapTime(w.stacks[n].status.noTrafficSince), r.now)
            else ZERO_TIME
  {
    LoadedFixed(w, n);
    RoundKeeps(w.spec, Loaded(w), r.managed, r.now, r.clock, n);
  }

  lemma {:induction false} ManagedHaveIngress(w: World, r: Round)
    requires Readable(w) && WellFormed(Loaded(w)) && Decides(w, r) && r.managed.Keys == w.stacks.Keys
    ensures AllHaveIngress(w.spec, r.managed) <==> StacksHaveIngress(w)
  {
    forall n | n in w.stacks
      ensures r.managed[n].spec == w.stacks[n].spec
    {
      ManagedFixed(w, r, n);
    }
  }

  /**
   If every stack has an ingress or a routegroup of its own, or the stack set has an external
   ingress, a cycle of a run removes no stack with weight, and the weights it publishes and the
   desired weights it saves total 100.
   */
  lemma {:induction false} PublishedTotals100(worlds: seq<World>, events: seq<Event>, i: nat)
    requires Run(worlds, events) && Managing(worlds, events, i) && worlds[i].stacks != map[]
    requires StacksHaveIngress(worlds[i])
    ensures var r := events[i].round;
            && (forall n :: n in r.removed ==>
                    n in r.managed && r.managed[n].actual == 0.0 && r.managed[n].desired == 0.0)
            && (r.writes.actual ==> Sum(Listed(worlds[i + 1].actual)) == 100.0)
            && (r.writes.desired ==> Sum(Listed(worlds[i + 1].desired)) == 100.0)
  {
    CyclesAreCanonical(worlds, events, i);
    CycleAt(worlds, events, i);
    CyclePublishes100(worlds[i], events[i].round, worlds[i + 1]);
  }

  lemma {:induction false} CyclePublishes100(w: World, r: Round, w': World)
    requires CycleStep(w, r, w') && w.spec.Enabled() && StacksHaveIngress(w)
    requires Canonical(Desired(r.managed)) && Canonical(Actual(r.managed))
    ensures forall n :: n in r.removed ==> n in r.managed && r.managed[n].actual == 0.0 && r.managed[n].desired == 0.0
    ensures r.writes.actual ==> Sum(Listed(w'.actual)) == 100.0
    ensures r.writes.desired ==> Sum(Listed(w'.desired)) == 100.0
  {
    FinalWeights(w, r);
    ManagedHaveIngress(w, r);
    Persistence.CollectionKeepsTotal(w.spec, r.managed, r.removed, r.clock);
    if r.writes.actual { PublishedIsListed(w'.actual, PublishedActual(w.spec, Final(r))); }
    if r.writes.desired { PublishedIsListed(w'.desired, SavedDesired(w.spec, Final(r))); }
    forall n | n in r.removed
      ensures n in r.managed && r.managed[n].actual == 0.0 && r.managed[n].desired == 0.0
    {
      RemovedIsIdle(w.spec, r.managed, r.removed, r.clock, n);
      assert Actual(r.managed)[n] >= 0.0 && Desired(r.managed)[n] >= 0.0;
    }
  }

  /**
   In every cycle of every run whose found segments can be read, the computed segments partition
   [0, 1), each exactly as wide as the stack's weight, whatever the segments found were.
   */
  lemma {:induction false} CyclesPartition(worlds: seq<World>, events: seq<Event>, i: nat,
                                           active: seq<Segment>, newcomers: seq<Segment>,
                                           after: StackMap, rollout: seq<Name>)
    requires Run(worlds, events) && Managing(worlds, events, i) && worlds[i].stacks != map[]
    requires Parseable(Final(events[i].round))
    requires Computes(Final(events[i].round), active, newcomers, after, rollout)
    ensures WellLaid(after) && after.Keys == worlds[i].stacks.Keys
  {
    var w, r := worlds[i], events[i].round;
    CyclesAreCanonical(worlds, events, i);
    CycleAt(worlds, events, i);
    FinalWeights(w, r);
    FinalIsFresh(w, r);
    ComputesPartition(Final(r), active, newcomers, after, rollout);
    ComputesIsWellLaid(Final(r), active, newcomers, after, rollout);
  }

  lemma {:induction false} FinalIsFresh(w: World, r: Round)
    requires Readable(w) && WellFormed(Loaded(w)) && Decides(w, r)
    ensures Fresh(Final(r)) && Final(r).Keys == w.stacks.Keys
  {
    DecidedKeys(w, r.managed, r.removed, r.now, r.clock);
    MarkedIsFresh(r.managed, r.removed);
  }

  lemma {:induction false} MarkedIsFresh(stacks: StackMap, removed: set<Name>)
    requires forall n :: n in stacks ==> Recompute.Limits(stacks[n]) == EMPTY
    ensures Fresh(Marked(stacks, removed)) && Marked(stacks, removed).Keys == stacks.Keys
  {
  }
}
