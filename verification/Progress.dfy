/**
 From one prescaling cycle to the next: what a cycle prescales survives saving and
 reading, and the next cycle switches exactly when the targets are up
 (pkg/core/traffic_prescaling.go).
 */
module Progress {
  import opened Names
  import opened Sums
  import opened Weights
  import opened Stacks
  import opened Reconcilers
  import opened Traffic
  import opened Switching
  import opened Statuses
  import opened Cycles
  import opened Runs
  import opened Stability

  /** The stored status of n says it is prescaled for at least the weight. */
  ghost predicate StoredFor(w: World, n: Name, weight: real) {
    && n in w.stacks && w.stacks[n].status.prescaling.active
    && w.stacks[n].status.prescaling.desiredTrafficWeight >= weight
  }

  lemma {:induction false} StoredForIsLoaded(w: World, n: Name, weight: real)
    requires Readable(w) && StoredFor(w, n, weight)
    ensures n in Loaded(w) && IsPrescaledFor(Loaded(w)[n], weight)
  {
  }

  lemma {:induction false} PrescaledIsStored(w: World, r: Round, w': World, n: Name, weight: real)
    requires CycleStep(w, r, w') && n in w'.stacks && n in r.writes.status
    requires n in r.managed && IsPrescaledFor(r.managed[n], weight)
    ensures StoredFor(w', n, weight)
  {
    assert StatusOf(Final(r)[n]) == StatusOf(r.managed[n]);
  }

  /** The cycle's clocks are close enough for what it prescales not to time out at once. */
  predicate InOneGo(spec: StackSetSpec, r: Round) {
    spec.reconciler.Prescaling? && r.clock - r.now <= spec.reconciler.resetTimeout
  }

  ghost predicate StillToGain(r: Round, n: Name) {
    n in r.managed && r.managed[n].Gains() && !r.managed[n].TrafficForward()
  }

  lemma {:induction false} CyclePrescales(w: World, r: Round, w': World, n: Name)
    requires CycleStep(w, r, w') && w.spec.Enabled() && InOneGo(w.spec, r) && StillToGain(r, n)
    ensures IsPrescaledFor(r.managed[n], r.managed[n].desired)
  {
    var before := Loaded(w);
    assert n in w.stacks;
    LoadedIsWellFormed(w);
    var d, a :| ManagesFrom(w.spec, before, d, a, r.managed, r.now, r.clock);
    RoundPrescales(w.spec, before, d, a, r.managed, r.now, r.clock, n);
  }

  /** events[0] and events[i] are cycles of a quiet run, with nothing but edits in between. */
  ghost predicate NextCycle(worlds: seq<World>, events: seq<Event>, i: nat) {
    && QuietRun(worlds, events) && 0 < i < |events| && events[0].Cycle? && events[i].Cycle?
    && forall j :: 0 < j < i ==> events[j].Edit?
  }

  lemma {:induction false} QuietEditAt(worlds: seq<World>, events: seq<Event>, j: nat)
    requires QuietRun(worlds, events) && j < |events| && events[j].Edit?
    ensures EditStep(worlds[j], worlds[j + 1]) && QuietEdit(worlds[j], worlds[j + 1])
  {
    assert Step(worlds[j], events[j], worlds[j + 1]) && QuietStep(worlds[j], events[j], worlds[j + 1]);
  }

  lemma {:induction false} QuietCycleAt(worlds: seq<World>, events: seq<Event>, j: nat)
    requires QuietRun(worlds, events) && j < |events| && events[j].Cycle?
    ensures CycleStep(worlds[j], events[j].round, worlds[j + 1]) && QuietCycle(worlds[j], events[j].round)
  {
    assert Step(worlds[j], events[j], worlds[j + 1]) && QuietStep(worlds[j], events[j], worlds[j + 1]);
  }

  lemma {:induction false} QuietEditReads(w: World, w': World, d: Weights, a: Weights)
    requires EditStep(w, w') && QuietEdit(w, w') && Reads(w, d, a)
    ensures Reads(w', d, a)
  {
  }

  lemma {:induction false} EditKeepsStored(w: World, w': World, n: Name, weight: real)
    requires EditStep(w, w') && QuietEdit(w, w') && StoredFor(w, n, weight)
    ensures StoredFor(w', n, weight)
  {
  }

  /** What is stored right after the first cycle is still stored before the next. */
  lemma {:induction false} NothingLost(worlds: seq<World>, events: seq<Event>, i: nat, k: nat, d: Weights, a: Weights)
    requires NextCycle(worlds, events, i) && 1 <= k <= i && Reads(worlds[1], d, a)
    ensures Reads(worlds[k], d, a) && worlds[k].stacks.Keys == worlds[1].stacks.Keys && worlds[k].spec == worlds[1].spec
  {
    if k > 1 {
      NothingLost(worlds, events, i, k - 1, d, a);
      QuietEditAt(worlds, events, k - 1);
      QuietEditReads(worlds[k - 1], worlds[k], d, a);
    }
  }

  lemma {:induction false} NothingForgotten(worlds: seq<World>, events: seq<Event>, i: nat, k: nat, n: Name,
                                            weight: real)
    requires NextCycle(worlds, events, i) && 1 <= k <= i && StoredFor(worlds[1], n, weight)
    ensures StoredFor(worlds[k], n, weight)
  {
    if k > 1 {
      NothingForgotten(worlds, events, i, k - 1, n, weight);
      QuietEditAt(worlds, events, k - 1);
      EditKeepsStored(worlds[k - 1], worlds[k], n, weight);
    }
  }

  /** What the first cycle still had to gain is read by the next one as prescaled for its weight. */
  lemma {:induction false} GainerIsRead(worlds: seq<World>, events: seq<Event>, i: nat, n: Name)
    requires NextCycle(worlds, events, i) && InOneGo(worlds[0].spec, events[0].round)
    requires n in worlds[1].stacks && n in events[0].round.writes.status && StillToGain(events[0].round, n)
    requires Readable(worlds[i])
    ensures n in Loaded(worlds[i]) && IsPrescaledFor(Loaded(worlds[i])[n], events[0].round.managed[n].desired)
  {
    var weight := events[0].round.managed[n].desired;
    QuietCycleAt(worlds, events, 0);
    CyclePrescales(worlds[0], events[0].round, worlds[1], n);
    PrescaledIsStored(worlds[0], events[0].round, worlds[1], n, weight);
    NothingForgotten(worlds, events, i, i, n, weight);
    StoredForIsLoaded(worlds[i], n, weight);
  }

  /** In the stack's resources as the cycle finds them, the whole target is updated and ready. */
  ghost predicate TargetIsUp(w: World, n: Name)
    requires Readable(w) && n in w.stacks
  {
    n in Loaded(w) && Provisioned(Loaded(w)[n], w.spec.minReadyPercent)
  }

  /** The second cycle's view: keys, weights, and where a stack forwards. */
  lemma {:induction false} SecondCycleStarts(worlds: seq<World>, events: seq<Event>, i: nat, d: Weights, a: Weights)
    requires NextCycle(worlds, events, i) && Canonical(d) && Canonical(a)
    requires Desired(events[0].round.managed) == d && Actual(events[0].round.managed) == a
    ensures worlds[i].stacks.Keys == worlds[1].stacks.Keys <= worlds[0].stacks.Keys && worlds[i].spec == worlds[0].spec
    ensures Reads(worlds[i], Kept(d, worlds[i].stacks.Keys), Kept(a, worlds[i].stacks.Keys))
  {
    QuietCycleAt(worlds, events, 0);
    WrittenReads(worlds[0], events[0].round, worlds[1], d, a);
    NothingLost(worlds, events, i, i, Kept(d, worlds[1].stacks.Keys), Kept(a, worlds[1].stacks.Keys));
  }

  /**
   Progress over two cycles, through saving, collection and reading: after a prescaling cycle with
   unchanged wishes and saved statuses, the next cycle switches exactly if the whole target of every
   stack that still had to gain is updated and ready.
   */
  lemma {:induction false} NextCycleSwitchesIff(worlds: seq<World>, events: seq<Event>, i: nat)
    requires NextCycle(worlds, events, i)
    requires Canonical(Desired(events[0].round.managed)) && Canonical(Actual(events[0].round.managed))
    requires InOneGo(worlds[0].spec, events[0].round) && InOneGo(worlds[0].spec, events[i].round)
    requires forall n :: n in worlds[1].stacks ==> n in events[0].round.writes.status
    requires forall n :: n in worlds[i].stacks && n in worlds[0].stacks ==>
               worlds[i].stacks[n].spec.forwardBackend == worlds[0].stacks[n].spec.forwardBackend
    ensures Readable(worlds[i])
    ensures Actual(events[i].round.managed) == Desired(events[i].round.managed) <==>
            forall n :: n in worlds[i].stacks && StillToGain(events[0].round, n) ==> TargetIsUp(worlds[i], n)
  {
    var first, w := events[0].round, worlds[i];
    var d, a := Desired(first.managed), Actual(first.managed);
    SecondCycleStarts(worlds, events, i, d, a);
    QuietCycleAt(worlds, events, 0);
    QuietCycleAt(worlds, events, i);
    var d', a' := Kept(d, w.stacks.Keys), Kept(a, w.stacks.Keys);
    ReadsManages(w, events[i].round, worlds[i + 1], d', a');
    forall n | n in w.stacks
      ensures n in Loaded(w)
      ensures StillToGain(first, n) <==> d'[n] > a'[n] && !Loaded(w)[n].TrafficForward()
      ensures StillToGain(first, n) ==> IsPrescaledFor(Loaded(w)[n], d'[n])
    {
      SecondCycleStack(worlds, events, i, n);
    }
    PrescaledRoundSwitches(w.spec, Loaded(w), d', a', events[i].round.managed, events[i].round.now,
                        events[i].round.clock);
    AllOrNothing(w.spec, Loaded(w), d', a', events[i].round.managed, events[i].round.now, events[i].round.clock);
  }

  lemma {:induction false} SameForward(worlds: seq<World>, events: seq<Event>, i: nat, n: Name)
    requires NextCycle(worlds, events, i) && n in worlds[i].stacks && Readable(worlds[i]) && n in worlds[0].stacks
    requires worlds[i].stacks[n].spec.forwardBackend == worlds[0].stacks[n].spec.forwardBackend
    ensures n in Loaded(worlds[i]) && n in events[0].round.managed
    ensures Loaded(worlds[i])[n].TrafficForward() == events[0].round.managed[n].TrafficForward()
  {
    QuietCycleAt(worlds, events, 0);
    ManagedFixed(worlds[0], events[0].round, n);
    LoadedFixed(worlds[i], n);
  }

  lemma {:induction false} SecondCycleStack(worlds: seq<World>, events: seq<Event>, i: nat, n: Name)
    requires NextCycle(worlds, events, i) && n in worlds[i].stacks && Readable(worlds[i])
    requires n in worlds[1].stacks && n in worlds[0].stacks
    requires InOneGo(worlds[0].spec, events[0].round) && n in events[0].round.writes.status
    requires worlds[i].stacks[n].spec.forwardBackend == worlds[0].stacks[n].spec.forwardBackend
    ensures n in Loaded(worlds[i]) && n in events[0].round.managed
    ensures Loaded(worlds[i])[n].TrafficForward() == events[0].round.managed[n].TrafficForward()
    ensures StillToGain(events[0].round, n) ==>
              IsPrescaledFor(Loaded(worlds[i])[n], events[0].round.managed[n].desired)
  {
    SameForward(worlds, events, i, n);
    if StillToGain(events[0].round, n) {
      GainerIsRead(worlds, events, i, n);
    }
  }
}
