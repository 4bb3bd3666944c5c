/**
 What one round of traffic management guarantees: whole weights that total 100,
 an all-or-nothing and readiness-gated switch, sound prescaling targets, progress
 and stability (pkg/core/traffic.go, pkg/core/traffic_prescaling.go).
 */
module Switching {
  import opened Names
  import opened Sums
  import opened Weights
  import opened Stacks
  import opened Reconcilers
  import opened Traffic

  /** The state in which a round judges readiness. */
  ghost function Judged(spec: StackSetSpec, before: StackMap, d: Weights, a: Weights, now: Time, clock: Time): StackMap
    requires d.Keys == a.Keys == before.Keys && NonNegative(d) && NonNegative(a)
  {
    Prepared(spec.reconciler, Entered(spec, before, d, a), now, clock)
  }

  lemma {:induction false} EnteredWeights(spec: StackSetSpec, before: StackMap, d: Weights, a: Weights)
    requires d.Keys == a.Keys == before.Keys && NonNegative(d) && NonNegative(a)
    ensures WellFormed(Entered(spec, before, d, a))
    ensures Desired(Entered(spec, before, d, a)) == d && Actual(Entered(spec, before, d, a)) == a
  {
  }

  lemma {:induction false} CanonicalHasTraffic(w: Weights)
    requires Canonical(w)
    ensures !AllZero(w) && exists n :: n in w && w[n] > 0.0
  {
    SumZero(w);
  }

  lemma {:induction false} WithActualTwice(p: StackMap, w: Weights)
    requires w.Keys == p.Keys
    ensures Actual(WithActual(p, w)) == w && WithActual(WithActual(p, w), w) == WithActual(p, w)
    ensures Actual(p) == w ==> WithActual(p, w) == p
  {
  }

  lemma {:induction false} ReconciledWeights(r: Reconciler, stacks: StackMap, now: Time, clock: Time)
    requires WellFormed(stacks) && Canonical(Desired(stacks))
    ensures var p := Prepared(r, stacks, now, clock);
            Reconciled(r, stacks, now, clock) ==
            WithActual(p, if Blocked(r, p) == {} then Desired(stacks) else Actual(stacks))
  {
    PreparedKeepsWeights(r, stacks, now, clock);
    NormalizedFixed(Desired(stacks));
    WithActualTwice(Prepared(r, stacks, now, clock), Actual(stacks));
  }

  /** p judged, w chosen: how the containers look after a round. */
  ghost predicate Shape(r: Reconciler, p: StackMap, d: Weights, a: Weights, after: StackMap, now: Time) {
    && Desired(p) == d && Actual(p) == a
    && d.Keys == a.Keys == p.Keys
    && after == AllStamped(WithActual(p, if Blocked(r, p) == {} then d else a), now)
  }

  lemma {:induction false} ReconciledShape(r: Reconciler, e: StackMap, after: StackMap, now: Time, clock: Time)
    requires WellFormed(e) && Canonical(Desired(e)) && Canonical(Actual(e))
    requires var c := Reconciled(r, e, now, clock); after == AllStamped(WithActual(c, Settled(c)), now)
    ensures Shape(r, Prepared(r, e, now, clock), Desired(e), Actual(e), after, now)
  {
    ReconciledWeights(r, e, now, clock);
    PreparedKeepsWeights(r, e, now, clock);
    var p := Prepared(r, e, now, clock);
    var w := if Blocked(r, p) == {} then Desired(e) else Actual(e);
    WithActualTwice(p, w);
    SettledOnce(p, w);
  }

  lemma {:induction false} SettledOnce(p: StackMap, w: Weights)
    requires w.Keys == p.Keys && Canonical(w) && Actual(WithActual(p, w)) == w
    ensures Settled(WithActual(p, w)) == w
  {
    CanonicalHasTraffic(w);
  }

  lemma {:induction false} RoundShape(spec: StackSetSpec, before: StackMap, d: Weights, a: Weights,
                                      after: StackMap, now: Time, clock: Time)
    requires WellFormed(before) && ManagesFrom(spec, before, d, a, after, now, clock)
    ensures Shape(spec.reconciler, Judged(spec, before, d, a, now, clock), d, a, after, now)
  {
    EnteredWeights(spec, before, d, a);
    ReconciledShape(spec.reconciler, Entered(spec, before, d, a), after, now, clock);
  }

  lemma {:induction false} ShapeAt(r: Reconciler, p: StackMap, d: Weights, a: Weights, after: StackMap, now: Time,
                                   n: Name)
    requires Shape(r, p, d, a, after, now) && n in p
    ensures n in after && after[n] == Stamped(p[n].(actual := if Blocked(r, p) == {} then d[n] else a[n]), now)
    ensures p[n].desired == d[n] && p[n].actual == a[n]
  {
    assert Desired(p)[n] == d[n] && Actual(p)[n] == a[n];
  }

  lemma {:induction false} ShapeWeights(r: Reconciler, p: StackMap, d: Weights, a: Weights, after: StackMap, now: Time)
    requires Shape(r, p, d, a, after, now)
    ensures Desired(after) == d && Actual(after) == if Blocked(r, p) == {} then d else a
    ensures Actual(after) == d <==> Blocked(r, p) == {}
  {
    forall n | n in p
      ensures n in after && after[n].desired == d[n]
      ensures after[n].actual == if Blocked(r, p) == {} then d[n] else a[n]
    {
      ShapeAt(r, p, d, a, after, now, n);
    }
    if Blocked(r, p) != {} {
      var n :| n in Blocked(r, p);
      ShapeAt(r, p, d, a, after, now, n);
      assert p[n].Gains();
      assert Actual(after)[n] != d[n];
    }
  }

  /**
   All or nothing: the whole desired vector becomes actual exactly when no gaining stack is
   blocked; otherwise the whole canonical previous vector stays.  Both vectors are canonical.
   */
  lemma {:induction false} AllOrNothing(spec: StackSetSpec, before: StackMap, d: Weights, a: Weights,
                                        after: StackMap, now: Time, clock: Time)
    requires WellFormed(before) && ManagesFrom(spec, before, d, a, after, now, clock)
    ensures Desired(after) == d && Canonical(Desired(after)) && Canonical(Actual(after))
    ensures Actual(after) == d || Actual(after) == a
    ensures Actual(after) == d <==> Blocked(spec.reconciler, Judged(spec, before, d, a, now, clock)) == {}
  {
    RoundShape(spec, before, d, a, after, now, clock);
    ShapeWeights(spec.reconciler, Judged(spec, before, d, a, now, clock), d, a, after, now);
  }

  /**
   What `ManageTraffic` reports: an error exactly if the actual weights did not become the desired
   ones, and it names exactly the gaining stacks that are not ready for it.
   */
  lemma {:induction false} ErrorIffNotSwitched(spec: StackSetSpec, before: StackMap, after: StackMap, now: Time,
                                               clock: Time, outcome: Outcome)
    requires WellFormed(before) && spec.Enabled() && before != map[]
    requires ManagesWith(spec, before, after, now, clock, outcome)
    ensures outcome.NotReady? || outcome == Done
    ensures outcome.NotReady? <==> Actual(after) != Desired(after)
    ensures outcome.NotReady? ==> outcome.stacks != {} && outcome.stacks == Blocked(spec.reconciler, after)
  {
    var d, a :| ManagesFrom(spec, before, d, a, after, now, clock)
                && outcome == OutcomeOf(NonReady(spec, before, d, a, now, clock));
    AllOrNothing(spec, before, d, a, after, now, clock);
    if outcome.NotReady? {
      RoundShape(spec, before, d, a, after, now, clock);
      StillBlocked(spec.reconciler, Judged(spec, before, d, a, now, clock), d, a, after, now);
    }
  }

  lemma {:induction false} StampedBlocks(s: Stack, now: Time)
    ensures Stamped(s, now).IsReady() == s.IsReady() && PrescalingBlocks(Stamped(s, now)) == PrescalingBlocks(s)
    ensures Stamped(s, now).Gains() == s.Gains()
  {
  }

  lemma {:induction false} StillBlocked(r: Reconciler, p: StackMap, d: Weights, a: Weights, after: StackMap, now: Time)
    requires Shape(r, p, d, a, after, now) && Blocked(r, p) != {}
    ensures Blocked(r, after) == Blocked(r, p)
  {
    assert after.Keys == p.Keys;
    forall n | n in p
      ensures n in Blocked(r, after) <==> n in Blocked(r, p)
    {
      ShapeAt(r, p, d, a, after, now, n);
      assert after[n] == Stamped(p[n], now);
      StampedBlocks(p[n], now);
    }
  }

  // ----- which weights a round aims at -----

  /**
   The desired weights of a round split 100 like the wishes it starts from, each within one of its
   exact share, and never reverse two of them; without wishes a fallback stack is to get everything.
   Its actual weights do the same for the wishes or for the weights before.
   */
  lemma {:induction false} RoundSplitsWishes(spec: StackSetSpec, before: StackMap, d: Weights, a: Weights,
                                             after: StackMap, now: Time, clock: Time)
    requires WellFormed(before) && ManagesFrom(spec, before, d, a, after, now, clock)
    ensures Sum(Desired(before)) > 0.0 ==> SplitsLike(Desired(before), Desired(after))
    ensures Sum(Desired(before)) == 0.0 ==> AllOnFallback(before, Desired(after))
    ensures Actual(after) == Desired(after) || Actual(after) == a
    ensures Sum(Actual(before)) > 0.0 ==> SplitsLike(Actual(before), a)
    ensures Sum(Actual(before)) == 0.0 ==> AllOnFallback(before, a)
  {
    AllOrNothing(spec, before, d, a, after, now, clock);
    CollectedWeights(before);
    CanonicalisesSplits(before, Desired(before), d);
    CanonicalisesSplits(before, Actual(before), a);
  }

  lemma {:induction false} RoundKeepsOrder(spec: StackSetSpec, before: StackMap, d: Weights, a: Weights,
                                           after: StackMap, now: Time, clock: Time, m: Name, n: Name)
    requires WellFormed(before) && ManagesFrom(spec, before, d, a, after, now, clock)
    requires Sum(Desired(before)) > 0.0 && m in before && n in before
    requires before[m].desired > before[n].desired || (before[m].desired == before[n].desired && Less(m, n))
    ensures m in after && n in after && after[m].desired >= after[n].desired
  {
    AllOrNothing(spec, before, d, a, after, now, clock);
    CollectedWeights(before);
    CanonicalisesInOrder(before, Desired(before), d, m, n);
    assert Desired(after)[m] >= Desired(after)[n];
  }

  /** Without any kind of ingress a round leaves no weight, no idle time and no prescaling, and reports nothing. */
  lemma {:induction false} RoundWithoutIngress(spec: StackSetSpec, before: StackMap, after: StackMap, now: Time,
                                               clock: Time, outcome: Outcome, n: Name)
    requires WellFormed(before) && ManagesWith(spec, before, after, now, clock, outcome) && n in before
    requires !spec.ingress && !spec.routeGroup && !spec.externalIngress
    ensures outcome == Done && n in after
    ensures after[n].desired == 0.0 && after[n].actual == 0.0 && after[n].noTrafficSince == ZERO_TIME
    ensures !after[n].prescalingActive && after[n].prescalingReplicas == 0
    ensures after[n].prescalingLastIncrease == ZERO_TIME && after[n].prescalingDesired == before[n].prescalingDesired
    ensures SameFixed(after[n], before[n])
  {
  }

  // ----- readiness of the stacks that gain -----

  /** Replicas a gaining stack needs: its prescaling target, or else all of its deployment. */
  function WantedReplicas(s: Stack): nat {
    if s.prescalingActive then s.prescalingReplicas else s.resources.deploymentReplicas
  }

  /**
   The stack forwards, or it is up at the percentage of the stack set with at least one ready
   replica, and with prescaling all replicas wanted are updated and ready.
   */
  ghost predicate MayGain(r: Reconciler, percent: int, s: Stack) {
    s.spec.forwardBackend
    || (&& IsUp(s, percent)
        && s.resources.readyReplicas >= 1 && s.resources.updatedReplicas >= 1
        && (r.Prescaling? ==>
              s.resources.updatedReplicas >= WantedReplicas(s) && s.resources.readyReplicas >= WantedReplicas(s)))
  }

  lemma {:induction false} ReadyHasReadyReplica(s: Stack)
    requires s.IsReady() && !s.TrafficForward() && 0.0 < s.minReadyPercent <= 1.0
    ensures s.resources.readyReplicas >= 1 && s.resources.updatedReplicas >= 1
  {
    CeilOfProduct(s.resources.deploymentReplicas, s.minReadyPercent);
  }

  /** A stack is entered into the round with the percentage of the stack set. */
  predicate HasPercent(s: Stack, percent: int) {
    s.minReadyPercent == NormalizeMinReadyPercent(percent)
  }

  lemma {:induction false} BlockedIff(r: Reconciler, p: StackMap, percent: int, n: Name)
    requires n in p && HasPercent(p[n], percent)
    ensures n in Blocked(r, p) <==> p[n].Gains() && !MayGain(r, percent, p[n])
  {
    ReadyIffUp(p[n], percent);
    if p[n].IsReady() && !p[n].TrafficForward() {
      ReadyHasReadyReplica(p[n]);
    }
  }

  lemma {:induction false} PreparedPercent(r: Reconciler, e: StackMap, now: Time, clock: Time, n: Name)
    requires WellFormed(e) && n in e
    ensures n in Prepared(r, e, now, clock) && Prepared(r, e, now, clock)[n].minReadyPercent == e[n].minReadyPercent
  {
  }

  lemma {:induction false} JudgedPercent(spec: StackSetSpec, before: StackMap, d: Weights, a: Weights, now: Time,
                                        clock: Time, n: Name)
    requires d.Keys == a.Keys == before.Keys && NonNegative(d) && NonNegative(a) && n in before
    ensures n in Judged(spec, before, d, a, now, clock)
    ensures HasPercent(Judged(spec, before, d, a, now, clock)[n], spec.minReadyPercent)
  {
    EnteredWeights(spec, before, d, a);
    PreparedPercent(spec.reconciler, Entered(spec, before, d, a), now, clock, n);
  }

  ghost predicate AllHavePercent(stacks: StackMap, percent: int) {
    forall n :: n in stacks ==> HasPercent(stacks[n], percent)
  }

  lemma {:induction false} JudgedPercents(spec: StackSetSpec, before: StackMap, d: Weights, a: Weights, now: Time,
                                          clock: Time)
    requires d.Keys == a.Keys == before.Keys && NonNegative(d) && NonNegative(a)
    ensures Judged(spec, before, d, a, now, clock).Keys == before.Keys
    ensures AllHavePercent(Judged(spec, before, d, a, now, clock), spec.minReadyPercent)
  {
    EnteredWeights(spec, before, d, a);
    forall n | n in before
      ensures n in Judged(spec, before, d, a, now, clock)
      ensures HasPercent(Judged(spec, before, d, a, now, clock)[n], spec.minReadyPercent)
    {
      JudgedPercent(spec, before, d, a, now, clock, n);
    }
  }

  lemma {:induction false} ShapeMayGain(r: Reconciler, p: StackMap, d: Weights, a: Weights, after: StackMap,
                                        now: Time, percent: int, n: Name)
    requires Shape(r, p, d, a, after, now) && n in p
    ensures n in after && n in d && n in a && (p[n].Gains() <==> d[n] > a[n])
    ensures MayGain(r, percent, after[n]) <==> MayGain(r, percent, p[n])
  {
    ShapeAt(r, p, d, a, after, now, n);
  }

  lemma {:induction false} ShapeSwitchesIff(r: Reconciler, p: StackMap, d: Weights, a: Weights, after: StackMap,
                                            now: Time, percent: int)
    requires Shape(r, p, d, a, after, now) && AllHavePercent(p, percent)
    ensures d.Keys == a.Keys == after.Keys == p.Keys
    ensures Blocked(r, p) == {} <==> forall n :: n in p && d[n] > a[n] ==> MayGain(r, percent, after[n])
  {
    forall n | n in p
      ensures n in Blocked(r, p) <==> d[n] > a[n] && !MayGain(r, percent, after[n])
    {
      BlockedIff(r, p, percent, n);
      ShapeMayGain(r, p, d, a, after, now, percent, n);
    }
    assert Blocked(r, p) == {} <==> forall n :: n in p ==> n !in Blocked(r, p);
  }

  /**
   The gate of both reconcilers, in whole replicas: a round switches exactly if every stack whose
   desired weight exceeds its actual one forwards or has enough updated and ready replicas.
   */
  lemma {:induction false} RoundSwitchesIff(spec: StackSetSpec, before: StackMap, d: Weights, a: Weights,
                                            after: StackMap, now: Time, clock: Time)
    requires WellFormed(before) && ManagesFrom(spec, before, d, a, after, now, clock)
    ensures d.Keys == a.Keys == after.Keys == before.Keys
    ensures Actual(after) == d <==>
            forall n :: n in before && d[n] > a[n] ==> MayGain(spec.reconciler, spec.minReadyPercent, after[n])
  {
    AllOrNothing(spec, before, d, a, after, now, clock);
    RoundShape(spec, before, d, a, after, now, clock);
    JudgedPercents(spec, before, d, a, now, clock);
    ShapeSwitchesIff(spec.reconciler, Judged(spec, before, d, a, now, clock), d, a, after, now, spec.minReadyPercent);
  }

  /**
   With the simple reconciler nothing but the resources found decides: every gaining stack that does
   not forward must be up at the percentage of the stack set.
   */
  lemma {:induction false} SimpleRoundSwitchesIff(spec: StackSetSpec, before: StackMap, d: Weights, a: Weights,
                                                  after: StackMap, now: Time, clock: Time)
    requires WellFormed(before) && ManagesFrom(spec, before, d, a, after, now, clock) && spec.reconciler.Simple?
    ensures d.Keys == a.Keys == before.Keys
    ensures Actual(after) == d <==>
            forall n :: n in before && d[n] > a[n] && !before[n].spec.forwardBackend ==>
              IsUp(before[n], spec.minReadyPercent)
  {
    RoundSwitchesIff(spec, before, d, a, after, now, clock);
    forall n | n in before
      ensures MayGain(spec.reconciler, spec.minReadyPercent, after[n]) <==>
              before[n].spec.forwardBackend || IsUp(before[n], spec.minReadyPercent)
    {
      SimpleMayGain(spec, before, d, a, after, now, clock, n);
    }
  }

  lemma {:induction false} SimpleMayGain(spec: StackSetSpec, before: StackMap, d: Weights, a: Weights,
                                         after: StackMap, now: Time, clock: Time, n: Name)
    requires WellFormed(before) && ManagesFrom(spec, before, d, a, after, now, clock) && spec.reconciler.Simple?
    requires n in before
    ensures n in after
    ensures MayGain(spec.reconciler, spec.minReadyPercent, after[n]) <==>
            before[n].spec.forwardBackend || IsUp(before[n], spec.minReadyPercent)
  {
    ManagedKeeps(spec, before, d, a, after, now, clock, n);
    MayGainIff(spec.reconciler, spec.minReadyPercent, before[n], after[n]);
  }

  lemma {:induction false} MayGainIff(r: Reconciler, percent: int, s: Stack, t: Stack)
    requires SameFixed(t, s)
    ensures MayGain(r, percent, t) <==>
            s.spec.forwardBackend || (IsUp(s, percent) && (r.Prescaling? ==>
              s.resources.updatedReplicas >= WantedReplicas(t) && s.resources.readyReplicas >= WantedReplicas(t)))
  {
    if IsUp(s, percent) { UpHasReplicas(s, percent); }
  }

  lemma {:induction false} UpHasReplicas(s: Stack, percent: int)
    requires IsUp(s, percent)
    ensures s.resources.readyReplicas >= 1 && s.resources.updatedReplicas >= 1
  {
  }

  /**
   Safety of the switch, for both reconcilers: a stack whose actual weight rises over the
   canonical previous one forwards its traffic or has the replicas it needs.
   */
  lemma {:induction false} GainersAreReady(spec: StackSetSpec, before: StackMap, d: Weights, a: Weights,
                                           after: StackMap, now: Time, clock: Time, n: Name)
    requires WellFormed(before) && ManagesFrom(spec, before, d, a, after, now, clock)
    requires n in before && n in after && after[n].actual > a[n]
    ensures MayGain(spec.reconciler, spec.minReadyPercent, after[n])
  {
    RoundSwitchesIff(spec, before, d, a, after, now, clock);
    AllOrNothing(spec, before, d, a, after, now, clock);
    assert Actual(after)[n] > a[n];
  }

  // ----- prescaling -----

  /** Active prescaling remembers a positive weight and when traffic was last increased. */
  ghost predicate Sound(s: Stack) {
    s.prescalingActive ==> s.prescalingDesired > 0.0 && s.prescalingLastIncrease != ZERO_TIME
  }

  ghost predicate AllSound(stacks: StackMap) {
    forall n :: n in stacks ==> Sound(stacks[n])
  }

  /** The traffic total of the estimate is positive: the branch for zero traffic is never taken. */
  lemma {:induction false} TrafficIsPositive(stacks: StackMap)
    requires AllSound(stacks) && Canonical(Actual(stacks))
    ensures TotalTraffic(stacks) > 0.0
  {
    CanonicalHasTraffic(Actual(stacks));
    var n :| n in Actual(stacks) && Actual(stacks)[n] > 0.0;
    var traffic := map m | m in stacks :: Contribution(stacks[m]).1;
    SumNonNegative(traffic);
    assert traffic[n] <= Sum(traffic);
    assert Sound(stacks[n]);
  }

  /** The estimate of a round is based on a positive traffic total. */
  lemma {:induction false} RoundHasTraffic(spec: StackSetSpec, before: StackMap, d: Weights, a: Weights)
    requires AllSound(before) && d.Keys == a.Keys == before.Keys && Canonical(d) && Canonical(a)
    ensures TotalTraffic(Entered(spec, before, d, a)) > 0.0
  {
    var e := Entered(spec, before, d, a);
    EnteredWeights(spec, before, d, a);
    forall n | n in e
      ensures Sound(e[n])
    {
      assert Sound(before[n]);
    }
    TrafficIsPositive(e);
  }

  lemma {:induction false} PreparedIsSound(r: Reconciler, stacks: StackMap, now: Time, clock: Time, n: Name)
    requires WellFormed(stacks) && now != ZERO_TIME && n in stacks && Sound(stacks[n])
    ensures Sound(Prepared(r, stacks, now, clock)[n])
  {
  }

  lemma {:induction false} JudgedIsSound(spec: StackSetSpec, before: StackMap, d: Weights, a: Weights, now: Time,
                                        clock: Time, n: Name)
    requires d.Keys == a.Keys == before.Keys && NonNegative(d) && NonNegative(a)
    requires n in before && Sound(before[n]) && now != ZERO_TIME
    ensures n in Judged(spec, before, d, a, now, clock) && Sound(Judged(spec, before, d, a, now, clock)[n])
  {
    EnteredWeights(spec, before, d, a);
    assert Sound(Entered(spec, before, d, a)[n]);
    PreparedIsSound(spec.reconciler, Entered(spec, before, d, a), now, clock, n);
  }

  /** Every round keeps prescaling sound. */
  lemma {:induction false} RoundKeepsSound(spec: StackSetSpec, before: StackMap, after: StackMap, now: Time,
                                        clock: Time)
    requires WellFormed(before) && AllSound(before) && now != ZERO_TIME
    requires Manages(spec, before, after, now, clock)
    ensures AllSound(after)
  {
    if spec.Enabled() && before != map[] {
      var d, a :| ManagesFrom(spec, before, d, a, after, now, clock);
      RoundShape(spec, before, d, a, after, now, clock);
      forall n | n in before
        ensures Sound(Judged(spec, before, d, a, now, clock)[n])
      {
        JudgedIsSound(spec, before, d, a, now, clock, n);
      }
      ShapeIsSound(spec.reconciler, Judged(spec, before, d, a, now, clock), d, a, after, now);
    }
  }

  lemma {:induction false} ShapeIsSound(r: Reconciler, p: StackMap, d: Weights, a: Weights, after: StackMap, now: Time)
    requires Shape(r, p, d, a, after, now) && AllSound(p)
    ensures AllSound(after)
  {
    forall n | n in p
      ensures n in after && Sound(after[n])
    {
      ShapeAt(r, p, d, a, after, now, n);
      assert Sound(p[n]);
    }
  }

  lemma {:induction false} PreparedIsWithin(r: Reconciler, stacks: StackMap, now: Time, clock: Time, n: Name)
    requires WellFormed(stacks) && n in stacks && WithinMaximum(stacks[n])
    ensures WithinMaximum(Prepared(r, stacks, now, clock)[n])
  {
  }

  lemma {:induction false} JudgedIsWithin(spec: StackSetSpec, before: StackMap, d: Weights, a: Weights, now: Time,
                                          clock: Time, n: Name)
    requires d.Keys == a.Keys == before.Keys && NonNegative(d) && NonNegative(a)
    requires n in before && WithinMaximum(before[n])
    ensures n in Judged(spec, before, d, a, now, clock) && WithinMaximum(Judged(spec, before, d, a, now, clock)[n])
  {
    EnteredWeights(spec, before, d, a);
    assert WithinMaximum(Entered(spec, before, d, a)[n]);
    PreparedIsWithin(spec.reconciler, Entered(spec, before, d, a), now, clock, n);
  }

  lemma {:induction false} ShapeIsWithin(r: Reconciler, p: StackMap, d: Weights, a: Weights, after: StackMap,
                                         now: Time, n: Name)
    requires Shape(r, p, d, a, after, now) && n in p && WithinMaximum(p[n])
    ensures n in after && WithinMaximum(after[n])
  {
    ShapeAt(r, p, d, a, after, now, n);
  }

  lemma {:induction false} ManagedIsWithin(spec: StackSetSpec, before: StackMap, d: Weights, a: Weights,
                                           after: StackMap, now: Time, clock: Time, n: Name)
    requires WellFormed(before) && ManagesFrom(spec, before, d, a, after, now, clock)
    requires n in before && WithinMaximum(before[n])
    ensures n in after && WithinMaximum(after[n])
  {
    RoundShape(spec, before, d, a, after, now, clock);
    JudgedIsWithin(spec, before, d, a, now, clock, n);
    ShapeIsWithin(spec.reconciler, Judged(spec, before, d, a, now, clock), d, a, after, now, n);
  }

  /** A round keeps a target within the stack's maximum, whether it is fresh or old. */
  lemma {:induction false} RoundKeepsWithin(spec: StackSetSpec, before: StackMap, after: StackMap, now: Time,
                                            clock: Time, n: Name)
    requires WellFormed(before) && Manages(spec, before, after, now, clock)
    requires n in before && WithinMaximum(before[n])
    ensures n in after && WithinMaximum(after[n])
  {
    if spec.Enabled() {
      var d, a :| ManagesFrom(spec, before, d, a, after, now, clock);
      ManagedIsWithin(spec, before, d, a, after, now, clock, n);
    }
  }

  // ----- progress and stability -----

  /** The stack is up at the percentage, and its whole prescaling target is updated and ready. */
  predicate Provisioned(s: Stack, percent: int) {
    && IsUp(s, percent)
    && s.resources.updatedReplicas >= s.prescalingReplicas
    && s.resources.readyReplicas >= s.prescalingReplicas
  }

  /**
   Progress of prescaling: once every gaining, non-forwarding stack is prescaled for its weight,
   the round switches exactly when all of them are provisioned.
   */
  lemma {:induction false} PrescaledRoundSwitches(spec: StackSetSpec, before: StackMap, d: Weights, a: Weights,
                                                  after: StackMap, now: Time, clock: Time)
    requires WellFormed(before) && ManagesFrom(spec, before, d, a, after, now, clock)
    requires spec.reconciler.Prescaling? && clock - now <= spec.reconciler.resetTimeout
    requires forall n :: n in before && d[n] > a[n] && !before[n].TrafficForward() ==>
               before[n].prescalingActive && before[n].prescalingDesired >= d[n]
    ensures Actual(after) == d <==>
            forall n :: n in before && d[n] > a[n] && !before[n].TrafficForward() ==>
              Provisioned(before[n], spec.minReadyPercent)
  {
    RoundSwitchesIff(spec, before, d, a, after, now, clock);
    forall n | n in before && d[n] > a[n]
      ensures MayGain(spec.reconciler, spec.minReadyPercent, after[n]) <==>
              before[n].TrafficForward() || Provisioned(before[n], spec.minReadyPercent)
    {
      PrescaledMayGain(spec, before, d, a, after, now, clock, n);
    }
  }

  lemma {:induction false} PrescaledMayGain(spec: StackSetSpec, before: StackMap, d: Weights, a: Weights,
                                            after: StackMap, now: Time, clock: Time, n: Name)
    requires WellFormed(before) && ManagesFrom(spec, before, d, a, after, now, clock)
    requires spec.reconciler.Prescaling? && clock - now <= spec.reconciler.resetTimeout
    requires n in before && d[n] > a[n]
    requires !before[n].TrafficForward() ==> IsPrescaledFor(before[n], d[n])
    ensures n in after
    ensures MayGain(spec.reconciler, spec.minReadyPercent, after[n]) <==>
            before[n].TrafficForward() || Provisioned(before[n], spec.minReadyPercent)
  {
    ManagedKeeps(spec, before, d, a, after, now, clock, n);
    MayGainIff(spec.reconciler, spec.minReadyPercent, before[n], after[n]);
    if !before[n].TrafficForward() {
      RoundKeepsTarget(spec, before, d, a, after, now, clock, n);
    }
  }

  lemma {:induction false} EnteredAt(spec: StackSetSpec, before: StackMap, d: Weights, a: Weights, n: Name)
    requires d.Keys == a.Keys == before.Keys && n in before
    ensures var s := Entered(spec, before, d, a)[n];
            && s.desired == d[n] && s.actual == a[n] && s.spec == before[n].spec && s.resources == before[n].resources
            && SamePrescaling(s, before[n])
  {
  }

  /** What a stack's prescaling becomes in a round that gives it the target t for the weight. */
  predicate HasTarget(s: Stack, t: nat, weight: real, now: Time) {
    && s.prescalingActive && s.prescalingReplicas == t && s.prescalingDesired == weight
    && s.prescalingLastIncrease == now
  }

  lemma {:induction false} ShapeHasTarget(r: Reconciler, p: StackMap, d: Weights, a: Weights, after: StackMap,
                                          now: Time, n: Name, t: nat, weight: real)
    requires Shape(r, p, d, a, after, now) && n in p && HasTarget(p[n], t, weight, now)
    ensures n in after && HasTarget(after[n], t, weight, now)
  {
    ShapeAt(r, p, d, a, after, now, n);
  }

  lemma {:induction false} PreparedKeepsTarget(e: StackMap, now: Time, clock: Time, timeout: nat, n: Name)
    requires WellFormed(e) && n in e && e[n].Gains() && !e[n].TrafficForward() && clock - now <= timeout
    requires IsPrescaledFor(e[n], e[n].desired)
    ensures n in AllPrescaled(e, now, clock, timeout)
    ensures HasTarget(AllPrescaled(e, now, clock, timeout)[n], e[n].prescalingReplicas, e[n].prescalingDesired, now)
  {
    TotalsNonNegative(e);
    assert Prescaled(e[n], TotalReplicas(e), TotalTraffic(e), now, clock, timeout) ==
           e[n].(prescalingLastIncrease := now);
  }

  /** A stack that is already prescaled for the weight it is to get keeps its target, and its timeout starts again. */
  lemma {:induction false} RoundKeepsTarget(spec: StackSetSpec, before: StackMap, d: Weights, a: Weights,
                                            after: StackMap, now: Time, clock: Time, n: Name)
    requires WellFormed(before) && ManagesFrom(spec, before, d, a, after, now, clock)
    requires spec.reconciler.Prescaling? && clock - now <= spec.reconciler.resetTimeout
    requires n in before && d[n] > a[n] && !before[n].TrafficForward() && IsPrescaledFor(before[n], d[n])
    ensures n in after && HasTarget(after[n], before[n].prescalingReplicas, before[n].prescalingDesired, now)
  {
    EnteredWeights(spec, before, d, a);
    EnteredAt(spec, before, d, a, n);
    RoundShape(spec, before, d, a, after, now, clock);
    PreparedKeepsTarget(Entered(spec, before, d, a), now, clock, spec.reconciler.resetTimeout, n);
    ShapeHasTarget(spec.reconciler, Judged(spec, before, d, a, now, clock), d, a, after, now, n,
                   before[n].prescalingReplicas, before[n].prescalingDesired);
  }

  /** The stack was prescaled for at least the weight. */
  predicate IsPrescaledFor(s: Stack, weight: real) {
    s.prescalingActive && s.prescalingDesired >= weight
  }

  lemma {:induction false} PreparedIsPrescaled(e: StackMap, now: Time, clock: Time, timeout: nat, n: Name)
    requires WellFormed(e) && n in e && e[n].Gains() && !e[n].TrafficForward() && clock - now <= timeout
    ensures n in AllPrescaled(e, now, clock, timeout)
    ensures IsPrescaledFor(AllPrescaled(e, now, clock, timeout)[n], e[n].desired)
  {
    TotalsNonNegative(e);
    var t := Raise(e[n], TotalReplicas(e), TotalTraffic(e), now);
    assert IsPrescaledFor(t, e[n].desired) && Expire(t, clock, timeout) == t;
  }

  lemma {:induction false} ShapeIsPrescaled(r: Reconciler, p: StackMap, d: Weights, a: Weights, after: StackMap,
                                            now: Time, n: Name)
    requires Shape(r, p, d, a, after, now) && n in p && n in after && after[n].Gains() && !after[n].TrafficForward()
    requires p[n].Gains() && !p[n].TrafficForward() ==> IsPrescaledFor(p[n], p[n].desired)
    ensures IsPrescaledFor(after[n], after[n].desired)
  {
    ShapeAt(r, p, d, a, after, now, n);
  }

  lemma {:induction false} JudgedIsPrescaled(spec: StackSetSpec, before: StackMap, d: Weights, a: Weights, now: Time,
                                             clock: Time, n: Name)
    requires d.Keys == a.Keys == before.Keys && NonNegative(d) && NonNegative(a) && n in before
    requires spec.reconciler.Prescaling? && clock - now <= spec.reconciler.resetTimeout
    ensures var p := Judged(spec, before, d, a, now, clock);
            n in p && (p[n].Gains() && !p[n].TrafficForward() ==> IsPrescaledFor(p[n], p[n].desired))
  {
    var e := Entered(spec, before, d, a);
    EnteredWeights(spec, before, d, a);
    PreparedKeeps(spec.reconciler, e, now, clock, n);
    SameGain(spec.reconciler, e, now, clock, n);
    if e[n].Gains() && !e[n].TrafficForward() {
      PreparedIsPrescaled(e, now, clock, spec.reconciler.resetTimeout, n);
    }
  }

  lemma {:induction false} SameGain(r: Reconciler, e: StackMap, now: Time, clock: Time, n: Name)
    requires WellFormed(e) && n in e
    ensures n in Prepared(r, e, now, clock)
    ensures Prepared(r, e, now, clock)[n].desired == e[n].desired && Prepared(r, e, now, clock)[n].actual == e[n].actual
  {
    PreparedKeepsWeights(r, e, now, clock);
    assert Desired(Prepared(r, e, now, clock))[n] == Desired(e)[n];
    assert Actual(Prepared(r, e, now, clock))[n] == Actual(e)[n];
  }

  /** A prescaling round leaves every stack that still has to gain prescaled for its weight. */
  lemma {:induction false} RoundPrescales(spec: StackSetSpec, before: StackMap, d: Weights, a: Weights, after: StackMap,
                                          now: Time, clock: Time, n: Name)
    requires WellFormed(before) && ManagesFrom(spec, before, d, a, after, now, clock)
    requires spec.reconciler.Prescaling? && clock - now <= spec.reconciler.resetTimeout
    requires n in before && n in after && after[n].Gains() && !after[n].TrafficForward()
    ensures IsPrescaledFor(after[n], after[n].desired)
  {
    RoundShape(spec, before, d, a, after, now, clock);
    JudgedIsPrescaled(spec, before, d, a, now, clock, n);
    ShapeIsPrescaled(spec.reconciler, Judged(spec, before, d, a, now, clock), d, a, after, now, n);
  }

  predicate SamePrescaling(s: Stack, t: Stack) {
    && s.prescalingActive == t.prescalingActive
    && s.prescalingReplicas == t.prescalingReplicas
    && s.prescalingDesired == t.prescalingDesired
    && s.prescalingLastIncrease == t.prescalingLastIncrease
  }

  predicate TimedOut(r: Reconciler, s: Stack, clock: Time) {
    && r.Prescaling? && s.prescalingActive && !s.TrafficForward()
    && s.prescalingLastIncrease != ZERO_TIME && clock - s.prescalingLastIncrease > r.resetTimeout
  }

  /** What is left of the prescaling of s: nothing after its timeout, else all of it. */
  predicate KeepsPrescaling(r: Reconciler, t: Stack, s: Stack, clock: Time) {
    if TimedOut(r, s, clock)
    then !t.prescalingActive && t.prescalingReplicas == 0 && t.prescalingDesired == 0.0
         && t.prescalingLastIncrease == ZERO_TIME
    else SamePrescaling(t, s)
  }

  lemma {:induction false} PreparedWithoutGain(r: Reconciler, e: StackMap, now: Time, clock: Time, n: Name)
    requires WellFormed(e) && n in e && (!e[n].Gains() || e[n].TrafficForward())
    ensures n in Prepared(r, e, now, clock) && KeepsPrescaling(r, Prepared(r, e, now, clock)[n], e[n], clock)
  {
    if r.Prescaling? {
      TotalsNonNegative(e);
      assert e[n].TrafficForward() || Raise(e[n], TotalReplicas(e), TotalTraffic(e), now) == e[n];
      assert Prepared(r, e, now, clock)[n] ==
             if e[n].TrafficForward() then e[n] else Expire(e[n], clock, r.resetTimeout);
    }
  }

  lemma {:induction false} JudgedWithoutGain(spec: StackSetSpec, before: StackMap, d: Weights, a: Weights, now: Time,
                                             clock: Time, n: Name)
    requires d.Keys == a.Keys == before.Keys && NonNegative(d) && NonNegative(a) && n in before
    requires d[n] <= a[n] || before[n].TrafficForward()
    ensures n in Judged(spec, before, d, a, now, clock)
    ensures KeepsPrescaling(spec.reconciler, Judged(spec, before, d, a, now, clock)[n], before[n], clock)
  {
    EnteredWeights(spec, before, d, a);
    EnteredAt(spec, before, d, a, n);
    PreparedWithoutGain(spec.reconciler, Entered(spec, before, d, a), now, clock, n);
  }

  /** A stack that does not gain, or forwards its traffic, keeps its prescaling until its timeout has passed. */
  lemma {:induction false} RoundWithoutGain(spec: StackSetSpec, before: StackMap, d: Weights, a: Weights,
                                            after: StackMap, now: Time, clock: Time, n: Name)
    requires WellFormed(before) && ManagesFrom(spec, before, d, a, after, now, clock) && n in before
    requires d[n] <= a[n] || before[n].TrafficForward()
    ensures n in after && KeepsPrescaling(spec.reconciler, after[n], before[n], clock)
  {
    RoundShape(spec, before, d, a, after, now, clock);
    JudgedWithoutGain(spec, before, d, a, now, clock, n);
    var p := Judged(spec, before, d, a, now, clock);
    ShapeKeepsPrescaling(spec.reconciler, p, d, a, after, now, clock, before[n], n);
  }

  lemma {:induction false} ShapeKeepsPrescaling(r: Reconciler, p: StackMap, d: Weights, a: Weights, after: StackMap,
                                                now: Time, clock: Time, s: Stack, n: Name)
    requires Shape(r, p, d, a, after, now) && n in p && KeepsPrescaling(r, p[n], s, clock)
    ensures n in after && KeepsPrescaling(r, after[n], s, clock)
  {
    ShapeAt(r, p, d, a, after, now, n);
  }

  /**
   Stability: when the desired weights are the actual ones, a round changes no weight, and it
   changes a stack's prescaling only to end it once its timeout has passed.
   */
  lemma {:induction false} StableRound(spec: StackSetSpec, before: StackMap, d: Weights, after: StackMap,
                                       now: Time, clock: Time, n: Name)
    requires WellFormed(before) && ManagesFrom(spec, before, d, d, after, now, clock) && n in before
    ensures Desired(after) == d && Actual(after) == d
    ensures n in after && KeepsPrescaling(spec.reconciler, after[n], before[n], clock)
  {
    AllOrNothing(spec, before, d, d, after, now, clock);
    RoundWithoutGain(spec, before, d, d, after, now, clock, n);
  }

  // ----- what a round leaves alone -----

  /** Everything but weights, prescaling, readiness threshold and idle time. */
  predicate SameFixed(s: Stack, t: Stack) {
    && s.spec == t.spec && s.resources == t.resources && s.scaledownTTL == t.scaledownTTL
    && s.pendingRemoval == t.pendingRemoval
    && s.segmentLower == t.segmentLower && s.segmentUpper == t.segmentUpper
  }

  lemma {:induction false} PreparedKeeps(r: Reconciler, stacks: StackMap, now: Time, clock: Time, n: Name)
    requires WellFormed(stacks) && n in stacks
    ensures var p := Prepared(r, stacks, now, clock);
            n in p && SameFixed(p[n], stacks[n]) && p[n].noTrafficSince == stacks[n].noTrafficSince
  {
  }

  lemma {:induction false} JudgedKeeps(spec: StackSetSpec, before: StackMap, d: Weights, a: Weights, now: Time,
                                       clock: Time, n: Name)
    requires d.Keys == a.Keys == before.Keys && NonNegative(d) && NonNegative(a) && n in before
    ensures var p := Judged(spec, before, d, a, now, clock);
            n in p && SameFixed(p[n], before[n]) && p[n].noTrafficSince == before[n].noTrafficSince
  {
    EnteredWeights(spec, before, d, a);
    PreparedKeeps(spec.reconciler, Entered(spec, before, d, a), now, clock, n);
    assert SameFixed(Entered(spec, before, d, a)[n], before[n]);
  }

  /** The idle time after a round: zero with traffic, else kept, else the round's timestamp. */
  function IdleSince(s: Stack, before: Time, now: Time): Time {
    if s.actual > 0.0 || s.desired > 0.0 then ZERO_TIME else if before == ZERO_TIME then now else before
  }

  lemma {:induction false} ShapeKeeps(r: Reconciler, p: StackMap, d: Weights, a: Weights, after: StackMap,
                                      now: Time, s: Stack, n: Name)
    requires Shape(r, p, d, a, after, now) && n in p
    requires SameFixed(p[n], s) && p[n].noTrafficSince == s.noTrafficSince
    ensures n in after && SameFixed(after[n], s)
    ensures after[n].noTrafficSince == IdleSince(after[n], s.noTrafficSince, now)
  {
    ShapeAt(r, p, d, a, after, now, n);
  }

  lemma {:induction false} ManagedKeeps(spec: StackSetSpec, before: StackMap, d: Weights, a: Weights, after: StackMap,
                                        now: Time, clock: Time, n: Name)
    requires WellFormed(before) && ManagesFrom(spec, before, d, a, after, now, clock) && n in before
    ensures n in after && SameFixed(after[n], before[n])
    ensures after[n].noTrafficSince == IdleSince(after[n], before[n].noTrafficSince, now)
  {
    RoundShape(spec, before, d, a, after, now, clock);
    JudgedKeeps(spec, before, d, a, now, clock, n);
    ShapeKeeps(spec.reconciler, Judged(spec, before, d, a, now, clock), d, a, after, now, before[n], n);
  }

  lemma {:induction false} ClearedKeeps(s: Stack)
    ensures SameFixed(Cleared(s), s) && Cleared(s).noTrafficSince == ZERO_TIME
  {
  }

  /** A round keeps the fixed part of every stack, and its idle time follows the weights it leaves. */
  lemma {:induction false} RoundKeeps(spec: StackSetSpec, before: StackMap, after: StackMap, now: Time,
                                      clock: Time, n: Name)
    requires WellFormed(before) && Manages(spec, before, after, now, clock) && n in before
    ensures n in after && SameFixed(after[n], before[n])
    ensures after[n].noTrafficSince ==
            if spec.Enabled() then IdleSince(after[n], before[n].noTrafficSince, now) else ZERO_TIME
  {
    if spec.Enabled() {
      var d, a :| ManagesFrom(spec, before, d, a, after, now, clock);
      ManagedKeeps(spec, before, d, a, after, now, clock, n);
    } else {
      ClearedKeeps(before[n]);
    }
  }

  lemma {:induction false} RoundKeys(spec: StackSetSpec, before: StackMap, after: StackMap, now: Time, clock: Time)
    requires WellFormed(before) && Manages(spec, before, after, now, clock)
    ensures after.Keys == before.Keys
  {
    if spec.Enabled() && before != map[] {
      var d, a :| ManagesFrom(spec, before, d, a, after, now, clock);
      EnteredWeights(spec, before, d, a);
      PreparedKeepsWeights(spec.reconciler, Entered(spec, before, d, a), now, clock);
      RoundShape(spec, before, d, a, after, now, clock);
    }
  }
}
