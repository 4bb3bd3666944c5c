/**
 Which prescaling target a round sets: the replicas per weight the estimate is based
 on, and the least number of replicas that keeps them (pkg/core/traffic_prescaling.go).
 */
module Targets {
  import opened Names
  import opened Sums
  import opened Weights
  import opened Options
  import opened Stacks
  import opened Reconcilers
  import opened Traffic
  import opened Switching

  // ----- the estimate -----

  /**
   A fresh target t is the least whole number with t * T >= d * R: nothing below it suffices,
   and it suffices itself unless the stack's maximum caps it.
   */
  lemma {:induction false} TargetIsLeast(s: Stack, totalReplicas: real, totalTraffic: real, n: nat)
    requires s.desired > 0.0 && totalReplicas > 0.0 && totalTraffic > 0.0
    ensures var t := Target(s, totalReplicas, totalTraffic);
            && t <= s.MaxReplicas()
            && (n < t ==> n as real * totalTraffic < s.desired * totalReplicas)
            && (t < s.MaxReplicas() ==> t as real * totalTraffic >= s.desired * totalReplicas)
  {
    EstimateIsLeast(s.desired, totalReplicas, totalTraffic, n);
    EstimateIsLeast(s.desired, totalReplicas, totalTraffic, 0);
    EstimateIsLeast(s.desired, totalReplicas, totalTraffic, Target(s, totalReplicas, totalTraffic));
    assert s.desired * totalReplicas > 0.0;
  }

  lemma {:induction false} EstimateIsLeast(desired: real, totalReplicas: real, totalTraffic: real, n: nat)
    requires desired >= 0.0 && totalReplicas >= 0.0 && totalTraffic > 0.0
    ensures n >= Estimate(desired, totalReplicas, totalTraffic) <==> n as real * totalTraffic >= desired * totalReplicas
  {
    CeilIsLeast(desired * totalReplicas / totalTraffic, n);
    DivideBound(desired * totalReplicas, totalTraffic, n as real);
  }

  lemma {:induction false} DivideBound(x: real, y: real, n: real)
    requires y > 0.0
    ensures n >= x / y <==> n * y >= x
  {
    assert x / y * y == x;
    if n >= x / y { assert n * y >= x / y * y; }
    if n < x / y { assert n * y < x / y * y; }
  }

  /** Running replicas of a stack with actual traffic. */
  function Serving(s: Stack): real {
    if s.actual > 0.0 then s.resources.deploymentReplicas as real else 0.0
  }

  ghost function ServingReplicas(stacks: StackMap): real {
    Sum(map n | n in stacks :: Serving(stacks[n]))
  }

  lemma {:induction false} ServingIsCounted(s: Stack)
    requires Sound(s)
    ensures Serving(s) <= Contribution(s).0
    ensures s.actual > 0.0 ==> Contribution(s).1 > 0.0
  {
  }

  /** With sound prescaling the estimate counts at least the replicas that run for the stacks with traffic. */
  lemma {:induction false} ServingReplicasAreCounted(stacks: StackMap)
    requires AllSound(stacks)
    ensures TotalReplicas(stacks) >= ServingReplicas(stacks)
  {
    var serving := map n | n in stacks :: Serving(stacks[n]);
    var counted := map n | n in stacks :: Contribution(stacks[n]).0;
    forall n | n in stacks
      ensures serving[n] <= counted[n]
    {
      assert Sound(stacks[n]);
      ServingIsCounted(stacks[n]);
    }
    SumMonotone(serving, counted);
  }

  /** A stack that alone serves the traffic is estimated to need exactly the replicas it is counted with. */
  lemma {:induction false} EstimateReproduces(replicas: nat, traffic: real)
    requires traffic > 0.0
    ensures Estimate(traffic, replicas as real, traffic) == replicas
  {
    EstimateIsLeast(traffic, replicas as real, traffic, replicas);
    if replicas > 0 {
      EstimateIsLeast(traffic, replicas as real, traffic, replicas - 1);
      Smaller(replicas, traffic);
    }
  }

  lemma {:induction false} Smaller(n: nat, t: real)
    requires n > 0 && t > 0.0
    ensures (n - 1) as real * t < t * n as real
  {
    assert (n - 1) as real * t == n as real * t - t;
  }

  // ----- what a round counts -----

  /** Stacks counted with the target and the weight they are prescaled for: they do not run more than that. */
  ghost function Held(stacks: StackMap): set<Name> {
    set n | n in stacks && stacks[n].prescalingActive && stacks[n].prescalingDesired > 0.0
            && stacks[n].resources.deploymentReplicas <= stacks[n].prescalingReplicas
  }

  /** Stacks counted with the replicas they run and their actual weight. */
  ghost function Running(stacks: StackMap, a: Weights): set<Name>
    requires a.Keys == stacks.Keys
  {
    set n | n in stacks && a[n] > 0.0
            && (stacks[n].prescalingActive ==> stacks[n].resources.deploymentReplicas > stacks[n].prescalingReplicas)
  }

  ghost function HeldReplicas(stacks: StackMap): Weights {
    map n | n in Held(stacks) :: stacks[n].prescalingReplicas as real
  }

  ghost function HeldWeights(stacks: StackMap): Weights {
    map n | n in Held(stacks) :: stacks[n].prescalingDesired
  }

  ghost function RunningReplicas(stacks: StackMap, a: Weights): Weights
    requires a.Keys == stacks.Keys
  {
    map n | n in Running(stacks, a) :: stacks[n].resources.deploymentReplicas as real
  }

  ghost function RunningWeights(stacks: StackMap, a: Weights): Weights
    requires a.Keys == stacks.Keys
  {
    map n | n in Running(stacks, a) :: a[n]
  }

  ghost function CountedReplicas(stacks: StackMap, a: Weights): real
    requires a.Keys == stacks.Keys
  {
    Sum(HeldReplicas(stacks)) + Sum(RunningReplicas(stacks, a))
  }

  ghost function CountedWeight(stacks: StackMap, a: Weights): real
    requires a.Keys == stacks.Keys
  {
    Sum(HeldWeights(stacks)) + Sum(RunningWeights(stacks, a))
  }

  /** A total over all keys falls apart into the totals of two disjoint parts. */
  lemma {:induction false} SumOfParts(all: Weights, x: Weights, y: Weights)
    requires x.Keys <= all.Keys && y.Keys <= all.Keys && x.Keys !! y.Keys
    requires forall n :: n in all ==> all[n] == if n in x then x[n] else if n in y then y[n] else 0.0
    ensures Sum(all) == Sum(x) + Sum(y)
  {
    var wideX := map n | n in all :: if n in x then x[n] else 0.0;
    var wideY := map n | n in all :: if n in y then y[n] else 0.0;
    SumSupport(wideX, x);
    SumSupport(wideY, y);
    SumAdd(wideX, wideY, all);
  }

  lemma {:induction false} CountedAt(s: Stack, e: Stack, weight: real)
    requires e.resources == s.resources && SamePrescaling(e, s) && e.actual == weight
    ensures var held := s.prescalingActive && s.prescalingDesired > 0.0
                        && s.resources.deploymentReplicas <= s.prescalingReplicas;
            var running := weight > 0.0
                           && (s.prescalingActive ==> s.resources.deploymentReplicas > s.prescalingReplicas);
            Contribution(e) ==
            if held then (s.prescalingReplicas as real, s.prescalingDesired)
            else if running then (s.resources.deploymentReplicas as real, weight)
            else (0.0, 0.0)
  {
  }

  /** The totals of a round, without the case distinctions of the loop. */
  lemma {:induction false} RoundTotals(spec: StackSetSpec, before: StackMap, d: Weights, a: Weights)
    requires d.Keys == a.Keys == before.Keys && NonNegative(d) && NonNegative(a)
    ensures TotalReplicas(Entered(spec, before, d, a)) == CountedReplicas(before, a)
    ensures TotalTraffic(Entered(spec, before, d, a)) == CountedWeight(before, a)
  {
    var e := Entered(spec, before, d, a);
    var replicas, traffic := map n | n in e :: Contribution(e[n]).0, map n | n in e :: Contribution(e[n]).1;
    forall n | n in before
      ensures Contribution(e[n]) ==
              if n in Held(before) then (HeldReplicas(before)[n], HeldWeights(before)[n])
              else if n in Running(before, a) then (RunningReplicas(before, a)[n], RunningWeights(before, a)[n])
              else (0.0, 0.0)
    {
      EnteredAt(spec, before, d, a, n);
      CountedAt(before[n], e[n], a[n]);
    }
    SumOfParts(replicas, HeldReplicas(before), RunningReplicas(before, a));
    SumOfParts(traffic, HeldWeights(before), RunningWeights(before, a));
  }

  // ----- the target a round sets -----

  /** m replicas are too few for the weight at the rate of `replicas` for `total`. */
  predicate TooFew(m: nat, weight: real, replicas: real, total: real) {
    m as real * total < weight * replicas
  }

  /**
   t is the least number of replicas that is enough for the weight, or the maximum of the stack if
   that is lower; if no replicas are counted, t is what the spec asks for, or the maximum.
   */
  ghost predicate IsFreshTarget(s: StackObject, t: nat, weight: real, replicas: real, total: real) {
    var maximum := if s.autoscaler.Some? then s.autoscaler.value.maxReplicas else 0x7FFF_FFFF;
    && t <= maximum
    && if replicas > 0.0
       then (forall m: nat :: m < t ==> TooFew(m, weight, replicas, total))
            && (t < maximum ==> !TooFew(t, weight, replicas, total))
       else t == if (if s.replicas.Some? then s.replicas.value else 1) > maximum then maximum
                 else if s.replicas.Some? then s.replicas.value else 1
  }

  lemma {:induction false} TargetIsFresh(s: Stack, totalReplicas: real, totalTraffic: real)
    requires s.desired > 0.0 && totalReplicas >= 0.0 && totalTraffic > 0.0
    ensures IsFreshTarget(s.spec, Target(s, totalReplicas, totalTraffic), s.desired, totalReplicas, totalTraffic)
  {
    if totalReplicas > 0.0 {
      forall m: nat
        ensures m < Target(s, totalReplicas, totalTraffic) ==> TooFew(m, s.desired, totalReplicas, totalTraffic)
      {
        TargetIsLeast(s, totalReplicas, totalTraffic, m);
      }
      TargetIsLeast(s, totalReplicas, totalTraffic, 0);
    } else {
      EstimateIsLeast(s.desired, totalReplicas, totalTraffic, 0);
      assert s.desired * totalReplicas == 0.0;
    }
  }

  lemma {:induction false} PreparedHasTarget(e: StackMap, now: Time, clock: Time, timeout: nat, n: Name)
    returns (t: nat)
    requires WellFormed(e) && n in e && e[n].Gains() && !e[n].TrafficForward() && clock - now <= timeout
    requires !IsPrescaledFor(e[n], e[n].desired) && TotalTraffic(e) > 0.0
    ensures n in AllPrescaled(e, now, clock, timeout)
    ensures HasTarget(AllPrescaled(e, now, clock, timeout)[n], t, e[n].desired, now)
    ensures IsFreshTarget(e[n].spec, t, e[n].desired, TotalReplicas(e), TotalTraffic(e))
  {
    TotalsNonNegative(e);
    t := Target(e[n], TotalReplicas(e), TotalTraffic(e));
    TargetIsFresh(e[n], TotalReplicas(e), TotalTraffic(e));
  }

  /**
   A gaining stack that is not yet prescaled for the weight it is to get ends the round prescaled for
   it, with the least target that keeps the counted replicas per weight, and with a new timestamp.
   */
  lemma {:induction false} RoundTarget(spec: StackSetSpec, before: StackMap, d: Weights, a: Weights,
                                       after: StackMap, now: Time, clock: Time, n: Name)
    requires WellFormed(before) && AllSound(before) && ManagesFrom(spec, before, d, a, after, now, clock)
    requires spec.reconciler.Prescaling? && clock - now <= spec.reconciler.resetTimeout
    requires n in before && d[n] > a[n] && !before[n].spec.forwardBackend
    requires !before[n].prescalingActive || before[n].prescalingDesired < d[n]
    ensures CountedWeight(before, a) > 0.0 && n in after
    ensures after[n].prescalingActive && after[n].prescalingDesired == d[n] && after[n].prescalingLastIncrease == now
    ensures IsFreshTarget(before[n].spec, after[n].prescalingReplicas, d[n],
                          CountedReplicas(before, a), CountedWeight(before, a))
  {
    RoundShape(spec, before, d, a, after, now, clock);
    var t := JudgedHasTarget(spec, before, d, a, now, clock, n);
    ShapeHasTarget(spec.reconciler, Judged(spec, before, d, a, now, clock), d, a, after, now, n, t, d[n]);
  }

  lemma {:induction false} JudgedHasTarget(spec: StackSetSpec, before: StackMap, d: Weights, a: Weights, now: Time,
                                           clock: Time, n: Name) returns (t: nat)
    requires AllSound(before) && d.Keys == a.Keys == before.Keys && Canonical(d) && Canonical(a)
    requires spec.reconciler.Prescaling? && clock - now <= spec.reconciler.resetTimeout
    requires n in before && d[n] > a[n] && !before[n].TrafficForward() && !IsPrescaledFor(before[n], d[n])
    ensures n in Judged(spec, before, d, a, now, clock)
    ensures HasTarget(Judged(spec, before, d, a, now, clock)[n], t, d[n], now)
    ensures CountedWeight(before, a) > 0.0
    ensures IsFreshTarget(before[n].spec, t, d[n], CountedReplicas(before, a), CountedWeight(before, a))
  {
    EnteredWeights(spec, before, d, a);
    EnteredAt(spec, before, d, a, n);
    RoundTotals(spec, before, d, a);
    RoundHasTraffic(spec, before, d, a);
    t := PreparedHasTarget(Entered(spec, before, d, a), now, clock, spec.reconciler.resetTimeout, n);
  }

  /** Replicas that run for the stacks with actual weight. */
  ghost function ReplicasWithWeight(stacks: StackMap, a: Weights): real
    requires a.Keys == stacks.Keys
  {
    Sum(map n | n in stacks && a[n] > 0.0 :: stacks[n].resources.deploymentReplicas as real)
  }

  /** Without prescaling the counted weight is 100 and the counted replicas run for the stacks with weight. */
  lemma {:induction false} UnprescaledTotals(stacks: StackMap, a: Weights)
    requires a.Keys == stacks.Keys && Canonical(a)
    requires forall n :: n in stacks ==> !stacks[n].prescalingActive
    ensures CountedWeight(stacks, a) == 100.0
    ensures CountedReplicas(stacks, a) == ReplicasWithWeight(stacks, a)
  {
    assert HeldReplicas(stacks) == map[] && HeldWeights(stacks) == map[];
    SumEmpty();
    SumSupport(a, RunningWeights(stacks, a));
    assert RunningReplicas(stacks, a) ==
           map n | n in stacks && a[n] > 0.0 :: stacks[n].resources.deploymentReplicas as real;
  }

  /**
   The first prescaling of a stack set: the target of a gaining stack is the least number of replicas
   t with 100 * t >= its weight * the replicas that now run for the stacks with weight.
   */
  lemma {:induction false} FirstTarget(spec: StackSetSpec, before: StackMap, d: Weights, a: Weights,
                                       after: StackMap, now: Time, clock: Time, n: Name)
    requires WellFormed(before) && ManagesFrom(spec, before, d, a, after, now, clock)
    requires forall m :: m in before ==> !before[m].prescalingActive
    requires spec.reconciler.Prescaling? && clock - now <= spec.reconciler.resetTimeout
    requires n in before && d[n] > a[n] && !before[n].spec.forwardBackend
    ensures n in after && after[n].prescalingActive
    ensures IsFreshTarget(before[n].spec, after[n].prescalingReplicas, d[n], ReplicasWithWeight(before, a), 100.0)
  {
    RoundTarget(spec, before, d, a, after, now, clock, n);
    UnprescaledTotals(before, a);
  }

  // ----- replicas per weight -----

  ghost predicate Rated(replicas: Weights, weights: Weights, q: real) {
    replicas.Keys == weights.Keys && forall n :: n in weights ==> replicas[n] == q * weights[n]
  }

  /** Every counted stack has q replicas per unit of weight. */
  ghost predicate EvenlyLoaded(stacks: StackMap, a: Weights, q: real)
    requires a.Keys == stacks.Keys
  {
    && Rated(HeldReplicas(stacks), HeldWeights(stacks), q)
    && Rated(RunningReplicas(stacks, a), RunningWeights(stacks, a), q)
  }

  lemma {:induction false} RatedTotal(replicas: Weights, weights: Weights, q: real)
    requires Rated(replicas, weights, q)
    ensures Sum(replicas) == q * Sum(weights)
  {
    SumScale(weights, q, replicas);
  }

  lemma {:induction false} RatedTotals(r: Weights, w: Weights, r': Weights, w': Weights, q: real,
                                       replicas: real, total: real)
    requires Rated(r, w, q) && Rated(r', w', q)
    requires replicas == Sum(r) + Sum(r') && total == Sum(w) + Sum(w')
    ensures replicas == q * total
  {
    RatedTotal(r, w, q);
    RatedTotal(r', w', q);
    AddProducts(q, Sum(w), Sum(w'), Sum(r), Sum(r'), total);
  }

  lemma {:induction false} AddProducts(q: real, x: real, y: real, qx: real, qy: real, sum: real)
    requires qx == q * x && qy == q * y && sum == x + y
    ensures qx + qy == q * sum
  {
  }

  predicate IsRate(q: real, replicas: real, total: real) {
    replicas == q * total
  }

  lemma {:induction false} EvenTotals(stacks: StackMap, a: Weights, q: real, replicas: real, total: real)
    requires a.Keys == stacks.Keys && EvenlyLoaded(stacks, a, q)
    requires replicas == CountedReplicas(stacks, a) && total == CountedWeight(stacks, a)
    ensures IsRate(q, replicas, total)
  {
    RatedTotals(HeldReplicas(stacks), HeldWeights(stacks), RunningReplicas(stacks, a), RunningWeights(stacks, a), q,
                replicas, total);
  }

  lemma {:induction false} EvenEnough(m: nat, weight: real, q: real, total: real, replicas: real)
    requires total > 0.0 && IsRate(q, replicas, total)
    ensures TooFew(m, weight, replicas, total) <==> m as real < q * weight
  {
    assert weight * replicas == q * weight * total;
    assert (m as real - q * weight) * total == m as real * total - q * weight * total;
  }

  lemma {:induction false} LoadOfTarget(s: StackObject, t: nat, weight: real, q: real, replicas: real, total: real)
    requires q > 0.0 && total > 0.0 && IsRate(q, replicas, total) && IsFreshTarget(s, t, weight, replicas, total)
    ensures t > 0 ==> (t - 1) as real < q * weight
    ensures t < MaximumOf(s) ==> t as real >= q * weight
  {
    PositiveProduct(q, total, replicas);
    EvenEnough(t, weight, q, total, replicas);
    if t > 0 {
      assert TooFew(t - 1, weight, replicas, total);
      EvenEnough(t - 1, weight, q, total, replicas);
    }
  }

  /**
   If every counted stack has q replicas per weight, a fresh target gives the stack q per weight too,
   rounded up.
   */
  lemma {:induction false} TargetKeepsLoad(stacks: StackMap, a: Weights, s: StackObject, t: nat, weight: real, q: real)
    requires a.Keys == stacks.Keys && EvenlyLoaded(stacks, a, q) && CountedWeight(stacks, a) > 0.0 && q > 0.0
    requires IsFreshTarget(s, t, weight, CountedReplicas(stacks, a), CountedWeight(stacks, a))
    ensures t > 0 ==> (t - 1) as real < q * weight
    ensures t < MaximumOf(s) ==> t as real >= q * weight
  {
    EvenTotals(stacks, a, q, CountedReplicas(stacks, a), CountedWeight(stacks, a));
    LoadOfTarget(s, t, weight, q, CountedReplicas(stacks, a), CountedWeight(stacks, a));
  }

  lemma {:induction false} PositiveProduct(q: real, x: real, p: real)
    requires q > 0.0 && x > 0.0 && IsRate(q, p, x)
    ensures p > 0.0
  {
  }
}
