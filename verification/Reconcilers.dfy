/**
 The two traffic reconcilers (pkg/core/traffic_simple.go,
 pkg/core/traffic_prescaling.go): specification on value views, and the methods
 that update the containers in place.
 */
module Reconcilers {
  import opened Names
  import opened Sums
  import opened Weights
  import opened BackendWeights
  import opened Stacks

  datatype Reconciler = Simple | Prescaling(resetTimeout: nat)

  ghost predicate WellFormed(stacks: StackMap) {
    forall n :: n in stacks ==> stacks[n].desired >= 0.0 && stacks[n].actual >= 0.0
  }

  // ----- the switch shared by both -----

  ghost function WithActual(stacks: StackMap, w: Weights): StackMap
    requires w.Keys == stacks.Keys
  {
    map n | n in stacks :: stacks[n].(actual := w[n])
  }

  ghost function SimpleBlocked(stacks: StackMap): set<Name> {
    set n | n in stacks && stacks[n].Gains() && !stacks[n].IsReady()
  }

  ghost function Switched(stacks: StackMap): StackMap
    requires NonNegative(Desired(stacks))
  {
    WithActual(stacks, Normalized(Desired(stacks)))
  }

  // ----- prescaling -----

  /** What a stack contributes to the replicas-per-traffic estimate. */
  function Contribution(s: Stack): (real, real) {
    if s.prescalingActive then
      if s.resources.deploymentReplicas <= s.prescalingReplicas && s.prescalingDesired > 0.0 then
        (s.prescalingReplicas as real, s.prescalingDesired)
      else if s.resources.deploymentReplicas > s.prescalingReplicas && s.actual > 0.0 then
        (s.resources.deploymentReplicas as real, s.actual)
      else (0.0, 0.0)
    else if s.actual > 0.0 then (s.resources.deploymentReplicas as real, s.actual)
    else (0.0, 0.0)
  }

  ghost function TotalReplicas(stacks: StackMap): real {
    Sum(map n | n in stacks :: Contribution(stacks[n]).0)
  }

  ghost function TotalTraffic(stacks: StackMap): real {
    Sum(map n | n in stacks :: Contribution(stacks[n]).1)
  }

  predicate NeedsTarget(s: Stack) {
    !s.prescalingActive || s.prescalingDesired < s.desired
  }

  /** The estimate d * R / T rounded up, the replicas of the spec if that gives none, capped. */
  function Target(s: Stack, totalReplicas: real, totalTraffic: real): nat
    requires s.desired >= 0.0 && totalReplicas >= 0.0 && totalTraffic >= 0.0
  {
    var estimate :=
      if totalTraffic != 0.0 then Estimate(s.desired, totalReplicas, totalTraffic) else s.prescalingReplicas;
    var target := if estimate == 0 then s.StackReplicas() else estimate;
    if target > s.MaxReplicas() then s.MaxReplicas() else target
  }

  function Estimate(desired: real, totalReplicas: real, totalTraffic: real): nat
    requires desired >= 0.0 && totalReplicas >= 0.0 && totalTraffic > 0.0
  {
    EstimateNonNegative(desired, totalReplicas, totalTraffic);
    Ceil(desired * totalReplicas / totalTraffic)
  }

  lemma {:induction false} EstimateNonNegative(desired: real, totalReplicas: real, totalTraffic: real)
    requires desired >= 0.0 && totalReplicas >= 0.0 && totalTraffic > 0.0
    ensures Ceil(desired * totalReplicas / totalTraffic) >= 0
  {
    assert desired * totalReplicas >= 0.0;
    assert desired * totalReplicas / totalTraffic >= 0.0;
  }

  function Raise(s: Stack, totalReplicas: real, totalTraffic: real, now: Time): Stack
    requires s.desired >= 0.0 && totalReplicas >= 0.0 && totalTraffic >= 0.0
  {
    if !s.Gains() then s
    else
      var t := if NeedsTarget(s)
               then s.(prescalingDesired := s.desired,
                       prescalingReplicas := Target(s, totalReplicas, totalTraffic))
               else s;
      t.(prescalingActive := true, prescalingLastIncrease := now)
  }

  function Expire(s: Stack, clock: Time, timeout: nat): Stack {
    if s.prescalingActive && s.prescalingLastIncrease != ZERO_TIME && clock - s.prescalingLastIncrease > timeout
    then s.(prescalingActive := false, prescalingReplicas := 0, prescalingDesired := 0.0,
            prescalingLastIncrease := ZERO_TIME)
    else s
  }

  function Prescaled(s: Stack, totalReplicas: real, totalTraffic: real, now: Time, clock: Time, timeout: nat): Stack
    requires s.desired >= 0.0 && totalReplicas >= 0.0 && totalTraffic >= 0.0
  {
    if s.TrafficForward() then s
    else Expire(Raise(s, totalReplicas, totalTraffic, now), clock, timeout)
  }

  lemma {:induction false} TotalsNonNegative(stacks: StackMap)
    ensures TotalReplicas(stacks) >= 0.0 && TotalTraffic(stacks) >= 0.0
  {
    SumNonNegative(map n | n in stacks :: Contribution(stacks[n]).0);
    SumNonNegative(map n | n in stacks :: Contribution(stacks[n]).1);
  }

  ghost function PrescaledFor(stacks: StackMap, totalReplicas: real, totalTraffic: real,
                              now: Time, clock: Time, timeout: nat): StackMap
    requires WellFormed(stacks) && totalReplicas >= 0.0 && totalTraffic >= 0.0
  {
    map n | n in stacks :: Prescaled(stacks[n], totalReplicas, totalTraffic, now, clock, timeout)
  }

  ghost function AllPrescaled(stacks: StackMap, now: Time, clock: Time, timeout: nat): StackMap
    requires WellFormed(stacks)
  {
    TotalsNonNegative(stacks);
    PrescaledFor(stacks, TotalReplicas(stacks), TotalTraffic(stacks), now, clock, timeout)
  }

  /** The gaining stack has not enough up-to-date, ready replicas. */
  predicate PrescalingBlocks(s: Stack) {
    && s.Gains() && !s.TrafficForward()
    && var wanted := if s.prescalingActive then s.prescalingReplicas else s.resources.deploymentReplicas;
       !s.IsReady() || s.resources.updatedReplicas < wanted || s.resources.readyReplicas < wanted
  }

  ghost function PrescalingBlocked(stacks: StackMap): set<Name> {
    set n | n in stacks && PrescalingBlocks(stacks[n])
  }

  // ----- a reconciler run -----

  /** State in which the readiness of the gaining stacks is judged. */
  ghost function Prepared(r: Reconciler, stacks: StackMap, now: Time, clock: Time): StackMap
    requires WellFormed(stacks)
  {
    if r.Simple? then stacks else AllPrescaled(stacks, now, clock, r.resetTimeout)
  }

  ghost function Blocked(r: Reconciler, prepared: StackMap): set<Name> {
    if r.Simple? then SimpleBlocked(prepared) else PrescalingBlocked(prepared)
  }

  lemma {:induction false} PreparedKeepsWeights(r: Reconciler, stacks: StackMap, now: Time, clock: Time)
    requires WellFormed(stacks)
    ensures WellFormed(Prepared(r, stacks, now, clock))
    ensures Desired(Prepared(r, stacks, now, clock)) == Desired(stacks)
    ensures Actual(Prepared(r, stacks, now, clock)) == Actual(stacks)
  {
  }

  /** The whole desired vector if no gaining stack is blocked, else no change of any weight. */
  ghost function Reconciled(r: Reconciler, stacks: StackMap, now: Time, clock: Time): StackMap
    requires WellFormed(stacks)
  {
    PreparedKeepsWeights(r, stacks, now, clock);
    var prepared := Prepared(r, stacks, now, clock);
    if Blocked(r, prepared) == {} then Switched(prepared) else prepared
  }

  // ----- the methods -----

  method SetActual(stack: StackContainer, weight: real)
    modifies stack
    ensures stack.View() == old(stack.View()).(actual := weight)
  {
    stack.actualTrafficWeight := weight;
  }

  /** Body of the final loop. */
  method SetActualOf(stacks: Containers, n: Name, weight: real)
    requires Separate(stacks) && n in stacks
    modifies stacks.Values
    ensures Views(stacks) == old(Views(stacks))[n := old(Views(stacks))[n].(actual := weight)]
  {
    SetActual(stacks[n], weight);
  }

  /** Final loop of both reconcilers: every container takes its weight from w. */
  method SetActualWeights(stacks: Containers, w: Weights)
    requires Separate(stacks) && w.Keys == stacks.Keys
    modifies stacks.Values
    ensures Views(stacks) == WithActual(old(Views(stacks)), w)
  {
    ghost var before := Views(stacks);
    ghost var after := WithActual(before, w);
    PartlyEnds(before, after);
    var todo := stacks.Keys;
    while todo != {}
      invariant todo <= stacks.Keys && Views(stacks) == Partly(before, after, todo)
    {
      var stackName :| stackName in todo;
      PartlyStep(before, after, todo, stackName);
      SetActualOf(stacks, stackName, w[stackName]);
      todo := todo - {stackName};
    }
  }

  /** The switch: the wanted weights, normalised, become the actual ones. */
  method SwitchTo(stacks: Containers, actualWeights: Weights)
    requires Separate(stacks) && NonNegative(actualWeights) && actualWeights.Keys == stacks.Keys
    modifies stacks.Values
    ensures Views(stacks) == WithActual(old(Views(stacks)), Normalized(actualWeights))
  {
    var normalized := NormalizeLocal(actualWeights);
    SetActualWeights(stacks, normalized);
  }

  /** First loop of the simple reconciler: the stacks that are not ready, and the wanted weights. */
  method CollectSimple(stacks: Containers) returns (nonReadyStacks: set<Name>, actualWeights: Weights)
    requires Separate(stacks)
    ensures nonReadyStacks == SimpleBlocked(Views(stacks))
    ensures actualWeights == Desired(Views(stacks))
  {
    nonReadyStacks, actualWeights := {}, map[];
    var todo := stacks.Keys;
    while todo != {}
      invariant todo <= stacks.Keys
      invariant nonReadyStacks == SimpleBlocked(Views(stacks)) - todo
      invariant actualWeights == Desired(Views(stacks)) - todo
    {
      var stackName :| stackName in todo;
      var stack := stacks[stackName].View();
      assert stack == Views(stacks)[stackName];
      if stack.desired > stack.actual && !stack.IsReady() {
        nonReadyStacks := nonReadyStacks + {stackName};
      }
      actualWeights := actualWeights[stackName := stack.desired];
      todo := todo - {stackName};
    }
  }

  /** `SimpleTrafficReconciler.Reconcile`. */
  method ReconcileSimple(stacks: Containers, now: Time, clock: Time) returns (nonReadyStacks: set<Name>)
    requires Separate(stacks) && WellFormed(Views(stacks))
    modifies stacks.Values
    ensures nonReadyStacks == Blocked(Simple, Prepared(Simple, old(Views(stacks)), now, clock))
    ensures Views(stacks) == Reconciled(Simple, old(Views(stacks)), now, clock)
  {
    var actualWeights;
    nonReadyStacks, actualWeights := CollectSimple(stacks);
    if nonReadyStacks != {} {
      return;
    }
    SwitchTo(stacks, actualWeights);
  }

  /** Replicas and traffic the estimate is based on. */
  method EstimateTotals(stacks: Containers) returns (totalReplicas: real, totalTraffic: real)
    requires Separate(stacks)
    ensures totalReplicas == TotalReplicas(Views(stacks)) && totalTraffic == TotalTraffic(Views(stacks))
  {
    ghost var views := Views(stacks);
    ghost var replicas := map n | n in views :: Contribution(views[n]).0;
    ghost var traffic := map n | n in views :: Contribution(views[n]).1;
    totalReplicas, totalTraffic := 0.0, 0.0;
    var todo := stacks.Keys;
    SumNothing(replicas);
    SumNothing(traffic);
    assert replicas.Keys == traffic.Keys == todo;
    while todo != {}
      invariant todo <= stacks.Keys
      invariant totalReplicas == Sum(replicas - todo) && totalTraffic == Sum(traffic - todo)
    {
      var stackName :| stackName in todo;
      var contribution := Contribution(stacks[stackName].View());
      assert contribution == (replicas[stackName], traffic[stackName]);
      SumVisit(replicas, todo, stackName);
      SumVisit(traffic, todo, stackName);
      totalReplicas := totalReplicas + contribution.0;
      totalTraffic := totalTraffic + contribution.1;
      todo := todo - {stackName};
    }
  }

  /** A gaining stack gets a target, and its prescaling clock starts again. */
  method RaiseTarget(stack: StackContainer, totalReplicas: real, totalTraffic: real, now: Time)
    requires stack.desiredTrafficWeight >= 0.0 && totalReplicas >= 0.0 && totalTraffic >= 0.0
    modifies stack
    ensures stack.View() == Raise(old(stack.View()), totalReplicas, totalTraffic, now)
  {
    if stack.desiredTrafficWeight > stack.actualTrafficWeight {
      if !stack.prescalingActive || stack.prescalingDesiredTrafficWeight < stack.desiredTrafficWeight {
        stack.prescalingDesiredTrafficWeight := stack.desiredTrafficWeight;
        if totalTraffic != 0.0 {
          stack.prescalingReplicas := Estimate(stack.desiredTrafficWeight, totalReplicas, totalTraffic);
        }
        if stack.prescalingReplicas == 0 {
          stack.prescalingReplicas := stack.View().StackReplicas();
        }
        if stack.prescalingReplicas > stack.View().MaxReplicas() {
          stack.prescalingReplicas := stack.View().MaxReplicas();
        }
      }
      stack.prescalingActive := true;
      stack.prescalingLastTrafficIncrease := now;
    }
  }

  /** Prescaling ends once its timeout has passed. */
  method ExpireTarget(stack: StackContainer, clock: Time, resetTimeout: nat)
    modifies stack
    ensures stack.View() == Expire(old(stack.View()), clock, resetTimeout)
  {
    if stack.prescalingActive && stack.prescalingLastTrafficIncrease != ZERO_TIME
       && clock - stack.prescalingLastTrafficIncrease > resetTimeout {
      stack.prescalingActive := false;
      stack.prescalingReplicas := 0;
      stack.prescalingDesiredTrafficWeight := 0.0;
      stack.prescalingLastTrafficIncrease := ZERO_TIME;
    }
  }

  method PrescaleStack(stack: StackContainer, totalReplicas: real, totalTraffic: real,
                       now: Time, clock: Time, resetTimeout: nat)
    requires stack.desiredTrafficWeight >= 0.0 && totalReplicas >= 0.0 && totalTraffic >= 0.0
    modifies stack
    ensures stack.View() == Prescaled(old(stack.View()), totalReplicas, totalTraffic, now, clock, resetTimeout)
  {
    if stack.View().TrafficForward() {
      return;
    }
    RaiseTarget(stack, totalReplicas, totalTraffic, now);
    ExpireTarget(stack, clock, resetTimeout);
  }

  /** Middle loop of the prescaling reconciler. */
  method PrescaleStacks(stacks: Containers, totalReplicas: real, totalTraffic: real,
                        now: Time, clock: Time, resetTimeout: nat)
    requires Separate(stacks) && WellFormed(Views(stacks)) && totalReplicas >= 0.0 && totalTraffic >= 0.0
    modifies stacks.Values
    ensures Views(stacks) ==
            PrescaledFor(old(Views(stacks)), totalReplicas, totalTraffic, now, clock, resetTimeout)
  {
    ghost var before := Views(stacks);
    ghost var after := PrescaledFor(before, totalReplicas, totalTraffic, now, clock, resetTimeout);
    PartlyEnds(before, after);
    var todo := stacks.Keys;
    while todo != {}
      invariant todo <= stacks.Keys && Views(stacks) == Partly(before, after, todo)
    {
      var stackName :| stackName in todo;
      ghost var views := Views(stacks);
      PartlyStep(before, after, todo, stackName);
      assert stacks[stackName].View() == before[stackName];
      PrescaleStack(stacks[stackName], totalReplicas, totalTraffic, now, clock, resetTimeout);
      assert Views(stacks) == views[stackName := after[stackName]];
      todo := todo - {stackName};
    }
  }

  /** First two loops of the prescaling reconciler. */
  method EstimateAndPrescale(stacks: Containers, now: Time, clock: Time, resetTimeout: nat)
    requires Separate(stacks) && WellFormed(Views(stacks))
    modifies stacks.Values
    ensures Views(stacks) == AllPrescaled(old(Views(stacks)), now, clock, resetTimeout)
  {
    TotalsNonNegative(Views(stacks));
    var totalReplicas, totalTraffic := EstimateTotals(stacks);
    PrescaleStacks(stacks, totalReplicas, totalTraffic, now, clock, resetTimeout);
  }

  /** Last loop of the prescaling reconciler. */
  method CollectPrescaling(stacks: Containers) returns (nonReadyStacks: set<Name>, actualWeights: Weights)
    requires Separate(stacks)
    ensures nonReadyStacks == PrescalingBlocked(Views(stacks))
    ensures nonReadyStacks == {} ==> actualWeights == Desired(Views(stacks))
  {
    nonReadyStacks, actualWeights := {}, map[];
    var todo := stacks.Keys;
    while todo != {}
      invariant todo <= stacks.Keys
      invariant nonReadyStacks == PrescalingBlocked(Views(stacks)) - todo
      invariant actualWeights == Desired(Views(stacks)) - todo - PrescalingBlocked(Views(stacks))
    {
      var stackName :| stackName in todo;
      var stack := stacks[stackName].View();
      assert stack == Views(stacks)[stackName];
      todo := todo - {stackName};
      if stack.desired > stack.actual && !stack.TrafficForward() {
        var desiredReplicas := stack.resources.deploymentReplicas;
        if stack.prescalingActive {
          desiredReplicas := stack.prescalingReplicas;
        }
        if !stack.IsReady() || stack.resources.updatedReplicas < desiredReplicas
           || stack.resources.readyReplicas < desiredReplicas {
          nonReadyStacks := nonReadyStacks + {stackName};
          continue;
        }
      }
      actualWeights := actualWeights[stackName := stack.desired];
    }
  }

  /** `PrescalingTrafficReconciler.Reconcile`. */
  method ReconcilePrescaling(stacks: Containers, now: Time, clock: Time, resetTimeout: nat)
    returns (nonReadyStacks: set<Name>)
    requires Separate(stacks) && WellFormed(Views(stacks))
    modifies stacks.Values
    ensures var r := Prescaling(resetTimeout);
            && nonReadyStacks == Blocked(r, Prepared(r, old(Views(stacks)), now, clock))
            && Views(stacks) == Reconciled(r, old(Views(stacks)), now, clock)
  {
    ghost var before := Views(stacks);
    EstimateAndPrescale(stacks, now, clock, resetTimeout);
    PrescaledIsPrepared(before, now, clock, resetTimeout);
    nonReadyStacks := SwitchPrescaled(stacks, Views(stacks));
  }

  lemma {:induction false} PrescaledIsPrepared(stacks: StackMap, now: Time, clock: Time, resetTimeout: nat)
    requires WellFormed(stacks)
    ensures var p := AllPrescaled(stacks, now, clock, resetTimeout);
            && p == Prepared(Prescaling(resetTimeout), stacks, now, clock)
            && NonNegative(Desired(p))
            && Reconciled(Prescaling(resetTimeout), stacks, now, clock) ==
               if PrescalingBlocked(p) == {} then Switched(p) else p
  {
    PreparedKeepsWeights(Prescaling(resetTimeout), stacks, now, clock);
  }

  /** Last part of the prescaling reconciler: the gated switch. */
  method SwitchPrescaled(stacks: Containers, ghost prepared: StackMap) returns (nonReadyStacks: set<Name>)
    requires Separate(stacks) && prepared == Views(stacks) && NonNegative(Desired(prepared))
    modifies stacks.Values
    ensures nonReadyStacks == PrescalingBlocked(prepared)
    ensures Views(stacks) == if PrescalingBlocked(prepared) == {} then Switched(prepared) else prepared
  {
    var actualWeights;
    nonReadyStacks, actualWeights := CollectPrescaling(stacks);
    if nonReadyStacks != {} {
      return;
    }
    SwitchTo(stacks, actualWeights);
  }
}
