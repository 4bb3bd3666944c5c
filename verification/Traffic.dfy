/**
 One round of traffic management over the containers of a stack set
 (`ManageTraffic` and `findFallbackStack` in pkg/core/traffic.go).
 */
module Traffic {
  import opened Names
  import opened Sums
  import opened Weights
  import opened BackendWeights
  import opened Options
  import opened Stacks
  import opened Reconcilers

  datatype StackSetSpec = StackSetSpec(
    ingress: bool,
    routeGroup: bool,
    externalIngress: bool,
    minReadyPercent: int,
    limit: Option<nat>,
    scaledownTTL: Option<nat>,
    reconciler: Reconciler)
  {
    /** Without any kind of ingress there is no traffic to manage. */
    predicate Enabled() {
      ingress || routeGroup || externalIngress
    }
  }

  datatype Outcome = Done | NotReady(stacks: set<Name>) | NoStacks

  function NormalizeMinReadyPercent(minReadyPercent: int): (r: real)
    ensures 0.0 < r <= 1.0
  {
    if minReadyPercent >= 100 || minReadyPercent <= 0 then 1.0 else minReadyPercent as real / 100.0
  }

  /** `some` of `all` replicas make up the percentage asked for; a percentage outside 1 to 99 asks for all. */
  predicate MeetsPercent(percent: int, some: nat, all: nat) {
    if 0 < percent < 100 then 100 * some >= percent * all else some >= all
  }

  /** The readiness threshold in whole numbers. */
  lemma {:induction false} MeetsPercentIff(percent: int, some: nat, all: nat)
    ensures MeetsPercent(percent, some, all) <==> some as real >= all as real * NormalizeMinReadyPercent(percent)
  {
    if 0 < percent < 100 {
      HundredthsIff(percent, some, all);
    }
  }

  lemma {:induction false} HundredthsIff(percent: int, some: nat, all: nat)
    ensures 100 * some >= percent * all <==> some as real >= all as real * (percent as real / 100.0)
  {
    assert all as real * (percent as real / 100.0) == (percent * all) as real / 100.0;
  }

  /** The stack's resources are current, and updated and ready replicas make up the percentage asked for. */
  predicate IsUp(s: Stack, percent: int) {
    && s.resources.updated && s.resources.deploymentReplicas > 0
    && MeetsPercent(percent, s.resources.updatedReplicas, s.resources.deploymentReplicas)
    && MeetsPercent(percent, s.resources.readyReplicas, s.resources.deploymentReplicas)
  }

  lemma {:induction false} ReadyIffUp(s: Stack, percent: int)
    requires s.minReadyPercent == NormalizeMinReadyPercent(percent)
    ensures s.IsReady() <==> s.TrafficForward() || IsUp(s, percent)
  {
    ReadyIff(s);
    MeetsPercentIff(percent, s.resources.updatedReplicas, s.resources.deploymentReplicas);
    MeetsPercentIff(percent, s.resources.readyReplicas, s.resources.deploymentReplicas);
  }

  // ----- specification -----

  /** The stack that was idled last, or if none was ever idle, the one created first. */
  ghost predicate IsFallback(stacks: StackMap, n: Name) {
    && n in stacks
    && if exists m :: m in stacks && stacks[m].noTrafficSince != ZERO_TIME
       then forall m :: m in stacks ==> stacks[m].noTrafficSince <= stacks[n].noTrafficSince
       else forall m :: m in stacks ==> stacks[n].spec.created <= stacks[m].spec.created
  }

  /** c is w scaled and rounded, or 100 for a fallback stack if w carries no traffic. */
  ghost predicate Canonicalises(stacks: StackMap, w: Weights, c: Weights)
    requires NonNegative(w)
  {
    if AllZero(w) then exists fallback :: IsFallback(stacks, fallback) && c == w[fallback := 100.0]
    else
      NormalizedTotal(w);
      c == Rounded(Normalized(w))
  }

  function WithWeights(s: Stack, desired: real, actual: real, minReadyPercent: real): Stack {
    s.(desired := desired, actual := actual, minReadyPercent := minReadyPercent)
  }

  ghost function Entered(spec: StackSetSpec, stacks: StackMap, d: Weights, a: Weights): StackMap
    requires d.Keys == a.Keys == stacks.Keys
  {
    EnteredWith(stacks, d, a, NormalizeMinReadyPercent(spec.minReadyPercent))
  }

  ghost function EnteredWith(stacks: StackMap, d: Weights, a: Weights, minReadyPercent: real): StackMap
    requires d.Keys == a.Keys == stacks.Keys
  {
    map n | n in stacks :: WithWeights(stacks[n], d[n], a[n], minReadyPercent)
  }

  function Stamped(s: Stack, now: Time): Stack {
    if s.HasTraffic() then s.(noTrafficSince := ZERO_TIME)
    else if s.noTrafficSince == ZERO_TIME then s.(noTrafficSince := now)
    else s
  }

  ghost function AllStamped(stacks: StackMap, now: Time): StackMap {
    map n | n in stacks :: Stamped(stacks[n], now)
  }

  function Cleared(s: Stack): Stack {
    s.(desired := 0.0, actual := 0.0, noTrafficSince := ZERO_TIME,
       prescalingActive := false, prescalingReplicas := 0, prescalingLastIncrease := ZERO_TIME)
  }

  ghost function AllCleared(stacks: StackMap): StackMap {
    map n | n in stacks :: Cleared(stacks[n])
  }

  /** Weights after the reconciler ran: the desired ones if it left no stack with traffic. */
  ghost function Settled(reconciled: StackMap): Weights {
    if AllZero(Actual(reconciled)) then Desired(reconciled) else Actual(reconciled)
  }

  /** A round that starts from the canonical weights d (desired) and a (actual). */
  ghost function ManagedFrom(spec: StackSetSpec, stacks: StackMap, d: Weights, a: Weights, now: Time,
                             clock: Time): StackMap
    requires d.Keys == a.Keys == stacks.Keys && NonNegative(d) && NonNegative(a)
  {
    var r := Reconciled(spec.reconciler, Entered(spec, stacks, d, a), now, clock);
    AllStamped(WithActual(r, Settled(r)), now)
  }

  /** after is a possible result of `ManageTraffic` on before. */
  ghost predicate Manages(spec: StackSetSpec, before: StackMap, after: StackMap, now: Time, clock: Time)
    requires WellFormed(before)
  {
    if !spec.Enabled() then after == AllCleared(before)
    else if before == map[] then after == before
    else exists d, a :: ManagesFrom(spec, before, d, a, after, now, clock)
  }

  ghost predicate ManagesFrom(spec: StackSetSpec, before: StackMap, d: Weights, a: Weights, after: StackMap,
                              now: Time, clock: Time)
    requires WellFormed(before)
  {
    CanonicalStart(before, d, a) && after == ManagedFrom(spec, before, d, a, now, clock)
  }

  /** d and a are the canonical desired and actual weights of the stacks. */
  ghost predicate CanonicalStart(stacks: StackMap, d: Weights, a: Weights)
    requires WellFormed(stacks)
  {
    && d.Keys == a.Keys == stacks.Keys && Canonical(d) && Canonical(a)
    && Canonicalises(stacks, Desired(stacks), d)
    && Canonicalises(stacks, Actual(stacks), a)
  }

  /** The stacks that keep a round from switching; none if it switches. */
  ghost function NonReady(spec: StackSetSpec, stacks: StackMap, d: Weights, a: Weights, now: Time,
                          clock: Time): set<Name>
    requires d.Keys == a.Keys == stacks.Keys && NonNegative(d) && NonNegative(a)
  {
    Blocked(spec.reconciler, Prepared(spec.reconciler, Entered(spec, stacks, d, a), now, clock))
  }

  function OutcomeOf(nonReadyStacks: set<Name>): Outcome {
    if nonReadyStacks == {} then Done else NotReady(nonReadyStacks)
  }

  /** after and outcome are a possible result of `ManageTraffic` on before. */
  ghost predicate ManagesWith(spec: StackSetSpec, before: StackMap, after: StackMap, now: Time, clock: Time,
                              outcome: Outcome)
    requires WellFormed(before)
  {
    if !spec.Enabled() then after == AllCleared(before) && outcome == Done
    else if before == map[] then after == before && outcome == NoStacks
    else exists d, a :: ManagesFrom(spec, before, d, a, after, now, clock)
                        && outcome == OutcomeOf(NonReady(spec, before, d, a, now, clock))
  }

  lemma {:induction false} ManagesWitness(spec: StackSetSpec, before: StackMap, d: Weights, a: Weights,
                                          after: StackMap, now: Time, clock: Time, outcome: Outcome)
    requires spec.Enabled() && before != map[] && WellFormed(before)
    requires ManagesFrom(spec, before, d, a, after, now, clock)
    requires outcome == OutcomeOf(NonReady(spec, before, d, a, now, clock))
    ensures ManagesWith(spec, before, after, now, clock, outcome)
  {
  }

  lemma {:induction false} ManagesWithout(spec: StackSetSpec, before: StackMap, after: StackMap, now: Time, clock: Time,
                                          outcome: Outcome)
    requires WellFormed(before) && ManagesWith(spec, before, after, now, clock, outcome)
    ensures Manages(spec, before, after, now, clock)
  {
    if spec.Enabled() && before != map[] {
      var d, a :| ManagesFrom(spec, before, d, a, after, now, clock)
                  && outcome == OutcomeOf(NonReady(spec, before, d, a, now, clock));
    }
  }

  lemma {:induction false} CanonicalisesIsCanonical(stacks: StackMap, w: Weights, c: Weights)
    requires w.Keys == stacks.Keys && NonNegative(w) && Canonicalises(stacks, w, c)
    requires stacks != map[]
    ensures Canonical(c) && c.Keys == w.Keys
  {
    if AllZero(w) {
      var fallback :| IsFallback(stacks, fallback) && c == w[fallback := 100.0];
      SumReplace(w, fallback, 100.0);
      SumZero(w);
    } else {
      ProjectionOntoCanonical(w);
    }
  }

  /** What becomes of weights without traffic: 100 for a fallback stack, 0 for the others. */
  ghost predicate AllOnFallback(stacks: StackMap, c: Weights) {
    && c.Keys == stacks.Keys
    && exists fallback :: IsFallback(stacks, fallback)
         && forall n :: n in stacks ==> c[n] == if n == fallback then 100.0 else 0.0
  }

  /** Canonicalised weights split 100 like the given ones; without traffic a fallback stack gets it all. */
  lemma {:induction false} CanonicalisesSplits(stacks: StackMap, w: Weights, c: Weights)
    requires w.Keys == stacks.Keys && NonNegative(w) && Canonicalises(stacks, w, c)
    ensures Sum(w) > 0.0 ==> SplitsLike(w, c)
    ensures Sum(w) == 0.0 ==> AllOnFallback(stacks, c)
  {
    SumZero(w);
    if AllZero(w) {
      FallsBack(stacks, w, c);
    } else {
      SplitsScaled(stacks, w, c);
    }
  }

  lemma {:induction false} FallsBack(stacks: StackMap, w: Weights, c: Weights)
    requires w.Keys == stacks.Keys && NonNegative(w) && Canonicalises(stacks, w, c) && AllZero(w)
    ensures AllOnFallback(stacks, c)
  {
    var fallback :| IsFallback(stacks, fallback) && c == w[fallback := 100.0];
    assert fallback in w;
  }

  lemma {:induction false} SplitsScaled(stacks: StackMap, w: Weights, c: Weights)
    requires NonNegative(w) && Canonicalises(stacks, w, c) && !AllZero(w)
    ensures SplitsLike(w, c)
  {
    NormalizedTotal(w);
    TotalPositive(w);
    CanonicalSplitsLike(w);
  }

  /** Canonicalising never reverses two stacks, and of two equal ones prefers the smaller name. */
  lemma {:induction false} CanonicalisesInOrder(stacks: StackMap, w: Weights, c: Weights, m: Name, n: Name)
    requires w.Keys == stacks.Keys && NonNegative(w) && Canonicalises(stacks, w, c) && Sum(w) > 0.0
    requires m in w && n in w && Leads(w, m, n)
    ensures m in c && n in c && c[m] >= c[n]
  {
    SumZero(w);
    NormalizedTotal(w);
    RoundedTotal(Normalized(w));
    CanonicalKeepsOrder(w, m, n);
  }

  lemma {:induction false} CollectedWeights(stacks: StackMap)
    requires WellFormed(stacks)
    ensures NonNegative(Desired(stacks)) && NonNegative(Actual(stacks))
    ensures Desired(stacks).Keys == Actual(stacks).Keys == stacks.Keys
  {
  }

  lemma {:induction false} StartFrom(stacks: StackMap, d: Weights, a: Weights)
    requires WellFormed(stacks) && NonNegative(Desired(stacks)) && NonNegative(Actual(stacks))
    requires stacks != map[]
    requires Canonicalises(stacks, Desired(stacks), d) && Canonicalises(stacks, Actual(stacks), a)
    ensures CanonicalStart(stacks, d, a)
  {
    CanonicalisesIsCanonical(stacks, Desired(stacks), d);
    CanonicalisesIsCanonical(stacks, Actual(stacks), a);
  }

  lemma {:induction false} StartKeys(before: StackMap, d: Weights, a: Weights)
    requires WellFormed(before) && CanonicalStart(before, d, a)
    ensures d.Keys == a.Keys == before.Keys && NonNegative(d) && NonNegative(a)
  {
  }

  lemma {:induction false} SwitchedFrom(spec: StackSetSpec, before: StackMap, d: Weights, a: Weights, after: StackMap,
                                        now: Time, clock: Time)
    requires WellFormed(before) && CanonicalStart(before, d, a)
    requires d.Keys == a.Keys == before.Keys && NonNegative(d) && NonNegative(a)
    requires after == ManagedFrom(spec, before, d, a, now, clock)
    ensures ManagesFrom(spec, before, d, a, after, now, clock)
  {
  }

  // ----- the method -----

  /** No other container was idled later; if none ever was, no other belongs to an earlier created stack. */
  ghost predicate IdledLast(stacks: Containers, n: Name)
    reads stacks.Values
  {
    && n in stacks
    && (forall m :: m in stacks ==> stacks[m].noTrafficSince <= stacks[n].noTrafficSince)
    && (stacks[n].noTrafficSince == ZERO_TIME ==>
          forall m :: m in stacks ==> stacks[n].stack.created <= stacks[m].stack.created)
  }

  /** `findFallbackStack`. */
  method FindFallbackStack(stacks: Containers) returns (fallback: StackContainer?)
    requires Separate(stacks)
    ensures fallback == null <==> stacks == map[]
    ensures fallback != null ==> fallback.name in stacks && IsFallback(Views(stacks), fallback.name)
    ensures fallback != null ==> IdledLast(stacks, fallback.name)
  {
    var recentlyUsed: StackContainer?, earliest: StackContainer? := null, null;
    ghost var views := Views(stacks);
    var todo := stacks.Keys;
    while todo != {}
      invariant todo <= stacks.Keys
      invariant earliest == null <==> todo == stacks.Keys
      invariant earliest != null ==> earliest.name in stacks && stacks[earliest.name] == earliest
      invariant earliest != null ==>
                  forall n :: n in stacks && n !in todo ==> earliest.View().spec.created <= views[n].spec.created
      invariant recentlyUsed == null ==>
                  forall n :: n in stacks && n !in todo ==> views[n].noTrafficSince == ZERO_TIME
      invariant recentlyUsed != null ==>
                  && recentlyUsed.name in stacks && stacks[recentlyUsed.name] == recentlyUsed
                  && recentlyUsed.noTrafficSince != ZERO_TIME
                  && forall n :: n in stacks && n !in todo ==> views[n].noTrafficSince <= recentlyUsed.noTrafficSince
    {
      var stackName :| stackName in todo;
      var stack := stacks[stackName];
      assert stack.View() == views[stackName];
      if earliest == null || stack.stack.created < earliest.stack.created {
        earliest := stack;
      }
      if stack.noTrafficSince != ZERO_TIME
         && (recentlyUsed == null || stack.noTrafficSince > recentlyUsed.noTrafficSince) {
        recentlyUsed := stack;
      }
      todo := todo - {stackName};
    }
    fallback := earliest;
    if recentlyUsed != null {
      assert views[recentlyUsed.name].noTrafficSince != ZERO_TIME;
      fallback := recentlyUsed;
    }
    if fallback != null { FallbackInFull(stacks, fallback.name); }
  }

  lemma {:induction false} FallbackInFull(stacks: Containers, n: Name)
    requires IsFallback(Views(stacks), n)
    ensures IdledLast(stacks, n)
  {
    forall m | m in stacks
      ensures Views(stacks)[m] == stacks[m].View()
    {
    }
  }

  method NormalizeAndRound(w: Weights) returns (c: Weights)
    requires NonNegative(w) && NonNegative(Normalized(w)) && Sum(Normalized(w)) == 100.0
    ensures c == Rounded(Normalized(w))
  {
    var weights := new WeightMap(w);
    weights.Normalize();
    weights.Round();
    c := weights.m;
  }

  // Bodies of the loops over the containers.

  method SetWeights(stack: StackContainer, desiredWeight: real, actualWeight: real, minReadyPercent: real)
    modifies stack
    ensures stack.View() == WithWeights(old(stack.View()), desiredWeight, actualWeight, minReadyPercent)
  {
    stack.desiredTrafficWeight := desiredWeight;
    stack.actualTrafficWeight := actualWeight;
    stack.minReadyPercent := minReadyPercent;
  }

  method ClearStack(stack: StackContainer)
    modifies stack
    ensures stack.View() == Cleared(old(stack.View()))
  {
    stack.desiredTrafficWeight := 0.0;
    stack.actualTrafficWeight := 0.0;
    stack.noTrafficSince := ZERO_TIME;
    stack.prescalingActive := false;
    stack.prescalingReplicas := 0;
    stack.prescalingLastTrafficIncrease := ZERO_TIME;
  }

  method StampStack(stack: StackContainer, now: Time)
    modifies stack
    ensures stack.View() == Stamped(old(stack.View()), now)
  {
    if stack.View().HasTraffic() {
      stack.noTrafficSince := ZERO_TIME;
    } else if stack.noTrafficSince == ZERO_TIME {
      stack.noTrafficSince := now;
    }
  }

  method StampIdleStacks(stacks: Containers, now: Time)
    requires Separate(stacks)
    modifies stacks.Values
    ensures Views(stacks) == AllStamped(old(Views(stacks)), now)
  {
    ghost var before := Views(stacks);
    ghost var after := AllStamped(before, now);
    PartlyEnds(before, after);
    var todo := stacks.Keys;
    while todo != {}
      invariant todo <= stacks.Keys && Views(stacks) == Partly(before, after, todo)
    {
      var stackName :| stackName in todo;
      ghost var views := Views(stacks);
      PartlyStep(before, after, todo, stackName);
      StampStack(stacks[stackName], now);
      assert Views(stacks) == views[stackName := after[stackName]];
      todo := todo - {stackName};
    }
  }

  method EnterWeights(stacks: Containers, desiredWeights: Weights, actualWeights: Weights, minReadyPercent: real)
    requires Separate(stacks) && desiredWeights.Keys == stacks.Keys && actualWeights.Keys == stacks.Keys
    modifies stacks.Values
    ensures Views(stacks) == EnteredWith(old(Views(stacks)), desiredWeights, actualWeights, minReadyPercent)
  {
    ghost var before := Views(stacks);
    ghost var after := EnteredWith(before, desiredWeights, actualWeights, minReadyPercent);
    PartlyEnds(before, after);
    var todo := stacks.Keys;
    while todo != {}
      invariant todo <= stacks.Keys && Views(stacks) == Partly(before, after, todo)
    {
      var stackName :| stackName in todo;
      PartlyStep(before, after, todo, stackName);
      EnterOne(stacks, stackName, desiredWeights[stackName], actualWeights[stackName], minReadyPercent);
      todo := todo - {stackName};
    }
  }

  method EnterOne(stacks: Containers, n: Name, desired: real, actual: real, minReadyPercent: real)
    requires Separate(stacks) && n in stacks
    modifies stacks.Values
    ensures Views(stacks) ==
            old(Views(stacks))[n := WithWeights(old(Views(stacks))[n], desired, actual, minReadyPercent)]
  {
    SetWeights(stacks[n], desired, actual, minReadyPercent);
  }

  method ClearTraffic(stacks: Containers)
    requires Separate(stacks)
    modifies stacks.Values
    ensures Views(stacks) == AllCleared(old(Views(stacks)))
  {
    ghost var before := Views(stacks);
    ghost var after := AllCleared(before);
    PartlyEnds(before, after);
    var todo := stacks.Keys;
    while todo != {}
      invariant todo <= stacks.Keys && Views(stacks) == Partly(before, after, todo)
    {
      var stackName :| stackName in todo;
      ghost var views := Views(stacks);
      PartlyStep(before, after, todo, stackName);
      ClearStack(stacks[stackName]);
      assert Views(stacks) == views[stackName := after[stackName]];
      todo := todo - {stackName};
    }
  }

  class StackSetContainer {
    const spec: StackSetSpec
    var stackContainers: Containers

    constructor (spec: StackSetSpec, stacks: Containers)
      ensures this.spec == spec && stackContainers == stacks
    {
      this.spec, stackContainers := spec, stacks;
    }

    /** Body of the canonicalisation loop, for one of the two weight maps. */
    method Canonicalise(w: Weights, ghost views: StackMap) returns (c: Weights)
      requires Separate(stackContainers) && stackContainers != map[] && Views(stackContainers) == views
      requires w.Keys == stackContainers.Keys && NonNegative(w)
      ensures Canonicalises(views, w, c)
    {
      if AllZero(w) {
        var fallbackStack := FindFallbackStack(stackContainers);
        c := w[fallbackStack.name := 100.0];
      } else {
        NormalizedTotal(w);
        c := NormalizeAndRound(w);
      }
    }

    method CollectWeights() returns (desiredWeights: Weights, actualWeights: Weights)
      requires Separate(stackContainers)
      ensures desiredWeights == Desired(Views(stackContainers))
      ensures actualWeights == Actual(Views(stackContainers))
    {
      desiredWeights, actualWeights := map[], map[];
      var todo := stackContainers.Keys;
      while todo != {}
        invariant todo <= stackContainers.Keys
        invariant desiredWeights == Desired(Views(stackContainers)) - todo
        invariant actualWeights == Actual(Views(stackContainers)) - todo
      {
        var stackName :| stackName in todo;
        var stack := stackContainers[stackName];
        assert stack.View() == Views(stackContainers)[stackName];
        desiredWeights := desiredWeights[stackName := stack.desiredTrafficWeight];
        actualWeights := actualWeights[stackName := stack.actualTrafficWeight];
        todo := todo - {stackName};
      }
    }

    /** The closing loops: settle the actual weights, then stamp the idle stacks. */
    method Settle(now: Time)
      requires Separate(stackContainers)
      modifies stackContainers.Values
      ensures Views(stackContainers) == AllStamped(
                WithActual(old(Views(stackContainers)), Settled(old(Views(stackContainers)))), now)
    {
      var desiredWeights, actualWeights := CollectWeights();
      var weights := actualWeights;
      if AllZero(weights) {
        weights := desiredWeights;
      }
      SetActualWeights(stackContainers, weights);
      StampIdleStacks(stackContainers, now);
    }

    method Reconcile(now: Time, clock: Time) returns (nonReadyStacks: set<Name>)
      requires Separate(stackContainers) && WellFormed(Views(stackContainers))
      modifies stackContainers.Values
      ensures nonReadyStacks ==
              Blocked(spec.reconciler, Prepared(spec.reconciler, old(Views(stackContainers)), now, clock))
      ensures Views(stackContainers) == Reconciled(spec.reconciler, old(Views(stackContainers)), now, clock)
    {
      match spec.reconciler {
        case Simple => nonReadyStacks := ReconcileSimple(stackContainers, now, clock);
        case Prescaling(timeout) => nonReadyStacks := ReconcilePrescaling(stackContainers, now, clock, timeout);
      }
    }

    /** `ManageTraffic`; `clock` is the later reading used for the prescaling timeout. */
    method ManageTraffic(now: Time, clock: Time) returns (outcome: Outcome)
      requires Separate(stackContainers) && WellFormed(Views(stackContainers))
      modifies stackContainers.Values
      ensures ManagesWith(spec, old(Views(stackContainers)), Views(stackContainers), now, clock, outcome)
      ensures outcome.NoStacks? <==>
              (spec.ingress || spec.routeGroup || spec.externalIngress) && stackContainers == map[]
    {
      if !spec.Enabled() {
        ClearTraffic(stackContainers);
        return Done;
      }
      if stackContainers == map[] {
        return NoStacks;
      }
      ghost var before := Views(stackContainers);
      ghost var d, a;
      outcome, d, a := SwitchTraffic(before, now, clock);
      ManagesWitness(spec, before, d, a, Views(stackContainers), now, clock, outcome);
    }

    method SwitchTraffic(ghost before: StackMap, now: Time, clock: Time)
      returns (outcome: Outcome, ghost d: Weights, ghost a: Weights)
      requires Separate(stackContainers) && stackContainers != map[]
      requires before == Views(stackContainers) && WellFormed(before)
      modifies stackContainers.Values
      ensures ManagesFrom(spec, before, d, a, Views(stackContainers), now, clock)
      ensures outcome == OutcomeOf(NonReady(spec, before, d, a, now, clock))
    {
      var desiredWeights, actualWeights := CanonicalWeights(before);
      d, a := desiredWeights, actualWeights;
      StartKeys(before, d, a);
      outcome := SwitchFrom(before, desiredWeights, actualWeights, now, clock);
      SwitchedFrom(spec, before, d, a, Views(stackContainers), now, clock);
    }

    method CanonicalWeights(ghost before: StackMap) returns (d: Weights, a: Weights)
      requires Separate(stackContainers) && stackContainers != map[]
      requires before == Views(stackContainers) && WellFormed(before)
      ensures CanonicalStart(before, d, a)
    {
      var desiredWeights, actualWeights := CollectWeights();
      CollectedWeights(before);
      assert before.Keys == stackContainers.Keys;
      d := Canonicalise(desiredWeights, before);
      a := Canonicalise(actualWeights, before);
      StartFrom(before, d, a);
    }

    method SwitchFrom(ghost before: StackMap, d: Weights, a: Weights, now: Time, clock: Time) returns (outcome: Outcome)
      requires Separate(stackContainers) && before == Views(stackContainers)
      requires d.Keys == a.Keys == before.Keys && NonNegative(d) && NonNegative(a)
      modifies stackContainers.Values
      ensures Views(stackContainers) == ManagedFrom(spec, before, d, a, now, clock)
      ensures outcome == OutcomeOf(NonReady(spec, before, d, a, now, clock))
    {
      assert before.Keys == stackContainers.Keys;
      var minReadyPercent := NormalizeMinReadyPercent(spec.minReadyPercent);
      EnterWeights(stackContainers, d, a, minReadyPercent);
      var nonReadyStacks := Reconcile(now, clock);
      Settle(now);
      outcome := OutcomeOf(nonReadyStacks);
    }
  }
}
