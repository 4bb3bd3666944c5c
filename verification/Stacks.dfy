/**
 The state a reconcile cycle keeps about one stack: the container that the cycle
 updates in place, its value view, and the decisions read off that view
 (pkg/core/types.go, pkg/core/stack_resources.go).

 Times are whole seconds; 0 is Go's zero time.
 */
module Stacks {
  import opened Names
  import opened Options
  import opened Weights

  type Time = nat

  const ZERO_TIME: Time := 0
  const MAX_INT32: nat := 0x7FFF_FFFF

  datatype Autoscaler = Autoscaler(minReplicas: Option<nat>, maxReplicas: nat)

  /** What a cycle reads of the Stack object. */
  datatype StackObject = StackObject(
    created: Time,
    forwardBackend: bool,
    replicas: Option<nat>,
    autoscaler: Option<Autoscaler>,
    ingress: bool,
    routeGroup: bool)

  /** What a cycle reads of the stack's resources in the cluster. */
  datatype Resources = Resources(
    updated: bool,
    deploymentReplicas: nat,
    readyReplicas: nat,
    updatedReplicas: nat,
    ingressSegment: Option<string>,
    routeGroupSegment: Option<seq<string>>)

  /** Value view of a stack container. */
  datatype Stack = Stack(
    spec: StackObject,
    resources: Resources,
    scaledownTTL: nat,
    pendingRemoval: bool,
    segmentLower: real,
    segmentUpper: real,
    actual: real,
    desired: real,
    noTrafficSince: Time,
    prescalingActive: bool,
    prescalingReplicas: nat,
    prescalingDesired: real,
    prescalingLastIncrease: Time,
    minReadyPercent: real)
  {
    predicate HasTraffic() {
      actual > 0.0 || desired > 0.0
    }

    predicate TrafficForward() {
      spec.forwardBackend
    }

    predicate IsReady() {
      if TrafficForward() then true
      else
        var minRequired := Ceil(resources.deploymentReplicas as real * minReadyPercent);
        && resources.updated && resources.deploymentReplicas > 0
        && minRequired <= resources.updatedReplicas
        && minRequired <= resources.readyReplicas
    }

    function MaxReplicas(): nat {
      MaximumOf(spec)
    }

    predicate IsAutoscaled() {
      spec.autoscaler.Some?
    }

    /** `clock` is the reading behind `time.Since`. */
    predicate ScaledDown(clock: Time) {
      && !HasTraffic()
      && noTrafficSince != ZERO_TIME && clock - noTrafficSince > scaledownTTL
    }

    /** Traffic is about to be increased. */
    predicate Gains() {
      desired > actual
    }

    function StackReplicas(): nat {
      EffectiveReplicas(spec.replicas)
    }
  }

  function MaximumOf(stack: StackObject): nat {
    if stack.autoscaler.Some? then stack.autoscaler.value.maxReplicas else MAX_INT32
  }

  function EffectiveReplicas(replicas: Option<nat>): nat {
    if replicas.None? then 1 else replicas.value
  }

  function Ceil(x: real): int {
    -((-x).Floor)
  }

  /** The least integer that is not below x. */
  lemma {:induction false} CeilIsLeast(x: real, n: int)
    ensures n >= Ceil(x) <==> n as real >= x
  {
  }

  lemma {:induction false} CeilOfProduct(replicas: nat, percent: real)
    requires 0.0 < percent <= 1.0
    ensures 0 <= Ceil(replicas as real * percent) <= replicas
    ensures replicas > 0 ==> Ceil(replicas as real * percent) >= 1
  {
    assert replicas as real * percent <= replicas as real;
    CeilIsLeast(replicas as real * percent, replicas);
  }

  /** Readiness without rounding: the updated and the ready replicas each reach the wanted part of the deployment. */
  lemma {:induction false} ReadyIff(s: Stack)
    ensures s.IsReady() <==>
            || s.TrafficForward()
            || (&& s.resources.updated && s.resources.deploymentReplicas > 0
                && s.resources.updatedReplicas as real >= s.resources.deploymentReplicas as real * s.minReadyPercent
                && s.resources.readyReplicas as real >= s.resources.deploymentReplicas as real * s.minReadyPercent)
  {
    var wanted := s.resources.deploymentReplicas as real * s.minReadyPercent;
    CeilIsLeast(wanted, s.resources.updatedReplicas);
    CeilIsLeast(wanted, s.resources.readyReplicas);
  }

  type StackMap = map<Name, Stack>

  function Desired(stacks: StackMap): Weights {
    map n | n in stacks :: stacks[n].desired
  }

  function Actual(stacks: StackMap): Weights {
    map n | n in stacks :: stacks[n].actual
  }

  // ----- replica decisions -----

  /** Replicas asked of the stack: the prescaling target, or else the spec. */
  function RequestedReplicas(s: Stack): nat {
    if s.prescalingActive then s.prescalingReplicas else s.StackReplicas()
  }

  /** The deployment of the stack is to run no replicas. */
  predicate Stopped(s: Stack, clock: Time) {
    RequestedReplicas(s) == 0 || s.ScaledDown(clock)
  }

  /** The active prescaling target does not exceed what the autoscaler may run. */
  predicate WithinMaximum(s: Stack) {
    s.prescalingActive ==> s.prescalingReplicas <= s.MaxReplicas()
  }

  class StackContainer {
    const name: Name
    const stack: StackObject
    const resources: Resources
    const scaledownTTL: nat
    var pendingRemoval: bool
    var segmentLowerLimit: real
    var segmentUpperLimit: real
    var actualTrafficWeight: real
    var desiredTrafficWeight: real
    var noTrafficSince: Time
    var prescalingActive: bool
    var prescalingReplicas: nat
    var prescalingDesiredTrafficWeight: real
    var prescalingLastTrafficIncrease: Time
    var minReadyPercent: real

    function View(): Stack
      reads this
    {
      Stack(stack, resources, scaledownTTL, pendingRemoval, segmentLowerLimit, segmentUpperLimit,
            actualTrafficWeight, desiredTrafficWeight, noTrafficSince,
            prescalingActive, prescalingReplicas, prescalingDesiredTrafficWeight, prescalingLastTrafficIncrease,
            minReadyPercent)
    }

    constructor (name: Name, s: Stack)
      ensures this.name == name && View() == s
    {
      this.name := name;
      stack, resources, scaledownTTL := s.spec, s.resources, s.scaledownTTL;
      pendingRemoval, segmentLowerLimit, segmentUpperLimit := s.pendingRemoval, s.segmentLower, s.segmentUpper;
      actualTrafficWeight, desiredTrafficWeight, noTrafficSince := s.actual, s.desired, s.noTrafficSince;
      prescalingActive, prescalingReplicas := s.prescalingActive, s.prescalingReplicas;
      prescalingDesiredTrafficWeight, prescalingLastTrafficIncrease := s.prescalingDesired, s.prescalingLastIncrease;
      minReadyPercent := s.minReadyPercent;
    }

    /**
     Replica count of the generated deployment; none for a stack that forwards traffic.
     A running deployment is stopped only for a stack that asks for no replicas or is scaled
     down; an autoscaled one is otherwise touched only to start it.
     */
    method GenerateDeployment(clock: Time) returns (replicas: Option<nat>)
      ensures replicas.None? <==> stack.forwardBackend
      ensures replicas.Some? ==>
                var wanted := if prescalingActive then prescalingReplicas
                              else if stack.replicas.Some? then stack.replicas.value else 1;
                var idle := actualTrafficWeight <= 0.0 && desiredTrafficWeight <= 0.0
                            && noTrafficSince != ZERO_TIME && clock > noTrafficSince + scaledownTTL;
                replicas.value ==
                if wanted == 0 || idle then 0
                else if stack.autoscaler.Some? && resources.deploymentReplicas > 0 then resources.deploymentReplicas
                else wanted
      ensures replicas.Some? ==> (replicas.value == 0 <==> Stopped(View(), clock))
    {
      if View().TrafficForward() {
        return None;
      }
      var desiredReplicas := View().StackReplicas();
      if prescalingActive {
        desiredReplicas := prescalingReplicas;
      }
      var updatedReplicas: Option<nat> := None;
      if desiredReplicas != 0 && !View().ScaledDown(clock) {
        if resources.deploymentReplicas == 0
           || (!View().IsAutoscaled() && desiredReplicas != resources.deploymentReplicas) {
          updatedReplicas := Some(desiredReplicas);
        }
      } else {
        if resources.deploymentReplicas != 0 {
          updatedReplicas := Some(0);
        }
      }
      if updatedReplicas.None? {
        updatedReplicas := Some(resources.deploymentReplicas);
      }
      return updatedReplicas;
    }

    /** Replica bounds of the generated autoscaler, if one is generated. */
    method GenerateHPA(clock: Time) returns (bounds: Option<Autoscaler>)
      ensures bounds.Some? <==>
                !View().TrafficForward() && View().IsAutoscaled() && !View().ScaledDown(clock)
      ensures bounds.Some? ==>
                var given := stack.autoscaler.value;
                && bounds.value.maxReplicas == given.maxReplicas
                && (!prescalingActive ==> bounds.value == given)
                && (prescalingActive ==>
                      && bounds.value.minReplicas.Some?
                      && bounds.value.minReplicas.value >= prescalingReplicas
                      && (given.minReplicas.Some? ==> bounds.value.minReplicas.value >= given.minReplicas.value)
                      && (bounds.value.minReplicas.value == prescalingReplicas || bounds.value == given))
                && (bounds.value.minReplicas.Some? ==>
                      (bounds.value.minReplicas.value <= bounds.value.maxReplicas <==>
                       && WithinMaximum(View())
                       && (given.minReplicas.Some? ==> given.minReplicas.value <= given.maxReplicas)))
    {
      if View().TrafficForward() || stack.autoscaler.None? || View().ScaledDown(clock) {
        return None;
      }
      var minReplicas := stack.autoscaler.value.minReplicas;
      if prescalingActive && (minReplicas.None? || minReplicas.value < prescalingReplicas) {
        minReplicas := Some(prescalingReplicas);
      }
      return Some(Autoscaler(minReplicas, stack.autoscaler.value.maxReplicas));
    }
  }

  // ----- the containers of a stack set -----

  type Containers = map<Name, StackContainer>

  /** One container per name. */
  ghost predicate Separate(stacks: Containers) {
    forall n :: n in stacks ==> stacks[n].name == n
  }

  function Views(stacks: Containers): StackMap
    reads stacks.Values
  {
    map n | n in stacks :: stacks[n].View()
  }

  /** The views while a loop still has `todo` ahead: before there, after elsewhere. */
  ghost function Partly(before: StackMap, after: StackMap, todo: set<Name>): StackMap
    requires after.Keys == before.Keys
  {
    map n | n in before :: if n in todo then before[n] else after[n]
  }

  lemma {:induction false} PartlyStep(before: StackMap, after: StackMap, todo: set<Name>, n: Name)
    requires after.Keys == before.Keys && n in before && n in todo
    ensures Partly(before, after, todo)[n] == before[n]
    ensures Partly(before, after, todo)[n := after[n]] == Partly(before, after, todo - {n})
  {
  }

  lemma {:induction false} PartlyEnds(before: StackMap, after: StackMap)
    requires after.Keys == before.Keys
    ensures Partly(before, after, before.Keys) == before
    ensures Partly(before, after, {}) == after
  {
  }
}
