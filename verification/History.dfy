/**
 Idle times over whole runs: what `noTrafficSince` means, and when a stack is
 scaled to zero (pkg/core/traffic.go, pkg/core/types.go,
 pkg/core/stack_resources.go).
 */
module History {
  import opened Names
  import opened Stacks
  import opened Switching
  import opened Traffic
  import opened Statuses
  import opened Cycles
  import opened Runs

  /** The stack exists from worlds[k] on and is idle in every cycle from events[k] up to events[i - 1]. */
  ghost predicate Idle(worlds: seq<World>, events: seq<Event>, k: nat, i: nat, n: Name)
    requires |worlds| == |events| + 1 && i <= |events|
  {
    forall j :: k <= j < i ==> IdleAt(worlds, events, j, n)
  }

  ghost predicate IdleAt(worlds: seq<World>, events: seq<Event>, j: nat, n: Name)
    requires |worlds| == |events| + 1 && j < |events|
  {
    && n in worlds[j].stacks
    && (events[j].Cycle? ==>
          && n in events[j].round.managed
          && events[j].round.managed[n].actual <= 0.0 && events[j].round.managed[n].desired <= 0.0)
  }

  /** events[k] is the first cycle of the idle streak that reaches up to events[i - 1]. */
  ghost predicate StreakStart(worlds: seq<World>, events: seq<Event>, k: nat, i: nat, n: Name)
    requires |worlds| == |events| + 1 && i <= |events|
  {
    && k < i && events[k].Cycle? && Idle(worlds, events, k, i, n)
    && forall j :: 0 <= j < k && events[j].Cycle? ==> !Idle(worlds, events, j, i, n)
  }

  ghost predicate NoStreak(worlds: seq<World>, events: seq<Event>, i: nat, n: Name)
    requires |worlds| == |events| + 1 && i <= |events|
  {
    forall j :: 0 <= j < i && events[j].Cycle? ==> !Idle(worlds, events, j, i, n)
  }

  /** The streak that reaches up to events[i - 1] started in events[k], at the time since. */
  ghost predicate StartedAt(worlds: seq<World>, events: seq<Event>, k: nat, i: nat, n: Name, since: Time)
    requires |worlds| == |events| + 1 && i <= |events|
  {
    StreakStart(worlds, events, k, i, n) && events[k].round.now == since
  }

  /** since is the timestamp of the first cycle of the streak before i, or zero without a streak. */
  ghost predicate TellsStreak(worlds: seq<World>, events: seq<Event>, i: nat, n: Name, since: Time)
    requires |worlds| == |events| + 1 && i <= |events|
  {
    if since == ZERO_TIME then NoStreak(worlds, events, i, n)
    else exists k: nat :: StartedAt(worlds, events, k, i, n, since)
  }

  /** Up to event i traffic is managed in every cycle, and the status of n is saved whenever n stays. */
  ghost predicate Recorded(worlds: seq<World>, events: seq<Event>, i: nat, n: Name)
    requires |worlds| == |events| + 1 && i <= |events|
  {
    forall j :: 0 <= j < i && events[j].Cycle? ==>
      worlds[j].spec.Enabled() && (n in worlds[j + 1].stacks ==> n in events[j].round.writes.status)
  }

  // ----- one event -----

  lemma {:induction false} IdleExtends(worlds: seq<World>, events: seq<Event>, k: nat, i: nat, n: Name)
    requires |worlds| == |events| + 1 && k <= i < |events|
    ensures Idle(worlds, events, k, i + 1, n) <==> Idle(worlds, events, k, i, n) && IdleAt(worlds, events, i, n)
  {
    if Idle(worlds, events, k, i + 1, n) {
      assert IdleAt(worlds, events, i, n);
    }
  }

  /** An event that is no cycle continues a streak. */
  lemma {:induction false} EditKeepsStreak(worlds: seq<World>, events: seq<Event>, i: nat, n: Name, since: Time)
    requires |worlds| == |events| + 1 && i < |events| && events[i].Edit? && n in worlds[i].stacks
    requires TellsStreak(worlds, events, i, n, since)
    ensures TellsStreak(worlds, events, i + 1, n, since)
  {
    forall j: nat | j <= i
      ensures Idle(worlds, events, j, i + 1, n) <==> Idle(worlds, events, j, i, n)
    {
      IdleExtends(worlds, events, j, i, n);
    }
    if since != ZERO_TIME {
      var k: nat :| StartedAt(worlds, events, k, i, n, since);
      assert StartedAt(worlds, events, k, i + 1, n, since);
    }
  }

  /** A stack that did not exist has no streak. */
  lemma {:induction false} NewHasNoStreak(worlds: seq<World>, events: seq<Event>, i: nat, n: Name)
    requires |worlds| == |events| + 1 && i < |events| && events[i].Edit? && n !in worlds[i].stacks
    ensures NoStreak(worlds, events, i + 1, n)
  {
    forall j: nat | j <= i && events[j].Cycle?
      ensures !Idle(worlds, events, j, i + 1, n)
    {
      IdleExtends(worlds, events, j, i, n);
    }
  }

  /** A cycle with traffic ends every streak. */
  lemma {:induction false} TrafficEndsStreak(worlds: seq<World>, events: seq<Event>, i: nat, n: Name)
    requires |worlds| == |events| + 1 && i < |events| && events[i].Cycle?
    requires n in events[i].round.managed && events[i].round.managed[n].HasTraffic()
    ensures NoStreak(worlds, events, i + 1, n)
  {
    forall j: nat | j <= i && events[j].Cycle?
      ensures !Idle(worlds, events, j, i + 1, n)
    {
      IdleExtends(worlds, events, j, i, n);
    }
  }

  /** An idle cycle continues the streak, or starts one. */
  lemma {:induction false} IdleCycleKeepsStreak(worlds: seq<World>, events: seq<Event>, i: nat, n: Name, since: Time)
    requires |worlds| == |events| + 1 && i < |events| && events[i].Cycle? && n in worlds[i].stacks
    requires IdleAt(worlds, events, i, n) && events[i].round.now != ZERO_TIME
    requires TellsStreak(worlds, events, i, n, since)
    ensures TellsStreak(worlds, events, i + 1, n, if since == ZERO_TIME then events[i].round.now else since)
  {
    forall j: nat | j <= i
      ensures Idle(worlds, events, j, i + 1, n) <==> Idle(worlds, events, j, i, n)
    {
      IdleExtends(worlds, events, j, i, n);
    }
    if since == ZERO_TIME {
      assert Idle(worlds, events, i, i, n);
      assert StartedAt(worlds, events, i, i + 1, n, events[i].round.now);
    } else {
      var k: nat :| StartedAt(worlds, events, k, i, n, since);
      assert StartedAt(worlds, events, k, i + 1, n, since);
    }
  }

  // ----- runs -----

  ghost function StoredSince(w: World, n: Name): Time
    requires n in w.stacks
  {
    UnwrapTime(w.stacks[n].status.noTrafficSince)
  }

  lemma {:induction false} CycleKeepsStreak(worlds: seq<World>, events: seq<Event>, i: nat, n: Name)
    requires Run(worlds, events) && i < |events| && events[i].Cycle? && worlds[i].spec.Enabled()
    requires n in worlds[i].stacks
    requires TellsStreak(worlds, events, i, n, StoredSince(worlds[i], n))
    ensures var r := events[i].round;
            && n in r.managed
            && r.managed[n].noTrafficSince == IdleSince(r.managed[n], StoredSince(worlds[i], n), r.now)
            && TellsStreak(worlds, events, i + 1, n, r.managed[n].noTrafficSince)
  {
    CycleAt(worlds, events, i);
    var r := events[i].round;
    ManagedFixed(worlds[i], r, n);
    if r.managed[n].HasTraffic() {
      TrafficEndsStreak(worlds, events, i, n);
    } else {
      IdleCycleKeepsStreak(worlds, events, i, n, StoredSince(worlds[i], n));
    }
  }

  lemma {:induction false} SavedSince(w: World, r: Round, w': World, n: Name)
    requires CycleStep(w, r, w') && n in w'.stacks && n in r.writes.status
    ensures n in w.stacks && n in r.managed && StoredSince(w', n) == r.managed[n].noTrafficSince
  {
    assert StatusOf(Final(r)[n]) == StatusOf(r.managed[n]);
    WrapUnwrap(r.managed[n].noTrafficSince);
  }

  lemma {:induction false} WrapUnwrap(t: Time)
    ensures UnwrapTime(WrapTime(t)) == t
  {
  }

  /** What the stored status says about n before event i tells its streak. */
  ghost predicate StoredTells(worlds: seq<World>, events: seq<Event>, i: nat, n: Name)
    requires |worlds| == |events| + 1 && i <= |events|
  {
    n in worlds[i].stacks ==> TellsStreak(worlds, events, i, n, StoredSince(worlds[i], n))
  }

  lemma {:induction false} EditTells(worlds: seq<World>, events: seq<Event>, i: nat, n: Name)
    requires |worlds| == |events| + 1 && i < |events| && events[i].Edit? && EditStep(worlds[i], worlds[i + 1])
    requires StoredTells(worlds, events, i, n)
    ensures StoredTells(worlds, events, i + 1, n)
  {
    if n in worlds[i + 1].stacks {
      if n in worlds[i].stacks {
        EditKeepsStreak(worlds, events, i, n, StoredSince(worlds[i], n));
      } else {
        NewHasNoStreak(worlds, events, i, n);
      }
    }
  }

  lemma {:induction false} CycleTells(worlds: seq<World>, events: seq<Event>, i: nat, n: Name)
    requires Run(worlds, events) && i < |events| && events[i].Cycle? && StoredTells(worlds, events, i, n)
    requires worlds[i].spec.Enabled() && (n in worlds[i + 1].stacks ==> n in events[i].round.writes.status)
    ensures StoredTells(worlds, events, i + 1, n)
  {
    CycleAt(worlds, events, i);
    if n in worlds[i + 1].stacks {
      SavedSince(worlds[i], events[i].round, worlds[i + 1], n);
      CycleKeepsStreak(worlds, events, i, n);
    }
  }

  lemma {:induction false} EditAt(worlds: seq<World>, events: seq<Event>, i: nat)
    requires Run(worlds, events) && i < |events| && events[i].Edit?
    ensures EditStep(worlds[i], worlds[i + 1])
  {
    assert Step(worlds[i], events[i], worlds[i + 1]);
  }

  /** Event i keeps what the stored status says about n true. */
  ghost predicate TellsOn(worlds: seq<World>, events: seq<Event>, i: nat, n: Name)
    requires |worlds| == |events| + 1 && i < |events|
  {
    StoredTells(worlds, events, i, n) ==> StoredTells(worlds, events, i + 1, n)
  }

  lemma {:induction false} StepTells(worlds: seq<World>, events: seq<Event>, i: nat, k: nat, n: Name)
    requires Run(worlds, events) && k < i <= |events| && Recorded(worlds, events, i, n)
    ensures TellsOn(worlds, events, k, n)
  {
    if StoredTells(worlds, events, k, n) {
      if events[k].Edit? {
        EditAt(worlds, events, k);
        EditTells(worlds, events, k, n);
      } else {
        CycleTells(worlds, events, k, n);
      }
    }
  }

  lemma {:induction false} TellsFrom(worlds: seq<World>, events: seq<Event>, i: nat, n: Name)
    requires |worlds| == |events| + 1 && i <= |events| && StoredTells(worlds, events, 0, n)
    requires forall k :: 0 <= k < i ==> TellsOn(worlds, events, k, n)
    ensures StoredTells(worlds, events, i, n)
  {
    if i > 0 {
      TellsFrom(worlds, events, i - 1, n);
      assert TellsOn(worlds, events, i - 1, n);
    }
  }

  lemma {:induction false} FirstTells(worlds: seq<World>, events: seq<Event>, n: Name)
    requires Run(worlds, events)
    ensures StoredTells(worlds, events, 0, n)
  {
  }

  lemma {:induction false} StoredTellsStreak(worlds: seq<World>, events: seq<Event>, i: nat, n: Name)
    requires Run(worlds, events) && i <= |events| && Recorded(worlds, events, i, n)
    ensures StoredTells(worlds, events, i, n)
  {
    FirstTells(worlds, events, n);
    forall k | 0 <= k < i
      ensures TellsOn(worlds, events, k, n)
    {
      StepTells(worlds, events, i, k, n);
    }
    TellsFrom(worlds, events, i, n);
  }

  /**
   Over every run with traffic management on, after every cycle: `noTrafficSince` is zero exactly
   if the stack has desired or actual weight; otherwise it is the timestamp of the first cycle of
   the current idle streak.
   */
  lemma {:induction false} IdleTimeIsStreakStart(worlds: seq<World>, events: seq<Event>, i: nat, n: Name)
    requires Run(worlds, events) && Managing(worlds, events, i) && n in worlds[i].stacks
    requires Recorded(worlds, events, i, n)
    ensures var r := events[i].round;
            && n in r.managed
            && (r.managed[n].noTrafficSince == ZERO_TIME <==> r.managed[n].actual > 0.0 || r.managed[n].desired > 0.0)
            && TellsStreak(worlds, events, i + 1, n, r.managed[n].noTrafficSince)
  {
    StoredTellsStreak(worlds, events, i, n);
    CycleKeepsStreak(worlds, events, i, n);
    CycleAt(worlds, events, i);
  }

  lemma {:induction false} StreakStartIsUnique(worlds: seq<World>, events: seq<Event>, k: nat, m: nat, i: nat, n: Name)
    requires |worlds| == |events| + 1 && i <= |events|
    requires StreakStart(worlds, events, k, i, n) && StreakStart(worlds, events, m, i, n)
    ensures k == m
  {
  }

  /** The streak that includes events[i] started in events[k], longer ago than ttl. */
  ghost predicate IdleLonger(worlds: seq<World>, events: seq<Event>, k: nat, i: nat, n: Name, clock: Time, ttl: nat)
    requires |worlds| == |events| + 1 && i < |events|
  {
    StreakStart(worlds, events, k, i + 1, n) && clock - events[k].round.now > ttl
  }

  /**
   A stack is scaled down in a cycle exactly if the first cycle of its current idle streak lies
   longer ago than the TTL.
   */
  lemma {:induction false} ScaledDownIff(worlds: seq<World>, events: seq<Event>, i: nat, n: Name)
    requires Run(worlds, events) && Managing(worlds, events, i) && n in worlds[i].stacks
    requires Recorded(worlds, events, i, n)
    ensures var (r, given) := (events[i].round, worlds[i].spec.scaledownTTL);
            var ttl := if given.Some? then given.value else 300;
            && n in r.managed
            && (r.managed[n].ScaledDown(r.clock) <==>
                exists k: nat :: IdleLonger(worlds, events, k, i, n, r.clock, ttl))
  {
    IdleTimeIsStreakStart(worlds, events, i, n);
    ManagedTTL(worlds, events, i, n);
    ScaledDownInStreak(worlds, events, i, n, ScaledownTTL(worlds[i].spec));
  }

  lemma {:induction false} ManagedTTL(worlds: seq<World>, events: seq<Event>, i: nat, n: Name)
    requires Run(worlds, events) && Managing(worlds, events, i) && n in worlds[i].stacks
    ensures n in events[i].round.managed
    ensures events[i].round.managed[n].scaledownTTL == ScaledownTTL(worlds[i].spec)
  {
    CycleAt(worlds, events, i);
    ManagedFixed(worlds[i], events[i].round, n);
  }

  lemma {:induction false} ScaledDownInStreak(worlds: seq<World>, events: seq<Event>, i: nat, n: Name, ttl: nat)
    requires |worlds| == |events| + 1 && i < |events| && events[i].Cycle? && n in events[i].round.managed
    requires TellsStreak(worlds, events, i + 1, n, events[i].round.managed[n].noTrafficSince)
    requires events[i].round.managed[n].scaledownTTL == ttl
    ensures events[i].round.managed[n].ScaledDown(events[i].round.clock) <==>
            exists k: nat :: IdleLonger(worlds, events, k, i, n, events[i].round.clock, ttl)
  {
    var s, clock := events[i].round.managed[n], events[i].round.clock;
    if s.ScaledDown(clock) {
      var k: nat :| StartedAt(worlds, events, k, i + 1, n, s.noTrafficSince);
      assert IdleLonger(worlds, events, k, i, n, clock, ttl);
    }
    if exists k: nat :: IdleLonger(worlds, events, k, i, n, clock, ttl) {
      var k: nat :| IdleLonger(worlds, events, k, i, n, clock, ttl);
      StreakHasSince(worlds, events, i, n, k);
    }
  }

  /** A streak has a time, and the stack in it is idle. */
  lemma {:induction false} StreakHasSince(worlds: seq<World>, events: seq<Event>, i: nat, n: Name, k: nat)
    requires |worlds| == |events| + 1 && i < |events| && events[i].Cycle? && n in events[i].round.managed
    requires TellsStreak(worlds, events, i + 1, n, events[i].round.managed[n].noTrafficSince)
    requires StreakStart(worlds, events, k, i + 1, n)
    ensures events[k].round.now == events[i].round.managed[n].noTrafficSince != ZERO_TIME
    ensures !events[i].round.managed[n].HasTraffic()
  {
    var since := events[i].round.managed[n].noTrafficSince;
    assert IdleAt(worlds, events, i, n);
    if since != ZERO_TIME {
      var m: nat :| StartedAt(worlds, events, m, i + 1, n, since);
      StreakStartIsUnique(worlds, events, m, k, i + 1, n);
    }
  }

  /**
   A stack that asks for replicas gets none from the deployment of a cycle exactly if it was idle
   in every cycle of a streak that started longer ago than the TTL.
   */
  lemma {:induction false} StoppedIff(worlds: seq<World>, events: seq<Event>, i: nat, n: Name)
    requires Run(worlds, events) && Managing(worlds, events, i) && n in worlds[i].stacks
    requires Recorded(worlds, events, i, n)
    requires n in events[i].round.managed && RequestedReplicas(events[i].round.managed[n]) > 0
    ensures var (r, given) := (events[i].round, worlds[i].spec.scaledownTTL);
            var ttl := if given.Some? then given.value else 300;
            Stopped(r.managed[n], r.clock) <==> exists k: nat :: IdleLonger(worlds, events, k, i, n, r.clock, ttl)
  {
    ScaledDownIff(worlds, events, i, n);
  }
}
