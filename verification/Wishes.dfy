/**
 From the stored traffic lists to the weights of a whole cycle, and from these to
 what is written about a stack (pkg/core/types.go, pkg/core/traffic.go,
 pkg/core/stackset.go, pkg/core/stack_resources.go).
 */
module Wishes {
  import opened Names
  import opened Sums
  import opened Weights
  import opened Stacks
  import opened Traffic
  import opened Switching
  import opened Statuses
  import opened Cycles
  import opened Runs

  /** The listed weights of the given stacks, 0 for those not listed. */
  ghost function Wished(list: seq<TrafficEntry>, names: set<Name>): Weights {
    map n | n in names :: if n in Listed(list) then Listed(list)[n] else 0.0
  }

  lemma {:induction false} WishedIsRead(list: seq<TrafficEntry>, names: set<Name>)
    requires NonNegativeEntries(list)
    ensures NonNegative(Wished(list, names)) && Proportional(Wished(list, names), ReadWeights(list, names))
  {
    ListedNonNegative(list);
    ReadKeepsRatios(list, names);
    RatiosOf(ReadWeights(list, names), Listed(list), names, Wished(list, names));
  }

  lemma {:induction false} RatiosOf(read: Weights, listed: Weights, names: set<Name>, wished: Weights)
    requires ReadsLike(read, listed, names)
    requires wished == map n | n in names :: if n in listed then listed[n] else 0.0
    ensures Proportional(wished, read)
  {
    forall a, b | a in wished && b in wished
      ensures read[a] * wished[b] == read[b] * wished[a]
    {
    }
  }

  /** Splitting weights that total 100 moves none of them by one or more. */
  lemma {:induction false} SplitIsNear(w: Weights, c: Weights)
    requires SplitsLike(w, c) && Sum(w) == 100.0
    ensures Near(c, w)
  {
    forall n | n in w
      ensures -1.0 < c[n] - w[n] < 1.0
    {
      assert IsShare(c[n], w[n], Sum(w));
      NearBy(c[n], w[n], Sum(w));
    }
  }

  lemma {:induction false} NearBy(c: real, w: real, total: real)
    requires total == 100.0 && IsShare(c, w, total)
    ensures -1.0 < c - w < 1.0
  {
  }

  lemma {:induction false} SplitOfRead(list: seq<TrafficEntry>, names: set<Name>, c: Weights)
    requires NonNegativeEntries(list) && Sum(Wished(list, names)) > 0.0
    requires Sum(ReadWeights(list, names)) == 100.0 && SplitsLike(ReadWeights(list, names), c)
    ensures SplitsLike(Wished(list, names), c)
  {
    WishedIsRead(list, names);
    SplitIsNear(ReadWeights(list, names), c);
    NearSplitsLike(Wished(list, names), ReadWeights(list, names), c);
  }

  lemma {:induction false} ReadTotalIs(list: seq<TrafficEntry>, names: set<Name>)
    requires NonNegativeEntries(list)
    ensures Sum(ReadWeights(list, names)) == if Sum(Wished(list, names)) > 0.0 then 100.0 else 0.0
  {
    ReadTotal(list, names);
    WishedIsRead(list, names);
    var wished := Wished(list, names);
    SumZero(wished);
    SumNonNegative(wished);
    if n :| n in names && n in Listed(list) && Listed(list)[n] > 0.0 {
      assert wished[n] > 0.0;
    }
    assert forall n :: n in wished && wished[n] > 0.0 ==> n in Listed(list) && Listed(list)[n] > 0.0;
  }

  lemma {:induction false} CycleFrom(w: World, r: Round, w': World, d: Weights, a: Weights)
    requires CycleStep(w, r, w') && w.spec.Enabled()
    requires ManagesFrom(w.spec, Loaded(w), d, a, r.managed, r.now, r.clock)
    ensures var read := ReadWeights(w.desired, w.stacks.Keys);
            && (Sum(read) > 0.0 ==> SplitsLike(read, Desired(r.managed)))
            && (Sum(read) == 0.0 ==> AllOnFallback(Loaded(w), Desired(r.managed)))
  {
    LoadedWeights(w);
    RoundSplitsWishes(w.spec, Loaded(w), d, a, r.managed, r.now, r.clock);
  }

  /**
   What a cycle makes of the traffic list in the spec: each stack's desired weight is within one of the
   exact share of 100 that its listed weight is of all listed weights; if no stack that exists is
   listed with a weight, a fallback stack is to get everything.
   */
  lemma {:induction false} CycleSplitsWishes(w: World, r: Round, w': World)
    requires CycleStep(w, r, w') && w.stacks != map[]
    requires w.spec.ingress || w.spec.routeGroup || w.spec.externalIngress
    ensures var wished := Wished(w.desired, w.stacks.Keys);
            if Sum(wished) > 0.0 then SplitsLike(wished, Desired(r.managed))
            else AllOnFallback(Loaded(w), Desired(r.managed))
  {
    LoadedIsWellFormed(w);
    assert Loaded(w) != map[];
    var d, a :| ManagesFrom(w.spec, Loaded(w), d, a, r.managed, r.now, r.clock);
    CycleFrom(w, r, w', d, a);
    ReadTotalIs(w.desired, w.stacks.Keys);
    if Sum(Wished(w.desired, w.stacks.Keys)) > 0.0 {
      SplitOfRead(w.desired, w.stacks.Keys, Desired(r.managed));
    }
  }

  /** Splitting 1 and 3 of any unit into whole weights gives exactly 25 and 75. */
  lemma {:induction false} QuarterAndRest(w: Weights, c: Weights, a: Name, b: Name, unit: real)
    requires SplitsLike(w, c) && Canonical(c) && a != b && unit > 0.0
    requires w.Keys == {a, b} && w[a] == unit && w[b] == 3.0 * unit
    ensures c == map[a := 25.0, b := 75.0]
  {
    SumOfTwo(w, a, b);
    SplitPart(w, c, a, 25, unit, Sum(w));
    SplitPart(w, c, b, 75, unit, Sum(w));
  }

  lemma {:induction false} SplitPart(w: Weights, c: Weights, n: Name, k: int, unit: real, total: real)
    requires SplitsLike(w, c) && n in w && n in c && IsWhole(c[n])
    requires total == Sum(w) == 4.0 * unit && unit > 0.0 && 100.0 * w[n] == 4.0 * k as real * unit
    ensures c[n] == k as real
  {
    assert IsShare(c[n], w[n], total);
    WholeShare(c[n], k, unit, w[n], total);
  }

  lemma {:induction false} WholeShare(c: real, k: int, unit: real, weight: real, total: real)
    requires IsWhole(c) && IsShare(c, weight, total)
    requires unit > 0.0 && total == 4.0 * unit && 100.0 * weight == 4.0 * k as real * unit
    ensures c == k as real
  {
    var e := c - k as real;
    assert c * total - 4.0 * k as real * unit == e * total;
    AboveOne(e, total, e * total);
    AboveOne(-e, total, -(e * total));
    assert e == (c.Floor - k) as real;
  }

  lemma {:induction false} AboveOne(e: real, total: real, p: real)
    requires total > 0.0 && p == e * total && p < total
    ensures e < 1.0
  {
    assert e >= 1.0 ==> (e - 1.0) * total >= 0.0;
  }

  // ----- what is written about a stack -----

  lemma {:induction false} PublishedHas(list: seq<TrafficEntry>, w: Weights, n: Name)
    requires Publishes(list, w) && n in w
    ensures TrafficEntry(n, w[n]) in list
  {
  }

  /** The status written for a stack that stays has the weights the stack set's lists have for it. */
  lemma {:induction false} StatusAgreesWithLists(w: World, r: Round, w': World, n: Name)
    requires CycleStep(w, r, w') && w.spec.Enabled()
    requires n in w'.stacks && n in r.writes.status && n !in r.removed
    ensures var status := w'.stacks[n].status;
            && (r.writes.actual ==> TrafficEntry(n, status.actualTrafficWeight) in w'.actual)
            && (r.writes.desired && status.desiredTrafficWeight > 0.0 ==>
                  TrafficEntry(n, status.desiredTrafficWeight) in w'.desired)
  {
    FinalWeights(w, r);
    if r.writes.actual { PublishedHas(w'.actual, PublishedActual(w.spec, Final(r)), n); }
    if r.writes.desired && w'.stacks[n].status.desiredTrafficWeight > 0.0 {
      PublishedHas(w'.desired, SavedDesired(w.spec, Final(r)), n);
    }
  }
}
