/**
 The weight algebra of the traffic command: lists of stacks with their weights
 (pkg/traffic/traffic.go).
 */
module CommandLine {
  import opened Names
  import opened Stacks

  datatype StackTrafficWeight = StackTrafficWeight(name: Name, weight: real, actualWeight: real)

  const ZERO_VALUE := StackTrafficWeight("", 0.0, 0.0)

  datatype Result = Ok(weights: seq<StackTrafficWeight>) | OnlyStack(name: Name, weight: real)

  // ----- specification -----

  ghost predicate Distinct(stacks: seq<StackTrafficWeight>) {
    forall i, j :: 0 <= i < j < |stacks| ==> stacks[i].name != stacks[j].name
  }

  ghost predicate Present(stacks: seq<StackTrafficWeight>, name: Name) {
    exists i :: 0 <= i < |stacks| && stacks[i].name == name
  }

  function Total(stacks: seq<StackTrafficWeight>): real {
    if stacks == [] then 0.0 else Total(stacks[..|stacks| - 1]) + stacks[|stacks| - 1].weight
  }

  /** Where the name occurs first; the length of the list if it does not. */
  function First(stacks: seq<StackTrafficWeight>, name: Name): (i: nat)
    ensures i <= |stacks| && (i < |stacks| ==> stacks[i].name == name)
    ensures forall k :: 0 <= k < i ==> stacks[k].name != name
  {
    if stacks == [] then 0
    else
      var front := First(stacks[..|stacks| - 1], name);
      if front < |stacks| - 1 then front
      else if stacks[|stacks| - 1].name == name then |stacks| - 1
      else |stacks|
  }

  function CurrentWeight(stacks: seq<StackTrafficWeight>, name: Name): real {
    var i := First(stacks, name);
    if i < |stacks| then stacks[i].weight else 0.0
  }

  /** The factor for the other stacks. */
  function ChangeFor(current: real, weight: real): real {
    if current < 100.0 then (100.0 - weight) / (100.0 - current) else 0.0
  }

  function SetAt(s: StackTrafficWeight, isFirst: bool, name: Name, weight: real, change: real): StackTrafficWeight {
    if isFirst then s.(weight := weight)
    else if s.name != name then s.(weight := s.weight * change)
    else ZERO_VALUE
  }

  /** The list with the stack set to the weight and the other weights multiplied by change. */
  function Adjusted(stacks: seq<StackTrafficWeight>, name: Name, weight: real,
                    change: real): (r: seq<StackTrafficWeight>)
    ensures |r| == |stacks|
  {
    seq(|stacks|, i requires 0 <= i < |stacks| => SetAt(stacks[i], i == First(stacks, name), name, weight, change))
  }

  /** The list after setting the weight of one stack. */
  function WithWeight(stacks: seq<StackTrafficWeight>, name: Name, weight: real): (r: seq<StackTrafficWeight>)
    ensures |r| == |stacks|
  {
    Adjusted(stacks, name, weight, ChangeFor(CurrentWeight(stacks, name), weight))
  }

  // ----- the methods -----

  /** First loop: the stack to change, and what it had. */
  method FindStack(stacks: seq<StackTrafficWeight>, stackName: Name) returns (found: nat, currentWeight: real)
    ensures found == First(stacks, stackName) && currentWeight == CurrentWeight(stacks, stackName)
  {
    found, currentWeight := 0, 0.0;
    while found < |stacks|
      invariant found <= |stacks| && currentWeight == 0.0
      invariant forall k :: 0 <= k < found ==> stacks[k].name != stackName
    {
      if stacks[found].name == stackName {
        currentWeight := stacks[found].weight;
        break;
      }
      found := found + 1;
    }
    FirstIs(stacks, stackName, found);
  }

  lemma {:induction false} FirstIs(stacks: seq<StackTrafficWeight>, name: Name, i: nat)
    requires i <= |stacks| && (i < |stacks| ==> stacks[i].name == name)
    requires forall k :: 0 <= k < i ==> stacks[k].name != name
    ensures First(stacks, name) == i
  {
  }

  /** `setWeightForStacks`: fails exactly if the weight of a stack that has all traffic is to be reduced. */
  method SetWeightForStacks(stacks: seq<StackTrafficWeight>, stackName: Name, weight: real) returns (r: Result)
    ensures r.OnlyStack? <==> CurrentWeight(stacks, stackName) >= 100.0 && weight < 100.0
    ensures r.Ok? ==> r.weights == WithWeight(stacks, stackName, weight)
  {
    var newWeights := new StackTrafficWeight[|stacks|](i => ZERO_VALUE);
    var found, currentWeight := FindStack(stacks, stackName);
    if found < |stacks| {
      newWeights[found] := stacks[found].(weight := weight);
    }
    var change := 0.0;
    if currentWeight < 100.0 {
      change := (100.0 - weight) / (100.0 - currentWeight);
    } else if weight < 100.0 {
      return OnlyStack(stackName, weight);
    }
    for i := 0 to |stacks|
      invariant forall k :: 0 <= k < |stacks| ==>
                  newWeights[k] == if k < i || k == found then SetAt(stacks[k], k == found, stackName, weight, change)
                                   else ZERO_VALUE
    {
      if stacks[i].name != stackName {
        newWeights[i] := stacks[i].(weight := stacks[i].weight * change);
      }
    }
    assert newWeights[..] == WithWeight(stacks, stackName, weight);
    r := Ok(newWeights[..]);
  }

  predicate AllZero(stacks: seq<StackTrafficWeight>) {
    forall i :: 0 <= i < |stacks| ==> !(stacks[i].weight > 0.0)
  }

  ghost predicate NonNegative(stacks: seq<StackTrafficWeight>) {
    forall i :: 0 <= i < |stacks| ==> stacks[i].weight >= 0.0
  }

  /** Every weight becomes an equal share if all are zero, else its share of the total, in percent. */
  ghost predicate Normalizes(stacks: seq<StackTrafficWeight>, r: seq<StackTrafficWeight>) {
    && |r| == |stacks|
    && forall i :: 0 <= i < |stacks| ==>
         && r[i] == stacks[i].(weight := r[i].weight)
         && if AllZero(stacks) then r[i].weight == 100.0 / |stacks| as real
            else Total(stacks) > 0.0 && r[i].weight == stacks[i].weight / Total(stacks) * 100.0
  }

  lemma {:induction false} TotalStep(stacks: seq<StackTrafficWeight>, i: nat)
    requires i < |stacks|
    ensures Total(stacks[..i + 1]) == Total(stacks[..i]) + stacks[i].weight
  {
    assert stacks[..i + 1][..i] == stacks[..i];
  }

  lemma {:induction false} TotalPositive(stacks: seq<StackTrafficWeight>)
    requires NonNegative(stacks)
    ensures Total(stacks) >= 0.0 && (!AllZero(stacks) ==> Total(stacks) > 0.0)
  {
    if stacks != [] { TotalPositive(stacks[..|stacks| - 1]); }
  }

  /** `normalizeWeights` on a list. */
  method NormalizeWeights(stacks: seq<StackTrafficWeight>) returns (r: seq<StackTrafficWeight>)
    requires NonNegative(stacks)
    ensures Normalizes(stacks, r)
  {
    var newWeights := new StackTrafficWeight[|stacks|](i => ZERO_VALUE);
    if AllZero(stacks) && |stacks| > 0 {
      var eqWeight := 100.0 / |stacks| as real;
      for i := 0 to |stacks|
        invariant forall k :: 0 <= k < i ==> newWeights[k] == stacks[k].(weight := eqWeight)
      {
        newWeights[i] := stacks[i].(weight := eqWeight);
      }
      return newWeights[..];
    }
    var sum := 0.0;
    assert stacks[..0] == [];
    for i := 0 to |stacks|
      invariant sum == Total(stacks[..i])
    {
      TotalStep(stacks, i);
      sum := sum + stacks[i].weight;
    }
    assert stacks[..|stacks|] == stacks;
    TotalPositive(stacks);
    for i := 0 to |stacks|
      invariant forall k :: 0 <= k < i ==> newWeights[k] == stacks[k].(weight := stacks[k].weight / sum * 100.0)
    {
      newWeights[i] := stacks[i].(weight := stacks[i].weight / sum * 100.0);
    }
    return newWeights[..];
  }

  // ----- totals -----

  ghost predicate Scaled(a: seq<StackTrafficWeight>, b: seq<StackTrafficWeight>, x: real) {
    |a| == |b| && forall i :: 0 <= i < |a| ==> b[i].weight == a[i].weight * x
  }

  lemma {:induction false} AddScaled(a: real, b: real, w: real, v: real, x: real)
    requires b == a * x && v == w * x
    ensures b + v == (a + w) * x
  {
  }

  lemma {:induction false} LastTotal(a: seq<StackTrafficWeight>)
    requires a != []
    ensures Total(a) == Total(a[..|a| - 1]) + a[|a| - 1].weight
  {
  }

  lemma {:induction false} ScaledFront(a: seq<StackTrafficWeight>, b: seq<StackTrafficWeight>, x: real)
    requires Scaled(a, b, x) && a != []
    ensures b != [] && Scaled(a[..|a| - 1], b[..|b| - 1], x) && b[|b| - 1].weight == a[|a| - 1].weight * x
  {
  }

  /** Scaling every entry by x scales the total by x. */
  lemma {:induction false} TotalScaled(a: seq<StackTrafficWeight>, b: seq<StackTrafficWeight>, x: real)
    requires Scaled(a, b, x)
    ensures Total(b) == Total(a) * x
  {
    if a == [] {
      assert b == [];
    } else {
      ScaledFront(a, b, x);
      TotalScaled(a[..|a| - 1], b[..|b| - 1], x);
      TotalScaledStep(a, b, x);
    }
  }

  lemma {:induction false} TotalScaledStep(a: seq<StackTrafficWeight>, b: seq<StackTrafficWeight>, x: real)
    requires a != [] && b != [] && b[|b| - 1].weight == a[|a| - 1].weight * x
    requires Total(b[..|b| - 1]) == Total(a[..|a| - 1]) * x
    ensures Total(b) == Total(a) * x
  {
    LastTotal(a);
    LastTotal(b);
    AddScaled(Total(a[..|a| - 1]), Total(b[..|b| - 1]), a[|a| - 1].weight, b[|b| - 1].weight, x);
  }

  lemma {:induction false} TotalConstant(a: seq<StackTrafficWeight>, x: real)
    requires forall i :: 0 <= i < |a| ==> a[i].weight == x
    ensures Total(a) == x * |a| as real
  {
    if a != [] {
      TotalConstant(a[..|a| - 1], x);
      assert x * |a| as real == x * (|a| - 1) as real + x;
    }
  }

  /** Replacing the weight at i changes the total by the difference. */
  lemma {:induction false} TotalReplace(a: seq<StackTrafficWeight>, i: nat, w: real)
    requires i < |a|
    ensures Total(a[i := a[i].(weight := w)]) == Total(a) - a[i].weight + w
  {
    var b := a[i := a[i].(weight := w)];
    if i == |a| - 1 {
      assert b[..|b| - 1] == a[..|a| - 1];
    } else {
      assert b[..|b| - 1] == a[..|a| - 1][i := a[i].(weight := w)];
      TotalReplace(a[..|a| - 1], i, w);
    }
  }

  lemma {:induction false} ScaleShare(weight: real, total: real)
    requires total > 0.0
    ensures weight / total * 100.0 == weight * (100.0 / total) && total * (100.0 / total) == 100.0
  {
  }

  lemma {:induction false} NormalizedAt(stacks: seq<StackTrafficWeight>, r: seq<StackTrafficWeight>, i: nat)
    requires Normalizes(stacks, r) && !AllZero(stacks) && Total(stacks) > 0.0 && i < |stacks|
    ensures r[i] == stacks[i].(weight := stacks[i].weight * (100.0 / Total(stacks)))
  {
    ScaleShare(stacks[i].weight, Total(stacks));
  }

  lemma {:induction false} NormalizedScales(stacks: seq<StackTrafficWeight>, r: seq<StackTrafficWeight>)
    requires Normalizes(stacks, r) && !AllZero(stacks) && Total(stacks) > 0.0
    ensures Total(r) == 100.0 && (Total(stacks) == 100.0 ==> r == stacks)
  {
    var x := 100.0 / Total(stacks);
    forall i | 0 <= i < |stacks|
      ensures r[i] == stacks[i].(weight := stacks[i].weight * x)
    {
      NormalizedAt(stacks, r, i);
    }
    ScaleShare(0.0, Total(stacks));
    ScaledList(stacks, r, x);
  }

  lemma {:induction false} ScaledList(stacks: seq<StackTrafficWeight>, r: seq<StackTrafficWeight>, x: real)
    requires |r| == |stacks| && forall i :: 0 <= i < |stacks| ==> r[i] == stacks[i].(weight := stacks[i].weight * x)
    requires Total(stacks) * x == 100.0
    ensures Total(r) == 100.0 && (Total(stacks) == 100.0 ==> r == stacks)
  {
    TotalScaled(stacks, r, x);
    if Total(stacks) == 100.0 {
      TimesOne(x);
      assert forall i :: 0 <= i < |stacks| ==> r[i] == stacks[i];
    }
  }

  lemma {:induction false} TimesOne(x: real)
    requires 100.0 * x == 100.0
    ensures x == 1.0
  {
  }

  /** Normalised weights total 100; weights that total 100 are left alone. */
  lemma {:induction false} NormalizedTotal(stacks: seq<StackTrafficWeight>, r: seq<StackTrafficWeight>)
    requires NonNegative(stacks) && stacks != [] && Normalizes(stacks, r)
    ensures Total(r) == 100.0
    ensures Total(stacks) == 100.0 ==> r == stacks
  {
    TotalPositive(stacks);
    if AllZero(stacks) {
      TotalConstant(r, 100.0 / |stacks| as real);
      TotalConstant(stacks, 0.0);
    } else {
      NormalizedScales(stacks, r);
    }
  }

  /** Normalising keeps names and ratios; if no stack has weight, all get the same. */
  lemma {:induction false} NormalizedKeepsRatios(stacks: seq<StackTrafficWeight>, r: seq<StackTrafficWeight>,
                                                 i: nat, j: nat)
    requires NonNegative(stacks) && Normalizes(stacks, r) && i < |stacks| && j < |stacks|
    ensures |r| == |stacks| && r[i].name == stacks[i].name && r[i].actualWeight == stacks[i].actualWeight
    ensures (exists k :: 0 <= k < |stacks| && stacks[k].weight > 0.0) ==>
              r[i].weight * stacks[j].weight == r[j].weight * stacks[i].weight
    ensures (forall k :: 0 <= k < |stacks| ==> stacks[k].weight == 0.0) ==> r[i].weight == r[j].weight
  {
    TotalPositive(stacks);
    if !AllZero(stacks) {
      NormalizedAt(stacks, r, i);
      NormalizedAt(stacks, r, j);
      Commutes(stacks[i].weight, stacks[j].weight, 100.0 / Total(stacks));
    }
  }

  /** With distinct names the list is: the chosen stack's weight, all others times the change. */
  lemma {:induction false} AdjustedAt(stacks: seq<StackTrafficWeight>, name: Name, weight: real, change: real, i: nat)
    requires Distinct(stacks) && i < |stacks|
    ensures Adjusted(stacks, name, weight, change)[i] ==
            stacks[i].(weight := if stacks[i].name == name then weight else stacks[i].weight * change)
    ensures i == First(stacks, name) <==> stacks[i].name == name
  {
  }

  lemma {:induction false} WithWeightAt(stacks: seq<StackTrafficWeight>, name: Name, weight: real, i: nat)
    requires Distinct(stacks) && i < |stacks|
    ensures var change := ChangeFor(CurrentWeight(stacks, name), weight);
            WithWeight(stacks, name, weight)[i] ==
            stacks[i].(weight := if stacks[i].name == name then weight else stacks[i].weight * change)
  {
    AdjustedAt(stacks, name, weight, ChangeFor(CurrentWeight(stacks, name), weight), i);
  }

  /** Only the first entry of the chosen stack is set; any further one is lost. */
  lemma {:induction false} SecondEntryIsLost(stacks: seq<StackTrafficWeight>, name: Name, weight: real, i: nat, j: nat)
    requires i < j < |stacks| && stacks[i].name == stacks[j].name == name
    ensures var r := WithWeight(stacks, name, weight);
            && r[j] == StackTrafficWeight("", 0.0, 0.0)
            && ((forall k :: 0 <= k < i ==> stacks[k].name != name) ==> r[i] == stacks[i].(weight := weight))
  {
    assert First(stacks, name) <= i;
    if forall k :: 0 <= k < i ==> stacks[k].name != name { assert First(stacks, name) == i; }
  }

  function WithoutWeight(s: seq<StackTrafficWeight>, f: nat): seq<StackTrafficWeight>
    requires f < |s|
  {
    s[f := s[f].(weight := 0.0)]
  }

  lemma {:induction false} TotalWithOne(stacks: seq<StackTrafficWeight>, r: seq<StackTrafficWeight>, f: nat,
                                        change: real)
    requires |r| == |stacks| && f < |stacks|
    requires Scaled(WithoutWeight(stacks, f), WithoutWeight(r, f), change)
    ensures Total(r) == (Total(stacks) - stacks[f].weight) * change + r[f].weight
  {
    TotalReplace(stacks, f, 0.0);
    TotalReplace(r, f, 0.0);
    TotalScaled(WithoutWeight(stacks, f), WithoutWeight(r, f), change);
  }

  lemma {:induction false} AdjustedScales(stacks: seq<StackTrafficWeight>, name: Name, weight: real, change: real)
    requires Distinct(stacks)
    ensures var (r, f) := (Adjusted(stacks, name, weight, change), First(stacks, name));
            if f < |stacks| then r[f].weight == weight && Scaled(WithoutWeight(stacks, f), WithoutWeight(r, f), change)
            else Scaled(stacks, r, change)
  {
    forall i | 0 <= i < |stacks|
      ensures Adjusted(stacks, name, weight, change)[i].weight ==
              if i == First(stacks, name) then weight else stacks[i].weight * change
    {
      AdjustedAt(stacks, name, weight, change, i);
    }
  }

  lemma {:induction false} PresentIff(stacks: seq<StackTrafficWeight>, name: Name)
    ensures Present(stacks, name) <==> First(stacks, name) < |stacks|
  {
  }

  lemma {:induction false} AdjustedTotal(stacks: seq<StackTrafficWeight>, name: Name, weight: real, change: real)
    requires Distinct(stacks)
    ensures Total(Adjusted(stacks, name, weight, change)) ==
            (Total(stacks) - CurrentWeight(stacks, name)) * change + if Present(stacks, name) then weight else 0.0
  {
    var r, f := Adjusted(stacks, name, weight, change), First(stacks, name);
    PresentIff(stacks, name);
    AdjustedScales(stacks, name, weight, change);
    if f < |stacks| {
      TotalWithOne(stacks, r, f, change);
    } else {
      TotalScaled(stacks, r, change);
    }
  }

  lemma {:induction false} ChangeTimesRest(current: real, weight: real)
    requires current < 100.0
    ensures (100.0 - current) * ChangeFor(current, weight) == 100.0 - weight
  {
  }

  /**
   When the weights total 100, setting a weight keeps the total exactly if the stack is in the
   list and did not have all traffic, or had all of it and keeps it; for a stack that is not in
   the list, only if the weight is 0.
   */
  lemma {:induction false} SettingKeepsTotalIff(stacks: seq<StackTrafficWeight>, name: Name, weight: real)
    requires Distinct(stacks) && Total(stacks) == 100.0
    requires CurrentWeight(stacks, name) < 100.0 || weight >= 100.0
    ensures Total(WithWeight(stacks, name, weight)) == 100.0 <==>
            if Present(stacks, name) then CurrentWeight(stacks, name) < 100.0 || weight == 100.0 else weight == 0.0
  {
    AdjustedTotal(stacks, name, weight, ChangeFor(CurrentWeight(stacks, name), weight));
    if CurrentWeight(stacks, name) < 100.0 {
      ChangeTimesRest(CurrentWeight(stacks, name), weight);
    }
    PresentIff(stacks, name);
  }

  // ----- ratios and paths -----

  /** The other stacks keep their ratios. */
  lemma {:induction false} SettingKeepsRatios(stacks: seq<StackTrafficWeight>, name: Name, weight: real, i: nat, j: nat)
    requires Distinct(stacks) && i < |stacks| && j < |stacks| && stacks[i].name != name && stacks[j].name != name
    ensures var r := WithWeight(stacks, name, weight);
            r[i].weight * stacks[j].weight == r[j].weight * stacks[i].weight
  {
    WithWeightAt(stacks, name, weight, i);
    WithWeightAt(stacks, name, weight, j);
    Commutes(stacks[i].weight, stacks[j].weight, ChangeFor(CurrentWeight(stacks, name), weight));
  }

  lemma {:induction false} Commutes(x: real, y: real, c: real)
    ensures x * c * y == y * c * x
  {
  }

  lemma {:induction false} ChangesCompose(current: real, first: real, second: real, x: real)
    requires current < 100.0 && first < 100.0
    ensures x * ChangeFor(current, first) * ChangeFor(first, second) == x * ChangeFor(current, second)
  {
    var c, f := 100.0 - current, 100.0 - first;
    assert ChangeFor(current, first) == f / c && ChangeFor(first, second) == (100.0 - second) / f;
    assert f / c * ((100.0 - second) / f) == (100.0 - second) / c by { Cancel(f, c, 100.0 - second); }
    Associates(x, f / c, (100.0 - second) / f);
  }

  lemma {:induction false} Associates(x: real, a: real, b: real)
    ensures x * a * b == x * (a * b)
  {
  }

  lemma {:induction false} Cancel(f: real, c: real, s: real)
    requires f > 0.0 && c > 0.0
    ensures f / c * (s / f) == s / c
  {
    assert s / f * f == s;
    assert f / c * c == f;
    assert (f / c * (s / f)) * c == s;
    assert (f / c * (s / f)) * c / c == f / c * (s / f);
  }

  lemma {:induction false} SettingKeepsNames(stacks: seq<StackTrafficWeight>, name: Name, weight: real)
    requires Distinct(stacks)
    ensures var r := WithWeight(stacks, name, weight);
            && Distinct(r) && (Present(r, name) <==> Present(stacks, name))
            && (Present(stacks, name) ==> CurrentWeight(r, name) == weight)
  {
    var r := WithWeight(stacks, name, weight);
    forall i | 0 <= i < |stacks|
      ensures r[i].name == stacks[i].name && (stacks[i].name == name ==> r[i].weight == weight)
    {
      WithWeightAt(stacks, name, weight, i);
    }
    if Present(stacks, name) {
      var i :| 0 <= i < |stacks| && stacks[i].name == name;
      assert r[i].name == name;
    }
    if Present(r, name) {
      var i :| 0 <= i < |r| && r[i].name == name;
      assert stacks[i].name == name;
    }
  }

  /** Path independence: only the last of two settings below 100 of the same stack counts. */
  lemma {:induction false} LastSettingCounts(stacks: seq<StackTrafficWeight>, name: Name, first: real, second: real)
    requires Distinct(stacks) && Present(stacks, name)
    requires CurrentWeight(stacks, name) < 100.0 && first < 100.0
    ensures WithWeight(WithWeight(stacks, name, first), name, second) == WithWeight(stacks, name, second)
  {
    var once := WithWeight(stacks, name, first);
    SettingKeepsNames(stacks, name, first);
    forall i | 0 <= i < |stacks|
      ensures WithWeight(once, name, second)[i] == WithWeight(stacks, name, second)[i]
    {
      WithWeightAt(stacks, name, first, i);
      WithWeightAt(once, name, second, i);
      WithWeightAt(stacks, name, second, i);
      ChangesCompose(CurrentWeight(stacks, name), first, second, stacks[i].weight);
    }
  }

  lemma {:induction false} Quotient(x: real, y: real)
    requires y > 0.0
    ensures x / y * y == x
  {
  }

  lemma {:induction false} ChangeToSame(current: real)
    requires current < 100.0
    ensures ChangeFor(current, current) == 1.0
  {
    var rest := 100.0 - current;
    Quotient(rest, rest);
    assert (rest / rest - 1.0) * rest == 0.0;
  }

  /** Setting a stack's old weight back restores the whole list. */
  lemma {:induction false} SettingBackRestores(stacks: seq<StackTrafficWeight>, name: Name, weight: real)
    requires Distinct(stacks) && Present(stacks, name)
    requires CurrentWeight(stacks, name) < 100.0 && weight < 100.0
    ensures WithWeight(WithWeight(stacks, name, weight), name, CurrentWeight(stacks, name)) == stacks
  {
    var current := CurrentWeight(stacks, name);
    LastSettingCounts(stacks, name, weight, current);
    ChangeToSame(current);
    forall i | 0 <= i < |stacks|
      ensures WithWeight(stacks, name, current)[i] == stacks[i]
    {
      WithWeightAt(stacks, name, current, i);
      assert stacks[i].name == name ==> i == First(stacks, name);
    }
  }
}
