/**
 Traffic weights: scaling to a total of 100 and largest-remainder rounding
 (pkg/core/traffic.go).  Weights are exact reals.
 */
module Weights {
  import opened Names
  import opened Sums
  import opened Sorting

  type Weights = map<Name, real>

  // ----- scaling to 100 -----

  predicate AllZero(w: Weights) {
    forall n :: n in w ==> !(w[n] > 0.0)
  }

  /** Weight of one backend after scaling a total to 100. */
  function Share(weight: real, total: real): real
    requires total != 0.0
  {
    weight / total * 100.0
  }

  lemma {:induction false} TotalPositive(w: Weights)
    requires NonNegative(w) && !AllZero(w)
    ensures Sum(w) > 0.0
  {
    SumZero(w);
    SumNonNegative(w);
  }

  /** All-zero weights are spread equally; other weights are scaled to a total of 100. */
  ghost function Normalized(w: Weights): (r: Weights)
    requires NonNegative(w)
  {
    if AllZero(w) then map n | n in w :: 100.0 / |w| as real
    else
      TotalPositive(w);
      map n | n in w :: Share(w[n], Sum(w))
  }

  lemma {:induction false} ShareIsTimes(weight: real, total: real)
    requires total > 0.0
    ensures Share(weight, total) == 100.0 / total * weight
    ensures weight >= 0.0 ==> Share(weight, total) >= 0.0
    ensures Share(total, total) == 100.0
    ensures total == 100.0 ==> Share(weight, total) == weight
  {
  }

  lemma {:induction false} EqualShares(w: Weights)
    requires w != map[] && AllZero(w) && NonNegative(w)
    ensures NonNegative(Normalized(w)) && Sum(Normalized(w)) == 100.0
  {
    var r := Normalized(w);
    assert r.Keys == w.Keys;
    SumConstant(r, 100.0 / |w| as real);
  }

  lemma {:induction false} ScaledShares(w: Weights)
    requires NonNegative(w) && !AllZero(w)
    ensures NonNegative(Normalized(w)) && Sum(Normalized(w)) == 100.0
  {
    TotalPositive(w);
    var r, total := Normalized(w), Sum(w);
    forall n | n in w
      ensures r[n] == 100.0 / total * w[n] && r[n] >= 0.0
    {
      ShareIsTimes(w[n], total);
    }
    SumScale(w, 100.0 / total, r);
    assert 100.0 / total * total == 100.0;
  }

  /** Scaling yields non-negative weights with a total of exactly 100. */
  lemma {:induction false} NormalizedTotal(w: Weights)
    requires NonNegative(w) && w != map[]
    ensures NonNegative(Normalized(w)) && Sum(Normalized(w)) == 100.0
    ensures Normalized(w).Keys == w.Keys
  {
    if AllZero(w) { EqualShares(w); } else { ScaledShares(w); }
  }

  /** Weights that already total 100 are left alone. */
  lemma {:induction false} NormalizedFixed(w: Weights)
    requires NonNegative(w) && Sum(w) == 100.0
    ensures !AllZero(w) && Normalized(w) == w
  {
    SumZero(w);
    forall n | n in w
      ensures Normalized(w)[n] == w[n]
    {
      ShareIsTimes(w[n], 100.0);
    }
  }

  /** r stands in the same ratios as w: all cross products agree. */
  ghost predicate Proportional(w: Weights, r: Weights) {
    r.Keys == w.Keys && forall a, b :: a in w && b in w ==> r[a] * w[b] == r[b] * w[a]
  }

  ghost predicate Equal(r: Weights) {
    forall a, b :: a in r && b in r ==> r[a] == r[b]
  }

  lemma {:induction false} CrossProduct(x: real, p: real, q: real, xp: real, xq: real)
    requires xp == x * p && xq == x * q
    ensures xp * q == xq * p
  {
  }

  /** Weights multiplied by a common factor keep their ratios. */
  lemma {:induction false} TimesIsProportional(w: Weights, r: Weights, x: real)
    requires r.Keys == w.Keys && forall n :: n in w ==> r[n] == x * w[n]
    ensures Proportional(w, r)
  {
    forall a, b | a in w && b in w
      ensures r[a] * w[b] == r[b] * w[a]
    {
      CrossProduct(x, w[a], w[b], r[a], r[b]);
    }
  }

  /** Proportional weights are shares of their total. */
  lemma {:induction false} ProportionalShare(w: Weights, r: Weights, n: Name)
    requires Proportional(w, r) && n in w
    ensures r[n] * Sum(w) == w[n] * Sum(r)
  {
    var cross := map m | m in w :: r[n] * w[m];
    SumScale(w, r[n], cross);
    SumScale(r, w[n], cross);
  }

  /** Scaling keeps the ratios; if all weights are zero, all shares are equal. */
  lemma {:induction false} KeepsRatios(w: Weights)
    requires NonNegative(w)
    ensures !AllZero(w) ==> Proportional(w, Normalized(w))
    ensures AllZero(w) ==> Equal(Normalized(w))
  {
    if !AllZero(w) {
      TotalPositive(w);
      var x := 100.0 / Sum(w);
      forall n | n in w
        ensures Normalized(w)[n] == x * w[n]
      {
        ShareIsTimes(w[n], Sum(w));
      }
      TimesIsProportional(w, Normalized(w), x);
    }
  }

  lemma {:induction false} SameShare(x: real, y: real, total: real, p: real)
    requires total > 0.0 && x * total == p && y * total == p
    ensures x == y
  {
  }

  lemma {:induction false} SameSplit(w: Weights, r: Weights, s: Weights)
    requires Proportional(w, r) && Proportional(w, s) && Sum(r) == Sum(s) && Sum(w) > 0.0
    ensures r == s
  {
    forall n | n in w
      ensures r[n] == s[n]
    {
      ProportionalShare(w, r, n);
      ProportionalShare(w, s, n);
      SameShare(r[n], s[n], Sum(w), w[n] * Sum(r));
    }
  }

  /** Scaling is the one way to keep the ratios and reach a total of 100. */
  lemma {:induction false} NormalizedIff(w: Weights, r: Weights)
    requires NonNegative(w) && !AllZero(w)
    ensures r == Normalized(w) <==> Proportional(w, r) && Sum(r) == 100.0
  {
    KeepsRatios(w);
    ScaledShares(w);
    TotalPositive(w);
    if Proportional(w, r) && Sum(r) == 100.0 {
      SameSplit(w, r, Normalized(w));
    }
  }

  // ----- largest-remainder rounding -----

  predicate IsWhole(x: real) {
    x == x.Floor as real
  }

  predicate AllWhole(w: Weights) {
    forall n :: n in w ==> IsWhole(w[n])
  }

  function Fraction(x: real): real {
    x - x.Floor as real
  }

  /** Rank of backends for the leftover: biggest fraction, then biggest whole part, then name. */
  predicate Before(x: (Name, real), y: (Name, real)) {
    var (fx, fy) := (Fraction(x.1), Fraction(y.1));
    if fx > fy then true
    else if fx == fy && x.1.Floor > y.1.Floor then true
    else fx == fy && x.1.Floor == y.1.Floor && Less(x.0, y.0)
  }

  predicate BeforeIn(w: Weights, a: Name, b: Name)
    requires a in w && b in w
  {
    Before((a, w[a]), (b, w[b]))
  }

  lemma {:induction false} BeforeTotal(x: (Name, real), y: (Name, real))
    requires x.0 != y.0
    ensures Before(x, y) != Before(y, x)
  {
    LessTotal(x.0, y.0);
    if Less(x.0, y.0) { LessAsymmetric(x.0, y.0); } else { LessAsymmetric(y.0, x.0); }
  }

  lemma {:induction false} BeforeTransitive(x: (Name, real), y: (Name, real), z: (Name, real))
    requires Before(x, y) && Before(y, z)
    ensures Before(x, z)
  {
    if Less(x.0, y.0) && Less(y.0, z.0) {
      LessTransitive(x.0, y.0, z.0);
    }
  }

  /** The chosen backends are k in number and outrank all others. */
  ghost predicate IsTop(w: Weights, chosen: set<Name>, k: nat) {
    && chosen <= w.Keys && |chosen| == k
    && forall a, b :: a in chosen && b in w && b !in chosen ==> BeforeIn(w, a, b)
  }

  lemma {:induction false} First(w: Weights, keys: set<Name>) returns (first: Name)
    requires keys != {} && keys <= w.Keys
    ensures first in keys
    ensures forall b :: b in keys && b != first ==> BeforeIn(w, first, b)
    decreases |keys|
  {
    first := Pick(keys);
    if keys != {first} {
      var other := First(w, keys - {first});
      BeforeTotal((first, w[first]), (other, w[other]));
      if BeforeIn(w, first, other) {
        forall b | b in keys && b != first
          ensures BeforeIn(w, first, b)
        {
          if b != other {
            assert BeforeIn(w, other, b);
            BeforeTransitive((first, w[first]), (other, w[other]), (b, w[b]));
          }
        }
      } else {
        first := other;
      }
    }
  }

  lemma {:induction false} TopExists(w: Weights, k: nat)
    requires k <= |w|
    ensures exists chosen :: IsTop(w, chosen, k)
  {
    if k == 0 {
      assert IsTop(w, {}, 0);
    } else {
      assert |w.Keys| == |w|;
      TopExists(w, k - 1);
      var c :| IsTop(w, c, k - 1);
      if w.Keys <= c {
        SubsetSize(w.Keys, c);
        assert false;
      }
      var rest :| rest in w.Keys && rest !in c;
      assert rest in w.Keys - c;
      var first := First(w, w.Keys - c);
      assert IsTop(w, c + {first}, k);
    }
  }

  /** The ranking is a strict total order, so the chosen backends are determined. */
  lemma {:induction false} TopUnique(w: Weights, c: set<Name>, d: set<Name>, k: nat)
    requires IsTop(w, c, k) && IsTop(w, d, k)
    ensures c == d
  {
    if c != d {
      if c <= d { SubsetOfSameSize(c, d); }
      if d <= c { SubsetOfSameSize(d, c); }
      var a :| a in c && a !in d;
      var b :| b in d && b !in c;
      BeforeTotal((a, w[a]), (b, w[b]));
      assert false;
    }
  }

  lemma {:induction false} SubsetOfSameSize(c: set<Name>, d: set<Name>)
    requires c <= d && |c| == |d|
    ensures c == d
  {
    if c != d {
      var x :| x in d && x !in c;
      SubsetSize(c, d - {x});
      assert false;
    }
  }

  lemma {:induction false} SubsetSize<T>(c: set<T>, d: set<T>)
    requires c <= d
    ensures |c| <= |d|
    decreases c
  {
    if c != {} {
      var x :| x in c;
      SubsetSize(c - {x}, d - {x});
    }
  }

  ghost function Floors(w: Weights): Weights {
    map n | n in w :: w[n].Floor as real
  }

  ghost function Fractions(w: Weights): Weights {
    map n | n in w :: Fraction(w[n])
  }

  /** What flooring leaves to distribute. */
  ghost function Leftover(w: Weights): int {
    (100.0 - Sum(Floors(w))).Floor
  }

  lemma {:induction false} WholeAdd(x: real, y: real)
    requires IsWhole(x) && IsWhole(y)
    ensures IsWhole(x + y) && (x + y).Floor == x.Floor + y.Floor
  {
    var whole := x.Floor + y.Floor;
    assert x + y == whole as real;
  }

  lemma {:induction false} SumWhole(w: Weights)
    requires AllWhole(w)
    ensures IsWhole(Sum(w))
    decreases |w|
  {
    if w != map[] {
      var k := Pick(w.Keys);
      SumTake(w, k);
      SumWhole(w - {k});
      WholeAdd(w[k], Sum(w - {k}));
    }
  }

  lemma {:induction false} LeftoverIsFractions(w: Weights)
    requires Sum(w) == 100.0
    ensures Leftover(w) as real == Sum(Fractions(w))
    ensures Leftover(w) as real + Sum(Floors(w)) == 100.0
  {
    SumAdd(Floors(w), Fractions(w), w);
    SumWhole(Floors(w));
    var floors := Sum(Floors(w)).Floor;
    assert 100.0 - Sum(Floors(w)) == (100 - floors) as real;
  }

  /** The slice bound of the distribution loop: the leftover is the total of the fractions. */
  lemma {:induction false} LeftoverInBounds(w: Weights)
    requires Sum(w) == 100.0
    ensures 0 <= Leftover(w) <= |w|
    ensures w != map[] ==> Leftover(w) < |w|
  {
    LeftoverIsFractions(w);
    SumNonNegative(Fractions(w));
    FractionsBelow(w);
  }

  lemma {:induction false} FractionsBelow(w: Weights)
    ensures Sum(Fractions(w)) <= |w| as real
    ensures w != map[] ==> Sum(Fractions(w)) < |w| as real
    decreases |w|
  {
    if w != map[] {
      var k := Pick(w.Keys);
      FractionsBelow(w - {k});
      SumTake(Fractions(w), k);
      assert Fractions(w)[k] < 1.0;
      assert Fractions(w) - {k} == Fractions(w - {k});
    }
  }

  /** The backends that receive one more than their floor. */
  ghost function Lucky(w: Weights): (chosen: set<Name>)
    requires NonNegative(w) && Sum(w) == 100.0
    ensures Leftover(w) >= 0 && IsTop(w, chosen, Leftover(w))
  {
    LeftoverInBounds(w);
    TopExists(w, Leftover(w));
    var chosen :| IsTop(w, chosen, Leftover(w));
    chosen
  }

  ghost function Raised(w: Weights, chosen: set<Name>): Weights {
    map n | n in w :: w[n].Floor as real + if n in chosen then 1.0 else 0.0
  }

  ghost function Rounded(w: Weights): Weights
    requires NonNegative(w) && Sum(w) == 100.0
  {
    Raised(w, Lucky(w))
  }

  lemma {:induction false} RaisedTotal(w: Weights, chosen: set<Name>)
    requires Sum(w) == 100.0 && chosen <= w.Keys && |chosen| == Leftover(w)
    ensures Sum(Raised(w, chosen)) == 100.0
  {
    var ones := map n | n in w :: if n in chosen then 1.0 else 0.0;
    LeftoverIsFractions(w);
    SumIndicator(ones, chosen);
    SumAdd(Floors(w), ones, Raised(w, chosen));
  }

  lemma {:induction false} RaisedWithinOne(w: Weights, chosen: set<Name>, n: Name)
    requires n in w
    ensures IsWhole(Raised(w, chosen)[n])
    ensures -1.0 < Raised(w, chosen)[n] - w[n] <= 1.0
    ensures w[n] >= 0.0 ==> Raised(w, chosen)[n] >= 0.0
  {
    var k := w[n].Floor + if n in chosen then 1 else 0;
    assert Raised(w, chosen)[n] == k as real;
  }

  /** Fractions add up to less than one per backend with a fraction. */
  lemma {:induction false} FractionsOf(w: Weights, some: set<Name>)
    requires some <= w.Keys && forall n :: n in w && n !in some ==> Fraction(w[n]) == 0.0
    ensures Sum(Fractions(w)) <= |some| as real && (some != {} ==> Sum(Fractions(w)) < |some| as real)
  {
    var part := map n | n in some :: w[n];
    FractionsBelow(part);
    SumSupport(Fractions(w), Fractions(part));
    assert part.Keys == some;
    assert |part.Keys| == |part|;
  }

  lemma {:induction false} UnluckyHasNone(w: Weights, n: Name, m: Name)
    requires NonNegative(w) && Sum(w) == 100.0 && n in Lucky(w) && m in w && m !in Lucky(w)
    ensures n in w && Fraction(w[m]) <= Fraction(w[n])
  {
    assert BeforeIn(w, n, m);
  }

  /** Only backends with a fraction are raised. */
  lemma {:induction false} LuckyHasFraction(w: Weights, n: Name)
    requires NonNegative(w) && Sum(w) == 100.0 && n in Lucky(w)
    ensures n in w && Fraction(w[n]) > 0.0
  {
    forall m | m in w && m !in Lucky(w)
      ensures Fraction(w[m]) <= Fraction(w[n])
    {
      UnluckyHasNone(w, n, m);
    }
    LeftoverIsFractions(w);
    if Fraction(w[n]) == 0.0 {
      FractionsOf(w, Lucky(w) - {n});
      assert false;
    }
  }

  /** Rounding yields whole weights that total exactly 100, each the floor or the ceiling of its input. */
  lemma {:induction false} RoundedTotal(w: Weights)
    requires NonNegative(w) && Sum(w) == 100.0
    ensures Rounded(w).Keys == w.Keys
    ensures AllWhole(Rounded(w)) && NonNegative(Rounded(w)) && Sum(Rounded(w)) == 100.0
    ensures forall n :: n in w ==> -1.0 < Rounded(w)[n] - w[n] < 1.0
  {
    RaisedTotal(w, Lucky(w));
    forall n | n in w
      ensures IsWhole(Rounded(w)[n]) && Rounded(w)[n] >= 0.0 && -1.0 < Rounded(w)[n] - w[n] < 1.0
    {
      RaisedWithinOne(w, Lucky(w), n);
      if n in Lucky(w) { LuckyHasFraction(w, n); }
    }
  }

  lemma {:induction false} FloorOrder(x: real, y: real)
    requires x > y
    ensures x.Floor >= y.Floor && (x.Floor == y.Floor ==> Fraction(x) > Fraction(y))
  {
  }

  lemma {:induction false} RaisedOrder(w: Weights, chosen: set<Name>, k: nat, a: Name, b: Name)
    requires IsTop(w, chosen, k) && a in w && b in w && w[a] > w[b]
    ensures Raised(w, chosen)[a] >= Raised(w, chosen)[b]
  {
    FloorOrder(w[a], w[b]);
    if b in chosen && a !in chosen {
      assert BeforeIn(w, b, a);
    }
  }

  /** Rounding never reverses two backends: a strictly larger input keeps at least as large an output. */
  lemma {:induction false} RoundedMonotone(w: Weights, a: Name, b: Name)
    requires NonNegative(w) && Sum(w) == 100.0
    requires a in w && b in w && w[a] > w[b]
    ensures Rounded(w)[a] >= Rounded(w)[b]
  {
    RaisedOrder(w, Lucky(w), Leftover(w), a, b);
  }

  /** v takes every weight to its floor or to one more, and totals 100. */
  ghost predicate FloorsOrMore(w: Weights, v: Weights) {
    && v.Keys == w.Keys && Sum(v) == 100.0
    && forall n :: n in w ==> v[n] == w[n].Floor as real || v[n] == w[n].Floor as real + 1.0
  }

  /**
   What it takes for x to be raised before y: a bigger fraction, or the same fraction and a bigger
   whole part, or the same weight and the smaller name.
   */
  predicate GoesFirst(x: real, y: real, a: Name, b: Name) {
    var fx, fy := x - x.Floor as real, y - y.Floor as real;
    fx > fy || (fx == fy && x.Floor > y.Floor) || (x == y && Less(a, b))
  }

  /** A backend that gets one more goes before every backend that does not. */
  ghost predicate RaisesInOrder(w: Weights, v: Weights)
    requires v.Keys == w.Keys
  {
    forall a, b :: a in w && b in w && v[a] > w[a].Floor as real && v[b] == w[b].Floor as real ==>
      GoesFirst(w[a], w[b], a, b)
  }

  lemma {:induction false} BeforeIff(x: (Name, real), y: (Name, real))
    ensures Before(x, y) <==> GoesFirst(x.1, y.1, x.0, y.0)
  {
  }

  lemma {:induction false} RaisesInOrderIff(w: Weights, chosen: set<Name>)
    requires chosen <= w.Keys
    ensures RaisesInOrder(w, Raised(w, chosen)) <==> IsTop(w, chosen, |chosen|)
  {
    var v := Raised(w, chosen);
    assert forall n :: n in w ==> (v[n] > w[n].Floor as real <==> n in chosen)
                                  && (v[n] == w[n].Floor as real <==> n !in chosen);
    forall a, b | a in w && b in w
      ensures BeforeIn(w, a, b) <==> GoesFirst(w[a], w[b], a, b)
    {
      BeforeIff((a, w[a]), (b, w[b]));
    }
  }

  lemma {:induction false} RaisedSet(w: Weights, v: Weights) returns (chosen: set<Name>)
    requires Sum(w) == 100.0 && FloorsOrMore(w, v)
    ensures chosen <= w.Keys && |chosen| == Leftover(w) && v == Raised(w, chosen)
  {
    chosen := set n | n in w && v[n] > w[n].Floor as real;
    var ones := map n | n in w :: if n in chosen then 1.0 else 0.0;
    SumIndicator(ones, chosen);
    SumAdd(Floors(w), ones, v);
    LeftoverIsFractions(w);
  }

  /** The rounded weights are the one split by floors that gives the leftover in that order. */
  lemma {:induction false} RoundedIff(w: Weights, v: Weights)
    requires NonNegative(w) && Sum(w) == 100.0
    ensures v == Rounded(w) <==> FloorsOrMore(w, v) && RaisesInOrder(w, v)
  {
    RaisedTotal(w, Lucky(w));
    RaisesInOrderIff(w, Lucky(w));
    if FloorsOrMore(w, v) && RaisesInOrder(w, v) {
      var chosen := RaisedSet(w, v);
      RaisesInOrderIff(w, chosen);
      TopUnique(w, chosen, Lucky(w), Leftover(w));
    }
  }

  /**
   Of two backends with the same fraction, one that gets one more while the other does not has the
   bigger whole part, or the same and the smaller name.
   */
  lemma {:induction false} SameFractionRaised(w: Weights, a: Name, b: Name)
    requires NonNegative(w) && Sum(w) == 100.0 && a in w && b in w
    requires w[a] - w[a].Floor as real == w[b] - w[b].Floor as real
    requires Rounded(w)[b] > w[b].Floor as real && Rounded(w)[a] == w[a].Floor as real
    ensures w[b].Floor > w[a].Floor || (w[b].Floor == w[a].Floor && Less(b, a))
  {
    RoundedIff(w, Rounded(w));
  }

  /** Of two backends with the same weight, the one with the smaller name gets at least as much. */
  lemma {:induction false} EqualWeightsByName(w: Weights, a: Name, b: Name)
    requires NonNegative(w) && Sum(w) == 100.0
    requires a in w && b in w && w[a] == w[b] && Less(a, b)
    ensures Rounded(w)[b] <= Rounded(w)[a] <= Rounded(w)[b] + 1.0
  {
    RoundedIff(w, Rounded(w));
    LessAsymmetric(a, b);
  }

  lemma {:induction false} SumOfThree(w: Weights, a: Name, b: Name, c: Name)
    requires a != b && a != c && b != c && w.Keys == {a, b, c}
    ensures Sum(w) == w[a] + w[b] + w[c]
  {
    SumTake(w, a);
    SumTake(w - {a}, b);
    SumTake(w - {a} - {b}, c);
    assert w - {a} - {b} - {c} == map[];
    SumEmpty();
  }

  /** Three equal backends become 34, 33 and 33, in the order of their names. */
  lemma {:induction false} ThirdsByName(w: Weights, a: Name, b: Name, c: Name)
    requires Less(a, b) && Less(b, c) && w.Keys == {a, b, c} && w[a] == w[b] == w[c] && Sum(w) == 100.0
    ensures NonNegative(w) && Rounded(w) == map[a := 34.0, b := 33.0, c := 33.0]
  {
    LessTransitive(a, b, c);
    LessAsymmetric(a, b);
    LessAsymmetric(b, c);
    LessAsymmetric(a, c);
    SumOfThree(w, a, b, c);
    var v: Weights := map[a := 34.0, b := 33.0, c := 33.0];
    SumOfThree(v, a, b, c);
    assert 3.0 * w[a] == 100.0 && w[a].Floor == 33;
    RoundedIff(w, v);
  }

  /** Halves go to the bigger weight: 12.5 and 87.5 become 12 and 88. */
  lemma {:induction false} HalfToTheBigger(w: Weights, a: Name, b: Name)
    requires a != b && w.Keys == {a, b} && w[a] == 12.5 && w[b] == 87.5
    ensures NonNegative(w) && Sum(w) == 100.0 && Rounded(w) == map[a := 12.0, b := 88.0]
  {
    SumOfTwo(w, a, b);
    var v: Weights := map[a := 12.0, b := 88.0];
    SumOfTwo(v, a, b);
    assert w[a].Floor == 12 && w[b].Floor == 87;
    RoundedIff(w, v);
  }

  lemma {:induction false} SumOfTwo(w: Weights, a: Name, b: Name)
    requires a != b && w.Keys == {a, b}
    ensures Sum(w) == w[a] + w[b]
  {
    SumTake(w, a);
    SumTake(w - {a}, b);
    assert w - {a} - {b} == map[];
    SumEmpty();
  }

  /** Whole weights are a fixed point of rounding. */
  lemma {:induction false} RoundedFixed(w: Weights)
    requires NonNegative(w) && Sum(w) == 100.0 && AllWhole(w)
    ensures Rounded(w) == w
  {
    assert Floors(w) == w;
    assert Lucky(w) == {};
  }

  // ----- optimality -----

  function Abs(x: real): real {
    if x < 0.0 then -x else x
  }

  ghost function Deviations(w: Weights, v: Weights): Weights
    requires v.Keys == w.Keys
  {
    map n | n in w :: Abs(v[n] - w[n])
  }

  /** Total absolute deviation of a split v from the weights w. */
  ghost function Deviation(w: Weights, v: Weights): real
    requires v.Keys == w.Keys
  {
    Sum(Deviations(w, v))
  }

  /** The price of moving from split r to split v, c per unit. */
  ghost function Charges(r: Weights, v: Weights, c: real): Weights
    requires r.Keys == v.Keys
  {
    map n | n in v :: c * (v[n] - r[n])
  }

  /** Moving between two splits with the same total costs nothing in all. */
  lemma {:induction false} FreeMoves(r: Weights, v: Weights, c: real)
    requires r.Keys == v.Keys && Sum(r) == Sum(v)
    ensures Sum(Charges(r, v, c)) == 0.0
  {
    var change := map n | n in v :: v[n] - r[n];
    SumAdd(change, r, v);
    SumScale(change, c, Charges(r, v, c));
  }

  /** A fraction no lucky backend is below and no other backend is above. */
  lemma {:induction false} Threshold(w: Weights) returns (t: real)
    requires NonNegative(w) && Sum(w) == 100.0
    ensures 0.0 <= t <= 1.0
    ensures forall n :: n in w ==> if n in Lucky(w) then Fraction(w[n]) >= t else Fraction(w[n]) <= t
  {
    if Lucky(w) == {} {
      t := 1.0;
    } else {
      var last := LowestFraction(w, Lucky(w));
      t := Fraction(w[last]);
      forall n | n in w && n !in Lucky(w)
        ensures Fraction(w[n]) <= t
      {
        assert BeforeIn(w, last, n);
      }
    }
  }

  lemma {:induction false} LowestFraction(w: Weights, keys: set<Name>) returns (low: Name)
    requires keys != {} && keys <= w.Keys
    ensures low in keys && forall n :: n in keys ==> Fraction(w[low]) <= Fraction(w[n])
    decreases |keys|
  {
    low := Pick(keys);
    if keys != {low} {
      var other := LowestFraction(w, keys - {low});
      if Fraction(w[other]) < Fraction(w[low]) { low := other; }
    }
  }

  lemma {:induction false} ProductUp(t: real, d: real, p: real)
    requires t >= 0.0 && d >= 1.0 && p == t * d
    ensures p >= t
  {
    assert t * (d - 1.0) >= 0.0;
  }

  lemma {:induction false} ProductDown(t: real, d: real, p: real)
    requires t <= 1.0 && d <= -1.0 && p == t * d
    ensures p >= 1.0 - t + d
  {
    assert (1.0 - t) * (-d - 1.0) >= 0.0;
  }

  lemma {:induction false} Price(t: real, d: real, p: real)
    requires p == t * d
    ensures (1.0 - 2.0 * t) * d == d - 2.0 * p
  {
  }

  /** The convexity argument, with p for t * d. */
  lemma {:induction false} DeviationLine(g: real, d: real, t: real, p: real)
    requires 0.0 <= t <= 1.0 && -t <= g <= 1.0 - t
    requires (d >= 1.0 && p >= t) || (d == 0.0 && p == 0.0) || (d <= -1.0 && p >= 1.0 - t + d)
    ensures Abs(g + d) >= Abs(g) + d - 2.0 * p
  {
  }

  /** Moving a rounded value that is off by g by d or more units costs at least d times 1 - 2t. */
  lemma {:induction false} DeviationStep(g: real, d: real, t: real)
    requires 0.0 <= t <= 1.0 && -t <= g <= 1.0 - t
    requires d <= -1.0 || d == 0.0 || d >= 1.0
    ensures Abs(g + d) >= Abs(g) + (1.0 - 2.0 * t) * d
  {
    var p := t * d;
    Price(t, d, p);
    if d >= 1.0 {
      ProductUp(t, d, p);
    } else if d <= -1.0 {
      ProductDown(t, d, p);
    }
    DeviationLine(g, d, t, p);
  }

  lemma {:induction false} WholeDistance(r: int, v: real)
    requires IsWhole(v)
    ensures v - r as real <= -1.0 || v - r as real == 0.0 || v - r as real >= 1.0
  {
    assert v - r as real == (v.Floor - r) as real;
  }

  /** Whether a split beats the rounded one at a single backend, price included. */
  lemma {:induction false} DeviationAt(w: Weights, chosen: set<Name>, v: Weights, t: real, n: Name)
    requires n in w && n in v && IsWhole(v[n]) && 0.0 <= t <= 1.0
    requires if n in chosen then Fraction(w[n]) >= t else Fraction(w[n]) <= t
    ensures Abs(Raised(w, chosen)[n] - w[n]) + (1.0 - 2.0 * t) * (v[n] - Raised(w, chosen)[n]) <= Abs(v[n] - w[n])
  {
    DeviationOf(w[n], n in chosen, v[n], t);
  }

  lemma {:induction false} DeviationOf(x: real, lucky: bool, v: real, t: real)
    requires IsWhole(v) && 0.0 <= t <= 1.0
    requires if lucky then Fraction(x) >= t else Fraction(x) <= t
    ensures var r := x.Floor as real + if lucky then 1.0 else 0.0;
            Abs(r - x) + (1.0 - 2.0 * t) * (v - r) <= Abs(v - x)
  {
    var r := x.Floor as real + if lucky then 1.0 else 0.0;
    RaisedDistance(x, lucky, t);
    WholeDistance(x.Floor + if lucky then 1 else 0, v);
    DeviationStep(r - x, v - r, t);
    assert (r - x) + (v - r) == v - x;
  }

  lemma {:induction false} RaisedDistance(x: real, lucky: bool, t: real)
    requires if lucky then Fraction(x) >= t else Fraction(x) <= t
    requires 0.0 <= t <= 1.0
    ensures -t <= x.Floor as real + (if lucky then 1.0 else 0.0) - x <= 1.0 - t
    ensures (x.Floor + if lucky then 1 else 0) as real == x.Floor as real + if lucky then 1.0 else 0.0
  {
  }

  lemma {:induction false} CheaperInTotal(best: Weights, charge: Weights, rival: Weights)
    requires best.Keys == charge.Keys == rival.Keys && Sum(charge) == 0.0
    requires forall n :: n in best ==> best[n] + charge[n] <= rival[n]
    ensures Sum(best) <= Sum(rival)
  {
    var bound := map n | n in best :: best[n] + charge[n];
    SumAdd(best, charge, bound);
    SumMonotone(bound, rival);
  }

  lemma {:induction false} CheaperAt(w: Weights, chosen: set<Name>, v: Weights, t: real, n: Name)
    requires v.Keys == w.Keys && n in w && IsWhole(v[n]) && 0.0 <= t <= 1.0
    requires if n in chosen then Fraction(w[n]) >= t else Fraction(w[n]) <= t
    ensures var r := Raised(w, chosen);
            Deviations(w, r)[n] + Charges(r, v, 1.0 - 2.0 * t)[n] <= Deviations(w, v)[n]
  {
    var r, c := Raised(w, chosen), 1.0 - 2.0 * t;
    DeviationAt(w, chosen, v, t, n);
    assert Charges(r, v, c)[n] == c * (v[n] - r[n]);
    assert Deviations(w, r)[n] == Abs(r[n] - w[n]) && Deviations(w, v)[n] == Abs(v[n] - w[n]);
  }

  lemma {:induction false} CheaperEverywhere(w: Weights, chosen: set<Name>, v: Weights, t: real)
    requires v.Keys == w.Keys && AllWhole(v) && 0.0 <= t <= 1.0
    requires forall n :: n in w ==> if n in chosen then Fraction(w[n]) >= t else Fraction(w[n]) <= t
    ensures var r := Raised(w, chosen);
            forall n :: n in w ==> Deviations(w, r)[n] + Charges(r, v, 1.0 - 2.0 * t)[n] <= Deviations(w, v)[n]
  {
    var r := Raised(w, chosen);
    var best, charge, rival := Deviations(w, r), Charges(r, v, 1.0 - 2.0 * t), Deviations(w, v);
    forall n | n in w
      ensures best[n] + charge[n] <= rival[n]
    {
      CheaperAt(w, chosen, v, t, n);
    }
  }

  /** Largest-remainder rounding is optimal: no whole split of 100 deviates less in total. */
  lemma {:induction false} RoundedIsOptimal(w: Weights, v: Weights)
    requires NonNegative(w) && Sum(w) == 100.0
    requires v.Keys == w.Keys && AllWhole(v) && Sum(v) == 100.0
    ensures Rounded(w).Keys == w.Keys && Deviation(w, Rounded(w)) <= Deviation(w, v)
  {
    var r := Rounded(w);
    assert r.Keys == w.Keys && Sum(r) == 100.0 by { RoundedTotal(w); }
    var t := Threshold(w);
    CheaperEverywhere(w, Lucky(w), v, t);
    FreeMoves(r, v, 1.0 - 2.0 * t);
    CheaperInTotal(Deviations(w, r), Charges(r, v, 1.0 - 2.0 * t), Deviations(w, v));
  }

  // ----- canonical weights -----

  /** Non-negative whole weights with a total of exactly 100. */
  ghost predicate Canonical(w: Weights) {
    NonNegative(w) && AllWhole(w) && Sum(w) == 100.0
  }

  /** Scaling and rounding is a projection onto the canonical weights. */
  lemma {:induction false} ProjectionOntoCanonical(w: Weights)
    requires NonNegative(w) && w != map[]
    ensures Sum(Normalized(w)) == 100.0 && NonNegative(Normalized(w))
    ensures Canonical(Rounded(Normalized(w)))
    ensures Rounded(Normalized(w)).Keys == w.Keys
    ensures Rounded(Normalized(w)) == w <==> Canonical(w)
  {
    NormalizedTotal(w);
    RoundedTotal(Normalized(w));
    if Canonical(w) {
      NormalizedFixed(w);
      RoundedFixed(w);
    }
  }

  lemma {:induction false} LessThanTotal(e: real, total: real, p: real)
    requires total > 0.0 && -1.0 < e < 1.0 && p == e * total
    ensures -total < p < total
  {
    assert (1.0 - e) * total > 0.0 && (1.0 + e) * total > 0.0;
  }

  lemma {:induction false} CloseShares(c: real, r: real, total: real, share: real)
    requires total > 0.0 && -1.0 < c - r < 1.0 && r * total == share
    ensures Abs(c * total - share) < total
  {
    LessThanTotal(c - r, total, (c - r) * total);
    assert (c - r) * total == c * total - r * total;
  }

  /** c is within one of the part of 100 that the weight is of the total. */
  predicate IsShare(c: real, weight: real, total: real) {
    Abs(c * total - 100.0 * weight) < total
  }

  /** c splits 100 like w, every part within one of its exact share. */
  ghost predicate SplitsLike(w: Weights, c: Weights) {
    c.Keys == w.Keys && forall n :: n in w ==> IsShare(c[n], w[n], Sum(w))
  }

  /** No weight of c is off by one or more from that of r. */
  ghost predicate Near(c: Weights, r: Weights) {
    c.Keys == r.Keys && forall n :: n in r ==> -1.0 < c[n] - r[n] < 1.0
  }

  lemma {:induction false} RoundedIsNear(w: Weights)
    requires NonNegative(w) && Sum(w) == 100.0
    ensures Near(Rounded(w), w)
  {
    RoundedTotal(w);
  }

  lemma {:induction false} NearSplitsLike(w: Weights, r: Weights, c: Weights)
    requires Proportional(w, r) && Sum(r) == 100.0 && Sum(w) > 0.0 && Near(c, r)
    ensures SplitsLike(w, c)
  {
    forall n | n in w
      ensures IsShare(c[n], w[n], Sum(w))
    {
      HundredfoldShare(w, r, n);
      CloseShares(c[n], r[n], Sum(w), 100.0 * w[n]);
    }
  }

  lemma {:induction false} HundredfoldShare(w: Weights, r: Weights, n: Name)
    requires Proportional(w, r) && Sum(r) == 100.0 && n in w
    ensures n in r && r[n] * Sum(w) == 100.0 * w[n]
  {
    ProportionalShare(w, r, n);
    assert w[n] * Sum(r) == w[n] * 100.0;
  }

  /** Once scaled and rounded, every weight is within one of its exact share of 100. */
  lemma {:induction false} CanonicalSplitsLike(w: Weights)
    requires NonNegative(w) && Sum(w) > 0.0 && NonNegative(Normalized(w)) && Sum(Normalized(w)) == 100.0
    ensures SplitsLike(w, Rounded(Normalized(w)))
  {
    SumZero(w);
    KeepsRatios(w);
    RoundedIsNear(Normalized(w));
    NearSplitsLike(w, Normalized(w), Rounded(Normalized(w)));
  }

  lemma {:induction false} ShareOrder(w: Weights, r: Weights, a: Name, b: Name)
    requires Proportional(w, r) && Sum(r) == 100.0 && Sum(w) > 0.0 && a in w && b in w
    ensures w[a] > w[b] ==> r[a] > r[b]
    ensures w[a] == w[b] ==> r[a] == r[b]
  {
    HundredfoldShare(w, r, a);
    HundredfoldShare(w, r, b);
    OrderOfFactors(r[a], r[b], Sum(w), 100.0 * w[a], 100.0 * w[b]);
  }

  lemma {:induction false} OrderOfFactors(x: real, y: real, total: real, p: real, q: real)
    requires total > 0.0 && x * total == p && y * total == q
    ensures p > q ==> x > y
    ensures p == q ==> x == y
  {
    assert (x - y) * total == p - q;
    assert x <= y ==> (y - x) * total >= 0.0;
  }

  /** a comes first among the weights: it has more, or the same and the smaller name. */
  predicate Leads(w: Weights, a: Name, b: Name)
    requires a in w && b in w
  {
    w[a] > w[b] || (w[a] == w[b] && Less(a, b))
  }

  lemma {:induction false} RoundedKeepsOrder(w: Weights, a: Name, b: Name)
    requires NonNegative(w) && Sum(w) == 100.0 && a in w && b in w && Leads(w, a, b)
    ensures Rounded(w)[a] >= Rounded(w)[b]
  {
    if w[a] > w[b] { RoundedMonotone(w, a, b); } else { EqualWeightsByName(w, a, b); }
  }

  /** Scaling and rounding never reverse two backends. */
  lemma {:induction false} CanonicalKeepsOrder(w: Weights, a: Name, b: Name)
    requires NonNegative(w) && Sum(w) > 0.0 && NonNegative(Normalized(w)) && Sum(Normalized(w)) == 100.0
    requires a in w && b in w && Leads(w, a, b)
    ensures Rounded(Normalized(w))[a] >= Rounded(Normalized(w))[b]
  {
    SumZero(w);
    KeepsRatios(w);
    ShareOrder(w, Normalized(w), a, b);
    RoundedKeepsOrder(Normalized(w), a, b);
  }
}
