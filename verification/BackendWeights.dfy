/**
 The weight map that `normalizeWeights` and `roundWeights` rewrite in place
 (pkg/core/traffic.go).  Every `range` over the map is an arbitrary enumeration.
 */
module BackendWeights {
  import opened Names
  import opened Sums
  import opened Sorting
  import opened Weights

  type Entry = (Name, real)

  /** The entries of w, each exactly once. */
  ghost predicate Enumerates(list: seq<Entry>, w: Weights) {
    && (forall i, j :: 0 <= i < j < |list| ==> list[i].0 != list[j].0)
    && (forall i :: 0 <= i < |list| ==> list[i].0 in w && list[i].1 == w[list[i].0])
    && (forall n :: n in w ==> (n, w[n]) in list)
  }

  ghost function NamesOf(list: seq<Entry>): set<Name> {
    set i | 0 <= i < |list| :: list[i].0
  }

  lemma {:induction false} NameAt(list: seq<Entry>, j: nat, k: nat)
    requires j < k <= |list|
    ensures list[j].0 in NamesOf(list[..k])
  {
    assert list[..k][j] == list[j];
  }

  lemma {:induction false} DistinctNames(list: seq<Entry>)
    requires forall i, j :: 0 <= i < j < |list| ==> list[i].0 != list[j].0
    ensures |NamesOf(list)| == |list|
  {
    if list != [] {
      var front, last := list[..|list| - 1], list[|list| - 1];
      DistinctNames(front);
      assert NamesOf(list) == NamesOf(front) + {last.0};
    }
  }

  lemma {:induction false} EnumerationSize(list: seq<Entry>, w: Weights)
    requires Enumerates(list, w)
    ensures |list| == |w|
  {
    DistinctNames(list);
    forall n | n in w
      ensures n in NamesOf(list)
    {
      assert (n, w[n]) in list;
    }
    assert NamesOf(list) == w.Keys;
    assert |w.Keys| == |w|;
  }

  lemma {:induction false} BeforeIsStrictWeak(list: seq<Entry>, w: Weights)
    requires Enumerates(list, w)
    ensures StrictWeak(list, Before)
  {
    forall x, y | x in list && y in list && Before(x, y)
      ensures !Before(y, x)
    {
      if x.0 != y.0 { BeforeTotal(x, y); } else { LessIrreflexive(x.0); }
    }
    forall x, y, z | x in list && y in list && z in list && !Before(x, y) && !Before(y, z)
      ensures !Before(x, z)
    {
      if x.0 != y.0 && y.0 != z.0 {
        BeforeTotal(x, y);
        BeforeTotal(y, z);
        BeforeTransitive(z, y, x);
        if x.0 != z.0 { BeforeTotal(x, z); }
      }
    }
  }

  lemma {:induction false} PermutedEntries(s: seq<Entry>, r: seq<Entry>, w: Weights)
    requires Enumerates(s, w) && multiset(s) == multiset(r)
    ensures Enumerates(r, w)
  {
    forall i | 0 <= i < |r|
      ensures r[i].0 in w && r[i].1 == w[r[i].0]
    {
      assert r[i] in multiset(r);
      assert r[i] in s;
    }
    forall n | n in w
      ensures (n, w[n]) in r
    {
      assert (n, w[n]) in multiset(s);
    }
    PermutationKeepsUnique(s, r);
    assert forall i, j :: 0 <= i < j < |r| && r[i].0 == r[j].0 ==> r[i] == r[j];
  }

  /** The first k entries of the sorted list are the k lucky backends. */
  lemma {:induction false} PrefixIsTop(list: seq<Entry>, w: Weights, k: nat)
    requires Enumerates(list, w) && Ordered(list, Before) && k <= |list|
    ensures IsTop(w, NamesOf(list[..k]), k)
  {
    var chosen := NamesOf(list[..k]);
    DistinctNames(list[..k]);
    forall a, b | a in chosen && b in w && b !in chosen
      ensures BeforeIn(w, a, b)
    {
      var i :| 0 <= i < k && list[..k][i].0 == a;
      assert (b, w[b]) in list;
      var j :| 0 <= j < |list| && list[j] == (b, w[b]);
      if j < k {
        NameAt(list, j, k);
        assert false;
      }
      assert !Before(list[j], list[i]);
      BeforeTotal(list[i], list[j]);
    }
  }

  /** Sorting any enumeration puts the lucky backends first, and the slice `[:diff]` is in bounds. */
  lemma {:induction false} SortedChoosesLucky(weightList: seq<Entry>, w: Weights)
    requires Enumerates(weightList, w) && NonNegative(w) && Sum(w) == 100.0
    ensures var list := InsertionSort(weightList, Before);
            && Enumerates(list, w)
            && 0 <= Leftover(w) <= |list|
            && NamesOf(list[..Leftover(w)]) == Lucky(w)
  {
    var list := InsertionSort(weightList, Before);
    SortPermutes(weightList, Before);
    BeforeIsStrictWeak(weightList, w);
    SortOrders(weightList, Before);
    PermutedEntries(weightList, list, w);
    EnumerationSize(list, w);
    LeftoverInBounds(w);
    PrefixIsTop(list, w, Leftover(w));
    TopUnique(w, NamesOf(list[..Leftover(w)]), Lucky(w), Leftover(w));
  }

  /** One more backend visited by the flooring loop. */
  lemma {:induction false} FloorStep(w: Weights, todo: set<Name>, backend: Name, weightList: seq<Entry>)
    requires todo <= w.Keys && backend in todo && Enumerates(weightList, w - todo)
    ensures Enumerates(weightList + [(backend, w[backend])], w - (todo - {backend}))
    ensures Sum(Floors(w - (todo - {backend}))) == w[backend].Floor as real + Sum(Floors(w - todo))
  {
    var list, rest := weightList + [(backend, w[backend])], w - (todo - {backend});
    forall n | n in rest
      ensures (n, rest[n]) in list
    {
      if n in w - todo { assert (n, (w - todo)[n]) in weightList; }
    }
    SumPut(Floors(w - todo), backend, w[backend].Floor as real);
    assert Floors(w - todo)[backend := w[backend].Floor as real] == Floors(w - (todo - {backend}));
  }

  class WeightMap {
    var m: Weights

    constructor (w: Weights)
      ensures m == w
    {
      m := w;
    }

    /** `normalizeWeights`. */
    method Normalize()
      requires NonNegative(m)
      modifies this
      ensures m == Normalized(old(m))
      ensures (exists n :: n in old(m) && old(m)[n] > 0.0) ==> Proportional(old(m), m)
      ensures (forall n :: n in old(m) ==> old(m)[n] == 0.0) ==> Equal(m)
    {
      KeepsRatios(m);
      if AllZero(m) && |m| > 0 {
        ShareEqually();
        return;
      }
      ShareByWeight();
    }

    /** First branch of `normalizeWeights`. */
    method ShareEqually()
      requires NonNegative(m) && AllZero(m) && |m| > 0
      modifies this
      ensures m == Normalized(old(m))
    {
      ghost var w := m;
      var eqWeight := 100.0 / |m| as real;
      var todo := m.Keys;
      while todo != {}
        invariant todo <= w.Keys == m.Keys
        invariant forall n :: n in m && n !in todo ==> m[n] == eqWeight
      {
        var backend :| backend in todo;
        m := m[backend := eqWeight];
        todo := todo - {backend};
      }
    }

    /** The summing and the scaling loop of `normalizeWeights`. */
    method ShareByWeight()
      requires NonNegative(m) && (AllZero(m) ==> m == map[])
      modifies this
      ensures m == Normalized(old(m))
    {
      ghost var w := m;
      var sum := 0.0;
      var todo := m.Keys;
      SumNothing(w);
      while todo != {}
        invariant todo <= w.Keys && m == w
        invariant sum == Sum(w - todo)
      {
        var backend :| backend in todo;
        SumVisit(w, todo, backend);
        sum := sum + m[backend];
        todo := todo - {backend};
      }
      if !AllZero(w) { TotalPositive(w); }

      todo := m.Keys;
      while todo != {}
        invariant todo <= w.Keys == m.Keys
        invariant forall n :: n in todo ==> m[n] == w[n]
        invariant forall n :: n in m && n !in todo ==> m[n] == Normalized(w)[n]
      {
        var backend :| backend in todo;
        m := m[backend := m[backend] / sum * 100.0];
        todo := todo - {backend};
      }
    }

    /** `roundWeights`. */
    method Round()
      requires NonNegative(m) && Sum(m) == 100.0
      modifies this
      ensures m == Rounded(old(m))
      ensures FloorsOrMore(old(m), m) && RaisesInOrder(old(m), m)
    {
      ghost var w := m;
      RoundedIff(w, Rounded(w));
      var weightList, sum := FloorAll();
      var sorted := SortWeights(weightList);
      SortedChoosesLucky(weightList, w);
      LeftoverIsFractions(w);
      var diff := 100 - sum;
      assert diff == Leftover(w);
      m := Distribute(m, sorted, diff, w);
    }

    /** First loop of `roundWeights`: floors the map, and keeps the weights in a list. */
    method FloorAll() returns (weightList: seq<Entry>, sum: int)
      modifies this
      ensures m == Floors(old(m)) && Enumerates(weightList, old(m)) && sum as real == Sum(Floors(old(m)))
    {
      ghost var w := m;
      weightList, sum := [], 0;
      var todo := m.Keys;
      assert w - todo == map[] && Floors(w - todo) == map[];
      SumEmpty();
      while todo != {}
        invariant todo <= w.Keys == m.Keys
        invariant m == FlooredExcept(w, todo)
        invariant Enumerates(weightList, w - todo)
        invariant sum as real == Sum(Floors(w - todo))
      {
        var backend :| backend in todo;
        var weight := m[backend];
        var roundedWeight := weight.Floor;
        m := m[backend := roundedWeight as real];
        sum := sum + roundedWeight;
        FloorStep(w, todo, backend, weightList);
        weightList := weightList + [(backend, weight)];
        todo := todo - {backend};
      }
      assert w - {} == w;
    }
  }

  /** `normalizeWeights` on a map of the caller's own. */
  method NormalizeLocal(w: Weights) returns (normalized: Weights)
    requires NonNegative(w)
    ensures normalized == Normalized(w)
  {
    var weights := new WeightMap(w);
    weights.Normalize();
    normalized := weights.m;
  }

  ghost function FlooredExcept(w: Weights, todo: set<Name>): Weights {
    map n | n in w :: if n in todo then w[n] else w[n].Floor as real
  }

  method SortWeights(weightList: seq<Entry>) returns (sorted: array<Entry>)
    ensures fresh(sorted) && sorted[..] == InsertionSort(weightList, Before)
  {
    sorted := new Entry[|weightList|](i requires 0 <= i < |weightList| => weightList[i]);
    assert sorted[..] == weightList;
    SortSlice(sorted, Before);
  }

  lemma {:induction false} DistributeStep(list: seq<Entry>, w: Weights, i: nat)
    requires Enumerates(list, w) && i < |list|
    ensures var m := Raised(w, NamesOf(list[..i]));
            list[i].0 in m && Raised(w, NamesOf(list[..i + 1])) == m[list[i].0 := m[list[i].0] + 1.0]
  {
    assert list[i].0 !in NamesOf(list[..i]);
    assert list[..i + 1] == list[..i] + [list[i]];
    assert NamesOf(list[..i + 1]) == NamesOf(list[..i]) + {list[i].0};
  }

  /** The distribution loop over `weightList[:diff]`. */
  method Distribute(floors: Weights, list: array<Entry>, diff: nat, ghost w: Weights) returns (m: Weights)
    requires floors == Floors(w) && Enumerates(list[..], w)
    requires diff <= list.Length
    ensures m == Raised(w, NamesOf(list[..diff]))
  {
    m := floors;
    ghost var entries := list[..];
    assert entries[..0] == [];
    for i := 0 to diff
      invariant m == Raised(w, NamesOf(entries[..i]))
    {
      DistributeStep(entries, w, i);
      var backend := list[i].0;
      m := m[backend := m[backend] + 1.0];
    }
    assert entries[..diff] == list[..diff];
  }
}
