/**
 Totals over maps keyed by stack name, independent of the order of iteration.
 */
module Sums {
  import opened Names

  ghost function Pick(keys: set<Name>): (k: Name)
    requires keys != {}
    ensures k in keys
  {
    var k :| k in keys; k
  }

  ghost function OneByOne(m: map<Name, real>): real
    decreases |m|
  {
    if m == map[] then 0.0
    else
      var k := Pick(m.Keys);
      m[k] + OneByOne(m - {k})
  }

  /** Any key may be taken out first: the total does not depend on the order. */
  lemma {:induction false} OneByOneTake(m: map<Name, real>, k: Name)
    requires k in m
    ensures OneByOne(m) == m[k] + OneByOne(m - {k})
    decreases |m|
  {
    var p := Pick(m.Keys);
    if p != k {
      OneByOneTake(m - {p}, k);
      OneByOneTake(m - {k}, p);
      assert m - {p} - {k} == m - {k} - {p};
    }
  }

  ghost predicate TakesOut(f: map<Name, real> -> real, m: map<Name, real>, k: Name) {
    k in m ==> f(m) == m[k] + f(m - {k})
  }

  /** f totals maps: zero on the empty map, and any key may be taken out. */
  ghost predicate Totals(f: map<Name, real> -> real) {
    f(map[]) == 0.0 && forall m, k :: TakesOut(f, m, k)
  }

  /** Chosen by its property alone, which keeps the recursion out of the proofs that use it. */
  ghost function Total(): (f: map<Name, real> -> real)
    ensures Totals(f)
  {
    var one := m => OneByOne(m);
    assert forall m, k :: TakesOut(one, m, k) by {
      forall m, k
        ensures TakesOut(one, m, k)
      {
        if k in m { OneByOneTake(m, k); }
      }
    }
    var f :| Totals(f);
    f
  }

  /** The total of all values of a map. */
  ghost function Sum(m: map<Name, real>): real {
    Total()(m)
  }

  lemma {:induction false} SumTake(m: map<Name, real>, k: Name)
    requires k in m
    ensures Sum(m) == m[k] + Sum(m - {k})
  {
    assert TakesOut(Total(), m, k);
  }

  lemma {:induction false} SumEmpty()
    ensures Sum(map[]) == 0.0
  {
  }

  lemma {:induction false} SumPut(m: map<Name, real>, k: Name, v: real)
    requires k !in m
    ensures Sum(m[k := v]) == v + Sum(m)
  {
    SumTake(m[k := v], k);
    assert m[k := v] - {k} == m;
  }

  /** One more key visited by a loop that still has `todo` ahead. */
  lemma {:induction false} SumVisit(m: map<Name, real>, todo: set<Name>, k: Name)
    requires k in m && k in todo
    ensures Sum(m - (todo - {k})) == m[k] + Sum(m - todo)
  {
    SumPut(m - todo, k, m[k]);
    assert (m - todo)[k := m[k]] == m - (todo - {k});
  }

  lemma {:induction false} SumNothing(m: map<Name, real>)
    ensures Sum(m - m.Keys) == 0.0 && m - {} == m
  {
    assert m - m.Keys == map[];
  }

  lemma {:induction false} SumReplace(m: map<Name, real>, k: Name, v: real)
    requires k in m
    ensures Sum(m[k := v]) == Sum(m) - m[k] + v
  {
    SumTake(m, k);
    SumPut(m - {k}, k, v);
    assert (m - {k})[k := v] == m[k := v];
  }

  lemma {:induction false} SumAdd(a: map<Name, real>, b: map<Name, real>, c: map<Name, real>)
    requires a.Keys == b.Keys == c.Keys
    requires forall k :: k in c ==> c[k] == a[k] + b[k]
    ensures Sum(c) == Sum(a) + Sum(b)
    decreases |c|
  {
    if c != map[] {
      var k := Pick(c.Keys);
      SumTake(c, k);
      SumTake(a, k);
      SumTake(b, k);
      SumAdd(a - {k}, b - {k}, c - {k});
    } else {
      assert a == map[] && b == map[];
    }
  }

  /** Scaling every value by x scales the total by x. */
  lemma {:induction false} SumScale(a: map<Name, real>, x: real, c: map<Name, real>)
    requires a.Keys == c.Keys
    requires forall k :: k in c ==> c[k] == x * a[k]
    ensures Sum(c) == x * Sum(a)
    decreases |c|
  {
    if c != map[] {
      var k := Pick(c.Keys);
      SumTake(c, k);
      SumTake(a, k);
      SumScale(a - {k}, x, c - {k});
    } else {
      assert a == map[];
    }
  }

  lemma {:induction false} SumMonotone(a: map<Name, real>, b: map<Name, real>)
    requires a.Keys == b.Keys
    requires forall k :: k in a ==> a[k] <= b[k]
    ensures Sum(a) <= Sum(b)
    decreases |a|
  {
    if a != map[] {
      var k := Pick(a.Keys);
      SumTake(a, k);
      SumTake(b, k);
      SumMonotone(a - {k}, b - {k});
    } else {
      assert b == map[];
    }
  }

  predicate NonNegative(m: map<Name, real>) {
    forall k :: k in m ==> m[k] >= 0.0
  }

  lemma {:induction false} SumNonNegative(m: map<Name, real>)
    requires NonNegative(m)
    ensures Sum(m) >= 0.0
    ensures forall k :: k in m ==> m[k] <= Sum(m)
    decreases |m|
  {
    forall k | k in m
      ensures m[k] <= Sum(m)
    {
      SumTake(m, k);
      SumNonNegative(m - {k});
    }
    if m != map[] {
      var k := Pick(m.Keys);
      SumTake(m, k);
      SumNonNegative(m - {k});
    }
  }

  /** A map that is constantly v totals v times its size. */
  lemma {:induction false} SumConstant(m: map<Name, real>, v: real)
    requires forall k :: k in m ==> m[k] == v
    ensures Sum(m) == v * |m| as real
    decreases |m|
  {
    if m != map[] {
      var k := Pick(m.Keys);
      SumTake(m, k);
      SumConstant(m - {k}, v);
    }
  }

  /** The map that is 1 on `chosen` and 0 on the other keys totals |chosen|. */
  lemma {:induction false} SumIndicator(m: map<Name, real>, chosen: set<Name>)
    requires chosen <= m.Keys
    requires forall k :: k in m ==> m[k] == if k in chosen then 1.0 else 0.0
    ensures Sum(m) == |chosen| as real
    decreases |m|
  {
    if m != map[] {
      var k := Pick(m.Keys);
      SumTake(m, k);
      SumIndicator(m - {k}, chosen - {k});
      if k !in chosen {
        assert chosen - {k} == chosen;
      }
    } else {
      assert chosen == {};
    }
  }

  /** Keys with value zero may be added or dropped freely. */
  lemma {:induction false} SumSupport(a: map<Name, real>, b: map<Name, real>)
    requires b.Keys <= a.Keys
    requires forall k :: k in b ==> a[k] == b[k]
    requires forall k :: k in a && k !in b ==> a[k] == 0.0
    ensures Sum(a) == Sum(b)
    decreases |a|
  {
    if a != map[] {
      var k := Pick(a.Keys);
      SumTake(a, k);
      if k in b {
        SumTake(b, k);
        SumSupport(a - {k}, b - {k});
      } else {
        SumSupport(a - {k}, b);
      }
    } else {
      assert b == map[];
    }
  }

  /** A non-negative map has total zero exactly when every value is zero. */
  lemma {:induction false} SumZero(m: map<Name, real>)
    requires NonNegative(m)
    ensures Sum(m) == 0.0 <==> forall k :: k in m ==> m[k] == 0.0
  {
    SumNonNegative(m);
    if forall k :: k in m ==> m[k] == 0.0 {
      SumConstant(m, 0.0);
    }
  }
}
