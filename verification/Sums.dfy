/** Sums over finite maps and sizes of finite sets. */
module Sums {

  ghost function Pick<T>(s: set<T>): (x: T)
    requires s != {}
    ensures x in s
  {
    var x :| x in s;
    x
  }

  ghost function SumOver(m: map<int, int>, keys: set<int>): int
    requires keys <= m.Keys
    decreases keys
  {
    if keys == {} then 0
    else
      var k := Pick(keys);
      m[k] + SumOver(m, keys - {k})
  }

  ghost function Sum(m: map<int, int>): int {
    SumOver(m, m.Keys)
  }

  /** The order of summation does not matter. */
  lemma {:induction false} SumTakesOut(m: map<int, int>, keys: set<int>, k: int)
    requires keys <= m.Keys && k in keys
    ensures SumOver(m, keys) == m[k] + SumOver(m, keys - {k})
    decreases keys
  {
    var j := Pick(keys);
    if j != k {
      SumTakesOut(m, keys - {j}, k);
      SumTakesOut(m, keys - {k}, j);
      assert keys - {j} - {k} == keys - {k} - {j};
    }
  }

  lemma {:induction false} SumAgrees(m: map<int, int>, m': map<int, int>, keys: set<int>)
    requires keys <= m.Keys && keys <= m'.Keys && forall k :: k in keys ==> m[k] == m'[k]
    ensures SumOver(m, keys) == SumOver(m', keys)
    decreases keys
  {
    if keys != {} {
      var k := Pick(keys);
      SumTakesOut(m, keys, k);
      SumTakesOut(m', keys, k);
      SumAgrees(m, m', keys - {k});
    }
  }

  lemma SumUpdates(m: map<int, int>, k: int, v: int)
    requires k in m
    ensures Sum(m[k := v]) == Sum(m) - m[k] + v
  {
    var m' := m[k := v];
    assert m'.Keys == m.Keys;
    SumTakesOut(m, m.Keys, k);
    SumTakesOut(m', m.Keys, k);
    SumAgrees(m, m', m.Keys - {k});
  }

  lemma SumRemoves(m: map<int, int>, k: int)
    requires k in m
    ensures Sum(m - {k}) == Sum(m) - m[k]
  {
    var m' := m - {k};
    assert m'.Keys == m.Keys - {k};
    SumTakesOut(m, m.Keys, k);
    SumAgrees(m, m', m.Keys - {k});
  }

  lemma {:induction false} SumOfZeros(m: map<int, int>, keys: set<int>)
    requires keys <= m.Keys && forall k :: k in keys ==> m[k] == 0
    ensures SumOver(m, keys) == 0
    decreases keys
  {
    if keys != {} {
      var k := Pick(keys);
      SumTakesOut(m, keys, k);
      SumOfZeros(m, keys - {k});
    }
  }

  lemma {:induction false} SumIsPositive(m: map<int, int>, keys: set<int>)
    requires keys <= m.Keys && forall k :: k in keys ==> m[k] >= 0
    ensures SumOver(m, keys) >= 0
    decreases keys
  {
    if keys != {} {
      SumIsPositive(m, keys - {Pick(keys)});
    }
  }

  lemma SubsetSize<T>(a: set<T>, b: set<T>)
    requires a <= b
    ensures |a| <= |b|
  {
    assert b == a + (b - a);
  }
}
