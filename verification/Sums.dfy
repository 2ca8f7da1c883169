/** Totals over finite maps. */
module Sums {

  /** The sum of a map's values; the order in which the keys are drawn does not matter. */
  ghost function Sum<K>(m: map<K, int>): (total: int)
    decreases |m|
  {
    if m == map[] then 0
    else
      var k :| k in m;
      m[k] + Sum(m - {k})
  }

  lemma {:induction false} SumSplit<K>(m: map<K, int>, k: K)
    requires k in m
    ensures Sum(m) == m[k] + Sum(m - {k})
    decreases |m|
  {
    var j :| j in m && Sum(m) == m[j] + Sum(m - {j});
    if j != k {
      SumSplit(m - {j}, k);
      SumSplit(m - {k}, j);
      assert m - {j} - {k} == m - {k} - {j};
    }
  }

  lemma SumEmpty<K>(m: map<K, int>)
    requires m.Keys == {}
    ensures Sum(m) == 0
  {
    assert m == map[];
  }

  /** Giving a key a new value, or a value at all. */
  lemma SumPut<K>(m: map<K, int>, k: K, v: int)
    ensures Sum(m[k := v]) == Sum(m) - (if k in m then m[k] else 0) + v
  {
    SumSplit(m[k := v], k);
    assert m[k := v] - {k} == m - {k};
    if k in m {
      SumSplit(m, k);
    } else {
      assert m - {k} == m;
    }
  }

  lemma SumDrop<K>(m: map<K, int>, k: K)
    ensures Sum(m - {k}) == Sum(m) - if k in m then m[k] else 0
  {
    if k in m {
      SumSplit(m, k);
    } else {
      assert m - {k} == m;
    }
  }

  lemma {:induction false} SumNonNegative<K>(m: map<K, int>)
    requires forall k :: k in m ==> 0 <= m[k]
    ensures 0 <= Sum(m)
    ensures forall k :: k in m ==> m[k] <= Sum(m)
    decreases |m|
  {
    forall k | k in m
      ensures 0 <= m[k] <= Sum(m)
    {
      SumSplit(m, k);
      SumNonNegative(m - {k});
    }
    if m != map[] {
      var k :| k in m;
      assert 0 <= m[k];
    }
  }

  lemma SizePut<K, V>(m: map<K, V>, k: K, v: V)
    ensures |m[k := v]| == |m| + if k in m then 0 else 1
  {
    assert m[k := v].Keys == m.Keys + {k};
  }

  lemma SizeDrop<K, V>(m: map<K, V>, k: K)
    ensures |m - {k}| == |m| - if k in m then 1 else 0
  {
    assert (m - {k}).Keys == m.Keys - {k};
  }

  lemma {:induction false} SumZeroes<K>(m: map<K, int>)
    requires forall k :: k in m ==> m[k] == 0
    ensures Sum(m) == 0
    decreases |m|
  {
    if m == map[] {
      SumEmpty(m);
    } else {
      var k :| k in m;
      SumSplit(m, k);
      SumZeroes(m - {k});
    }
  }
}
