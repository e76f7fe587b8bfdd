/** Sums over finite maps, independent of any enumeration order. */
module Sums {
  lemma {:induction false} SubsetSize<T>(a: set<T>, b: set<T>)
    requires a <= b
    ensures |b - a| == |b| - |a|
  {
  }

  lemma {:induction false} UnionSize<T>(a: set<T>, b: set<T>)
    ensures |a + b| + |b * a| == |a| + |b|
  {
    assert a + b == a + (b - a) && b == (b - a) + (b * a);
  }

  ghost function MapSum<K(!new)>(m: map<K, int>): int
    decreases |m|
  {
    if m == map[] then 0 else
      var k :| k in m;
      assert (m - {k}).Keys == m.Keys - {k};
      m[k] + MapSum(m - {k})
  }

  /** Any key may be taken out first. */
  lemma {:induction false} MapSumTake<K(!new)>(m: map<K, int>, k: K)
    requires k in m
    ensures MapSum(m) == m[k] + MapSum(m - {k})
    decreases |m|
  {
    var j :| j in m && MapSum(m) == m[j] + MapSum(m - {j});
    if j != k {
      assert (m - {j}).Keys == m.Keys - {j};
      assert (m - {k}).Keys == m.Keys - {k};
      MapSumTake(m - {j}, k);
      MapSumTake(m - {k}, j);
      assert m - {j} - {k} == m - {k} - {j};
    }
  }

  lemma {:induction false} MapSumPut<K(!new)>(m: map<K, int>, k: K, v: int)
    ensures MapSum(m[k := v]) == MapSum(m - {k}) + v
  {
    MapSumTake(m[k := v], k);
    assert m[k := v] - {k} == m - {k};
  }

  /** Splitting a map by a set of keys splits the sum. */
  lemma {:induction false} MapSumSplit<K(!new)>(m: map<K, int>, s: set<K>)
    ensures MapSum(m) == MapSum(m - s) + MapSum(map k | k in m && k in s :: m[k])
    decreases |s|
  {
    var inside := map k | k in m && k in s :: m[k];
    if s == {} {
      assert m - s == m;
      assert inside == map[];
    } else {
      var x :| x in s;
      var s' := s - {x};
      MapSumSplit(m, s');
      var inside' := map k | k in m && k in s' :: m[k];
      if x in m {
        MapSumTake(m - s', x);
        assert m - s' - {x} == m - s;
        MapSumTake(inside, x);
        assert inside - {x} == inside';
      } else {
        assert m - s' == m - s;
        assert inside' == inside;
      }
    }
  }

  lemma {:induction false} MapSumNonNegative<K(!new)>(m: map<K, int>)
    requires forall k :: k in m ==> m[k] >= 0
    ensures MapSum(m) >= 0
    decreases |m|
  {
    if m != map[] {
      var k :| k in m && MapSum(m) == m[k] + MapSum(m - {k});
      assert (m - {k}).Keys == m.Keys - {k};
      MapSumNonNegative(m - {k});
    }
  }

  lemma {:induction false} MapSumZero<K(!new)>(m: map<K, int>)
    requires forall k :: k in m ==> m[k] == 0
    ensures MapSum(m) == 0
    decreases |m|
  {
    if m != map[] {
      var k :| k in m && MapSum(m) == m[k] + MapSum(m - {k});
      assert (m - {k}).Keys == m.Keys - {k};
      MapSumZero(m - {k});
    }
  }
}
