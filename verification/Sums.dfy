/** Sums over finite maps, independent of the order in which the entries are taken. */
module Sums {

  ghost function MapSum<K>(m: map<K, int>): int {
    if m == map[] then 0
    else
      var k :| k in m;
      m[k] + MapSum(m - {k})
  }

  /** Any entry can be taken first. */
  lemma {:induction false} SumTake<K>(m: map<K, int>, k: K)
    requires k in m
    ensures MapSum(m) == m[k] + MapSum(m - {k})
    decreases |m|
  {
    var j :| j in m && MapSum(m) == m[j] + MapSum(m - {j});
    if j != k {
      SumTake(m - {j}, k);
      SumTake(m - {k}, j);
      assert m - {j} - {k} == m - {k} - {j};
    }
  }

  function Entry<K>(m: map<K, int>, k: K): int {
    if k in m then m[k] else 0
  }

  lemma SumUpdate<K>(m: map<K, int>, k: K, x: int)
    ensures MapSum(m[k := x]) == MapSum(m) - Entry(m, k) + x
  {
    SumTake(m[k := x], k);
    if k in m {
      SumTake(m, k);
      assert m[k := x] - {k} == m - {k};
    } else {
      assert m[k := x] - {k} == m;
    }
  }

  /** A sum over some keys plus the sum over the others. */
  lemma {:induction false} SumSplit<K>(m: map<K, int>, part: set<K>)
    ensures MapSum(m) == MapSum(map k | k in m && k in part :: m[k]) + MapSum(map k | k in m && k !in part :: m[k])
    decreases |m|
  {
    var a, b := map k | k in m && k in part :: m[k], map k | k in m && k !in part :: m[k];
    if m == map[] {
      assert a == map[] && b == map[];
    } else {
      var k :| k in m;
      var n := m - {k};
      SumTake(m, k);
      SumSplit(n, part);
      if k in part {
        SumTake(a, k);
        assert a - {k} == map j | j in n && j in part :: n[j];
        assert b == map j | j in n && j !in part :: n[j];
      } else {
        SumTake(b, k);
        assert b - {k} == map j | j in n && j !in part :: n[j];
        assert a == map j | j in n && j in part :: n[j];
      }
    }
  }

  predicate Nonneg<K>(m: map<K, int>) {
    forall k :: k in m ==> m[k] >= 0
  }

  lemma {:induction false} SumNonneg<K>(m: map<K, int>)
    requires Nonneg(m)
    ensures MapSum(m) >= 0
    decreases |m|
  {
    if m != map[] {
      var k :| k in m && MapSum(m) == m[k] + MapSum(m - {k});
      SumNonneg(m - {k});
    }
  }
}
