// Sums over the values of a map.
module Totals {

  ghost function Total<K(!new)>(m: map<K, int>): int {
    if m == map[] then 0
    else
      var k :| k in m;
      m[k] + Total(m - {k})
  }

  lemma {:induction false} TotalRemove<K(!new)>(m: map<K, int>, k: K)
    requires k in m
    ensures Total(m) == m[k] + Total(m - {k})
    decreases |m|
  {
    var p :| p in m && Total(m) == m[p] + Total(m - {p});
    if p != k {
      TotalRemove(m - {p}, k);
      TotalRemove(m - {k}, p);
      assert m - {p} - {k} == m - {k} - {p};
    }
  }

  lemma TotalUpdate<K(!new)>(m: map<K, int>, k: K, v: int)
    ensures Total(m[k := v]) == Total(m) - (if k in m then m[k] else 0) + v
  {
    var m' := m[k := v];
    TotalRemove(m', k);
    if k in m {
      TotalRemove(m, k);
      assert m' - {k} == m - {k};
    } else {
      assert m' - {k} == m;
    }
  }

  lemma {:induction false} TotalNonNegative<K(!new)>(m: map<K, int>)
    requires forall k :: k in m ==> m[k] >= 0
    ensures Total(m) >= 0
    decreases |m|
  {
    if m != map[] {
      var p :| p in m && Total(m) == m[p] + Total(m - {p});
      TotalNonNegative(m - {p});
    }
  }

  /** No single value of a map of naturals exceeds the total. */
  lemma TotalAtLeast<K(!new)>(m: map<K, int>, k: K)
    requires k in m && forall x :: x in m ==> m[x] >= 0
    ensures m[k] <= Total(m)
  {
    TotalRemove(m, k);
    TotalNonNegative(m - {k});
  }

  /** Keys with value 0 may be dropped. */
  lemma {:induction false} TotalDropZeros<K(!new)>(m: map<K, int>, z: set<K>)
    requires forall k :: k in z && k in m ==> m[k] == 0
    ensures Total(m - z) == Total(m)
    decreases |z|
  {
    if z == {} {
      assert m - z == m;
    } else {
      var k :| k in z;
      var rest := z - {k};
      TotalDropZeros(m, rest);
      if k in m {
        TotalRemove(m - rest, k);
        assert m - rest - {k} == m - z;
      } else {
        assert m - rest == m - z;
      }
    }
  }

  lemma TotalZeros<K(!new)>(m: map<K, int>)
    requires forall k :: k in m ==> m[k] == 0
    ensures Total(m) == 0
  {
    TotalDropZeros(m, m.Keys);
    assert m - m.Keys == map[];
  }
}
