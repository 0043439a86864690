/** Adding up the values of a map, and what updating one entry does to the sum. */
module MapSums {

  ghost function SumOver<K(!new)>(m: map<K, int>): int
    decreases |m|
  {
    if m == map[] then 0
    else
      var k :| k in m;
      m[k] + SumOver(m - {k})
  }

  lemma {:induction false} SumOverRemove<K(!new)>(m: map<K, int>, k: K)
    requires k in m
    ensures SumOver(m) == m[k] + SumOver(m - {k})
    decreases |m|
  {
    var p :| p in m && SumOver(m) == m[p] + SumOver(m - {p});
    if p != k {
      SumOverRemove(m - {p}, k);
      SumOverRemove(m - {k}, p);
      assert m - {p} - {k} == m - {k} - {p};
    }
  }

  function ValueAt<K>(m: map<K, int>, k: K): int {
    if k in m then m[k] else 0
  }

  lemma SumOverUpdate<K(!new)>(m: map<K, int>, k: K, v: int)
    ensures SumOver(m[k := v]) == SumOver(m) - ValueAt(m, k) + v
  {
    SumOverRemove(m[k := v], k);
    assert m[k := v] - {k} == m - {k};
    if k in m {
      SumOverRemove(m, k);
    } else {
      assert m - {k} == m;
    }
  }

  /** Keys whose value is at least two. */
  function Repeated<K>(m: map<K, int>): set<K> {
    set k | k in m && m[k] > 1
  }

  /** Positive counts add up to at least one per key, and one more per repeated key. */
  lemma {:induction false} CountsCover<K(!new)>(m: map<K, int>)
    requires forall k :: k in m ==> m[k] >= 1
    ensures SumOver(m) >= |m| + |Repeated(m)|
    ensures |Repeated(m)| <= |m|
    decreases |m|
  {
    if m != map[] {
      var k :| k in m;
      var rest := m - {k};
      SumOverRemove(m, k);
      CountsCover(rest);
      assert m.Keys == rest.Keys + {k};
      assert Repeated(m) == Repeated(rest) + (if m[k] > 1 then {k} else {});
    }
  }
}
