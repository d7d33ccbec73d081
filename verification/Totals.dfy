/** Sums over the values of a finite map, as SQL's sum computes them over selected rows. */
module Totals {

  ghost function Sum<K(!new)>(m: map<K, int>): int {
    if m == map[] then 0
    else
      var k :| k in m;
      m[k] + Sum(m - {k})
  }

  /** Any key may be taken out first. */
  lemma {:induction false} SumRemove<K(!new)>(m: map<K, int>, k: K)
    requires k in m
    ensures Sum(m) == m[k] + Sum(m - {k})
    decreases m
  {
    var j :| j in m && Sum(m) == m[j] + Sum(m - {j});
    if j != k {
      SumRemove(m - {j}, k);
      SumRemove(m - {k}, j);
      assert m - {j} - {k} == m - {k} - {j};
    }
  }

  lemma SumInsert<K(!new)>(m: map<K, int>, k: K, x: int)
    requires k !in m
    ensures Sum(m[k := x]) == Sum(m) + x
  {
    SumRemove(m[k := x], k);
    assert m[k := x] - {k} == m;
  }

  lemma SumUpdate<K(!new)>(m: map<K, int>, k: K, x: int)
    requires k in m
    ensures Sum(m[k := x]) == Sum(m) - m[k] + x
  {
    SumRemove(m, k);
    SumRemove(m[k := x], k);
    assert m[k := x] - {k} == m - {k};
  }

  /** Of non-negative values, a part sums to no more than the whole. */
  lemma {:induction false} SumOfPart<K(!new)>(part: map<K, int>, m: map<K, int>)
    requires forall k :: k in part ==> k in m && part[k] == m[k]
    requires forall k :: k in m ==> m[k] >= 0
    ensures 0 <= Sum(part) <= Sum(m)
    decreases m
  {
    if m == map[] {
      assert part == map[];
    } else {
      var k :| k in m;
      SumRemove(m, k);
      if k in part {
        SumRemove(part, k);
        SumOfPart(part - {k}, m - {k});
      } else {
        SumOfPart(part, m - {k});
      }
    }
  }

  lemma {:induction false} SumUnion<K(!new)>(a: map<K, int>, b: map<K, int>)
    requires a.Keys !! b.Keys
    ensures Sum(a + b) == Sum(a) + Sum(b)
    decreases b
  {
    if b == map[] {
      assert a + b == a;
    } else {
      var k :| k in b;
      SumRemove(b, k);
      SumUnion(a, b - {k});
      SumRemove(a + b, k);
      assert a + b - {k} == a + (b - {k});
    }
  }
}
