/** Adding a measure up over a finite map. */
module MapSums {

  ghost function Sum<K, V>(m: map<K, V>, f: V -> int): int
    decreases |m|
  {
    if m == map[] then 0
    else
      var k :| k in m;
      f(m[k]) + Sum(m - {k}, f)
  }

  /** The order of summation does not matter: any key may be taken out first. */
  lemma {:induction false} SumWithout<K, V>(m: map<K, V>, f: V -> int, k: K)
    requires k in m
    ensures Sum(m, f) == f(m[k]) + Sum(m - {k}, f)
    decreases |m|
  {
    var j :| j in m && Sum(m, f) == f(m[j]) + Sum(m - {j}, f);
    if j != k {
      SumWithout(m - {j}, f, k);
      SumWithout(m - {k}, f, j);
      assert m - {j} - {k} == m - {k} - {j};
    }
  }

  lemma SumUpdate<K, V>(m: map<K, V>, f: V -> int, k: K, v: V)
    ensures Sum(m[k := v], f) == Sum(m - {k}, f) + f(v)
  {
    SumWithout(m[k := v], f, k);
    assert m[k := v] - {k} == m - {k};
  }

  lemma SumRemove<K, V>(m: map<K, V>, f: V -> int, k: K)
    ensures Sum(m - {k}, f) == Sum(m, f) - (if k in m then f(m[k]) else 0)
  {
    if k in m {
      SumWithout(m, f, k);
    } else {
      assert m - {k} == m;
    }
  }

  lemma {:induction false} SumNonNegative<K, V>(m: map<K, V>, f: V -> int)
    requires forall k :: k in m ==> f(m[k]) >= 0
    ensures Sum(m, f) >= 0
    decreases |m|
  {
    if m != map[] {
      var k :| k in m && Sum(m, f) == f(m[k]) + Sum(m - {k}, f);
      SumNonNegative(m - {k}, f);
    }
  }

  lemma {:induction false} SumOfZeros<K, V>(m: map<K, V>, f: V -> int)
    requires forall k :: k in m ==> f(m[k]) == 0
    ensures Sum(m, f) == 0
    decreases |m|
  {
    if m != map[] {
      var k :| k in m && Sum(m, f) == f(m[k]) + Sum(m - {k}, f);
      SumOfZeros(m - {k}, f);
    }
  }
}
