/** The sum of an integer quantity over the values of a finite map. */
module MapSum {

  ghost function Sum<K>(m: map<K, int>): int
    decreases |m|
  {
    if m == map[] then 0
    else
      var k :| k in m;
      m[k] + Sum(m - {k})
  }

  /** Any key may be taken out first. */
  lemma {:induction false} Without<K>(m: map<K, int>, k: K)
    requires k in m
    ensures Sum(m) == m[k] + Sum(m - {k})
    decreases |m|
  {
    var j :| j in m && Sum(m) == m[j] + Sum(m - {j});
    if j != k {
      Without(m - {j}, k);
      Without(m - {k}, j);
      assert m - {j} - {k} == m - {k} - {j};
    }
  }

  lemma With<K>(m: map<K, int>, k: K, x: int)
    ensures Sum(m[k := x]) == Sum(m) + x - (if k in m then m[k] else 0)
  {
    Without(m[k := x], k);
    assert m[k := x] - {k} == m - {k};
    if k in m {
      Without(m, k);
    } else {
      assert m - {k} == m;
    }
  }
}
