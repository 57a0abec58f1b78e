/** Sums over the values of a finite map. */
module MapSums {

  ghost function SumOf<K>(m: map<K, nat>): nat {
    if m.Keys == {} then 0 else
      var k :| k in m.Keys;
      m[k] + SumOf(m - {k})
  }

  function ValueAt<K>(m: map<K, nat>, k: K): nat {
    if k in m then m[k] else 0
  }

  /** Any key may be taken out first. */
  lemma {:induction false} SumWithout<K>(m: map<K, nat>, k: K)
    requires k in m
    ensures SumOf(m) == m[k] + SumOf(m - {k})
    decreases |m|
  {
    var j :| j in m.Keys && SumOf(m) == m[j] + SumOf(m - {j});
    if j != k {
      SumWithout(m - {j}, k);
      SumWithout(m - {k}, j);
      assert m - {j} - {k} == m - {k} - {j};
    }
  }

  lemma SumUpdate<K>(m: map<K, nat>, k: K, v: nat)
    ensures SumOf(m[k := v]) == SumOf(m) - ValueAt(m, k) + v
  {
    SumWithout(m[k := v], k);
    if k in m {
      SumWithout(m, k);
      assert m[k := v] - {k} == m - {k};
    } else {
      assert m[k := v] - {k} == m;
    }
  }

  lemma PartOfSum<K>(m: map<K, nat>, k: K)
    requires k in m
    ensures m[k] <= SumOf(m)
  {
    SumWithout(m, k);
  }

  /** Entries that are zero may be left out. */
  lemma {:induction false} SumWithoutZeros<K>(m: map<K, nat>, n: map<K, nat>)
    requires forall k :: k in n ==> k in m && n[k] == m[k]
    requires forall k :: k in m && k !in n ==> m[k] == 0
    ensures SumOf(m) == SumOf(n)
    decreases |m|
  {
    if k :| k in m {
      SumWithout(m, k);
      if k in n {
        SumWithout(n, k);
        SumWithoutZeros(m - {k}, n - {k});
      } else {
        SumWithoutZeros(m - {k}, n);
      }
    } else {
      assert m == n;
    }
  }
}
