/** Sums over the rows of a finite table. */
module Sums {
  ghost function Sum<K>(m: map<K, nat>): nat
    decreases |m|
  {
    if m == map[] then 0 else
    var k :| k in m;
    m[k] + Sum(m - {k})
  }

  /** Any row can be the one taken out first. */
  lemma {:induction false} SumTake<K>(m: map<K, nat>, k: K)
    requires k in m
    ensures Sum(m) == m[k] + Sum(m - {k})
    decreases |m|
  {
    var f :| f in m && Sum(m) == m[f] + Sum(m - {f});
    if f != k {
      SumTake(m - {f}, k);
      SumTake(m - {k}, f);
      assert m - {f} - {k} == m - {k} - {f};
    }
  }

  lemma UnionLess<K>(a: map<K, nat>, b: map<K, nat>, k: K)
    requires a.Keys !! b.Keys && k in b
    ensures (a + b) - {k} == a + (b - {k}) && (a + b)[k] == b[k]
  {
  }

  lemma {:induction false} SumUnion<K>(a: map<K, nat>, b: map<K, nat>)
    requires a.Keys !! b.Keys
    ensures Sum(a + b) == Sum(a) + Sum(b)
    decreases |b|
  {
    if b == map[] {
      assert a + b == a;
    } else {
      var k :| k in b;
      UnionLess(a, b, k);
      SumUnion(a, b - {k});
      SumTake(b, k);
      SumTake(a + b, k);
    }
  }

  /** A pointwise bound bounds the sums. */
  lemma {:induction false} SumBound<K>(a: map<K, nat>, b: map<K, nat>, c: map<K, nat>, total: map<K, nat>)
    requires a.Keys == b.Keys == c.Keys == total.Keys
    requires forall k | k in total :: a[k] + b[k] + c[k] <= total[k]
    ensures Sum(a) + Sum(b) + Sum(c) <= Sum(total)
    decreases |total|
  {
    if total != map[] {
      var k :| k in total;
      SumTake(a, k);
      SumTake(b, k);
      SumTake(c, k);
      SumTake(total, k);
      SumBound(a - {k}, b - {k}, c - {k}, total - {k});
    } else {
      assert a == map[] && b == map[] && c == map[];
    }
  }

  lemma {:induction false} SumOfOnes<K>(m: map<K, nat>, ones: set<K>)
    requires ones <= m.Keys && forall k | k in m :: m[k] == if k in ones then 1 else 0
    ensures Sum(m) == |ones|
    decreases |m|
  {
    if m == map[] {
      assert ones == {};
    } else {
      var k :| k in m;
      SumTake(m, k);
      SumOfOnes(m - {k}, ones - {k});
    }
  }

  /** Rows charged to different owners cost no more than the owners have. */
  lemma {:induction false} SumCharged<K>(costs: map<K, nat>, owner: map<K, K>, funds: map<K, nat>)
    requires costs.Keys == owner.Keys
    requires forall c | c in costs :: owner[c] in funds && costs[c] <= funds[owner[c]]
    requires forall c, d | c in costs && d in costs && owner[c] == owner[d] :: c == d
    ensures Sum(costs) <= Sum(funds)
    decreases |costs|
  {
    if costs != map[] {
      var c :| c in costs;
      SumTake(costs, c);
      SumTake(funds, owner[c]);
      SumCharged(costs - {c}, owner - {c}, funds - {owner[c]});
    }
  }
}
