/** Sums over finite maps: the total of a table of contributions, one per key. */
module Sums {

  ghost function Sum<K>(m: map<K, int>): int
    decreases |m|
  {
    if m == map[] then 0
    else
      var k :| k in m;
      m[k] + Sum(m - {k})
  }

  /** Any key may be taken out first: the order of summation does not matter. */
  lemma {:induction false} SumTakeOut<K>(m: map<K, int>, k: K)
    requires k in m
    ensures Sum(m) == m[k] + Sum(m - {k})
    decreases |m|
  {
    var j :| j in m && Sum(m) == m[j] + Sum(m - {j});
    if j != k {
      SumTakeOut(m - {j}, k);
      SumTakeOut(m - {k}, j);
      assert (m - {j}) - {k} == (m - {k}) - {j};
    }
  }

  lemma SumPut<K>(m: map<K, int>, k: K, v: int)
    requires k !in m
    ensures Sum(m[k := v]) == Sum(m) + v
  {
    SumTakeOut(m[k := v], k);
    assert m[k := v] - {k} == m;
  }

  /** Sums add up pointwise. */
  lemma {:induction false} SumAdd<K>(a: map<K, int>, b: map<K, int>, c: map<K, int>)
    requires a.Keys == b.Keys == c.Keys
    requires forall k :: k in a ==> a[k] + b[k] == c[k]
    ensures Sum(a) + Sum(b) == Sum(c)
    decreases |a|
  {
    if a.Keys == {} {
      assert a == map[] && b == map[] && c == map[];
    } else {
      var k :| k in a;
      SumTakeOut(a, k);
      SumTakeOut(b, k);
      SumTakeOut(c, k);
      SumAdd(a - {k}, b - {k}, c - {k});
    }
  }

  /** A pointwise smaller table has a smaller sum. */
  lemma {:induction false} SumMonotone<K>(a: map<K, int>, b: map<K, int>)
    requires a.Keys == b.Keys
    requires forall k :: k in a ==> a[k] <= b[k]
    ensures Sum(a) <= Sum(b)
    decreases |a|
  {
    if a.Keys == {} {
      assert a == map[] && b == map[];
    } else {
      var k :| k in a;
      SumTakeOut(a, k);
      SumTakeOut(b, k);
      SumMonotone(a - {k}, b - {k});
    }
  }

  /** Splitting the keys in two splits the sum. */
  lemma {:induction false} SumUnion<K>(m: map<K, int>, a: map<K, int>, b: map<K, int>)
    requires forall k :: k in m ==> (k in a) != (k in b)
    requires forall k :: k in a ==> k in m && m[k] == a[k]
    requires forall k :: k in b ==> k in m && m[k] == b[k]
    ensures Sum(m) == Sum(a) + Sum(b)
    decreases |m|
  {
    if m == map[] {
      assert a == map[] && b == map[];
    } else {
      var k :| k in m;
      SumTakeOut(m, k);
      if k in a {
        SumTakeOut(a, k);
        SumUnion(m - {k}, a - {k}, b);
      } else {
        SumTakeOut(b, k);
        SumUnion(m - {k}, a, b - {k});
      }
    }
  }

  /** Zero entries do not count. */
  lemma {:induction false} SumSupport<K>(m: map<K, int>, sub: map<K, int>)
    requires forall k :: k in sub ==> k in m && m[k] == sub[k]
    requires forall k :: k in m && k !in sub ==> m[k] == 0
    ensures Sum(m) == Sum(sub)
    decreases |m|
  {
    if m == map[] {
      assert sub == map[];
    } else {
      var k :| k in m;
      SumTakeOut(m, k);
      if k in sub {
        SumTakeOut(sub, k);
        SumSupport(m - {k}, sub - {k});
      } else {
        SumSupport(m - {k}, sub);
      }
    }
  }

  lemma {:induction false} SumZero<K>(m: map<K, int>)
    requires forall k :: k in m ==> m[k] == 0
    ensures Sum(m) == 0
    decreases |m|
  {
    if m != map[] {
      var k :| k in m;
      SumTakeOut(m, k);
      SumZero(m - {k});
    }
  }

  lemma SumNonNegative<K>(m: map<K, int>)
    requires forall k :: k in m ==> 0 <= m[k]
    ensures 0 <= Sum(m)
  {
    var z := map k | k in m :: 0;
    SumZero(z);
    SumMonotone(z, m);
  }

  /** Renaming the keys one to one keeps the sum. */
  lemma {:induction false} SumRename<K(!new)>(m: map<K, int>, n: map<K, int>, f: K -> K)
    requires forall k :: k in m ==> f(k) in n && n[f(k)] == m[k]
    requires forall j :: j in n ==> f(j) in m
    requires forall k :: f(f(k)) == k
    ensures Sum(m) == Sum(n)
    decreases |m|
  {
    if m == map[] {
      assert forall j :: j in n ==> f(j) in m;
      assert n == map[];
    } else {
      var k :| k in m;
      SumTakeOut(m, k);
      SumTakeOut(n, f(k));
      forall i | i in m - {k} ensures f(i) in n - {f(k)} && (n - {f(k)})[f(i)] == (m - {k})[i] {
        assert f(f(i)) == i && f(f(k)) == k;
      }
      forall j | j in n - {f(k)} ensures f(j) in m - {k} {
        assert f(f(j)) == j;
      }
      SumRename(m - {k}, n - {f(k)}, f);
    }
  }
}
