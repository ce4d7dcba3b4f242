/** Sums over finite maps. Stock, sales, remaining attempts and remaining protocol
    phases are all sums of one integer per row. */
module Totals {

  ghost function Total<K(!new)>(m: map<K, int>): int
    decreases |m|
  {
    if m == map[] then 0
    else
      var k :| k in m;
      m[k] + Total(m - {k})
  }

  /** The sum does not depend on the order in which rows are picked. */
  lemma {:induction false} TotalRemove<K(!new)>(m: map<K, int>, k: K)
    requires k in m
    ensures Total(m) == m[k] + Total(m - {k})
    decreases |m|
  {
    var j :| j in m && Total(m) == m[j] + Total(m - {j});
    if j != k {
      TotalRemove(m - {j}, k);
      TotalRemove(m - {k}, j);
      assert m - {j} - {k} == m - {k} - {j};
    }
  }

  lemma {:induction false} TotalInsert<K(!new)>(m: map<K, int>, k: K, v: int)
    requires k !in m
    ensures Total(m[k := v]) == Total(m) + v
  {
    TotalRemove(m[k := v], k);
    assert m[k := v] - {k} == m;
  }

  lemma {:induction false} TotalUpdate<K(!new)>(m: map<K, int>, k: K, v: int)
    requires k in m
    ensures Total(m[k := v]) == Total(m) - m[k] + v
  {
    TotalRemove(m, k);
    TotalRemove(m[k := v], k);
    assert m[k := v] - {k} == m - {k};
  }

  /** Pointwise smaller maps have smaller sums; dropped rows must not be negative. */
  lemma {:induction false} TotalMonotone<K(!new)>(small: map<K, int>, big: map<K, int>)
    requires small.Keys <= big.Keys
    requires forall k :: k in small ==> small[k] <= big[k]
    requires forall k :: k in big && k !in small ==> 0 <= big[k]
    ensures Total(small) <= Total(big)
    decreases |big|
  {
    if big != map[] {
      var k :| k in big;
      TotalRemove(big, k);
      if k in small {
        TotalRemove(small, k);
        TotalMonotone(small - {k}, big - {k});
      } else {
        TotalMonotone(small, big - {k});
      }
    }
  }

  lemma TotalNonNegative<K(!new)>(m: map<K, int>)
    requires forall k :: k in m ==> 0 <= m[k]
    ensures 0 <= Total(m)
  {
  }

  /** A row that is not negative is at most the whole sum when no row is negative. */
  lemma TotalAtLeast<K(!new)>(m: map<K, int>, k: K)
    requires k in m
    requires forall j :: j in m ==> 0 <= m[j]
    ensures m[k] <= Total(m)
  {
    TotalRemove(m, k);
    TotalNonNegative(m - {k});
  }

  /** Rows that count zero do not change the sum. */
  lemma {:induction false} TotalPadded<K(!new)>(small: map<K, int>, big: map<K, int>)
    requires small.Keys <= big.Keys
    requires forall k :: k in small ==> small[k] == big[k]
    requires forall k :: k in big && k !in small ==> big[k] == 0
    ensures Total(big) == Total(small)
    decreases |big|
  {
    if big != map[] {
      var k :| k in big;
      TotalRemove(big, k);
      if k in small {
        TotalRemove(small, k);
        TotalPadded(small - {k}, big - {k});
      } else {
        TotalPadded(small, big - {k});
      }
    }
  }

  lemma {:induction false} TotalSum<K(!new)>(a: map<K, int>, b: map<K, int>, c: map<K, int>)
    requires a.Keys == b.Keys == c.Keys
    requires forall k :: k in c ==> c[k] == a[k] + b[k]
    ensures Total(c) == Total(a) + Total(b)
    decreases |c|
  {
    if c != map[] {
      var k :| k in c;
      TotalRemove(a, k);
      TotalRemove(b, k);
      TotalRemove(c, k);
      TotalSum(a - {k}, b - {k}, c - {k});
    } else {
      assert a == map[] && b == map[];
    }
  }

  lemma {:induction false} TotalAtMost<K(!new)>(m: map<K, int>, top: int)
    requires forall k :: k in m ==> m[k] <= top
    ensures Total(m) <= top * |m|
    decreases |m|
  {
    if m != map[] {
      var k :| k in m;
      TotalRemove(m, k);
      TotalAtMost(m - {k}, top);
      assert |m - {k}| == |m| - 1;
      assert top * |m| == top * (|m| - 1) + top;
    }
  }

  ghost function Member<T>(s: set<T>): (x: T)
    requires s != {}
    ensures x in s
  {
    var x :| x in s;
    x
  }
}
