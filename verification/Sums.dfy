/** Sums over finite maps. Byte accounting and diff aggregates are both stated with them. */
module Sums {

  /** The sum of all values of m. */
  ghost function SumMap<K(!new)>(m: map<K, int>): (r: int) {
    if m == map[] then 0 else
      var k :| k in m;
      m[k] + SumMap(m - {k})
  }

  /** m restricted to the keys in s. */
  ghost function Only<K(!new)>(m: map<K, int>, s: set<K>): map<K, int> {
    map k | k in m && k in s :: m[k]
  }

  /** Which key is taken out first does not matter. */
  lemma {:induction false} SumRemove<K(!new)>(m: map<K, int>, k: K)
    requires k in m
    ensures SumMap(m) == m[k] + SumMap(m - {k})
    decreases |m|
  {
    var j :| j in m && SumMap(m) == m[j] + SumMap(m - {j});
    if j != k {
      SumRemove(m - {j}, k);
      SumRemove(m - {k}, j);
      assert m - {j} - {k} == m - {k} - {j};
    }
  }

  lemma SumUpdate<K(!new)>(m: map<K, int>, k: K, v: int)
    ensures SumMap(m[k := v]) == SumMap(m) + v - (if k in m then m[k] else 0)
  {
    SumRemove(m[k := v], k);
    if k in m {
      SumRemove(m, k);
      assert m[k := v] - {k} == m - {k};
    } else {
      assert m[k := v] - {k} == m;
    }
  }

  lemma {:induction false} SumNonNegative<K(!new)>(m: map<K, int>)
    requires forall k | k in m :: m[k] >= 0
    ensures SumMap(m) >= 0
    decreases |m|
  {
    if m != map[] {
      var k :| k in m;
      SumRemove(m, k);
      SumNonNegative(m - {k});
    }
  }

  lemma {:induction false} SumZero<K(!new)>(m: map<K, int>)
    requires forall k | k in m :: m[k] == 0
    ensures SumMap(m) == 0
    decreases |m|
  {
    if m != map[] {
      var k :| k in m;
      SumRemove(m, k);
      SumZero(m - {k});
    }
  }

  /** A larger map of non-negative values has the larger sum. */
  lemma {:induction false} SumMonotone<K(!new)>(m: map<K, int>, n: map<K, int>)
    requires forall k | k in m :: k in n && m[k] <= n[k]
    requires forall k | k in n :: n[k] >= 0
    ensures SumMap(m) <= SumMap(n)
    decreases |m|
  {
    if m == map[] {
      SumNonNegative(n);
    } else {
      var k :| k in m;
      SumRemove(m, k);
      SumRemove(n, k);
      SumMonotone(m - {k}, n - {k});
    }
  }

  /** The parts of m on s and on u together cover its part on s + u. */
  lemma {:induction false} SumCover<K(!new)>(m: map<K, int>, s: set<K>, u: set<K>)
    requires forall k | k in m :: m[k] >= 0
    ensures SumMap(Only(m, s + u)) <= SumMap(Only(m, s)) + SumMap(Only(m, u))
    decreases |m|
  {
    if m == map[] {
      assert Only(m, s + u) == map[] == Only(m, s) == Only(m, u);
    } else {
      var k :| k in m;
      SumCover(m - {k}, s, u);
      OnlyRemove(m, s + u, k);
      OnlyRemove(m, s, k);
      OnlyRemove(m, u, k);
    }
  }

  lemma OnlyRemove<K(!new)>(m: map<K, int>, s: set<K>, k: K)
    requires k in m
    ensures SumMap(Only(m, s)) == SumMap(Only(m - {k}, s)) + (if k in s then m[k] else 0)
  {
    if k in s {
      SumRemove(Only(m, s), k);
      assert Only(m, s) - {k} == Only(m - {k}, s);
    } else {
      assert Only(m, s) == Only(m - {k}, s);
    }
  }
}
