/** Sums of the values of a finite map, independent of the order in which keys are visited. */
module Sums {

  ghost function MapSum<K>(m: map<K, nat>): nat
  {
    if m == map[] then 0 else
      var k :| k in m;
      m[k] + MapSum(m - {k})
  }

  /** Any key can be taken out first. */
  lemma {:induction false} MapSumRemove<K>(m: map<K, nat>, k: K)
    requires k in m
    ensures MapSum(m) == m[k] + MapSum(m - {k})
    decreases |m|
  {
    var j :| j in m && MapSum(m) == m[j] + MapSum(m - {j});
    if j != k {
      MapSumRemove(m - {j}, k);
      MapSumRemove(m - {k}, j);
      assert m - {j} - {k} == m - {k} - {j};
    }
  }

  lemma MapSumUpdate<K>(m: map<K, nat>, k: K, v: nat)
    ensures MapSum(m[k := v]) == MapSum(m) - (if k in m then m[k] else 0) + v
  {
    MapSumRemove(m[k := v], k);
    assert m[k := v] - {k} == m - {k};
    if k in m {
      MapSumRemove(m, k);
    } else {
      assert m - {k} == m;
    }
  }

  /** A map is its remainder with one key put back. */
  lemma PutBack<K>(m: map<K, nat>, n: map<K, nat>, k: K)
    requires k in n
    ensures (n - {k})[k := n[k]] == n
    ensures (m + (n - {k}))[k := n[k]] == m + n
    ensures |(n - {k}).Keys| < |n.Keys|
  {
  }

  /** Summing two maps with disjoint keys. */
  lemma {:induction false} MapSumDisjoint<K>(m: map<K, nat>, n: map<K, nat>)
    requires m.Keys !! n.Keys
    ensures MapSum(m + n) == MapSum(m) + MapSum(n)
    decreases |n.Keys|
  {
    if n.Keys == {} {
      assert m + n == m;
    } else {
      var k :| k in n.Keys;
      PutBack(m, n, k);
      MapSumDisjoint(m, n - {k});
      MapSumUpdate(m + (n - {k}), k, n[k]);
      MapSumUpdate(n - {k}, k, n[k]);
    }
  }

  /** The part of a map that lives on the given keys. */
  function Restrict<K, V>(m: map<K, V>, s: set<K>): map<K, V> {
    map k | k in s && k in m :: m[k]
  }

  /** The sum over a set of keys; keys outside the map weigh nothing. */
  ghost function SumOver<K>(m: map<K, nat>, s: set<K>): nat {
    MapSum(Restrict(m, s))
  }

  lemma SumOverDisjoint<K>(m: map<K, nat>, s: set<K>, t: set<K>)
    requires s !! t
    ensures SumOver(m, s + t) == SumOver(m, s) + SumOver(m, t)
  {
    MapSumDisjoint(Restrict(m, s), Restrict(m, t));
    assert Restrict(m, s + t) == Restrict(m, s) + Restrict(m, t);
  }

  lemma SumOverSubset<K>(m: map<K, nat>, s: set<K>, t: set<K>)
    requires s <= t
    ensures SumOver(m, s) <= SumOver(m, t)
  {
    SumOverDisjoint(m, s, t - s);
    assert s + (t - s) == t;
  }

  /** Inclusion and exclusion for weighted sets. */
  lemma SumOverUnion<K>(m: map<K, nat>, s: set<K>, t: set<K>)
    ensures SumOver(m, s) + SumOver(m, t) == SumOver(m, s + t) + SumOver(m, s * t)
  {
    SumOverDisjoint(m, s, t - s);
    SumOverDisjoint(m, t - s, t * s);
    assert s + (t - s) == s + t && (t - s) + t * s == t && t * s == s * t;
  }

  lemma SumOverInsert<K>(m: map<K, nat>, s: set<K>, k: K)
    requires k !in s
    ensures SumOver(m, s + {k}) == SumOver(m, s) + if k in m then m[k] else 0
  {
    SumOverDisjoint(m, s, {k});
    if k in m {
      MapSumRemove(Restrict(m, {k}), k);
      assert Restrict(m, {k}) - {k} == map[];
    } else {
      assert Restrict(m, {k}) == map[];
    }
  }

  /** A pointwise bound carries over to the sums. */
  lemma {:induction false} MapSumMonotone<K>(m: map<K, nat>, n: map<K, nat>)
    requires m.Keys <= n.Keys
    requires forall k :: k in m ==> m[k] <= n[k]
    ensures MapSum(m) <= MapSum(n)
    decreases |m|
  {
    if m != map[] {
      var k :| k in m;
      MapSumRemove(m, k);
      MapSumRemove(n, k);
      MapSumMonotone(m - {k}, n - {k});
    }
  }
}
