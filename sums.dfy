/**
 * Sums over the entries of a map, in no particular order: the value that a Go
 * loop `for _, v := range m { total += v }` computes whatever order the range
 * visits the keys in.
 */
module Sums {

  /** The sum of `m[k]` over the keys `keys`, taking them in any order. */
  ghost function KeySum<K>(m: map<K, int>, keys: set<K>): int
    requires keys <= m.Keys
    decreases keys
  {
    if keys == {} then 0
    else
      var k :| k in keys;
      m[k] + KeySum(m, keys - {k})
  }

  ghost function MapSum<K>(m: map<K, int>): int {
    KeySum(m, m.Keys)
  }

  /** The order does not matter: any key can be taken out first. */
  lemma {:induction false} KeySumRemove<K>(m: map<K, int>, keys: set<K>, k: K)
    requires keys <= m.Keys && k in keys
    ensures KeySum(m, keys) == m[k] + KeySum(m, keys - {k})
    decreases keys
  {
    var j :| j in keys && KeySum(m, keys) == m[j] + KeySum(m, keys - {j});
    if j != k {
      KeySumRemove(m, keys - {j}, k);
      KeySumRemove(m, keys - {k}, j);
      assert keys - {j} - {k} == keys - {k} - {j};
    }
  }

  /** Two maps that agree on `keys` have the same sum over them. */
  lemma {:induction false} KeySumAgree<K>(m: map<K, int>, n: map<K, int>, keys: set<K>)
    requires keys <= m.Keys && keys <= n.Keys
    requires forall k :: k in keys ==> m[k] == n[k]
    ensures KeySum(m, keys) == KeySum(n, keys)
    decreases keys
  {
    if keys != {} {
      var k :| k in keys;
      KeySumRemove(m, keys, k);
      KeySumRemove(n, keys, k);
      KeySumAgree(m, n, keys - {k});
    }
  }

  /** Replacing one entry changes the sum by the difference. */
  lemma MapSumUpdate<K>(m: map<K, int>, k: K, v: int)
    requires k in m
    ensures MapSum(m[k := v]) == MapSum(m) - m[k] + v
  {
    var m' := m[k := v];
    assert m'.Keys == m.Keys;
    KeySumRemove(m, m.Keys, k);
    KeySumRemove(m', m.Keys, k);
    KeySumAgree(m, m', m.Keys - {k});
  }

  /** Adding a new key adds its value. */
  lemma MapSumInsert<K>(m: map<K, int>, k: K, v: int)
    requires k !in m
    ensures MapSum(m[k := v]) == MapSum(m) + v
  {
    var m' := m[k := v];
    assert m'.Keys - {k} == m.Keys;
    KeySumRemove(m', m'.Keys, k);
    KeySumAgree(m, m', m.Keys);
  }

  /** A map whose values are all zero sums to zero. */
  lemma {:induction false} KeySumZero<K>(m: map<K, int>, keys: set<K>)
    requires keys <= m.Keys
    requires forall k :: k in keys ==> m[k] == 0
    ensures KeySum(m, keys) == 0
    decreases keys
  {
    if keys != {} {
      var k :| k in keys;
      KeySumRemove(m, keys, k);
      KeySumZero(m, keys - {k});
    }
  }
}
