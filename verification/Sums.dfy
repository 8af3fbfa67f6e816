/** Sums over finite maps, and how many keys of a map point at one value. */
module Sums {

  ghost function Sum<K>(m: map<K, nat>): nat
    decreases |m|
  {
    if m == map[] then 0
    else
      var k :| k in m;
      m[k] + Sum(m - {k})
  }

  lemma SumEmpty<K>()
    ensures Sum<K>(map[]) == 0
  {
  }

  /** Any key may be taken out first. */
  lemma {:induction false} SumTakes<K>(m: map<K, nat>, k: K)
    requires k in m
    ensures Sum(m) == m[k] + Sum(m - {k})
    decreases |m|
  {
    var k0 :| k0 in m && Sum(m) == m[k0] + Sum(m - {k0});
    if k0 != k {
      SumTakes(m - {k0}, k);
      SumTakes(m - {k}, k0);
      assert (m - {k0}) - {k} == (m - {k}) - {k0};
    }
  }

  lemma SumPut<K>(m: map<K, nat>, k: K, v: nat)
    ensures Sum(m[k := v]) == Sum(m) - (if k in m then m[k] else 0) + v
  {
    SumTakes(m[k := v], k);
    if k in m {
      SumTakes(m, k);
      assert m[k := v] - {k} == m - {k};
    } else {
      assert m[k := v] - {k} == m;
    }
  }

  lemma SumAtLeast<K>(m: map<K, nat>, k: K)
    requires k in m
    ensures Sum(m) >= m[k]
  {
    SumTakes(m, k);
  }

  lemma {:induction false} SumMonotone<K>(a: map<K, nat>, b: map<K, nat>)
    requires a.Keys == b.Keys && forall k :: k in a ==> a[k] <= b[k]
    ensures Sum(a) <= Sum(b)
    decreases |a|
  {
    if a == map[] {
      assert b == map[];
    } else {
      var k :| k in a;
      SumTakes(a, k);
      SumTakes(b, k);
      SumMonotone(a - {k}, b - {k});
    }
  }

  ghost function KeysAt<K, V>(m: map<K, V>, v: V): set<K> {
    set k | k in m && m[k] == v
  }

  ghost function Count<K, V>(m: map<K, V>, v: V): nat {
    |KeysAt(m, v)|
  }

  /** Pointing one key somewhere moves exactly one unit of count. */
  lemma CountPut<K, V>(m: map<K, V>, k: K, v: V, w: V)
    ensures Count(m[k := v], w) ==
            Count(m, w) + (if w == v then 1 else 0) - (if k in m && m[k] == w then 1 else 0)
  {
    var was, now := KeysAt(m, w), KeysAt(m[k := v], w);
    assert now - {k} == was - {k};
    assert |was| == |was - {k}| + if k in m && m[k] == w then 1 else 0;
    assert |now| == |now - {k}| + if w == v then 1 else 0;
  }
}
