/** Vocabulary shared by every component: options, integer maxima and sums over finite maps. */
module Common {

  datatype Option<+T> = None | Some(value: T) {
    function GetOr(default: T): T {
      if Some? then value else default
    }
  }

  function Max(a: int, b: int): int {
    if a < b then b else a
  }

  function Min(a: int, b: int): int {
    if a < b then a else b
  }

  predicate NoRepeats<T(==)>(items: seq<T>) {
    forall i, j | 0 <= i < j < |items| :: items[i] != items[j]
  }

  lemma {:induction false} SubsetSize<T>(small: set<T>, big: set<T>)
    requires small <= big
    ensures |small| <= |big|
  {
    assert big == small + (big - small);
  }

  /** The sum of `f` over all values of a finite map. */
  ghost function MapSum<K, V>(m: map<K, V>, f: V -> int): int
    decreases m.Keys
  {
    if m.Keys == {} then 0
    else
      var k :| k in m.Keys;
      f(m[k]) + MapSum(m - {k}, f)
  }

  /** Any key may be taken out first. */
  lemma {:induction false} MapSumRemove<K, V>(m: map<K, V>, f: V -> int, k: K)
    requires k in m
    ensures MapSum(m, f) == f(m[k]) + MapSum(m - {k}, f)
    decreases m.Keys
  {
    var first :| first in m.Keys && MapSum(m, f) == f(m[first]) + MapSum(m - {first}, f);
    if first != k {
      MapSumRemove(m - {first}, f, k);
      MapSumRemove(m - {k}, f, first);
      assert m - {first} - {k} == m - {k} - {first};
    }
  }

  /** Writing one key changes the sum by exactly the difference at that key. */
  lemma {:induction false} MapSumPut<K, V>(m: map<K, V>, f: V -> int, k: K, v: V)
    ensures MapSum(m[k := v], f) == MapSum(m, f) - (if k in m then f(m[k]) else 0) + f(v)
  {
    MapSumRemove(m[k := v], f, k);
    if k in m {
      MapSumRemove(m, f, k);
      assert m[k := v] - {k} == m - {k};
    } else {
      assert m[k := v] - {k} == m;
    }
  }

  /** Two maps have equal sums when they agree where both are defined and every
      value held by only the larger one weighs nothing. */
  lemma {:induction false} MapSumAgree<K, V>(small: map<K, V>, big: map<K, V>, f: V -> int)
    requires small.Keys <= big.Keys
    requires forall k | k in small :: f(small[k]) == f(big[k])
    requires forall k | k in big && k !in small :: f(big[k]) == 0
    ensures MapSum(small, f) == MapSum(big, f)
    decreases big.Keys
  {
    if k :| k in big.Keys {
      MapSumRemove(big, f, k);
      if k in small {
        MapSumRemove(small, f, k);
        MapSumAgree(small - {k}, big - {k}, f);
      } else {
        MapSumAgree(small, big - {k}, f);
      }
    } else {
      assert small.Keys == {};
    }
  }

  /** A sum of non-negative weights is non-negative. */
  lemma {:induction false} MapSumNonNegative<K, V>(m: map<K, V>, f: V -> int)
    requires forall k | k in m :: f(m[k]) >= 0
    ensures MapSum(m, f) >= 0
    decreases m.Keys
  {
    if k :| k in m.Keys {
      MapSumRemove(m, f, k);
      MapSumNonNegative(m - {k}, f);
    }
  }
}
