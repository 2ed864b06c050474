/**
 * Sums over the values of a finite map. They turn "the balance is the opening
 * plus the effects of all stored transactions" into a formula; the lemmas say
 * how a sum moves when one document is inserted, replaced or removed.
 */
module Sums {

  ghost function Sum<K(!new), V(!new)>(m: map<K, V>, f: V -> int): int
    decreases |m|
  {
    if m == map[] then 0
    else
      var k :| k in m;
      f(m[k]) + Sum(m - {k}, f)
  }

  lemma {:induction false} SumRemove<K(!new), V(!new)>(m: map<K, V>, k: K, f: V -> int)
    requires k in m
    ensures Sum(m, f) == f(m[k]) + Sum(m - {k}, f)
    decreases |m|
  {
    var first :| first in m && Sum(m, f) == f(m[first]) + Sum(m - {first}, f);
    if first != k {
      SumRemove(m - {first}, k, f);
      SumRemove(m - {k}, first, f);
      assert m - {first} - {k} == m - {k} - {first};
    }
  }

  /** Writing one document moves the sum by the difference of its two values. */
  lemma SumPut<K(!new), V(!new)>(m: map<K, V>, k: K, v: V, f: V -> int)
    ensures Sum(m[k := v], f) == Sum(m, f) + f(v) - (if k in m then f(m[k]) else 0)
  {
    SumRemove(m[k := v], k, f);
    assert m[k := v] - {k} == m - {k};
    if k in m {
      SumRemove(m, k, f);
    } else {
      assert m - {k} == m;
    }
  }

  /** Two measures that agree on every stored value have the same sum. */
  lemma {:induction false} SumAgree<K(!new), V(!new)>(m: map<K, V>, f: V -> int, g: V -> int)
    requires forall k | k in m :: f(m[k]) == g(m[k])
    ensures Sum(m, f) == Sum(m, g)
    decreases |m|
  {
    if m != map[] {
      var k :| k in m;
      SumRemove(m, k, f);
      SumRemove(m, k, g);
      SumAgree(m - {k}, f, g);
    }
  }

  /** The sum of a difference of measures is the difference of the sums. */
  lemma {:induction false} SumMinus<K(!new), V(!new)>(m: map<K, V>, f: V -> int, g: V -> int, h: V -> int)
    requires forall k | k in m :: h(m[k]) == f(m[k]) - g(m[k])
    ensures Sum(m, h) == Sum(m, f) - Sum(m, g)
    decreases |m|
  {
    if m != map[] {
      var k :| k in m;
      SumRemove(m, k, f);
      SumRemove(m, k, g);
      SumRemove(m, k, h);
      SumMinus(m - {k}, f, g, h);
    }
  }
}
