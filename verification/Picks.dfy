/** Choosing from a set, and the sizes of subsets. */
module Picks {

  ghost function PickOne<T>(s: set<T>): (x: T)
    requires s != {}
    ensures x in s
  {
    var x :| x in s;
    x
  }

  /** Visits the keys of a Go map, in no particular order. */
  method PickAny<T(==)>(s: set<T>) returns (x: T)
    requires s != {}
    ensures x in s
  {
    x :| x in s;
  }

  lemma {:induction false} SubsetSize<T>(a: set<T>, b: set<T>)
    requires a <= b
    ensures |a| <= |b|
    decreases |a|
  {
    if a != {} {
      var x := PickOne(a);
      SubsetSize(a - {x}, b - {x});
    }
  }

  lemma KeysCount<K, V>(m: map<K, V>)
    ensures |m.Keys| == |m|
  {
  }

  lemma UnionSize<T>(a: set<T>, b: set<T>)
    requires a !! b
    ensures |a + b| == |a| + |b|
  {
  }
}
