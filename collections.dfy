/**
  Orderings of finite collections.  Swift leaves the iteration order of a
  `Dictionary` unspecified; the model takes that order as an input and only
  demands that it lists every key exactly once.
 */
module Collections {

  /** `xs` lists every element of `keys` exactly once and nothing else. */
  ghost predicate IsOrderingOf<K(!new)>(xs: seq<K>, keys: set<K>) {
    && (forall i, j :: 0 <= i < j < |xs| ==> xs[i] != xs[j])
    && (forall x :: x in xs <==> x in keys)
  }

  /** `enumerate` behaves like a dictionary's iteration: it lists the keys of any map it is given. */
  ghost predicate EnumeratesKeys<K(!new), V(!new)>(enumerate: map<K, V> -> seq<K>) {
    forall m: map<K, V> :: IsOrderingOf(enumerate(m), m.Keys)
  }

  lemma {:induction false} ElementIn<K>(xs: seq<K>, i: nat)
    requires i < |xs|
    ensures xs[i] in xs
  {
  }

  /** The only ordering of one key is that key alone. */
  lemma {:induction false} OrderingOfOne<K(!new)>(xs: seq<K>, key: K)
    requires IsOrderingOf(xs, {key})
    ensures xs == [key]
  {
    assert key in xs;
    if |xs| > 1 {
      ElementIn(xs, 0);
      ElementIn(xs, 1);
      assert false;
    }
    ElementIn(xs, 0);
  }
}
