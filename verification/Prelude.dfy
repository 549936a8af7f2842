/** Small value types and sequence facts shared by the models. */
module Prelude {

  datatype Option<+T> = None | Some(value: T)

  datatype Result<+T, +E> = Ok(value: T) | Err(error: E)

  ghost predicate Distinct<T>(xs: seq<T>) {
    forall i, j :: 0 <= i < j < |xs| ==> xs[i] != xs[j]
  }
}

/** Sums over finite maps. */
module Sums {
  ghost function Sum<K(!new)>(m: map<K, nat>): nat
    decreases |m|
  {
    if m == map[] then 0
    else
      var k :| k in m;
      m[k] + Sum(m - {k})
  }

  lemma {:induction false} SumRemove<K(!new)>(m: map<K, nat>, k: K)
    requires k in m
    ensures Sum(m) == m[k] + Sum(m - {k})
    decreases |m|
  {
    var p :| p in m && Sum(m) == m[p] + Sum(m - {p});
    if p != k {
      SumRemove(m - {p}, k);
      SumRemove(m - {k}, p);
      assert (m - {p}) - {k} == (m - {k}) - {p};
    }
  }

  /** Pointwise smaller, by at least one on every key in `drops`. */
  lemma {:induction false} SumDrops<K(!new)>(m: map<K, nat>, m': map<K, nat>, drops: set<K>)
    requires m.Keys == m'.Keys && drops <= m.Keys
    requires forall k :: k in m ==> m'[k] + (if k in drops then 1 else 0) <= m[k]
    ensures Sum(m') + |drops| <= Sum(m)
    decreases |m|
  {
    if m.Keys == {} {
      assert m == map[] && m' == map[] && drops == {};
    } else {
      var k :| k in m;
      SumRemove(m, k);
      SumRemove(m', k);
      SumDrops(m - {k}, m' - {k}, drops - {k});
    }
  }

  lemma SumZero<K(!new)>(m: map<K, nat>, k: K)
    requires Sum(m) == 0 && k in m
    ensures m[k] == 0
  {
    SumRemove(m, k);
  }
}
