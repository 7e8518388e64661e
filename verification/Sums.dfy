/** Finite sums over the keys of a table. */
module Sums {

  ghost function Sum<K(!new)>(keys: set<K>, f: K -> real): real {
    if keys == {} then 0.0
    else
      var k :| k in keys;
      f(k) + Sum(keys - {k}, f)
  }

  lemma {:induction false} SumSplit<K(!new)>(keys: set<K>, f: K -> real, k: K)
    requires k in keys
    ensures Sum(keys, f) == f(k) + Sum(keys - {k}, f)
  {
    var pick :| pick in keys && Sum(keys, f) == f(pick) + Sum(keys - {pick}, f);
    if pick != k {
      SumSplit(keys - {pick}, f, k);
      SumSplit(keys - {k}, f, pick);
      assert keys - {pick} - {k} == keys - {k} - {pick};
    }
  }

  lemma {:induction false} SumAdd<K(!new)>(keys: set<K>, f: K -> real, k: K)
    requires k !in keys
    ensures Sum(keys + {k}, f) == f(k) + Sum(keys, f)
  {
    SumSplit(keys + {k}, f, k);
    assert keys + {k} - {k} == keys;
  }

  lemma {:induction false} SumSame<K(!new)>(keys: set<K>, f: K -> real, g: K -> real)
    requires forall k :: k in keys ==> f(k) == g(k)
    ensures Sum(keys, f) == Sum(keys, g)
  {
    if keys != {} {
      var pick :| pick in keys;
      SumSplit(keys, f, pick);
      SumSplit(keys, g, pick);
      SumSame(keys - {pick}, f, g);
    }
  }

  /** Two summands that agree everywhere but at `k` have sums that differ by exactly that term. */
  lemma SumChange<K(!new)>(keys: set<K>, f: K -> real, g: K -> real, k: K)
    requires k in keys
    requires forall j :: j in keys && j != k ==> f(j) == g(j)
    ensures Sum(keys, g) == Sum(keys, f) - f(k) + g(k)
  {
    SumSplit(keys, f, k);
    SumSplit(keys, g, k);
    SumSame(keys - {k}, f, g);
  }

  lemma {:induction false} SumAtLeast<K(!new)>(keys: set<K>, f: K -> real, lower: real)
    requires forall k :: k in keys ==> f(k) >= 0.0
    requires lower <= 0.0 || exists k :: k in keys && f(k) >= lower
    ensures Sum(keys, f) >= lower && Sum(keys, f) >= 0.0
  {
    if keys != {} {
      var pick :| pick in keys && (lower <= 0.0 || f(pick) >= lower);
      SumSplit(keys, f, pick);
      SumAtLeast(keys - {pick}, f, 0.0);
    }
  }

  lemma {:induction false} SumZero<K(!new)>(keys: set<K>, f: K -> real)
    requires forall k :: k in keys ==> f(k) == 0.0
    ensures Sum(keys, f) == 0.0
  {
    if keys != {} {
      var pick :| pick in keys;
      SumSplit(keys, f, pick);
      SumZero(keys - {pick}, f);
    }
  }
}
