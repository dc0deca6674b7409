/** Sums of a weight over a finite set of keys: what the book's aggregation queries compute. */
module Sums {
  ghost function Sum<K>(keys: set<K>, f: K -> int): int
    decreases |keys|
  {
    if keys == {} then 0
    else
      var k :| k in keys;
      f(k) + Sum(keys - {k}, f)
  }

  /** The order of summation does not matter. */
  lemma {:induction false} SumRemove<K>(keys: set<K>, f: K -> int, x: K)
    requires x in keys
    ensures Sum(keys, f) == f(x) + Sum(keys - {x}, f)
    decreases |keys|
  {
    var k :| k in keys && Sum(keys, f) == f(k) + Sum(keys - {k}, f);
    if k != x {
      SumRemove(keys - {k}, f, x);
      SumRemove(keys - {x}, f, k);
      assert keys - {k} - {x} == keys - {x} - {k};
    }
  }

  lemma SumAdd<K>(keys: set<K>, f: K -> int, x: K)
    requires x !in keys
    ensures Sum(keys + {x}, f) == f(x) + Sum(keys, f)
  {
    SumRemove(keys + {x}, f, x);
    assert keys + {x} - {x} == keys;
  }

  lemma {:induction false} SumLe<K>(keys: set<K>, f: K -> int, g: K -> int)
    requires forall k :: k in keys ==> f(k) <= g(k)
    ensures Sum(keys, f) <= Sum(keys, g)
    decreases |keys|
  {
    if keys != {} {
      var k :| k in keys;
      SumRemove(keys, f, k);
      SumRemove(keys, g, k);
      SumLe(keys - {k}, f, g);
    }
  }

  lemma SumSame<K>(keys: set<K>, f: K -> int, g: K -> int)
    requires forall k :: k in keys ==> f(k) == g(k)
    ensures Sum(keys, f) == Sum(keys, g)
  {
    SumLe(keys, f, g);
    SumLe(keys, g, f);
  }

  /** Changing the weight of one key changes the sum by that much. */
  lemma SumShift<K>(keys: set<K>, f: K -> int, g: K -> int, x: K)
    requires x in keys
    requires forall k :: k in keys && k != x ==> f(k) == g(k)
    ensures Sum(keys, g) == Sum(keys, f) - f(x) + g(x)
  {
    SumRemove(keys, f, x);
    SumRemove(keys, g, x);
    SumSame(keys - {x}, f, g);
  }

  lemma SumLt<K>(keys: set<K>, f: K -> int, g: K -> int, x: K)
    requires x in keys && f(x) < g(x)
    requires forall k :: k in keys ==> f(k) <= g(k)
    ensures Sum(keys, f) < Sum(keys, g)
  {
    SumRemove(keys, f, x);
    SumRemove(keys, g, x);
    SumLe(keys - {x}, f, g);
  }
}
