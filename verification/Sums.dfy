/** Sums over the finite set of keys of a mapping, in integers and in reals. */
module Sums {
  import opened Arithmetic

  ghost function SumInt<K(!new)>(keys: set<K>, f: K -> int): int {
    if keys == {} then 0 else var k :| k in keys; f(k) + SumInt(keys - {k}, f)
  }

  lemma {:induction false} SumIntRemove<K(!new)>(keys: set<K>, f: K -> int, k: K)
    requires k in keys
    ensures SumInt(keys, f) == f(k) + SumInt(keys - {k}, f)
    decreases keys
  {
    var j :| j in keys && SumInt(keys, f) == f(j) + SumInt(keys - {j}, f);
    if j != k {
      SumIntRemove(keys - {j}, f, k);
      SumIntRemove(keys - {k}, f, j);
      assert keys - {j} - {k} == keys - {k} - {j};
    }
  }

  /** Sums of functions that differ by a multiple of a third differ by that multiple of its sum. */
  lemma {:induction false} SumIntScale<K(!new)>(keys: set<K>, f: K -> int, g: K -> int, h: K -> int, c: int)
    requires forall k :: k in keys ==> f(k) == g(k) + c * h(k)
    ensures SumInt(keys, f) == SumInt(keys, g) + c * SumInt(keys, h)
    decreases keys
  {
    if keys != {} {
      var k :| k in keys;
      SumIntRemove(keys, f, k);
      SumIntRemove(keys, g, k);
      SumIntRemove(keys, h, k);
      SumIntScale(keys - {k}, f, g, h, c);
    }
  }

  lemma {:induction false} SumIntLeq<K(!new)>(keys: set<K>, f: K -> int, g: K -> int)
    requires forall k :: k in keys ==> f(k) <= g(k)
    ensures SumInt(keys, f) <= SumInt(keys, g)
    decreases keys
  {
    if keys != {} {
      var k :| k in keys;
      SumIntRemove(keys, f, k);
      SumIntRemove(keys, g, k);
      SumIntLeq(keys - {k}, f, g);
    }
  }

  lemma SumIntSame<K(!new)>(keys: set<K>, f: K -> int, g: K -> int)
    requires forall k :: k in keys ==> f(k) == g(k)
    ensures SumInt(keys, f) == SumInt(keys, g)
  {
    SumIntLeq(keys, f, g);
    SumIntLeq(keys, g, f);
  }

  lemma {:induction false} SumIntZero<K(!new)>(keys: set<K>)
    ensures SumInt(keys, (k: K) => 0) == 0
    decreases keys
  {
    if keys != {} {
      var k :| k in keys;
      SumIntRemove(keys, (k: K) => 0, k);
      SumIntZero(keys - {k});
    }
  }

  /** One key changes its value, joins or leaves. */
  lemma SumIntChange<K(!new)>(keys: set<K>, f: K -> int, keys': set<K>, g: K -> int, k: K)
    requires keys' - {k} == keys - {k}
    requires forall j :: j != k ==> f(j) == g(j)
    requires (k !in keys ==> f(k) == 0) && (k !in keys' ==> g(k) == 0)
    ensures SumInt(keys', g) == SumInt(keys, f) - f(k) + g(k)
  {
    if k in keys { SumIntRemove(keys, f, k); } else { assert keys - {k} == keys; }
    if k in keys' { SumIntRemove(keys', g, k); } else { assert keys' - {k} == keys'; }
    SumIntSame(keys - {k}, f, g);
  }

  ghost function Sum<K(!new)>(keys: set<K>, f: K -> real): real {
    if keys == {} then 0.0 else var k :| k in keys; f(k) + Sum(keys - {k}, f)
  }

  lemma {:induction false} SumRemove<K(!new)>(keys: set<K>, f: K -> real, k: K)
    requires k in keys
    ensures Sum(keys, f) == f(k) + Sum(keys - {k}, f)
    decreases keys
  {
    var j :| j in keys && Sum(keys, f) == f(j) + Sum(keys - {j}, f);
    if j != k {
      SumRemove(keys - {j}, f, k);
      SumRemove(keys - {k}, f, j);
      assert keys - {j} - {k} == keys - {k} - {j};
    }
  }

  /** The real counterpart of SumIntScale, as an upper bound. */
  lemma {:induction false} SumLeqScale<K(!new)>(keys: set<K>, f: K -> real, g: K -> real, h: K -> real, c: real)
    requires forall k :: k in keys ==> f(k) <= g(k) + Times(c, h(k))
    ensures Sum(keys, f) <= Sum(keys, g) + Times(c, Sum(keys, h))
    decreases keys
  {
    if keys != {} {
      var k :| k in keys;
      SumRemove(keys, f, k);
      SumRemove(keys, g, k);
      SumRemove(keys, h, k);
      SumLeqScale(keys - {k}, f, g, h, c);
      Distribute(c, h(k), Sum(keys - {k}, h));
    }
  }

  lemma SumLeq<K(!new)>(keys: set<K>, f: K -> real, g: K -> real)
    requires forall k :: k in keys ==> f(k) <= g(k)
    ensures Sum(keys, f) <= Sum(keys, g)
  {
    SumLeqScale(keys, f, g, g, 0.0);
  }

  lemma SumSame<K(!new)>(keys: set<K>, f: K -> real, g: K -> real)
    requires forall k :: k in keys ==> f(k) == g(k)
    ensures Sum(keys, f) == Sum(keys, g)
  {
    SumLeq(keys, f, g);
    SumLeq(keys, g, f);
  }

  lemma {:induction false} SumPositive<K(!new)>(keys: set<K>, f: K -> real)
    requires forall k :: k in keys ==> f(k) > 0.0
    ensures Sum(keys, f) >= 0.0
    ensures keys != {} ==> Sum(keys, f) > 0.0
    decreases keys
  {
    if keys != {} {
      var k :| k in keys;
      SumRemove(keys, f, k);
      SumPositive(keys - {k}, f);
    }
  }

  lemma {:induction false} SumScale<K(!new)>(keys: set<K>, f: K -> real, g: K -> real, h: K -> real, c: real)
    requires forall k :: k in keys ==> f(k) == g(k) + Times(c, h(k))
    ensures Sum(keys, f) == Sum(keys, g) + Times(c, Sum(keys, h))
    decreases keys
  {
    if keys != {} {
      var k :| k in keys;
      SumRemove(keys, f, k);
      SumRemove(keys, g, k);
      SumRemove(keys, h, k);
      SumScale(keys - {k}, f, g, h, c);
      Distribute(c, h(k), Sum(keys - {k}, h));
    }
  }

  lemma {:induction false} SumZero<K(!new)>(keys: set<K>)
    ensures Sum(keys, (k: K) => 0.0) == 0.0
    decreases keys
  {
    if keys != {} {
      var k :| k in keys;
      SumRemove(keys, (k: K) => 0.0, k);
      SumZero(keys - {k});
    }
  }

  lemma {:induction false} SumSubset<K(!new)>(part: set<K>, keys: set<K>, f: K -> real)
    requires part <= keys && forall k :: f(k) >= 0.0
    ensures Sum(part, f) <= Sum(keys, f)
    decreases |keys - part|
  {
    var left := keys - part;
    if left == {} {
      assert part == keys;
    } else {
      var k :| k in left;
      assert keys - (part + {k}) == left - {k};
      SumRemove(part + {k}, f, k);
      assert part + {k} - {k} == part;
      SumSubset(part + {k}, keys, f);
    }
  }
}
