/** Sums of traffic totals over finite sets, independent of any order. */
module Sums {

  datatype Totals = Totals(bytesIn: int, bytesOut: int, conns: int)
  {
    function Plus(t: Totals): Totals {
      Totals(bytesIn + t.bytesIn, bytesOut + t.bytesOut, conns + t.conns)
    }
  }

  const NOTHING := Totals(0, 0, 0)

  ghost function SumOf<K>(v: K -> Totals, keys: set<K>): Totals {
    if keys == {} then NOTHING
    else
      var k :| k in keys;
      v(k).Plus(SumOf(v, keys - {k}))
  }

  lemma PlusSwap(a: Totals, b: Totals, c: Totals)
    ensures a.Plus(b.Plus(c)) == b.Plus(a.Plus(c))
    ensures a.Plus(b).Plus(c) == a.Plus(b.Plus(c))
    ensures NOTHING.Plus(a) == a == a.Plus(NOTHING)
  {
  }

  /** Any key may come first. */
  lemma {:induction false} SumPick<K>(v: K -> Totals, keys: set<K>, k: K)
    requires k in keys
    ensures SumOf(v, keys) == v(k).Plus(SumOf(v, keys - {k}))
    decreases |keys|
  {
    var j :| j in keys && SumOf(v, keys) == v(j).Plus(SumOf(v, keys - {j}));
    if j != k {
      SumPick(v, keys - {j}, k);
      SumPick(v, keys - {k}, j);
      var rest := keys - {j} - {k};
      assert rest == keys - {k} - {j};
      PlusSwap(v(j), v(k), SumOf(v, rest));
    }
  }

  lemma SumWithOneMore<K>(v: K -> Totals, keys: set<K>, k: K)
    requires k !in keys
    ensures SumOf(v, keys + {k}) == SumOf(v, keys).Plus(v(k))
  {
    SumPick(v, keys + {k}, k);
    assert keys + {k} - {k} == keys;
  }

  lemma SumUnionStep<K>(v: K -> Totals, a: set<K>, b: set<K>, k: K)
    requires a !! b && k in a
    requires SumOf(v, (a - {k}) + b) == SumOf(v, a - {k}).Plus(SumOf(v, b))
    ensures SumOf(v, a + b) == SumOf(v, a).Plus(SumOf(v, b))
  {
    assert (a + b) - {k} == (a - {k}) + b;
    SumPick(v, a + b, k);
    SumPick(v, a, k);
    PlusSwap(v(k), SumOf(v, a - {k}), SumOf(v, b));
  }

  lemma {:induction false} SumUnion<K>(v: K -> Totals, a: set<K>, b: set<K>)
    requires a !! b
    ensures SumOf(v, a + b) == SumOf(v, a).Plus(SumOf(v, b))
    decreases |a|
  {
    if a == {} {
      assert a + b == b;
      PlusSwap(SumOf(v, b), NOTHING, NOTHING);
    } else {
      var k :| k in a;
      SumUnion(v, a - {k}, b);
      SumUnionStep(v, a, b, k);
    }
  }

  lemma {:induction false} SumsAgree<K>(v: K -> Totals, w: K -> Totals, keys: set<K>)
    requires forall k :: k in keys ==> v(k) == w(k)
    ensures SumOf(v, keys) == SumOf(w, keys)
    decreases |keys|
  {
    if keys != {} {
      var k :| k in keys;
      SumsAgree(v, w, keys - {k});
      SumPick(v, keys, k);
      SumPick(w, keys, k);
      assert v(k) == w(k);
    }
  }

  lemma SumOfOne<K>(v: K -> Totals, key: K, keys: set<K>)
    requires keys <= {key}
    ensures SumOf(v, keys) == if key in keys then v(key) else NOTHING
  {
    if key in keys {
      assert keys == {key};
      SumPick(v, keys, key);
      assert keys - {key} == {};
    } else {
      assert keys == {};
    }
  }

  /** Storing under a key adds the new value and takes away what was there. */
  lemma PutBalances<K>(v: K -> Totals, w: K -> Totals, keys: set<K>, k: K)
    requires forall j :: j in keys && j != k ==> v(j) == w(j)
    requires k !in keys ==> v(k) == NOTHING
    ensures SumOf(w, keys + {k}).Plus(v(k)) == SumOf(v, keys).Plus(w(k))
  {
    var others := keys - {k};
    SumsAgree(v, w, others);
    SumPick(w, keys + {k}, k);
    assert keys + {k} - {k} == others;
    if k in keys {
      SumPick(v, keys, k);
    } else {
      assert others == keys;
    }
  }
}
