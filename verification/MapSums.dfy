/** Sums of the values of a map, and maps added key by key. */
module MapSums {
  ghost function Sum<K>(m: map<K, nat>): nat {
    if m.Keys == {} then 0
    else
      var k :| k in m.Keys;
      m[k] + Sum(m - {k})
  }

  /** The sum does not depend on the key taken out first. */
  lemma {:induction false} SumRemove<K>(m: map<K, nat>, k: K)
    requires k in m
    ensures Sum(m) == m[k] + Sum(m - {k})
    decreases |m|
  {
    var first :| first in m.Keys && Sum(m) == m[first] + Sum(m - {first});
    if first != k {
      SumRemove(m - {first}, k);
      SumRemove(m - {k}, first);
      assert m - {first} - {k} == m - {k} - {first};
    }
  }

  function Get<K>(m: map<K, nat>, k: K): nat {
    if k in m then m[k] else 0
  }

  lemma SumUpdate<K>(m: map<K, nat>, k: K, v: nat)
    ensures Sum(m[k := v]) + Get(m, k) == Sum(m) + v
  {
    SumRemove(m[k := v], k);
    if k in m {
      SumRemove(m, k);
      assert m[k := v] - {k} == m - {k};
    } else {
      assert m[k := v] - {k} == m;
    }
  }

  lemma SumHasPart<K>(m: map<K, nat>, k: K)
    ensures Get(m, k) <= Sum(m)
  {
    if k in m {
      SumRemove(m, k);
    }
  }

  function Plus<K>(a: map<K, nat>, b: map<K, nat>): map<K, nat> {
    map k | k in a.Keys + b.Keys :: Get(a, k) + Get(b, k)
  }

  lemma PlusCommutes<K>(a: map<K, nat>, b: map<K, nat>)
    ensures Plus(a, b) == Plus(b, a)
  {
  }

  lemma PlusAssociates<K>(a: map<K, nat>, b: map<K, nat>, c: map<K, nat>)
    ensures Plus(Plus(a, b), c) == Plus(a, Plus(b, c))
  {
    forall k
      ensures k in Plus(Plus(a, b), c) <==> k in Plus(a, Plus(b, c))
      ensures k in Plus(a, Plus(b, c)) ==> Plus(Plus(a, b), c)[k] == Plus(a, Plus(b, c))[k]
    {
      PlusGet(a, b, k);
      PlusGet(Plus(a, b), c, k);
      PlusGet(b, c, k);
      PlusGet(a, Plus(b, c), k);
    }
    hide Plus;
    assert Plus(Plus(a, b), c).Keys == Plus(a, Plus(b, c)).Keys;
  }

  lemma PlusGet<K>(a: map<K, nat>, b: map<K, nat>, k: K)
    ensures k in Plus(a, b) <==> k in a || k in b
    ensures Get(Plus(a, b), k) == Get(a, k) + Get(b, k)
  {
  }

  lemma PlusOne<K>(a: map<K, nat>, b: map<K, nat>, k: K)
    requires k in b
    ensures Plus(a, b) == Plus(a, b - {k})[k := Get(Plus(a, b - {k}), k) + b[k]]
    ensures Get(Plus(a, b - {k}), k) == Get(a, k)
  {
  }

  lemma {:induction false} SumPlus<K>(a: map<K, nat>, b: map<K, nat>)
    ensures Sum(Plus(a, b)) == Sum(a) + Sum(b)
    decreases |b|
  {
    if b.Keys == {} {
      assert Plus(a, b) == a;
    } else {
      var k :| k in b.Keys;
      var fewer := b - {k};
      SumRemove(b, k);
      SumPlus(a, fewer);
      SumPlusStep(a, b, k, Plus(a, fewer));
    }
  }

  lemma SumPlusStep<K>(a: map<K, nat>, b: map<K, nat>, k: K, rest: map<K, nat>)
    requires k in b && rest == Plus(a, b - {k})
    ensures Sum(Plus(a, b)) == Sum(rest) + b[k]
  {
    var v := Get(rest, k) + b[k];
    assert Plus(a, b) == rest[k := v] by {
      PlusOne(a, b, k);
    }
    SumUpdate(rest, k, v);
  }
}
