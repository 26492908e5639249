/** Sums over finite maps: the one arithmetic fact the ledgers need. */
module Sums {

  ghost function AnyKey<K>(m: map<K, nat>): (k: K)
    requires |m| > 0
    ensures k in m
  {
    var k :| k in m;
    k
  }

  ghost function Sum<K>(m: map<K, nat>): nat {
    if |m| == 0 then 0
    else
      var k := AnyKey(m);
      m[k] + Sum(m - {k})
  }

  /** The sum does not depend on which key is taken out first. */
  lemma {:induction false} SumRemove<K>(m: map<K, nat>, k: K)
    requires k in m
    ensures Sum(m) == m[k] + Sum(m - {k})
    decreases |m|
  {
    var first := AnyKey(m);
    if first != k {
      SumRemove(m - {first}, k);
      SumRemove(m - {k}, first);
      assert m - {first} - {k} == m - {k} - {first};
    }
  }

  lemma SumUpdate<K>(m: map<K, nat>, k: K, v: nat)
    ensures Sum(m[k := v]) == Sum(m) + v - (if k in m then m[k] else 0)
  {
    SumRemove(m[k := v], k);
    assert m[k := v] - {k} == m - {k};
    if k in m {
      SumRemove(m, k);
    } else {
      assert m - {k} == m;
    }
  }

  lemma {:induction false} SumAtLeast<K>(m: map<K, nat>, k: K)
    requires k in m
    ensures m[k] <= Sum(m)
  {
    SumRemove(m, k);
  }

  /** Dropping keys that hold nothing leaves the sum. */
  lemma {:induction false} SumDropZeros<K>(m: map<K, nat>, kept: map<K, nat>)
    requires forall k | k in kept :: k in m && m[k] == kept[k]
    requires forall k | k in m && k !in kept :: m[k] == 0
    ensures Sum(kept) == Sum(m)
    decreases |m|
  {
    if |m| > 0 {
      var k := AnyKey(m);
      if k in kept {
        SumRemove(kept, k);
        SumDropZeros(m - {k}, kept - {k});
      } else {
        SumDropZeros(m - {k}, kept);
      }
    } else {
      assert kept == map[];
    }
  }

  lemma SumWithout<K>(m: map<K, nat>, k: K)
    ensures Sum(m - {k}) + (if k in m then m[k] else 0) == Sum(m)
  {
    if k in m {
      SumRemove(m, k);
    } else {
      assert m - {k} == m;
    }
  }

  function At<K(==)>(m: map<K, nat>, k: K): nat {
    if k in m then m[k] else 0
  }

  /** Maps that agree everywhere, an absent key counting for nothing, have the same sum. */
  lemma SumAgree<K(!new)>(a: map<K, nat>, b: map<K, nat>)
    requires forall k :: At(a, k) == At(b, k)
    ensures Sum(a) == Sum(b)
  {
    var both := map k | k in a && k in b :: a[k];
    forall k | k in a && k !in both
      ensures a[k] == 0
    {
      assert At(a, k) == At(b, k);
    }
    forall k | k in b
      ensures if k in both then both[k] == b[k] else b[k] == 0
    {
      assert At(a, k) == At(b, k);
    }
    SumDropZeros(a, both);
    SumDropZeros(b, both);
  }
}
