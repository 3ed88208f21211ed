/**
  * A Python dict: key/value pairs kept in insertion order. Assigning to an existing key
  * keeps its position, assigning to a new key appends it, and deleting a key closes the gap.
  */
module Dicts {
  import opened Wrappers

  type Dict<K, V> = seq<(K, V)>

  /** The keys in iteration order. */
  function Keys<K, V>(d: Dict<K, V>): (ks: seq<K>)
    ensures |ks| == |d| && forall i :: 0 <= i < |d| ==> ks[i] == d[i].0
  {
    if d == [] then [] else [d[0].0] + Keys(d[1..])
  }

  /** d.values(), in iteration order. */
  function Values<K, V>(d: Dict<K, V>): (vs: seq<V>)
    ensures |vs| == |d| && forall i :: 0 <= i < |d| ==> vs[i] == d[i].1
  {
    if d == [] then [] else [d[0].1] + Values(d[1..])
  }

  /** A dict never holds a key twice. */
  ghost predicate KeysDistinct<K, V>(d: Dict<K, V>) {
    forall i, j :: 0 <= i < j < |d| ==> d[i].0 != d[j].0
  }

  /** d.get(k) */
  function Get<K(==,!new), V>(d: Dict<K, V>, k: K): (r: Option<V>)
    ensures r.Some? <==> k in Keys(d)
    ensures r.Some? ==> (k, r.value) in d
  {
    if d == [] then None
    else if d[0].0 == k then Some(d[0].1)
    else Get(d[1..], k)
  }

  /** In a dict with distinct keys, the entry stored for k is what Get finds. */
  lemma GetAt<K(!new), V>(d: Dict<K, V>, i: nat)
    requires KeysDistinct(d) && i < |d|
    ensures Get(d, d[i].0) == Some(d[i].1)
  {
    if i > 0 {
      GetAt(d[1..], i - 1);
    }
  }

  /** d[k] = v */
  function Put<K(==,!new), V>(d: Dict<K, V>, k: K, v: V): (r: Dict<K, V>)
    ensures Get(r, k) == Some(v)
    ensures forall k' :: k' != k ==> Get(r, k') == Get(d, k')
  {
    if d == [] then [(k, v)]
    else if d[0].0 == k then [(k, v)] + d[1..]
    else
      var t := Put(d[1..], k, v);
      var r := [d[0]] + t;
      assert r[0] == d[0] && r[1..] == t;
      r
  }

  /** Assigning to an existing key keeps the key order; a new key goes last. */
  lemma PutKeys<K(!new), V>(d: Dict<K, V>, k: K, v: V)
    ensures Keys(Put(d, k, v)) == if k in Keys(d) then Keys(d) else Keys(d) + [k]
  {
    var r := Put(d, k, v);
    if d == [] {
      assert Keys(r) == [k];
    } else if d[0].0 == k {
      assert r[0].0 == k && r[1..] == d[1..];
      assert Keys(r) == [k] + Keys(d[1..]) == Keys(d);
    } else {
      var t := Put(d[1..], k, v);
      PutKeys(d[1..], k, v);
      assert r[0] == d[0] && r[1..] == t;
      assert Keys(r) == [d[0].0] + Keys(t);
      assert Keys(d) == [d[0].0] + Keys(d[1..]);
      ConsPut(d[0].0, Keys(d[1..]), k);
    }
  }

  /** The key-order step of PutKeys: a key other than the head is placed in the tail. */
  lemma ConsPut<K>(a: K, ks: seq<K>, k: K)
    requires a != k
    ensures [a] + (if k in ks then ks else ks + [k]) == if k in [a] + ks then [a] + ks else [a] + ks + [k]
  {
    assert k in [a] + ks <==> k in ks;
    if k !in ks {
      assert [a] + (ks + [k]) == [a] + ks + [k];
    }
  }

  lemma PutKeepsDistinct<K(!new), V>(d: Dict<K, V>, k: K, v: V)
    requires KeysDistinct(d)
    ensures KeysDistinct(Put(d, k, v))
  {
    var r := Put(d, k, v);
    var ks, rks := Keys(d), Keys(r);
    PutKeys(d, k, v);
    forall i, j | 0 <= i < j < |r| ensures r[i].0 != r[j].0 {
      assert rks[i] == r[i].0 && rks[j] == r[j].0;
      if j < |d| {
        assert rks[i] == ks[i] == d[i].0 && rks[j] == ks[j] == d[j].0;
      } else {
        assert k !in ks && rks[j] == k && rks[i] == ks[i];
      }
    }
  }

  /** del d[k] (Python raises when k is absent; the callers here check first). */
  function Del<K(==,!new), V>(d: Dict<K, V>, k: K): (r: Dict<K, V>)
    ensures Get(r, k) == None
    ensures forall k' :: k' != k ==> Get(r, k') == Get(d, k')
    ensures forall k' :: k' in Keys(r) <==> k' in Keys(d) && k' != k
    ensures k !in Keys(d) ==> r == d
  {
    if d == [] then []
    else
      var t := Del(d[1..], k);
      if d[0].0 == k then t
      else
        var r := [d[0]] + t;
        assert r[0] == d[0] && r[1..] == t;
        r
  }

  lemma DelKeepsDistinct<K(!new), V>(d: Dict<K, V>, k: K)
    requires KeysDistinct(d)
    ensures KeysDistinct(Del(d, k))
  {
    if d != [] {
      DelKeepsDistinct(d[1..], k);
      if d[0].0 != k {
        var t := Del(d[1..], k);
        var r := Del(d, k);
        assert r == [d[0]] + t;
        assert d[0].0 !in Keys(d[1..]) by {
          forall j | 0 <= j < |d| - 1 ensures Keys(d[1..])[j] != d[0].0 {
            assert d[1..][j] == d[j + 1];
          }
        }
        forall i, j | 0 <= i < j < |r| ensures r[i].0 != r[j].0 {
          assert r[j] == t[j - 1] && Keys(t)[j - 1] == t[j - 1].0;
          if i > 0 {
            assert r[i] == t[i - 1];
          }
        }
      }
    }
  }

  /** Deleting a present key removes exactly one entry. */
  lemma DelSize<K(!new), V>(d: Dict<K, V>, k: K)
    requires KeysDistinct(d) && k in Keys(d)
    ensures |Del(d, k)| == |d| - 1
  {
    if d[0].0 == k {
      assert k !in Keys(d[1..]) by {
        forall j | 0 <= j < |d| - 1 ensures Keys(d[1..])[j] != k {
          assert d[1..][j] == d[j + 1];
        }
      }
    } else {
      DelSize(d[1..], k);
    }
  }
}
