/** Python dictionaries together with their iteration order.

    The modelled code iterates over dictionaries (endpoints, directors,
    pools, pending task-queue jobs) and its effects depend on the order in
    which it meets the entries. A dictionary is therefore modelled as a list
    of (key, value) pairs with distinct keys, in iteration order; assignment
    to an existing key keeps its place, assignment to a new key appends.
 */
module Assoc {
  import opened Base

  predicate DistinctKeys<K(==), V>(d: seq<(K, V)>) {
    forall i, j :: 0 <= i < j < |d| ==> d[i].0 != d[j].0
  }

  function Keys<K(==), V>(d: seq<(K, V)>): set<K> {
    set i | 0 <= i < |d| :: d[i].0
  }

  lemma KeysCons<K, V>(d: seq<(K, V)>)
    requires |d| > 0
    ensures Keys(d) == {d[0].0} + Keys(d[1..])
  {
    forall k | k in Keys(d) ensures k in {d[0].0} + Keys(d[1..]) {
      var i :| 0 <= i < |d| && d[i].0 == k;
      if i > 0 {
        assert d[1..][i - 1].0 == k;
      }
    }
    forall k | k in Keys(d[1..]) ensures k in Keys(d) {
      var i :| 0 <= i < |d[1..]| && d[1..][i].0 == k;
      assert d[i + 1].0 == k;
    }
  }

  function KeySeq<K, V>(d: seq<(K, V)>): (ks: seq<K>)
    ensures |ks| == |d|
    ensures forall i :: 0 <= i < |d| ==> ks[i] == d[i].0
  {
    if |d| == 0 then [] else [d[0].0] + KeySeq(d[1..])
  }

  /** `d.get(k)`. */
  function Get<K(==), V>(d: seq<(K, V)>, k: K): (r: Option<V>)
    ensures r.Some? <==> k in Keys(d)
  {
    if |d| == 0 then None
    else if d[0].0 == k then Some(d[0].1)
    else
      KeysCons(d);
      Get(d[1..], k)
  }

  /** A pair in front of a dictionary without its key keeps keys distinct. */
  lemma ConsDistinct<K, V>(x: (K, V), rest: seq<(K, V)>)
    ensures DistinctKeys(rest) && x.0 !in Keys(rest) ==> DistinctKeys([x] + rest)
  {
    if DistinctKeys(rest) && x.0 !in Keys(rest) {
      var r := [x] + rest;
      forall i, j | 0 <= i < j < |r| ensures r[i].0 != r[j].0 {
        assert r[j] == rest[j - 1];
        if i > 0 {
          assert r[i] == rest[i - 1];
        }
      }
    }
  }

  /** The head's key does not recur in the tail of a dictionary. */
  lemma HeadNotInTail<K, V>(d: seq<(K, V)>)
    requires |d| > 0
    ensures DistinctKeys(d) ==> d[0].0 !in Keys(d[1..]) && DistinctKeys(d[1..])
  {
    if DistinctKeys(d) {
      forall i | 0 <= i < |d[1..]| ensures d[1..][i].0 != d[0].0 {
        assert d[1..][i] == d[i + 1];
      }
    }
  }

  /** `d[k] = v`: an existing key keeps its place, a new key goes last. */
  function Put<K(==, !new), V>(d: seq<(K, V)>, k: K, v: V): (r: seq<(K, V)>)
    ensures Get(r, k) == Some(v)
    ensures forall k' :: k' != k ==> Get(r, k') == Get(d, k')
    ensures Keys(r) == Keys(d) + {k}
    ensures DistinctKeys(d) ==> DistinctKeys(r)
  {
    if |d| == 0 then [(k, v)]
    else
      KeysCons(d);
      if d[0].0 == k then
        var r := [(k, v)] + d[1..];
        assert r[1..] == d[1..];
        KeysCons(r);
        HeadNotInTail(d);
        ConsDistinct((k, v), d[1..]);
        r
      else
        var rest := Put(d[1..], k, v);
        var r := [d[0]] + rest;
        assert r[1..] == rest;
        KeysCons(r);
        HeadNotInTail(d);
        ConsDistinct(d[0], rest);
        r
  }

  /** `del d[k]` (a no-op when `k` is absent). */
  function Remove<K(==, !new), V>(d: seq<(K, V)>, k: K): (r: seq<(K, V)>)
    ensures Get(r, k) == None
    ensures forall k' :: k' != k ==> Get(r, k') == Get(d, k')
    ensures Keys(r) == Keys(d) - {k}
    ensures DistinctKeys(d) ==> DistinctKeys(r)
    ensures |r| <= |d|
  {
    if |d| == 0 then []
    else
      KeysCons(d);
      var rest := Remove(d[1..], k);
      if d[0].0 == k then rest
      else
        var r := [d[0]] + rest;
        assert r[1..] == rest;
        KeysCons(r);
        r
  }

  /** In a dictionary, the entry at index `i` is what its key looks up. */
  lemma GetIndex<K, V>(d: seq<(K, V)>, i: nat)
    requires DistinctKeys(d) && i < |d|
    ensures Get(d, d[i].0) == Some(d[i].1)
  {
    if i > 0 {
      assert d[0].0 != d[i].0;
      assert d[1..][i - 1] == d[i];
      GetIndex(d[1..], i - 1);
    }
  }
}
