/**
 * Python's dictionaries keep their keys in insertion order, and the report
 * generator relies on that order (rank positions are indices in a dictionary's
 * key list).  A dictionary is therefore modelled as its item list.
 */
module Assoc {
  import opened Wrappers

  /** The key list, `list(d)` in Python. */
  function Keys<K, V>(items: seq<(K, V)>): (ks: seq<K>)
    ensures |ks| == |items|
    ensures forall i :: 0 <= i < |items| ==> ks[i] == items[i].0
  {
    seq(|items|, i requires 0 <= i < |items| => items[i].0)
  }

  /** The value list, `d.values()` in Python. */
  function Values<K, V>(items: seq<(K, V)>): (vs: seq<V>)
    ensures |vs| == |items|
    ensures forall i :: 0 <= i < |items| ==> vs[i] == items[i].1
  {
    seq(|items|, i requires 0 <= i < |items| => items[i].1)
  }

  /** No key occurs twice: the item list of a genuine dictionary. */
  ghost predicate UniqueKeys<K, V>(items: seq<(K, V)>) {
    forall i, j :: 0 <= i < j < |items| ==> items[i].0 != items[j].0
  }

  /** `list(d).index(k)`: the position of the first item with key `k`. */
  function IndexOf<K(==), V>(items: seq<(K, V)>, k: K): (i: nat)
    requires k in Keys(items)
    ensures i < |items| && items[i].0 == k
    ensures forall j :: 0 <= j < i ==> items[j].0 != k
  {
    if items[0].0 == k then 0
    else
      assert Keys(items)[1..] == Keys(items[1..]);
      1 + IndexOf(items[1..], k)
  }

  /** `d.get(k)`: the value stored under `k`, if any. */
  function Get<K(==), V>(items: seq<(K, V)>, k: K): Option<V> {
    if k in Keys(items) then Some(items[IndexOf(items, k)].1) else None
  }

  /** `d[k] = v`: overwrite in place when `k` is present, append otherwise. */
  function Put<K(==,!new), V>(items: seq<(K, V)>, k: K, v: V): (r: seq<(K, V)>)
    ensures k in Keys(items) ==> |r| == |items| && Keys(r) == Keys(items)
    ensures k !in Keys(items) ==> Keys(r) == Keys(items) + [k]
    ensures Get(r, k) == Some(v)
    ensures forall k' :: k' != k ==> Get(r, k') == Get(items, k')
    ensures UniqueKeys(items) ==> UniqueKeys(r)
  {
    if k in Keys(items) then
      var i := IndexOf(items, k);
      var r := items[i := (k, v)];
      assert Keys(r) == Keys(items);
      assert IndexOf(r, k) == i;
      forall k' | k' != k && k' in Keys(items)
        ensures IndexOf(r, k') == IndexOf(items, k')
      {
        var j := IndexOf(items, k');
        assert r[j].0 == k';
      }
      r
    else
      var r := items + [(k, v)];
      assert Keys(r) == Keys(items) + [k];
      assert IndexOf(r, k) == |items|;
      forall k' | k' != k && k' in Keys(items)
        ensures IndexOf(r, k') == IndexOf(items, k')
      {
        var j := IndexOf(items, k');
        assert r[j].0 == k';
      }
      r
  }
}
