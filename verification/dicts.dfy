/**
 * Python dictionaries built by a comprehension over a sequence of keys: a key
 * that occurs more than once keeps the value of its last occurrence.
 */
module Dicts {
  import Texts

  /** `{k: values[i] for i, k in enumerate(keys)}`. */
  function Zip<K(==,!new), V>(keys: seq<K>, values: seq<V>): (m: map<K, V>)
    requires |keys| <= |values|
    ensures forall k :: k in m <==> k in keys
    ensures forall i :: 0 <= i < |keys| && LastAt(keys, i) ==> m[keys[i]] == values[i]
  {
    if |keys| == 0 then map[]
    else
      var n := |keys| - 1;
      LastAtInit(keys);
      Zip(keys[..n], values)[keys[n] := values[n]]
  }

  /** Position `i` holds the last occurrence of its key. */
  predicate LastAt<K(==)>(keys: seq<K>, i: nat) {
    i < |keys| && forall j :: i < j < |keys| ==> keys[j] != keys[i]
  }

  lemma LastAtInit<K>(keys: seq<K>)
    requires |keys| > 0
    ensures var n := |keys| - 1;
      && (forall k :: k in keys <==> k in keys[..n] || k == keys[n])
      && forall i :: 0 <= i < n && LastAt(keys, i) ==> LastAt(keys[..n], i) && keys[..n][i] == keys[i] && keys[i] != keys[n]
  {
    var n := |keys| - 1;
    assert keys == keys[..n] + [keys[n]];
  }

  /** With pairwise distinct keys, every key gets the value at its own position. */
  lemma ZipDistinct<K(!new), V>(keys: seq<K>, values: seq<V>, i: nat)
    requires |keys| <= |values| && Texts.Distinct(keys) && i < |keys|
    ensures Zip(keys, values)[keys[i]] == values[i]
  {
  }

  /** `d.get(k, 0)` on a dictionary of counts. */
  function Get<K>(m: map<K, nat>, k: K): nat {
    if k in m then m[k] else 0
  }

  /**
   * `Counter(a) + Counter(b)` (and `total += Counter(b)`): the counts of every
   * key add up, and a key whose count adds up to zero is not kept.
   */
  function CounterAdd<K(!new)>(a: map<K, nat>, b: map<K, nat>): (c: map<K, nat>)
    ensures forall k :: Get(c, k) == Get(a, k) + Get(b, k)
    ensures forall k :: k in c <==> Get(a, k) + Get(b, k) > 0
  {
    map k | k in a.Keys + b.Keys && Get(a, k) + Get(b, k) > 0 :: Get(a, k) + Get(b, k)
  }
}
