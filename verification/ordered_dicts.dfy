/**
 * Python dictionaries whose iteration order matters, as association lists:
 * keys in insertion order, each at most once. Assigning `d[k] = v` to a key
 * already present keeps its position and replaces its value; a new key goes
 * last.
 */
module OrderedDicts {
  import Texts

  type Dict<V> = seq<(string, V)>

  /** `list(d.keys())`. */
  function Keys<V>(d: Dict<V>): (ks: seq<string>)
    ensures |ks| == |d| && forall i :: 0 <= i < |d| ==> ks[i] == d[i].0
  {
    seq(|d|, i requires 0 <= i < |d| => d[i].0)
  }

  /** The first position of `k`. */
  function IndexOf(ks: seq<string>, k: string): (i: nat)
    requires k in ks
    ensures i < |ks| && ks[i] == k && forall j :: 0 <= j < i ==> ks[j] != k
  {
    if ks[0] == k then 0 else 1 + IndexOf(ks[1..], k)
  }

  /** `d[k]`, for a key present. */
  function Get<V>(d: Dict<V>, k: string): (v: V)
    requires k in Keys(d)
    ensures exists i :: 0 <= i < |d| && d[i] == (k, v)
  {
    d[IndexOf(Keys(d), k)].1
  }

  /** `d[k] = v`. */
  function Put<V>(d: Dict<V>, k: string, v: V): (r: Dict<V>)
    ensures forall x :: x in Keys(r) <==> x in Keys(d) || x == k
    ensures Get(r, k) == v
    ensures forall x :: x in Keys(d) && x != k ==> Get(r, x) == Get(d, x)
    ensures Texts.Distinct(Keys(d)) ==> Texts.Distinct(Keys(r))
    ensures k !in Keys(d) ==> r == d + [(k, v)]
  {
    if k in Keys(d) then
      var r := d[IndexOf(Keys(d), k) := (k, v)];
      assert Keys(r) == Keys(d);
      r
    else
      var r := d + [(k, v)];
      assert Keys(r) == Keys(d) + [k];
      forall x | x in Keys(d) ensures Get(r, x) == Get(d, x) {
        IndexOfExtended(Keys(d), [k], x);
      }
      r
  }

  lemma IndexOfExtended(ks: seq<string>, more: seq<string>, x: string)
    requires x in ks
    ensures IndexOf(ks + more, x) == IndexOf(ks, x)
  {
    var i, j := IndexOf(ks + more, x), IndexOf(ks, x);
    assert (ks + more)[j] == x;
  }

  /**
   * `dict(pairs)`, or a comprehension `{k: v for ...}` yielding `pairs`:
   * each key once, at the position of its first occurrence, with the value
   * of its last occurrence.
   */
  function FromPairs<V>(pairs: seq<(string, V)>): (d: Dict<V>)
    ensures Texts.Distinct(Keys(d))
    ensures forall x :: x in Keys(d) <==> x in Keys(pairs)
  {
    if |pairs| == 0 then []
    else
      var n := |pairs| - 1;
      assert Keys(pairs) == Keys(pairs[..n]) + [pairs[n].0];
      Put(FromPairs(pairs[..n]), pairs[n].0, pairs[n].1)
  }

  /** A key gets the value of its last occurrence: later pairs win. */
  lemma {:induction false} FromPairsLast<V>(pairs: seq<(string, V)>, i: nat)
    requires i < |pairs| && forall j :: i < j < |pairs| ==> pairs[j].0 != pairs[i].0
    ensures pairs[i].0 in Keys(FromPairs(pairs)) && Get(FromPairs(pairs), pairs[i].0) == pairs[i].1
  {
    var n := |pairs| - 1;
    if i < n {
      FromPairsLast(pairs[..n], i);
    }
  }

  /** Pairs whose keys are already distinct make the dictionary unchanged, order included. */
  lemma {:induction false} FromDistinctPairs<V>(pairs: seq<(string, V)>)
    requires Texts.Distinct(Keys(pairs))
    ensures FromPairs(pairs) == pairs
  {
    if |pairs| > 0 {
      var n := |pairs| - 1;
      var init := pairs[..n];
      DistinctInit(pairs);
      FromDistinctPairs(init);
      assert FromPairs(pairs) == Put(init, pairs[n].0, pairs[n].1);
      InitLast(pairs);
    }
  }

  lemma InitLast<T>(s: seq<T>)
    requires |s| > 0
    ensures s == s[..|s| - 1] + [s[|s| - 1]]
  {
  }

  lemma DistinctInit<V>(pairs: seq<(string, V)>)
    requires |pairs| > 0 && Texts.Distinct(Keys(pairs))
    ensures Texts.Distinct(Keys(pairs[..|pairs| - 1])) && pairs[|pairs| - 1].0 !in Keys(pairs[..|pairs| - 1])
  {
    var n := |pairs| - 1;
    var ks := Keys(pairs);
    assert Keys(pairs[..n]) == ks[..n];
    assert forall j :: 0 <= j < n ==> ks[j] != ks[n];
  }
}
