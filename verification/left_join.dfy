/**
 * The chain of left joins with which `merge_stats` and
 * `merge_weighted_results` put the results of several classifications side
 * by side: the first table is kept row for row, and each further table adds
 * one result column, looked up by key (`df.merge(..., validate="1:1",
 * how="left")`).
 */
module LeftJoin {
  import opened Wrappers

  /** A table of results: one key and one result per row. */
  type Frame<K> = seq<(K, real)>

  /** A row of the joined table: the key, then `result_0`, `result_1`, ... (`None` for a missing value). */
  datatype Joined<K> = Joined(key: K, results: seq<Option<real>>)

  /** No two rows of the table share a key: what `validate="1:1"` demands of each side. */
  predicate UniqueKeys<K(==)>(rows: Frame<K>) {
    forall i, j :: 0 <= i < j < |rows| ==> rows[i].0 != rows[j].0
  }

  predicate UniqueJoined<K(==)>(rows: seq<Joined<K>>) {
    forall i, j :: 0 <= i < j < |rows| ==> rows[i].key != rows[j].key
  }

  /** The result of the first row holding `key`; `None` (a missing value) when no row does. */
  function Lookup<K(==)>(rows: Frame<K>, key: K): (r: Option<real>)
    ensures r.Some? <==> exists i :: 0 <= i < |rows| && rows[i].0 == key
    ensures r.Some? ==> exists i :: 0 <= i < |rows| && rows[i] == (key, r.value)
  {
    if |rows| == 0 then None
    else if rows[0].0 == key then Some(rows[0].1)
    else
      var r := Lookup(rows[1..], key);
      assert r.Some? ==> exists i :: 0 <= i < |rows[1..]| && rows[1..][i] == (key, r.value);
      assert (exists i :: 0 <= i < |rows| && rows[i].0 == key) ==> exists i :: 0 <= i < |rows[1..]| && rows[1..][i].0 == key by {
        if exists i :: 0 <= i < |rows| && rows[i].0 == key {
          var i :| 0 <= i < |rows| && rows[i].0 == key;
          assert rows[1..][i - 1].0 == key;
        }
      }
      r
  }

  /** In a table with unique keys, looking a row's key up finds that row's result. */
  lemma {:induction false} LookupUnique<K>(rows: Frame<K>, i: nat)
    requires UniqueKeys(rows) && i < |rows|
    ensures Lookup(rows, rows[i].0) == Some(rows[i].1)
  {
    if rows[0].0 != rows[i].0 {
      assert UniqueKeys(rows[1..]);
      assert rows[1..][i - 1] == rows[i];
      LookupUnique(rows[1..], i - 1);
    }
  }

  /**
   * The table the chain of left joins produces: one row per row of the
   * first table, in its order, holding its key, its own result, then the
   * result each further table holds for that key.
   */
  function LeftJoinAll<K(==)>(frames: seq<Frame<K>>): (out: seq<Joined<K>>)
    requires |frames| > 0
    ensures |out| == |frames[0]|
    ensures forall p :: 0 <= p < |out| ==>
      && out[p].key == frames[0][p].0
      && |out[p].results| == |frames|
      && out[p].results[0] == Some(frames[0][p].1)
      && forall i :: 1 <= i < |frames| ==> out[p].results[i] == Lookup(frames[i], frames[0][p].0)
  {
    seq(|frames[0]|, p requires 0 <= p < |frames[0]| =>
      Joined(frames[0][p].0, seq(|frames|, i requires 0 <= i < |frames| =>
        if i == 0 then Some(frames[0][p].1) else Lookup(frames[i], frames[0][p].0))))
  }

  /** One left join: each row gains the result `right` holds for its key. */
  function JoinColumn<K(==)>(df: seq<Joined<K>>, right: Frame<K>): (out: seq<Joined<K>>)
    ensures |out| == |df|
    ensures forall p :: 0 <= p < |out| ==> out[p] == Joined(df[p].key, df[p].results + [Lookup(right, df[p].key)])
  {
    seq(|df|, p requires 0 <= p < |df| => Joined(df[p].key, df[p].results + [Lookup(right, df[p].key)]))
  }

  lemma JoinStep<K>(frames: seq<Frame<K>>, n: nat)
    requires 0 < n < |frames|
    ensures JoinColumn(LeftJoinAll(frames[..n]), frames[n]) == LeftJoinAll(frames[..n + 1])
  {
    var a, b := JoinColumn(LeftJoinAll(frames[..n]), frames[n]), LeftJoinAll(frames[..n + 1]);
    assert |a| == |b|;
    forall p | 0 <= p < |a| ensures a[p] == b[p] {
      assert a[p].results == b[p].results;
    }
  }

  /** Before any join, each row holds its key and its own result. */
  lemma JoinFirst<K>(frames: seq<Frame<K>>)
    requires |frames| > 0
    ensures LeftJoinAll(frames[..1])
            == seq(|frames[0]|, p requires 0 <= p < |frames[0]| => Joined(frames[0][p].0, [Some(frames[0][p].1)]))
  {
    var df := seq(|frames[0]|, p requires 0 <= p < |frames[0]| => Joined(frames[0][p].0, [Some(frames[0][p].1)]));
    var first := LeftJoinAll(frames[..1]);
    forall p | 0 <= p < |df| ensures df[p] == first[p] {
      assert first[p].results == [Some(frames[0][p].1)];
    }
  }

  /** The joined table repeats a key exactly when the first table does. */
  lemma JoinedKeys<K>(frames: seq<Frame<K>>, n: nat)
    requires 0 < n <= |frames|
    ensures UniqueJoined(LeftJoinAll(frames[..n])) <==> UniqueKeys(frames[0])
  {
    var df := LeftJoinAll(frames[..n]);
    assert forall i :: 0 <= i < |df| ==> df[i].key == frames[0][i].0;
  }

  /**
   * `merge_stats` / `merge_weighted_results` without the CSV output: an
   * empty list raises `IndexError`; with several tables, a key repeated in
   * any of them raises `MergeError`; otherwise the chain of left joins.
   */
  method MergeFrames<K(==)>(frames: seq<Frame<K>>) returns (r: Result<seq<Joined<K>>, string>)
    ensures |frames| == 0 ==> r == Failure("IndexError")
    ensures |frames| > 0 ==>
      (r.Success? <==> |frames| == 1 || forall i :: 0 <= i < |frames| ==> UniqueKeys(frames[i]))
    ensures |frames| > 0 && r.Failure? ==> r.error == "MergeError"
    ensures r.Success? ==> r.value == LeftJoinAll(frames)
  {
    if |frames| == 0 {
      return Failure("IndexError");
    }
    var df := seq(|frames[0]|, p requires 0 <= p < |frames[0]| => Joined(frames[0][p].0, [Some(frames[0][p].1)]));
    JoinFirst(frames);
    var ii := 1;
    while ii < |frames|
      invariant 1 <= ii <= |frames|
      invariant df == LeftJoinAll(frames[..ii])
      invariant ii > 1 ==> forall i :: 0 <= i < ii ==> UniqueKeys(frames[i])
    {
      JoinedKeys(frames, ii);
      if !UniqueJoined(df) || !UniqueKeys(frames[ii]) {
        return Failure("MergeError");
      }
      JoinStep(frames, ii);
      df := JoinColumn(df, frames[ii]);
      ii := ii + 1;
    }
    assert frames[..ii] == frames;
    return Success(df);
  }

  /**
   * A key of the first table that a further table (with unique keys) also
   * holds gets that table's result; one it does not hold gets a missing value.
   */
  lemma JoinedResult<K>(frames: seq<Frame<K>>, p: nat, i: nat)
    requires |frames| > 0 && p < |frames[0]| && 1 <= i < |frames| && UniqueKeys(frames[i])
    ensures var out := LeftJoinAll(frames)[p].results[i];
      && (out.None? <==> forall q :: 0 <= q < |frames[i]| ==> frames[i][q].0 != frames[0][p].0)
      && forall q :: 0 <= q < |frames[i]| && frames[i][q].0 == frames[0][p].0 ==> out == Some(frames[i][q].1)
  {
    forall q | 0 <= q < |frames[i]| && frames[i][q].0 == frames[0][p].0
      ensures LeftJoinAll(frames)[p].results[i] == Some(frames[i][q].1)
    {
      LookupUnique(frames[i], q);
    }
  }

  /** The keys of a table. */
  function Keys<K(!new)>(rows: Frame<K>): (ks: set<K>)
    ensures forall k :: k in ks <==> exists i :: 0 <= i < |rows| && rows[i].0 == k
  {
    set i | 0 <= i < |rows| :: rows[i].0
  }

  /** When every table holds the keys of the first one, the joined table has no missing value. */
  lemma JoinComplete<K(!new)>(frames: seq<Frame<K>>)
    requires |frames| > 0 && forall i :: 0 <= i < |frames| ==> Keys(frames[0]) <= Keys(frames[i])
    ensures forall p, i :: 0 <= p < |frames[0]| && 0 <= i < |frames| ==> LeftJoinAll(frames)[p].results[i].Some?
  {
    forall p, i | 0 <= p < |frames[0]| && 1 <= i < |frames|
      ensures LeftJoinAll(frames)[p].results[i].Some?
    {
      assert frames[0][p].0 in Keys(frames[0]);
    }
  }
}
