/**
 * MPAP0 relative metric (`coclico/mpap0/mpap0_relative.py`): per tile and per
 * class, the absolute difference between the classification's and the
 * reference's point counts; the counts of every class are also summed over
 * all tiles in `Counter`s, and the total difference is taken between the sums.
 */
module Mpap0Relative {
  import opened Wrappers
  import Dicts
  import Tables

  /** Point counts by class, as read from the intrinsic metric's JSON files. */
  type Counts = map<string, nat>

  function Abs(x: int): nat {
    if x < 0 then -x else x
  }

  /**
   * `compute_absolute_diff`: for every class, the absolute difference of the
   * two counts, a class missing from a count dictionary counting 0.
   */
  function AbsoluteDiff(c1: Counts, ref: Counts, classes: seq<string>): (d: Counts)
    ensures forall k :: k in d <==> k in classes
    ensures forall k :: k in d ==>
      d[k] == Abs(Dicts.Get(c1, k) - Dicts.Get(ref, k))
      && Dicts.Get(c1, k) <= Dicts.Get(ref, k) + d[k] && Dicts.Get(ref, k) <= Dicts.Get(c1, k) + d[k]
  {
    map k | k in classes :: Abs(Dicts.Get(c1, k) - Dicts.Get(ref, k))
  }

  /** The absolute difference does not depend on which count is the reference. */
  lemma AbsoluteDiffSymmetric(c1: Counts, ref: Counts, classes: seq<string>)
    ensures AbsoluteDiff(c1, ref, classes) == AbsoluteDiff(ref, c1, classes)
  {
    var d, e := AbsoluteDiff(c1, ref, classes), AbsoluteDiff(ref, c1, classes);
    assert forall k :: k in d ==> d[k] == e[k];
  }

  /**
   * `compute_relative_diff`: for every class, the absolute difference divided
   * by the reference count, or 0 when that count is 0; `ref_count[k]` raises
   * `KeyError` for a class the reference does not count.
   */
  function RelativeDiff(absDiff: Counts, ref: Counts, classes: seq<string>): (r: Result<map<string, real>, string>)
    ensures r.Success? <==> forall k :: k in classes ==> k in ref
    ensures r.Success? ==> forall k :: k in r.value <==> k in classes
    ensures r.Success? ==> forall k :: k in r.value ==>
      && (ref[k] == 0 ==> r.value[k] == 0.0)
      && (ref[k] != 0 ==> r.value[k] * ref[k] as real == Dicts.Get(absDiff, k) as real)
  {
    if forall k :: k in classes ==> k in ref then
      Success(map k | k in classes :: if ref[k] != 0 then Dicts.Get(absDiff, k) as real / ref[k] as real else 0.0)
    else
      Failure("KeyError")
  }

  /** One tile: the point counts of the classification and of the reference. */
  datatype Tile = Tile(name: string, c1: Counts, ref: Counts)

  /** A row of the per-tile table. */
  datatype TileRow = TileRow(tile: string, classKey: string, absoluteDiff: nat, refCount: nat)

  /** A row of the total table. */
  datatype ClassRow = ClassRow(classKey: string, absoluteDiff: nat, refCount: nat)

  /** `ref_count[cl]` succeeds for every class. */
  predicate CountsEvery(t: Tile, classes: seq<string>) {
    forall k :: k in classes ==> k in t.ref
  }

  /** The rows one tile adds to the per-tile table: one per class, in class order. */
  function TileRows(t: Tile, classes: seq<string>): (rows: seq<TileRow>)
    requires CountsEvery(t, classes)
    ensures |rows| == |classes|
    ensures forall j :: 0 <= j < |rows| ==>
      rows[j] == TileRow(t.name, classes[j], Abs(Dicts.Get(t.c1, classes[j]) - t.ref[classes[j]]), t.ref[classes[j]])
  {
    var absDiff := AbsoluteDiff(t.c1, t.ref, classes);
    seq(|classes|, j requires 0 <= j < |classes| =>
      TileRow(t.name, classes[j], absDiff[classes[j]], t.ref[classes[j]]))
  }

  /** The rows of each tile, tile by tile. */
  function TileBlocks(tiles: seq<Tile>, classes: seq<string>): (blocks: seq<seq<TileRow>>)
    requires forall i :: 0 <= i < |tiles| ==> CountsEvery(tiles[i], classes)
    ensures |blocks| == |tiles|
    ensures forall i :: 0 <= i < |tiles| ==> blocks[i] == TileRows(tiles[i], classes)
  {
    seq(|tiles|, i requires 0 <= i < |tiles| => TileRows(tiles[i], classes))
  }

  /** The per-tile table: the rows of every tile, in tile order. */
  function PerTileRows(tiles: seq<Tile>, classes: seq<string>): seq<TileRow>
    requires forall i :: 0 <= i < |tiles| ==> CountsEvery(tiles[i], classes)
  {
    Tables.Flat(TileBlocks(tiles, classes))
  }

  /** The per-tile table has `|classes|` rows per tile. */
  lemma PerTileRowsLength(tiles: seq<Tile>, classes: seq<string>)
    requires forall i :: 0 <= i < |tiles| ==> CountsEvery(tiles[i], classes)
    ensures |PerTileRows(tiles, classes)| == |tiles| * |classes|
  {
    Tables.FlatLength(TileBlocks(tiles, classes), |classes|);
  }

  /** Which count of a tile. */
  datatype Side = C1 | Ref

  function CountsOf(t: Tile, side: Side): Counts {
    match side
    case C1 => t.c1
    case Ref => t.ref
  }

  /** The total count of class `k` over the tiles on one side: the sum of the per-tile counts, 0 when missing. */
  function Total(tiles: seq<Tile>, side: Side, k: string): nat {
    if |tiles| == 0 then 0
    else
      var n := |tiles| - 1;
      Total(tiles[..n], side, k) + Dicts.Get(CountsOf(tiles[n], side), k)
  }

  /** The total of the per-tile absolute differences of class `k`. */
  function TotalOfDiffs(tiles: seq<Tile>, k: string): nat {
    if |tiles| == 0 then 0
    else
      var n := |tiles| - 1;
      TotalOfDiffs(tiles[..n], k) + Abs(Dicts.Get(tiles[n].c1, k) - Dicts.Get(tiles[n].ref, k))
  }

  /**
   * The total table: one row per class with the difference of the summed
   * counts and the summed reference count (`Counter[cl]` reads 0 when missing).
   */
  function TotalRows(tiles: seq<Tile>, classes: seq<string>): (rows: seq<ClassRow>)
    ensures |rows| == |classes|
    ensures forall j :: 0 <= j < |rows| ==> rows[j].classKey == classes[j]
  {
    seq(|classes|, j requires 0 <= j < |classes| =>
      ClassRow(classes[j], Abs(Total(tiles, C1, classes[j]) - Total(tiles, Ref, classes[j])), Total(tiles, Ref, classes[j])))
  }

  /**
   * The total difference of a class is at most the sum of its per-tile
   * differences: differences of opposite signs in two tiles cancel out.
   */
  lemma {:induction false} TotalDiffBound(tiles: seq<Tile>, k: string)
    ensures Abs(Total(tiles, C1, k) - Total(tiles, Ref, k)) <= TotalOfDiffs(tiles, k)
  {
    if |tiles| > 0 {
      var n := |tiles| - 1;
      TotalDiffBound(tiles[..n], k);
    }
  }

  /** Two tiles whose differences cancel: each differs by 10 points, the totals agree. */
  lemma TotalDiffCancels()
    ensures var tiles := [Tile("a", map["2" := 10], map["2" := 20]), Tile("b", map["2" := 30], map["2" := 20])];
      && TotalRows(tiles, ["2"]) == [ClassRow("2", 0, 40)]
      && TotalOfDiffs(tiles, "2") == 20
  {
    var tiles := [Tile("a", map["2" := 10], map["2" := 20]), Tile("b", map["2" := 30], map["2" := 20])];
    var first := tiles[..1];
    assert first[..0] == [];
    assert Total(first, C1, "2") == 10;
    assert Total(first, Ref, "2") == 20;
    assert TotalOfDiffs(first, "2") == 10;
  }

  /** A running `Counter` holds, for every class, the total of one side's counts over some tiles. */
  ghost predicate Tracks(total: Counts, tiles: seq<Tile>, side: Side) {
    forall k :: Dicts.Get(total, k) == Total(tiles, side, k)
  }

  lemma TracksStep(total: Counts, tiles: seq<Tile>, i: nat, side: Side)
    requires i < |tiles| && Tracks(total, tiles[..i], side)
    ensures Tracks(Dicts.CounterAdd(total, CountsOf(tiles[i], side)), tiles[..i + 1], side)
  {
    assert tiles[..i + 1][..i] == tiles[..i];
  }

  lemma TotalRowsOfCounters(totalC1: Counts, totalRef: Counts, tiles: seq<Tile>, classes: seq<string>)
    requires Tracks(totalC1, tiles, C1) && Tracks(totalRef, tiles, Ref)
    ensures var d := AbsoluteDiff(totalC1, totalRef, classes);
      seq(|classes|, j requires 0 <= j < |classes| => ClassRow(classes[j], d[classes[j]], Dicts.Get(totalRef, classes[j])))
      == TotalRows(tiles, classes)
  {
  }

  lemma PerTileRowsStep(tiles: seq<Tile>, i: nat, classes: seq<string>)
    requires i < |tiles| && forall p :: 0 <= p <= i ==> CountsEvery(tiles[p], classes)
    ensures PerTileRows(tiles[..i + 1], classes) == PerTileRows(tiles[..i], classes) + TileRows(tiles[i], classes)
  {
    var blocks := TileBlocks(tiles[..i + 1], classes);
    assert blocks[..i] == TileBlocks(tiles[..i], classes);
  }

  /**
   * `compute_metric_relative`: one pass over the tiles that appends each
   * tile's rows and adds its two count dictionaries to the running
   * `Counter`s, then one total row per class. A tile whose reference lacks a
   * class raises `KeyError` (`ok` false) and no table is written.
   */
  method ComputeMetricRelative(tiles: seq<Tile>, classes: seq<string>)
    returns (ok: bool, tileRows: seq<TileRow>, totalRows: seq<ClassRow>)
    ensures ok <==> forall i :: 0 <= i < |tiles| ==> CountsEvery(tiles[i], classes)
    ensures ok ==> tileRows == PerTileRows(tiles, classes) && totalRows == TotalRows(tiles, classes)
  {
    var totalRef: Counts := map[];
    var totalC1: Counts := map[];
    tileRows := [];
    totalRows := [];
    var i := 0;
    while i < |tiles|
      invariant 0 <= i <= |tiles|
      invariant forall p :: 0 <= p < i ==> CountsEvery(tiles[p], classes)
      invariant tileRows == PerTileRows(tiles[..i], classes)
      invariant Tracks(totalRef, tiles[..i], Ref)
      invariant Tracks(totalC1, tiles[..i], C1)
    {
      var t := tiles[i];
      TracksStep(totalRef, tiles, i, Ref);
      TracksStep(totalC1, tiles, i, C1);
      totalRef := Dicts.CounterAdd(totalRef, t.ref);
      totalC1 := Dicts.CounterAdd(totalC1, t.c1);
      if !CountsEvery(t, classes) {
        return false, [], [];
      }
      tileRows := tileRows + TileRows(t, classes);
      PerTileRowsStep(tiles, i, classes);
      i := i + 1;
    }
    assert tiles[..i] == tiles;
    var totalAbsDiff := AbsoluteDiff(totalC1, totalRef, classes);
    totalRows := seq(|classes|, j requires 0 <= j < |classes| =>
      ClassRow(classes[j], totalAbsDiff[classes[j]], Dicts.Get(totalRef, classes[j])));
    TotalRowsOfCounters(totalC1, totalRef, tiles, classes);
    ok := true;
  }
}
