/**
 * MPLA0 relative metric (`coclico/mpla0/mpla0_relative.py`): per tile and per
 * class layer of two occupancy rasters, the number of pixels set in the
 * reference, in both rasters (intersection) and in either (union); the
 * per-class totals over all tiles are accumulated in `Counter`s.
 */
module Mpla0Relative {
  import opened Rasters
  import Texts
  import Dicts
  import Tables

  /** An occupancy raster: one boolean layer per class, `(nb_layers, height, width)`. */
  type Raster = seq<Mask>

  predicate SameRaster(a: Raster, b: Raster) {
    |a| == |b| && forall k :: 0 <= k < |a| ==> SameMask(a[k], b[k])
  }

  /** `np.logical_or` of two rasters, layer by layer. */
  function RasterOr(a: Raster, b: Raster): (r: Raster)
    requires SameRaster(a, b)
    ensures |r| == |a| && forall k :: 0 <= k < |r| ==> r[k] == Or(a[k], b[k])
  {
    seq(|a|, k requires 0 <= k < |a| => Or(a[k], b[k]))
  }

  /** `np.logical_and` of two rasters, layer by layer. */
  function RasterAnd(a: Raster, b: Raster): (r: Raster)
    requires SameRaster(a, b)
    ensures |r| == |a| && forall k :: 0 <= k < |r| ==> r[k] == And(a[k], b[k])
  {
    seq(|a|, k requires 0 <= k < |a| => And(a[k], b[k]))
  }

  /** The number of pairs `zip` makes of two sequences: the shorter length. */
  function Paired(n: nat, m: nat): (p: nat)
    ensures p <= n && p <= m && (p == n || p == m)
  {
    if n <= m then n else m
  }

  /**
   * `generate_sum_by_layer(raster, layers)`: the pixel count of each layer,
   * keyed by the layer ids zipped with the layers (the extra ids or layers of
   * the longer one are ignored).
   */
  function SumByLayer(raster: Raster, layers: seq<string>): (d: map<string, nat>)
    ensures forall k :: k in d <==> k in layers[..Paired(|layers|, |raster|)]
  {
    var n := Paired(|layers|, |raster|);
    var sums: seq<nat> := seq(n, i requires 0 <= i < n => CountTrue(raster[i]));
    Dicts.Zip(layers[..n], sums)
  }

  /** With pairwise distinct layer ids, each id that has a layer gets that layer's pixel count. */
  lemma SumByLayerCount(raster: Raster, layers: seq<string>, i: nat)
    requires Texts.Distinct(layers) && i < |layers| && i < |raster|
    ensures SumByLayer(raster, layers)[layers[i]] == CountTrue(raster[i])
  {
    var n := Paired(|layers|, |raster|);
    var keys := layers[..n];
    assert keys[i] == layers[i];
    var sums: seq<nat> := seq(n, i requires 0 <= i < n => CountTrue(raster[i]));
    Dicts.ZipDistinct(keys, sums, i);
  }

  /** One tile: the classification's and the reference's occupancy rasters. */
  datatype Tile = Tile(name: string, c1: Raster, ref: Raster)

  predicate WellShaped(tiles: seq<Tile>) {
    forall i :: 0 <= i < |tiles| ==> SameRaster(tiles[i].c1, tiles[i].ref)
  }

  /** The three counts of the metric. */
  datatype Measure = RefPixelCount | Intersection | Union

  /** The counts of one measure for every class of a tile. */
  function Counts(t: Tile, classes: seq<string>, m: Measure): map<string, nat>
    requires SameRaster(t.c1, t.ref)
  {
    match m
    case RefPixelCount => SumByLayer(t.ref, classes)
    case Intersection => SumByLayer(RasterAnd(t.c1, t.ref), classes)
    case Union => SumByLayer(RasterOr(t.c1, t.ref), classes)
  }

  /**
   * Per class of a tile, the union counts the pixels set in either raster,
   * the intersection those set in both, and the intersection is at most the
   * reference count, which is at most the union; a class without a layer
   * counts 0 everywhere.
   */
  lemma TileCounts(t: Tile, classes: seq<string>, j: nat)
    requires SameRaster(t.c1, t.ref) && Texts.Distinct(classes) && j < |classes|
    ensures j < |t.ref| ==>
      && Dicts.Get(Counts(t, classes, Union), classes[j]) == CountTrue(Or(t.c1[j], t.ref[j]))
      && Dicts.Get(Counts(t, classes, Intersection), classes[j]) == CountTrue(And(t.c1[j], t.ref[j]))
      && Dicts.Get(Counts(t, classes, RefPixelCount), classes[j]) == CountTrue(t.ref[j])
    ensures j >= |t.ref| ==>
      && Dicts.Get(Counts(t, classes, Union), classes[j]) == 0
      && Dicts.Get(Counts(t, classes, Intersection), classes[j]) == 0
      && Dicts.Get(Counts(t, classes, RefPixelCount), classes[j]) == 0
  {
    if j < |t.ref| {
      SumByLayerCount(t.ref, classes, j);
      SumByLayerCount(RasterAnd(t.c1, t.ref), classes, j);
      SumByLayerCount(RasterOr(t.c1, t.ref), classes, j);
    } else {
      assert classes[j] !in classes[..Paired(|classes|, |t.ref|)];
    }
  }

  /** For every class of a tile, intersection <= reference count <= union. */
  lemma TileOrdered(t: Tile, classes: seq<string>, cl: string)
    requires SameRaster(t.c1, t.ref) && Texts.Distinct(classes)
    ensures Dicts.Get(Counts(t, classes, Intersection), cl) <= Dicts.Get(Counts(t, classes, RefPixelCount), cl)
    ensures Dicts.Get(Counts(t, classes, RefPixelCount), cl) <= Dicts.Get(Counts(t, classes, Union), cl)
  {
    if j :| 0 <= j < |classes| && j < |t.ref| && classes[j] == cl {
      TileCounts(t, classes, j);
      CountBounds(t.c1[j], t.ref[j]);
    }
  }

  /** The total of one measure for class `cl` over the tiles: the sum of the per-tile counts, 0 when missing. */
  function Total(tiles: seq<Tile>, classes: seq<string>, m: Measure, cl: string): nat
    requires WellShaped(tiles)
  {
    if |tiles| == 0 then 0
    else
      var n := |tiles| - 1;
      Total(tiles[..n], classes, m, cl) + Dicts.Get(Counts(tiles[n], classes, m), cl)
  }

  /** Summed over the tiles, intersection <= reference count <= union still holds for every class. */
  lemma {:induction false} TotalOrdered(tiles: seq<Tile>, classes: seq<string>, cl: string)
    requires WellShaped(tiles) && Texts.Distinct(classes)
    ensures Total(tiles, classes, Intersection, cl) <= Total(tiles, classes, RefPixelCount, cl)
    ensures Total(tiles, classes, RefPixelCount, cl) <= Total(tiles, classes, Union, cl)
  {
    if |tiles| > 0 {
      var n := |tiles| - 1;
      TotalOrdered(tiles[..n], classes, cl);
      TileOrdered(tiles[n], classes, cl);
    }
  }

  /** A row of the per-tile table. */
  datatype TileRow = TileRow(tile: string, classKey: string, refPixelCount: nat, intersection: nat, union: nat)

  /** A row of the total table. */
  datatype ClassRow = ClassRow(classKey: string, refPixelCount: nat, intersection: nat, union: nat)

  /** The rows one tile adds to the per-tile table: one per class, in class order, a missing count read as 0. */
  function TileRows(t: Tile, classes: seq<string>): (rows: seq<TileRow>)
    requires SameRaster(t.c1, t.ref)
    ensures |rows| == |classes|
    ensures forall j :: 0 <= j < |rows| ==>
      rows[j] == TileRow(t.name, classes[j], Dicts.Get(Counts(t, classes, RefPixelCount), classes[j]),
                         Dicts.Get(Counts(t, classes, Intersection), classes[j]),
                         Dicts.Get(Counts(t, classes, Union), classes[j]))
  {
    var refs := Counts(t, classes, RefPixelCount);
    var inters := Counts(t, classes, Intersection);
    var unions := Counts(t, classes, Union);
    seq(|classes|, j requires 0 <= j < |classes| =>
      TileRow(t.name, classes[j], Dicts.Get(refs, classes[j]), Dicts.Get(inters, classes[j]), Dicts.Get(unions, classes[j])))
  }

  /** The rows of each tile, tile by tile. */
  function TileBlocks(tiles: seq<Tile>, classes: seq<string>): (blocks: seq<seq<TileRow>>)
    requires WellShaped(tiles)
    ensures |blocks| == |tiles|
    ensures forall i :: 0 <= i < |tiles| ==> blocks[i] == TileRows(tiles[i], classes)
  {
    seq(|tiles|, i requires 0 <= i < |tiles| => TileRows(tiles[i], classes))
  }

  /** The per-tile table: the rows of every tile, in tile order. */
  function PerTileRows(tiles: seq<Tile>, classes: seq<string>): seq<TileRow>
    requires WellShaped(tiles)
  {
    Tables.Flat(TileBlocks(tiles, classes))
  }

  /** The per-tile table has `|classes|` rows per tile. */
  lemma PerTileRowsLength(tiles: seq<Tile>, classes: seq<string>)
    requires WellShaped(tiles)
    ensures |PerTileRows(tiles, classes)| == |tiles| * |classes|
  {
    Tables.FlatLength(TileBlocks(tiles, classes), |classes|);
  }

  /**
   * In the per-tile table, the rows of tile `i` (one per class, in class
   * order) come after those of the tiles before it and before those of the
   * tiles after it.
   */
  lemma PerTileRowsOf(tiles: seq<Tile>, classes: seq<string>, i: nat)
    requires WellShaped(tiles) && i < |tiles|
    ensures PerTileRows(tiles, classes)
         == PerTileRows(tiles[..i], classes) + TileRows(tiles[i], classes) + PerTileRows(tiles[i + 1..], classes)
  {
    var blocks := TileBlocks(tiles, classes);
    Tables.FlatSplit(blocks, i);
    BlocksBefore(tiles, classes, i);
    BlocksAfter(tiles, classes, i + 1);
  }

  lemma BlocksBefore(tiles: seq<Tile>, classes: seq<string>, i: nat)
    requires WellShaped(tiles) && i <= |tiles|
    ensures WellShaped(tiles[..i]) && TileBlocks(tiles, classes)[..i] == TileBlocks(tiles[..i], classes)
  {
    var a, b := TileBlocks(tiles, classes)[..i], TileBlocks(tiles[..i], classes);
    forall k | 0 <= k < i ensures a[k] == b[k] {
      assert tiles[..i][k] == tiles[k];
    }
  }

  lemma BlocksAfter(tiles: seq<Tile>, classes: seq<string>, i: nat)
    requires WellShaped(tiles) && i <= |tiles|
    ensures WellShaped(tiles[i..]) && TileBlocks(tiles, classes)[i..] == TileBlocks(tiles[i..], classes)
  {
    var a, b := TileBlocks(tiles, classes)[i..], TileBlocks(tiles[i..], classes);
    forall k | 0 <= k < |tiles| - i ensures a[k] == b[k] {
      assert tiles[i..][k] == tiles[i + k];
    }
  }

  /** The total table: one row per class with the totals over all tiles, a missing count read as 0. */
  function TotalRows(tiles: seq<Tile>, classes: seq<string>): (rows: seq<ClassRow>)
    requires WellShaped(tiles)
    ensures |rows| == |classes|
    ensures forall j :: 0 <= j < |rows| ==> rows[j].classKey == classes[j]
  {
    seq(|classes|, j requires 0 <= j < |classes| =>
      ClassRow(classes[j], Total(tiles, classes, RefPixelCount, classes[j]),
               Total(tiles, classes, Intersection, classes[j]), Total(tiles, classes, Union, classes[j])))
  }

  /** Every row of the total table has intersection <= reference count <= union. */
  lemma TotalRowsOrdered(tiles: seq<Tile>, classes: seq<string>, j: nat)
    requires WellShaped(tiles) && Texts.Distinct(classes) && j < |classes|
    ensures var row := TotalRows(tiles, classes)[j];
      row.intersection <= row.refPixelCount <= row.union
  {
    TotalOrdered(tiles, classes, classes[j]);
  }

  /** A running `Counter` holds, for every class, the total of a measure over some tiles. */
  ghost predicate Tracks(total: map<string, nat>, tiles: seq<Tile>, classes: seq<string>, m: Measure)
    requires WellShaped(tiles)
  {
    forall cl :: Dicts.Get(total, cl) == Total(tiles, classes, m, cl)
  }

  lemma TracksStep(total: map<string, nat>, tiles: seq<Tile>, i: nat, classes: seq<string>, m: Measure)
    requires WellShaped(tiles) && i < |tiles| && Tracks(total, tiles[..i], classes, m)
    ensures Tracks(Dicts.CounterAdd(total, Counts(tiles[i], classes, m)), tiles[..i + 1], classes, m)
  {
    assert tiles[..i + 1][..i] == tiles[..i];
  }

  lemma PerTileRowsStep(tiles: seq<Tile>, i: nat, classes: seq<string>)
    requires WellShaped(tiles) && i < |tiles|
    ensures PerTileRows(tiles[..i + 1], classes) == PerTileRows(tiles[..i], classes) + TileRows(tiles[i], classes)
  {
    var blocks := TileBlocks(tiles[..i + 1], classes);
    assert blocks[..i] == TileBlocks(tiles[..i], classes);
  }

  /**
   * `compute_metric_relative`: classes in sorted order, one pass over the
   * tiles that appends each tile's rows and adds its three count
   * dictionaries to the running `Counter`s, then one total row per class.
   */
  method ComputeMetricRelative(tiles: seq<Tile>, weightKeys: seq<string>)
    returns (tileRows: seq<TileRow>, totalRows: seq<ClassRow>)
    requires WellShaped(tiles)
    ensures var classes := Texts.SortStrings(weightKeys);
      && tileRows == PerTileRows(tiles, classes)
      && totalRows == TotalRows(tiles, classes)
  {
    var classes := Texts.SortStrings(weightKeys);
    var totalRef: map<string, nat> := map[];
    var totalUnion: map<string, nat> := map[];
    var totalIntersection: map<string, nat> := map[];
    tileRows := [];
    var i := 0;
    while i < |tiles|
      invariant 0 <= i <= |tiles|
      invariant tileRows == PerTileRows(tiles[..i], classes)
      invariant Tracks(totalRef, tiles[..i], classes, RefPixelCount)
      invariant Tracks(totalIntersection, tiles[..i], classes, Intersection)
      invariant Tracks(totalUnion, tiles[..i], classes, Union)
    {
      var t := tiles[i];
      var union := Counts(t, classes, Union);
      var intersection := Counts(t, classes, Intersection);
      var refPixelCount := Counts(t, classes, RefPixelCount);
      TracksStep(totalRef, tiles, i, classes, RefPixelCount);
      TracksStep(totalUnion, tiles, i, classes, Union);
      TracksStep(totalIntersection, tiles, i, classes, Intersection);
      totalRef := Dicts.CounterAdd(totalRef, refPixelCount);
      totalUnion := Dicts.CounterAdd(totalUnion, union);
      totalIntersection := Dicts.CounterAdd(totalIntersection, intersection);
      tileRows := tileRows + TileRows(t, classes);
      PerTileRowsStep(tiles, i, classes);
      i := i + 1;
    }
    assert tiles[..i] == tiles;
    assert Tracks(totalRef, tiles, classes, RefPixelCount);
    totalRows := seq(|classes|, j requires 0 <= j < |classes| =>
      ClassRow(classes[j], Dicts.Get(totalRef, classes[j]), Dicts.Get(totalIntersection, classes[j]),
               Dicts.Get(totalUnion, classes[j])));
  }
}
