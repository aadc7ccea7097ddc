/**
 * Occupancy maps (`coclico/metrics/occupancy_map.py`): a boolean grid per
 * class key, a cell being set when at least one point of the class falls in
 * that pixel. Row 0 is the top of the map (largest y), column 0 its left.
 */
module OccupancyMap {
  import Texts
  import Rasters

  /**
   * The raster geometry `get_raster_geometry_from_las_bounds` computes from
   * the cloud's bounds: the pixel size, the centre of the upper-left pixel
   * and the number of pixels along x and y.
   */
  datatype Geometry = Geometry(pixelSize: real, xMin: real, yMax: real, nx: nat, ny: nat)

  /** The left edge of the map, half a pixel left of the first pixel centre. */
  function Left(g: Geometry): real {
    g.xMin - g.pixelSize / 2.0
  }

  /** The top edge of the map, half a pixel above the first pixel centre. */
  function Top(g: Geometry): real {
    g.yMax + g.pixelSize / 2.0
  }

  /**
   * A coordinate the painting can index: right of the left edge and below the
   * top edge. The index is only clamped from above, so a point left of or
   * above the map would give a negative index.
   */
  predicate Inside(g: Geometry, x: real, y: real) {
    x >= Left(g) && y <= Top(g)
  }

  predicate ValidGeometry(g: Geometry) {
    g.pixelSize > 0.0 && g.nx > 0 && g.ny > 0
  }

  /**
   * `min(int((x - (x_min - p/2)) / p), nx - 1)`: the pixel column holding `x`,
   * the last one for points right of the map (`int` truncates toward zero,
   * which is the floor of a non-negative quotient).
   */
  function Column(g: Geometry, x: real): (c: nat)
    requires ValidGeometry(g) && x >= Left(g)
    ensures c < g.nx
    ensures Left(g) + c as real * g.pixelSize <= x
    ensures c < g.nx - 1 ==> x < Left(g) + (c + 1) as real * g.pixelSize
  {
    var t := (x - Left(g)) / g.pixelSize;
    Quotient(x - Left(g), g.pixelSize);
    if t.Floor < g.nx - 1 then t.Floor else g.nx - 1
  }

  /** `min(int(((y_max + p/2) - y) / p), ny - 1)`: the pixel row holding `y`, counted from the top. */
  function Row(g: Geometry, y: real): (r: nat)
    requires ValidGeometry(g) && y <= Top(g)
    ensures r < g.ny
    ensures r as real * g.pixelSize <= Top(g) - y
    ensures r < g.ny - 1 ==> Top(g) - y < (r + 1) as real * g.pixelSize
  {
    var t := (Top(g) - y) / g.pixelSize;
    Quotient(Top(g) - y, g.pixelSize);
    if t.Floor < g.ny - 1 then t.Floor else g.ny - 1
  }

  /** The floor of a non-negative quotient is non-negative and brackets the dividend. */
  lemma Quotient(a: real, p: real)
    requires a >= 0.0 && p > 0.0
    ensures (a / p).Floor >= 0
    ensures (a / p).Floor as real * p <= a < ((a / p).Floor + 1) as real * p
  {
    var f := (a / p).Floor;
    var lo := f as real;
    Bracket(a, p, lo);
    assert (f + 1) as real == lo + 1.0;
  }

  /** An integral real bracketing the quotient `a / p` brackets `a` by multiples of `p`. */
  lemma Bracket(a: real, p: real, lo: real)
    requires p > 0.0 && lo <= a / p < lo + 1.0
    ensures lo * p <= a < (lo + 1.0) * p
    ensures a >= 0.0 ==> a / p >= 0.0
  {
    var t := a / p;
    var hi := lo + 1.0;
    Upper(t, hi, p, a);
    Lower(t, lo, p, a);
  }

  lemma Upper(t: real, v: real, p: real, a: real)
    requires p > 0.0 && t < v && t * p == a
    ensures a < v * p
  {
    assert (v - t) * p > 0.0;
  }

  lemma Lower(t: real, v: real, p: real, a: real)
    requires p > 0.0 && v <= t && t * p == a
    ensures v * p <= a
  {
    assert (t - v) * p >= 0.0;
  }

  lemma Scale(u: real, v: real, p: real)
    requires p > 0.0
    ensures u <= v ==> u * p <= v * p
    ensures u < v ==> u * p < v * p
  {
  }

  /** Painting a point far right of the map still sets a cell, in the last column. */
  lemma ColumnClamped(g: Geometry, x: real)
    requires ValidGeometry(g) && x >= Left(g) + g.nx as real * g.pixelSize
    ensures Column(g, x) == g.nx - 1
  {
    var c := Column(g, x);
    LastIndex(c, g.nx, g.pixelSize, x - Left(g));
  }

  /** An index below `n` whose cell ends past the offset is the last one when the offset reaches `n` cells. */
  lemma LastIndex(c: nat, n: nat, p: real, d: real)
    requires p > 0.0 && c < n && d >= n as real * p
    requires c < n - 1 ==> d < (c + 1) as real * p
    ensures c == n - 1
  {
    if c < n - 1 {
      Scale((c + 1) as real, n as real, p);
      assert false;
    }
  }

  /** The `zip(xs, ys)` of the painting loop: as many points as the shorter sequence. */
  function Paired(n: nat, m: nat): (p: nat)
    ensures p <= n && p <= m && (p == n || p == m)
  {
    if n <= m then n else m
  }

  /** Every point the painting visits can be indexed. */
  predicate AllInside(g: Geometry, xs: seq<real>, ys: seq<real>) {
    forall i :: 0 <= i < Paired(|xs|, |ys|) ==> Inside(g, xs[i], ys[i])
  }

  /** The grid can be painted: a valid geometry as soon as there is a point, and every point inside. */
  predicate Paintable(g: Geometry, xs: seq<real>, ys: seq<real>) {
    && (Paired(|xs|, |ys|) > 0 ==> ValidGeometry(g))
    && AllInside(g, xs, ys)
  }

  /** One of the first `k` points falls in cell `(r, c)`. */
  predicate HitBy(g: Geometry, xs: seq<real>, ys: seq<real>, k: nat, r: nat, c: nat)
    requires Paintable(g, xs, ys) && k <= Paired(|xs|, |ys|)
  {
    exists i :: 0 <= i < k && Row(g, ys[i]) == r && Column(g, xs[i]) == c
  }

  /** The occupancy map of a set of points, row by row. */
  function Occupancy(g: Geometry, xs: seq<real>, ys: seq<real>): (m: Rasters.Mask)
    requires Paintable(g, xs, ys)
    ensures |m| == g.ny && forall r :: 0 <= r < g.ny ==> |m[r]| == g.nx
  {
    var n := Paired(|xs|, |ys|);
    seq(g.ny, r requires 0 <= r < g.ny =>
      seq(g.nx, c requires 0 <= c < g.nx => HitBy(g, xs, ys, n, r, c)))
  }

  /** The cells no earlier point touched, and the one the current point falls in. */
  lemma HitByStep(g: Geometry, xs: seq<real>, ys: seq<real>, k: nat, r: nat, c: nat)
    requires Paintable(g, xs, ys) && k < Paired(|xs|, |ys|)
    ensures HitBy(g, xs, ys, k + 1, r, c)
      <==> HitBy(g, xs, ys, k, r, c) || (Row(g, ys[k]) == r && Column(g, xs[k]) == c)
  {
    if HitBy(g, xs, ys, k + 1, r, c) && !(Row(g, ys[k]) == r && Column(g, xs[k]) == c) {
      var i :| 0 <= i < k + 1 && Row(g, ys[i]) == r && Column(g, xs[i]) == c;
      assert i < k;
    }
  }

  /**
   * `_create_2d_occupancy_array`: a `ny` by `nx` grid, all false, where the
   * pixel of every point is set in turn. A set cell is never reset, so the
   * result is the occupancy map of the points.
   */
  method CreateOccupancyArray(g: Geometry, xs: seq<real>, ys: seq<real>) returns (grid: array2<bool>)
    requires Paintable(g, xs, ys)
    ensures fresh(grid) && grid.Length0 == g.ny && grid.Length1 == g.nx
    ensures forall r, c :: 0 <= r < g.ny && 0 <= c < g.nx ==> grid[r, c] == Occupancy(g, xs, ys)[r][c]
  {
    grid := new bool[g.ny, g.nx]((_, _) => false);
    var n := Paired(|xs|, |ys|);
    var i := 0;
    while i < n
      invariant 0 <= i <= n
      invariant forall r, c :: 0 <= r < g.ny && 0 <= c < g.nx ==> grid[r, c] == HitBy(g, xs, ys, i, r, c)
    {
      var gx := Column(g, xs[i]);
      var gy := Row(g, ys[i]);
      forall r, c | 0 <= r < g.ny && 0 <= c < g.nx {
        HitByStep(g, xs, ys, i, r, c);
      }
      grid[gy, gx] := true;
      i := i + 1;
    }
  }

  /** The points the painting visits, as a set of coordinate pairs. */
  function PointSet(xs: seq<real>, ys: seq<real>): set<(real, real)> {
    set i | 0 <= i < Paired(|xs|, |ys|) :: (xs[i], ys[i])
  }

  /** A cell is set exactly when some visited point lies in it. */
  lemma OccupancyOfPoints(g: Geometry, xs: seq<real>, ys: seq<real>, r: nat, c: nat)
    requires Paintable(g, xs, ys) && r < g.ny && c < g.nx
    ensures Occupancy(g, xs, ys)[r][c]
      <==> exists pt :: pt in PointSet(xs, ys) && Row(g, pt.1) == r && Column(g, pt.0) == c
  {
    var n := Paired(|xs|, |ys|);
    var pts := PointSet(xs, ys);
    assert Occupancy(g, xs, ys)[r][c] == HitBy(g, xs, ys, n, r, c);
    if HitBy(g, xs, ys, n, r, c) {
      var i :| 0 <= i < n && Row(g, ys[i]) == r && Column(g, xs[i]) == c;
      assert (xs[i], ys[i]) in pts;
    }
    if exists pt :: pt in pts && Row(g, pt.1) == r && Column(g, pt.0) == c {
      var pt :| pt in pts && Row(g, pt.1) == r && Column(g, pt.0) == c;
      var i :| 0 <= i < n && pt == (xs[i], ys[i]);
      assert HitBy(g, xs, ys, n, r, c);
    }
  }

  /**
   * The map does not depend on the order of the points nor on repeated
   * points: two point lists with the same points give the same map.
   */
  lemma OccupancySamePoints(g: Geometry, xs: seq<real>, ys: seq<real>, xs': seq<real>, ys': seq<real>)
    requires Paintable(g, xs, ys) && Paintable(g, xs', ys')
    requires PointSet(xs, ys) == PointSet(xs', ys')
    ensures Occupancy(g, xs, ys) == Occupancy(g, xs', ys')
  {
    var m, m' := Occupancy(g, xs, ys), Occupancy(g, xs', ys');
    forall r, c | 0 <= r < g.ny && 0 <= c < g.nx
      ensures m[r][c] == m'[r][c]
    {
      OccupancyOfPoints(g, xs, ys, r, c);
      OccupancyOfPoints(g, xs', ys', r, c);
    }
    forall r | 0 <= r < g.ny ensures m[r] == m'[r] {
      assert forall c :: 0 <= c < g.nx ==> m[r][c] == m'[r][c];
    }
  }

  // ---------------------------------------------------------------- one layer per class key

  /** A point of the cloud: its coordinates and its classification. */
  datatype LasPoint = LasPoint(x: real, y: real, classification: int)

  /** `points[np.isin(classifs, classes)]`: the points of the given classes, in cloud order. */
  function Select(points: seq<LasPoint>, classes: set<int>): (r: seq<LasPoint>)
    ensures forall q :: q in r <==> q in points && q.classification in classes
  {
    if |points| == 0 then []
    else
      var rest := Select(points[1..], classes);
      assert forall q :: q in points <==> q == points[0] || q in points[1..];
      if points[0].classification in classes then [points[0]] + rest else rest
  }

  function Xs(points: seq<LasPoint>): (xs: seq<real>)
    ensures |xs| == |points| && forall i :: 0 <= i < |points| ==> xs[i] == points[i].x
  {
    seq(|points|, i requires 0 <= i < |points| => points[i].x)
  }

  function Ys(points: seq<LasPoint>): (ys: seq<real>)
    ensures |ys| == |points| && forall i :: 0 <= i < |points| ==> ys[i] == points[i].y
  {
    seq(|points|, i requires 0 <= i < |points| => points[i].y)
  }

  /** Every point of the cloud can be painted. */
  predicate CloudInside(g: Geometry, points: seq<LasPoint>) {
    ValidGeometry(g) && forall i :: 0 <= i < |points| ==> Inside(g, points[i].x, points[i].y)
  }

  lemma SelectInside(g: Geometry, points: seq<LasPoint>, classes: set<int>)
    requires CloudInside(g, points)
    ensures CloudInside(g, Select(points, classes))
    ensures Paintable(g, Xs(Select(points, classes)), Ys(Select(points, classes)))
  {
    var s := Select(points, classes);
    forall i | 0 <= i < |s| ensures Inside(g, s[i].x, s[i].y) {
      assert s[i] in points;
    }
  }

  /** `create_binary_map_from_class`: the occupancy map of the points of the given classes. */
  function Layer(g: Geometry, points: seq<LasPoint>, classes: set<int>): (m: Rasters.Mask)
    requires CloudInside(g, points)
    ensures |m| == g.ny && forall r :: 0 <= r < g.ny ==> |m[r]| == g.nx
  {
    SelectInside(g, points, classes);
    var s := Select(points, classes);
    Occupancy(g, Xs(s), Ys(s))
  }

  /** A cell of a class layer is set exactly when a point of one of the classes lies in it. */
  lemma LayerCell(g: Geometry, points: seq<LasPoint>, classes: set<int>, r: nat, c: nat)
    requires CloudInside(g, points) && r < g.ny && c < g.nx
    ensures Layer(g, points, classes)[r][c]
      <==> exists q :: q in points && q.classification in classes && Row(g, q.y) == r && Column(g, q.x) == c
  {
    SelectInside(g, points, classes);
    var s := Select(points, classes);
    var xs, ys := Xs(s), Ys(s);
    OccupancyOfPoints(g, xs, ys, r, c);
    if exists q :: q in points && q.classification in classes && Row(g, q.y) == r && Column(g, q.x) == c {
      var q :| q in points && q.classification in classes && Row(g, q.y) == r && Column(g, q.x) == c;
      var i :| 0 <= i < |s| && s[i] == q;
      assert (xs[i], ys[i]) in PointSet(xs, ys);
    }
    if Layer(g, points, classes)[r][c] {
      var pt :| pt in PointSet(xs, ys) && Row(g, pt.1) == r && Column(g, pt.0) == c;
      var i :| 0 <= i < |s| && pt == (xs[i], ys[i]);
      assert s[i] in points;
    }
  }

  /** A class key none of whose classes has a point gives an all-false layer. */
  lemma LayerEmpty(g: Geometry, points: seq<LasPoint>, classes: set<int>)
    requires CloudInside(g, points)
    requires forall i :: 0 <= i < |points| ==> points[i].classification !in classes
    ensures forall r, c :: 0 <= r < g.ny && 0 <= c < g.nx ==> !Layer(g, points, classes)[r][c]
  {
    forall r, c | 0 <= r < g.ny && 0 <= c < g.nx
      ensures !Layer(g, points, classes)[r][c]
    {
      LayerCell(g, points, classes, r, c);
    }
  }

  /**
   * `create_occupancy_map_array` once the geometry is known: one layer per
   * class key, in sorted key order. `classesOf` stands for
   * `split_composed_class` followed by `int` on each part.
   */
  function OccupancyLayers(g: Geometry, points: seq<LasPoint>, classKeys: seq<string>,
                           classesOf: string -> set<int>): (layers: seq<Rasters.Mask>)
    requires CloudInside(g, points)
    ensures |layers| == |classKeys|
    ensures forall j :: 0 <= j < |layers| ==>
      layers[j] == Layer(g, points, classesOf(Texts.SortStrings(classKeys)[j]))
  {
    var keys := Texts.SortStrings(classKeys);
    seq(|keys|, j requires 0 <= j < |keys| => Layer(g, points, classesOf(keys[j])))
  }

  /** The layers follow the keys in sorted order, each key once. */
  lemma OccupancyLayersOrder(classKeys: seq<string>)
    requires Texts.Distinct(classKeys)
    ensures var keys := Texts.SortStrings(classKeys);
      && (forall k :: k in keys <==> k in classKeys)
      && forall i, j :: 0 <= i < j < |keys| ==> Texts.Less(keys[i], keys[j])
  {
    Texts.SortDistinct(classKeys);
  }
}
