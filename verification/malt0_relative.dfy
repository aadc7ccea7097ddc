/**
 * MALT0 relative metric (`coclico/malt0/malt0_relative.py`): per tile and per
 * class layer, statistics of the absolute height difference between the
 * classification's and the reference's rasters over the occupied pixels,
 * aggregated over all tiles with Chan's parallel-variance update, and turned
 * into notes by the legacy fixed-weight note.
 *
 * A layer without any occupied pixel has masked statistics (numpy masked
 * arrays); here `Masked`, which, as in numpy, contaminates every later
 * aggregate of that class while the pixel count stays defined.
 */
module Malt0Relative {
  import opened Wrappers
  import opened Commons
  import Texts
  import Dicts
  import opened Rasters

  // ---------------------------------------------------------------- rasters

  /** One raster layer, row by row. */
  type Grid = seq<seq<real>>
  predicate SameShape(g: Grid, m: Mask) {
    |g| == |m| && forall r :: 0 <= r < |g| ==> |g[r]| == |m[r]|
  }

  predicate SameGrid(a: Grid, b: Grid) {
    |a| == |b| && forall r :: 0 <= r < |a| ==> |a[r]| == |b[r]|
  }

  function Abs(x: real): real { if x < 0.0 then -x else x }

  /** `np.abs(c1_raster - ref_raster)` on one layer. */
  function AbsDiff(a: Grid, b: Grid): (d: Grid)
    requires SameGrid(a, b)
    ensures SameGrid(d, a)
    ensures forall r, c :: 0 <= r < |d| && 0 <= c < |d[r]| ==> d[r][c] == Abs(a[r][c] - b[r][c]) >= 0.0
  {
    seq(|a|, r requires 0 <= r < |a| => seq(|a[r]|, c requires 0 <= c < |a[r]| => Abs(a[r][c] - b[r][c])))
  }

  function RowOccupied(row: seq<real>, occ: seq<bool>): (vs: seq<real>)
    requires |row| == |occ|
    ensures |vs| <= |row|
    ensures forall v :: v in vs ==> v in row
  {
    if |row| == 0 then [] else (if occ[0] then [row[0]] else []) + RowOccupied(row[1..], occ[1..])
  }

  /** The values of the occupied pixels of a layer, in row-major order (the unmasked cells). */
  function OccupiedValues(g: Grid, m: Mask): seq<real>
    requires SameShape(g, m)
  {
    if |g| == 0 then [] else RowOccupied(g[0], m[0]) + OccupiedValues(g[1..], m[1..])
  }

  /** The pixel count of a layer is the number of its occupied pixels. */
  lemma {:induction false} OccupiedCount(g: Grid, m: Mask)
    requires SameShape(g, m)
    ensures |OccupiedValues(g, m)| == CountTrue(m)
  {
    if |g| > 0 {
      RowOccupiedCount(g[0], m[0]);
      OccupiedCount(g[1..], m[1..]);
    }
  }

  lemma {:induction false} RowOccupiedCount(row: seq<real>, occ: seq<bool>)
    requires |row| == |occ|
    ensures |RowOccupied(row, occ)| == CountRow(occ)
  {
    if |row| > 0 {
      RowOccupiedCount(row[1..], occ[1..]);
    }
  }

  /** Stacking two layers one above the other (numpy `concatenate` on the row axis) concatenates their occupied values. */
  lemma {:induction false} OccupiedStack(g1: Grid, m1: Mask, g2: Grid, m2: Mask)
    requires SameShape(g1, m1) && SameShape(g2, m2)
    ensures SameShape(g1 + g2, m1 + m2)
    ensures OccupiedValues(g1 + g2, m1 + m2) == OccupiedValues(g1, m1) + OccupiedValues(g2, m2)
  {
    var g, m := g1 + g2, m1 + m2;
    assert SameShape(g, m) by {
      forall r | 0 <= r < |g| ensures |g[r]| == |m[r]| {
        if r < |g1| { assert g[r] == g1[r] && m[r] == m1[r]; }
        else { assert g[r] == g2[r - |g1|] && m[r] == m2[r - |g1|]; }
      }
    }
    if |g1| > 0 {
      assert g[1..] == g1[1..] + g2 && m[1..] == m1[1..] + m2;
      OccupiedStack(g1[1..], m1[1..], g2, m2);
    } else {
      assert g == g2 && m == m2;
    }
  }

  // ---------------------------------------------------------------- statistics

  function Sum(xs: seq<real>): real {
    if |xs| == 0 then 0.0 else xs[0] + Sum(xs[1..])
  }

  /** The largest value (`ma.max`). */
  function MaxOf(xs: seq<real>): (m: real)
    requires |xs| > 0
    ensures forall i :: 0 <= i < |xs| ==> xs[i] <= m
    ensures m in xs
  {
    if |xs| == 1 then xs[0] else Max(xs[0], MaxOf(xs[1..]))
  }

  /** The sum of squared distances of the values to `c`. */
  function SqDev(xs: seq<real>, c: real): real {
    if |xs| == 0 then 0.0 else Square(xs[0] - c) + SqDev(xs[1..], c)
  }

  function Square(x: real): real { x * x }

  function Mean(xs: seq<real>): (m: real)
    requires |xs| > 0
    ensures m * |xs| as real == Sum(xs)
  {
    Sum(xs) / |xs| as real
  }

  /** The population variance of the values, the square of `ma.std`. */
  function Variance(xs: seq<real>): real
    requires |xs| > 0
  {
    SqDev(xs, Mean(xs)) / |xs| as real
  }

  /** The statistics of one class over some pixels: maximum, pixel count, mean and M2 (sum of squared distances to the mean). */
  datatype Stat = Stat(max: real, count: nat, mean: real, m2: real)

  /** The per-class running value: defined statistics, or masked statistics with a defined pixel count. */
  datatype Running = Defined(stat: Stat) | Masked(count: nat)

  function Count(r: Running): nat {
    match r
    case Defined(s) => s.count
    case Masked(n) => n
  }

  /**
   * `compute_stats_single_raster` for one layer, given its occupied values:
   * masked when no pixel is occupied.
   */
  function StatsOf(xs: seq<real>): (r: Running)
    ensures Count(r) == |xs|
    ensures r.Defined? <==> |xs| > 0
    ensures r.Defined? ==> r.stat.max in xs && forall i :: 0 <= i < |xs| ==> xs[i] <= r.stat.max
    ensures r.Defined? ==> r.stat.mean * |xs| as real == Sum(xs)
  {
    if |xs| == 0 then Masked(0)
    else Defined(Stat(MaxOf(xs), |xs|, Mean(xs), SqDev(xs, Mean(xs))))
  }

  /** The merged mean: the count-weighted average of the two means. */
  function MergedMean(p: Stat, c: Stat): real
    requires p.count + c.count > 0
  {
    var n := p.count as real + c.count as real;
    p.count as real / n * p.mean + c.count as real / n * c.mean
  }

  /** The merged M2: both M2 plus Chan's correction for the distance between the two means. */
  function MergedM2(p: Stat, c: Stat): real
    requires p.count + c.count > 0
  {
    var delta := p.mean - c.mean;
    p.m2 + c.m2 + delta * delta * p.count as real * c.count as real / (p.count as real + c.count as real)
  }

  /**
   * `update_overall_stats`: merges the statistics of one more raster into the
   * running statistics. Masked statistics on either side give masked ones.
   * The source divides by the new pixel count without a guard.
   */
  function Update(prev: Running, cur: Running): (r: Running)
    requires prev.Defined? && cur.Defined? ==> prev.stat.count + cur.stat.count > 0
    ensures Count(r) == Count(prev) + Count(cur)
    ensures r.Defined? <==> prev.Defined? && cur.Defined?
    ensures r.Defined? ==> r.stat.max == Max(prev.stat.max, cur.stat.max)
  {
    if prev.Defined? && cur.Defined? then
      var p, c := prev.stat, cur.stat;
      Defined(Stat(Max(p.max, c.max), p.count + c.count, MergedMean(p, c), MergedM2(p, c)))
    else Masked(Count(prev) + Count(cur))
  }

  /** `update_overall_stats` on the arrays of all classes at once: class by class. */
  function UpdateAll(totals: seq<Running>, stats: seq<Running>): (r: seq<Running>)
    requires |stats| == |totals|
    requires forall k :: 0 <= k < |stats| && stats[k].Defined? ==> stats[k].stat.count > 0
    ensures |r| == |totals|
    ensures forall k :: 0 <= k < |r| ==> Count(r[k]) == Count(totals[k]) + Count(stats[k])
  {
    seq(|totals|, k requires 0 <= k < |totals| => Update(totals[k], stats[k]))
  }

  lemma {:induction false} SumConcat(xs: seq<real>, ys: seq<real>)
    ensures Sum(xs + ys) == Sum(xs) + Sum(ys)
  {
    if |xs| > 0 {
      assert (xs + ys)[1..] == xs[1..] + ys;
      SumConcat(xs[1..], ys);
    } else {
      assert xs + ys == ys;
    }
  }

  lemma {:induction false} SqDevConcat(xs: seq<real>, ys: seq<real>, c: real)
    ensures SqDev(xs + ys, c) == SqDev(xs, c) + SqDev(ys, c)
  {
    if |xs| > 0 {
      assert (xs + ys)[1..] == xs[1..] + ys;
      SqDevConcat(xs[1..], ys, c);
    } else {
      assert xs + ys == ys;
    }
  }

  lemma MaxConcat(xs: seq<real>, ys: seq<real>)
    requires |xs| > 0 && |ys| > 0
    ensures MaxOf(xs + ys) == Max(MaxOf(xs), MaxOf(ys))
  {
    var m, a, b := MaxOf(xs + ys), MaxOf(xs), MaxOf(ys);
    assert a in xs + ys && b in xs + ys;
    forall i | 0 <= i < |xs| ensures xs[i] <= m { assert xs[i] == (xs + ys)[i]; }
    forall i | 0 <= i < |ys| ensures ys[i] <= m { assert ys[i] == (xs + ys)[|xs| + i]; }
  }

  /**
   * `a` and `b`, the squared distances of `m` values summing to `s` to the
   * centres `c` and `d`, differ by the shift from `d` to `c`.
   */
  predicate Shifted(a: real, b: real, c: real, d: real, s: real, m: real) {
    a == b + 2.0 * (d - c) * (s - m * d) + m * (d - c) * (d - c)
  }

  /** Moving the centre of the squared distances from `d` to `c`. */
  lemma {:induction false} SqDevShift(xs: seq<real>, c: real, d: real)
    ensures Shifted(SqDev(xs, c), SqDev(xs, d), c, d, Sum(xs), |xs| as real)
  {
    if |xs| > 0 {
      var rest := xs[1..];
      SqDevShift(rest, c, d);
      ShiftStep(xs[0], c, d, Sum(rest), |rest| as real, SqDev(rest, c), SqDev(rest, d),
                SqDev(xs, c), SqDev(xs, d), Sum(xs), |xs| as real);
    } else {
      ShiftEmpty(c, d, SqDev(xs, c), SqDev(xs, d), Sum(xs), |xs| as real);
    }
  }

  lemma ShiftEmpty(c: real, d: real, a: real, b: real, s: real, m: real)
    requires a == 0.0 && b == 0.0 && s == 0.0 && m == 0.0
    ensures Shifted(a, b, c, d, s, m)
  {
  }

  /** One more value `x` keeps the shift identity, for sums `s`, counts `m` and squared distances `a`, `b`. */
  lemma ShiftStep(x: real, c: real, d: real, s: real, m: real, a: real, b: real,
                  a': real, b': real, s': real, m': real)
    requires Shifted(a, b, c, d, s, m)
    requires a' == Square(x - c) + a && b' == Square(x - d) + b && s' == x + s && m' == m + 1.0
    ensures Shifted(a', b', c, d, s', m')
  {
    var k := d - c;
    assert (x - c) * (x - c) == (x - d) * (x - d) + 2.0 * k * (x - d) + k * k;
    assert 2.0 * k * (s' - m' * d) == 2.0 * k * (x - d) + 2.0 * k * (s - m * d);
    assert m' * k * k == m * k * k + k * k;
  }

  /** The correction term of Chan's update: the spread of two group means around their common mean. */
  lemma ChanAlgebra(na: real, nb: real, ma: real, mb: real)
    requires na > 0.0 && nb > 0.0
    ensures var mu := (na * ma + nb * mb) / (na + nb);
      na * (ma - mu) * (ma - mu) + nb * (mb - mu) * (mb - mu) == (ma - mb) * (ma - mb) * na * nb / (na + nb)
  {
    var n := na + nb;
    var mu := (na * ma + nb * mb) / n;
    var d := ma - mb;
    assert mu * n == na * ma + nb * mb;
    assert (ma - mu) * n == nb * d;
    assert (mb - mu) * n == -(na * d);
    var l := na * (ma - mu) * (ma - mu) + nb * (mb - mu) * (mb - mu);
    assert l * n * n == na * (nb * d) * (nb * d) + nb * (na * d) * (na * d);
    assert l * n * n == d * d * na * nb * n;
    assert l * n == d * d * na * nb;
  }

  /** Squared distances to any centre are those to the mean plus the count times the squared offset. */
  lemma CentredShift(xs: seq<real>, c: real)
    requires |xs| > 0
    ensures SqDev(xs, c) == Offset(StatsOf(xs).stat, c)
  {
    var m := Mean(xs);
    SqDevShift(xs, c, m);
    CentredStep(SqDev(xs, c), StatsOf(xs).stat, Sum(xs), c, m, |xs| as real);
  }

  /** Around the mean the cross term of the shift vanishes. */
  lemma CentredStep(a: real, st: Stat, s: real, c: real, m: real, n: real)
    requires st.mean == m && st.count as real == n && n > 0.0 && m * n == s
    requires Shifted(a, st.m2, c, m, s, n)
    ensures a == Offset(st, c)
  {
    assert s - n * m == 0.0;
    assert 2.0 * (m - c) * (s - n * m) == 0.0;
  }

  lemma MeanMerge(na: real, nb: real, ma: real, mb: real, mu: real)
    requires na > 0.0 && nb > 0.0
    requires mu * (na + nb) == ma * na + mb * nb
    ensures na / (na + nb) * ma + nb / (na + nb) * mb == mu
    ensures mu == (na * ma + nb * mb) / (na + nb)
  {
  }

  /**
   * Chan's parallel-variance merge is exact: merging the statistics of two
   * non-empty pixel sets gives the statistics of their union.
   */
  lemma ChanMerge(xs: seq<real>, ys: seq<real>)
    requires |xs| > 0 && |ys| > 0
    ensures Update(StatsOf(xs), StatsOf(ys)) == StatsOf(xs + ys)
  {
    MaxConcat(xs, ys);
    ChanMean(xs, ys);
    ChanM2(xs, ys);
  }

  lemma ChanMean(xs: seq<real>, ys: seq<real>)
    requires |xs| > 0 && |ys| > 0
    ensures MergedMean(StatsOf(xs).stat, StatsOf(ys).stat) == Mean(xs + ys)
  {
    MeanOfConcat(xs, ys);
    MergedMeanIs(StatsOf(xs).stat, StatsOf(ys).stat, Mean(xs + ys));
  }

  lemma ChanM2(xs: seq<real>, ys: seq<real>)
    requires |xs| > 0 && |ys| > 0
    ensures MergedM2(StatsOf(xs).stat, StatsOf(ys).stat) == SqDev(xs + ys, Mean(xs + ys))
  {
    var a, b := StatsOf(xs).stat, StatsOf(ys).stat;
    ChanMean(xs, ys);
    SqDevOfConcat(xs, ys, Mean(xs + ys));
    SpreadAtMergedMean(a, b);
  }

  /** The squared distances of one group to `c`, from its statistics alone. */
  function Offset(a: Stat, c: real): real {
    a.m2 + a.count as real * (a.mean - c) * (a.mean - c)
  }

  /** The squared distances of two groups to `mu`, from their statistics alone. */
  function Spread(a: Stat, b: Stat, mu: real): real {
    Offset(a, mu) + Offset(b, mu)
  }

  /** Around the merged mean, the spread of two groups is Chan's merged M2. */
  lemma SpreadAtMergedMean(a: Stat, b: Stat)
    requires a.count > 0 && b.count > 0
    ensures Spread(a, b, MergedMean(a, b)) == MergedM2(a, b)
  {
    var na, nb := a.count as real, b.count as real;
    var mu := MergedMean(a, b);
    assert mu == (na * a.mean + nb * b.mean) / (na + nb);
    ChanAlgebra(na, nb, a.mean, b.mean);
  }

  /** The mean of the union, weighted by the two counts. */
  lemma MeanOfConcat(xs: seq<real>, ys: seq<real>)
    requires |xs| > 0 && |ys| > 0
    ensures Mean(xs + ys) * (|xs| as real + |ys| as real) == Mean(xs) * |xs| as real + Mean(ys) * |ys| as real
  {
    SumConcat(xs, ys);
  }

  /** The squared distances of the union to `mu` split into each part's M2 and the offset of each part's mean. */
  lemma SqDevOfConcat(xs: seq<real>, ys: seq<real>, mu: real)
    requires |xs| > 0 && |ys| > 0
    ensures SqDev(xs + ys, mu) == Spread(StatsOf(xs).stat, StatsOf(ys).stat, mu)
  {
    SqDevConcat(xs, ys, mu);
    CentredShift(xs, mu);
    CentredShift(ys, mu);
  }

  lemma MergedMeanIs(a: Stat, b: Stat, mu: real)
    requires a.count > 0 && b.count > 0
    requires mu * (a.count as real + b.count as real) == a.mean * a.count as real + b.mean * b.count as real
    ensures MergedMean(a, b) == mu
  {
    MeanMerge(a.count as real, b.count as real, a.mean, b.mean, mu);
  }

  /** The first layer of the source's single-raster test: occupied values, maximum, count, mean and M2. */
  lemma StatsExampleFirstLayer()
    ensures var g := [[0.0, 0.0, 2.0], [1.0, 1.0, 2.0], [2.0, 2.0, 10.0]];
      var m := [[false, false, false], [true, true, true], [true, true, false]];
      StatsOf(OccupiedValues(g, m)) == Defined(Stat(2.0, 5, 1.6, 1.2))
  {
    FirstLayerValues();
    FirstLayerStats();
  }

  lemma FirstLayerValues()
    ensures var g := [[0.0, 0.0, 2.0], [1.0, 1.0, 2.0], [2.0, 2.0, 10.0]];
      var m := [[false, false, false], [true, true, true], [true, true, false]];
      OccupiedValues(g, m) == [1.0, 1.0, 2.0, 2.0, 2.0]
  {
    var g := [[0.0, 0.0, 2.0], [1.0, 1.0, 2.0], [2.0, 2.0, 10.0]];
    var m := [[false, false, false], [true, true, true], [true, true, false]];
    assert RowOccupied(g[2], m[2]) == [2.0, 2.0];
    assert OccupiedValues(g[2..], m[2..]) == [2.0, 2.0];
  }

  lemma FirstLayerStats()
    ensures StatsOf([1.0, 1.0, 2.0, 2.0, 2.0]) == Defined(Stat(2.0, 5, 1.6, 1.2))
  {
    var xs := [1.0, 1.0, 2.0, 2.0, 2.0];
    assert Sum(xs) == 8.0;
    assert Mean(xs) == 1.6;
    assert SqDev(xs[2..], 1.6) == 0.48;
    assert SqDev(xs, 1.6) == 1.2;
    assert MaxOf(xs[2..]) == 2.0;
  }

  /** The second layer of the source's single-raster test. */
  lemma StatsExampleSecondLayer()
    ensures var g := [[0.0, 0.0, 0.0], [1.0, 1.0, 1.0], [15.0, 3.0, 4.0]];
      var m := [[false, true, true], [false, true, true], [false, true, true]];
      StatsOf(OccupiedValues(g, m)) == Defined(Stat(4.0, 6, 1.5, 13.5))
  {
    SecondLayerValues();
    SecondLayerStats();
  }

  lemma SecondLayerValues()
    ensures var g := [[0.0, 0.0, 0.0], [1.0, 1.0, 1.0], [15.0, 3.0, 4.0]];
      var m := [[false, true, true], [false, true, true], [false, true, true]];
      OccupiedValues(g, m) == [0.0, 0.0, 1.0, 1.0, 3.0, 4.0]
  {
    var g := [[0.0, 0.0, 0.0], [1.0, 1.0, 1.0], [15.0, 3.0, 4.0]];
    var m := [[false, true, true], [false, true, true], [false, true, true]];
    assert RowOccupied(g[0], m[0]) == [0.0, 0.0];
    assert RowOccupied(g[1], m[1]) == [1.0, 1.0];
    assert RowOccupied(g[2], m[2]) == [3.0, 4.0];
    assert OccupiedValues(g[2..], m[2..]) == [3.0, 4.0];
  }

  lemma SecondLayerStats()
    ensures StatsOf([0.0, 0.0, 1.0, 1.0, 3.0, 4.0]) == Defined(Stat(4.0, 6, 1.5, 13.5))
  {
    var ys := [0.0, 0.0, 1.0, 1.0, 3.0, 4.0];
    assert Sum(ys) == 9.0;
    assert Mean(ys) == 1.5;
    assert SqDev(ys[3..], 1.5) == 8.75;
    assert SqDev(ys, 1.5) == 13.5;
    assert MaxOf(ys[3..]) == 4.0;
  }

  // ---------------------------------------------------------------- aggregation over tiles

  /** The running statistics the aggregation starts from (`np.zeros` for every field). */
  const Zero: Running := Defined(Stat(0.0, 0, 0.0, 0.0))

  /** Merging non-empty statistics with a non-negative maximum into `Zero` gives them back unchanged. */
  lemma UpdateZero(s: Stat)
    requires s.count > 0 && s.max >= 0.0
    ensures Update(Zero, Defined(s)) == Defined(s)
  {
    var n := s.count as real;
    assert n / n == 1.0;
  }

  /** The total pixel count of some layers. */
  function TotalCount(layers: seq<seq<real>>): nat {
    if |layers| == 0 then 0 else TotalCount(layers[..|layers| - 1]) + |layers[|layers| - 1]|
  }

  /** The occupied values of several layers pooled together, in order (`np.concatenate`). */
  function Concat(layers: seq<seq<real>>): (pool: seq<real>)
    ensures |pool| == TotalCount(layers)
  {
    if |layers| == 0 then [] else Concat(layers[..|layers| - 1]) + layers[|layers| - 1]
  }

  /**
   * The loop of `compute_metric_relative` for one class: the statistics of each
   * layer, in order, merged into the running statistics by `update_overall_stats`.
   */
  function Fold(layers: seq<seq<real>>): (r: Running)
    ensures Count(r) == TotalCount(layers)
    ensures r.Defined? <==> forall i :: 0 <= i < |layers| ==> |layers[i]| > 0
  {
    if |layers| == 0 then Zero
    else
      var init, last := layers[..|layers| - 1], layers[|layers| - 1];
      assert forall i :: 0 <= i < |init| ==> init[i] == layers[i];
      Update(Fold(init), StatsOf(last))
  }

  predicate NonNegative(xs: seq<real>) {
    forall i :: 0 <= i < |xs| ==> xs[i] >= 0.0
  }

  /**
   * Aggregating non-empty layers of non-negative values gives exactly the
   * statistics of all their pixels pooled together: same maximum, count, mean
   * and M2, hence the same variance.
   */
  lemma {:induction false} FoldConcatenated(layers: seq<seq<real>>)
    requires |layers| > 0
    requires forall i :: 0 <= i < |layers| ==> |layers[i]| > 0 && NonNegative(layers[i])
    ensures Fold(layers) == StatsOf(Concat(layers))
  {
    var n := |layers|;
    var init, last := layers[..n - 1], layers[n - 1];
    if n == 1 {
      assert Concat(layers) == last;
      assert MaxOf(last) >= last[0] >= 0.0;
      UpdateZero(StatsOf(last).stat);
    } else {
      assert forall i :: 0 <= i < |init| ==> init[i] == layers[i];
      FoldConcatenated(init);
      ChanMerge(Concat(init), last);
    }
  }

  // ---------------------------------------------------------------- notes

  /** The mean of some statistics; masked statistics have none. */
  function MeanValue(r: Running): (m: Option<real>)
    ensures m.Some? <==> r.Defined?
  {
    if r.Defined? then Some(r.stat.mean) else None
  }

  /** The maximum of some statistics; masked statistics have none. */
  function MaxValue(r: Running): (m: Option<real>)
    ensures m.Some? <==> r.Defined?
  {
    if r.Defined? then Some(r.stat.max) else None
  }

  /**
   * The standard deviation `sqrt(m2 / count)` (`ma.std` on one layer, line 138
   * on the totals), for a square root supplied by the caller: masked
   * statistics give a masked value and a zero count gives NaN (`0/0`).
   */
  function Std(r: Running, sqrt: real -> real): (s: Option<real>)
    ensures s.Some? <==> r.Defined? && r.stat.count > 0
  {
    if r.Defined? && r.stat.count > 0 then Some(sqrt(r.stat.m2 / r.stat.count as real)) else None
  }

  /** The standard deviation of a non-empty layer is the square root of the population variance of its values. */
  lemma StdOfValues(xs: seq<real>, sqrt: real -> real)
    ensures |xs| > 0 ==> Std(StatsOf(xs), sqrt) == Some(sqrt(Variance(xs)))
    ensures |xs| == 0 ==> Std(StatsOf(xs), sqrt) == None
  {
  }

  /** The ramp of the maximum difference: note 1 up to 0.1, note 0 from 4 on. */
  const MaxRamp := Ramp(Point(0.1, 1.0), Point(4.0, 0.0))

  /** The ramp of the mean and standard-deviation differences: note 2 up to 0.01, note 0 from 0.5 on. */
  const DiffRamp := Ramp(Point(0.01, 2.0), Point(0.5, 0.0))

  /**
   * `compute_one_note`: the three sub-notes summed and divided by 5, so that
   * the best possible note is 1. A NaN (or masked) sub-metric gives a NaN note.
   */
  function OneNote(mean: Option<real>, std: Option<real>, max: Option<real>): (note: Option<real>)
    ensures note.Some? <==> mean.Some? && std.Some? && max.Some?
    ensures note.Some? ==> 0.0 <= note.value <= 1.0
  {
    var maxNote, meanNote, stdNote := ScoreOpt(MaxRamp, max), ScoreOpt(DiffRamp, mean), ScoreOpt(DiffRamp, std);
    if maxNote.Some? && meanNote.Some? && stdNote.Some? then
      Some((maxNote.value + meanNote.value + stdNote.value) / 5.0)
    else None
  }

  /** The legacy note's cases from the source's tests: perfect agreement scores 1. */
  lemma OneNoteExamples()
    ensures OneNote(Some(0.0), Some(0.0), Some(0.0)) == Some(1.0)
    ensures OneNote(Some(0.5), Some(0.0), Some(0.0)) == Some(3.0 / 5.0)
    ensures OneNote(Some(0.255), Some(0.0), Some(0.0)) == Some(4.0 / 5.0)
    ensures OneNote(Some(0.0), Some(0.0), Some(4.0)) == Some(4.0 / 5.0)
    ensures OneNote(Some(0.5), Some(0.5), Some(4.0001)) == Some(0.0)
    ensures OneNote(Some(0.255), Some(0.255), Some(2.05)) == Some(0.5)
    ensures OneNote(Some(0.0), None, Some(0.0)) == None
  {
    ScoreAtControlPoints(DiffRamp);
  }

  /**
   * `compute_note`: the legacy note of every class, keyed by class, the i-th
   * class taking the i-th entry of each series. As in a dict comprehension, a
   * repeated class keeps the note of its last position.
   */
  function ComputeNote(means: seq<Option<real>>, stds: seq<Option<real>>, maxs: seq<Option<real>>,
                       classes: seq<string>): (notes: map<string, Option<real>>)
    requires |classes| <= |means| && |classes| <= |stds| && |classes| <= |maxs|
    ensures forall c :: c in notes <==> c in classes
    ensures forall i :: 0 <= i < |classes| && (forall j :: i < j < |classes| ==> classes[j] != classes[i])
              ==> notes[classes[i]] == OneNote(means[i], stds[i], maxs[i])
  {
    var n := |classes|;
    Dicts.Zip(classes, seq(n, i requires 0 <= i < n => OneNote(means[i], stds[i], maxs[i])))
  }

  /** Notes of pairwise distinct classes: each class gets the note of its own position. */
  lemma NotesOfDistinct(means: seq<Option<real>>, stds: seq<Option<real>>, maxs: seq<Option<real>>,
                        classes: seq<string>, i: nat)
    requires |classes| <= |means| && |classes| <= |stds| && |classes| <= |maxs|
    requires Texts.Distinct(classes) && i < |classes|
    ensures ComputeNote(means, stds, maxs, classes)[classes[i]] == OneNote(means[i], stds[i], maxs[i])
  {
  }

  /** The notes of some per-class statistics (`compute_note(mean, std, max, classes)`). */
  function StatNotes(stats: seq<Running>, classes: seq<string>, sqrt: real -> real): map<string, Option<real>>
    requires |classes| <= |stats|
  {
    var n := |stats|;
    ComputeNote(seq(n, k requires 0 <= k < n => MeanValue(stats[k])),
                seq(n, k requires 0 <= k < n => Std(stats[k], sqrt)),
                seq(n, k requires 0 <= k < n => MaxValue(stats[k])), classes)
  }

  // ---------------------------------------------------------------- tiles

  /**
   * One tile: the classification's and the reference's height rasters and the
   * occupancy raster, with one layer per class in sorted class order.
   */
  datatype Tile = Tile(name: string, c1: seq<Grid>, ref: seq<Grid>, occupancy: seq<Mask>)

  /** The three rasters of a tile have the same number of layers, of matching shapes layer by layer. */
  predicate WellShaped(t: Tile) {
    && |t.ref| == |t.c1| && |t.occupancy| == |t.c1|
    && forall k :: 0 <= k < |t.c1| ==> SameGrid(t.c1[k], t.ref[k]) && SameShape(t.c1[k], t.occupancy[k])
  }

  /** Every tile is well shaped with one layer per class. */
  predicate TilesFit(tiles: seq<Tile>, layers: nat) {
    forall i :: 0 <= i < |tiles| ==> WellShaped(tiles[i]) && |tiles[i].c1| == layers
  }

  lemma {:induction false} OccupiedNonNegative(g: Grid, m: Mask)
    requires SameShape(g, m)
    requires forall r, c :: 0 <= r < |g| && 0 <= c < |g[r]| ==> g[r][c] >= 0.0
    ensures NonNegative(OccupiedValues(g, m))
  {
    if |g| > 0 {
      OccupiedNonNegative(g[1..], m[1..]);
      var row := RowOccupied(g[0], m[0]);
      assert forall i :: 0 <= i < |row| ==> row[i] in g[0];
    }
  }

  /** The absolute height differences at the occupied pixels of layer `k` of a tile. */
  function LayerValues(t: Tile, k: nat): (vs: seq<real>)
    requires WellShaped(t) && k < |t.c1|
    ensures |vs| == CountTrue(t.occupancy[k])
    ensures NonNegative(vs)
  {
    var d := AbsDiff(t.c1[k], t.ref[k]);
    OccupiedCount(d, t.occupancy[k]);
    OccupiedNonNegative(d, t.occupancy[k]);
    OccupiedValues(d, t.occupancy[k])
  }

  /**
   * `compute_stats_single_raster(np.abs(c1_raster - ref_raster), occupancy_raster)`:
   * the statistics of every layer; the pixel count of a layer is its number of occupied pixels.
   */
  function TileStats(t: Tile): (stats: seq<Running>)
    requires WellShaped(t)
    ensures |stats| == |t.c1|
    ensures forall k :: 0 <= k < |stats| ==> Count(stats[k]) == CountTrue(t.occupancy[k])
  {
    seq(|t.c1|, k requires 0 <= k < |t.c1| => StatsOf(LayerValues(t, k)))
  }

  /** A row of the per-tile table. */
  datatype TileRow = TileRow(tile: string, classKey: string, note: Option<real>)

  /** A row of the total table. */
  datatype ClassRow = ClassRow(classKey: string, note: Option<real>)

  /** The rows one tile adds to the per-tile table: one per class, in class order. */
  function TileRows(t: Tile, classes: seq<string>, sqrt: real -> real): (rows: seq<TileRow>)
    requires WellShaped(t) && |t.c1| == |classes|
    ensures |rows| == |classes|
    ensures forall j :: 0 <= j < |rows| ==> rows[j].tile == t.name && rows[j].classKey == classes[j]
  {
    var notes := StatNotes(TileStats(t), classes, sqrt);
    seq(|classes|, j requires 0 <= j < |classes| => TileRow(t.name, classes[j], notes[classes[j]]))
  }

  /** The per-tile table after some tiles, in tile order. */
  function PerTileRows(tiles: seq<Tile>, classes: seq<string>, sqrt: real -> real): (rows: seq<TileRow>)
    requires TilesFit(tiles, |classes|)
  {
    if |tiles| == 0 then []
    else
      var n := |tiles| - 1;
      PerTileRows(tiles[..n], classes, sqrt) + TileRows(tiles[n], classes, sqrt)
  }

  /** The values of layer `k` of every tile, in tile order. */
  function Series(tiles: seq<Tile>, layers: nat, k: nat): (s: seq<seq<real>>)
    requires k < layers && TilesFit(tiles, layers)
    ensures |s| == |tiles|
    ensures forall i :: 0 <= i < |s| ==> s[i] == LayerValues(tiles[i], k)
  {
    seq(|tiles|, i requires 0 <= i < |tiles| => LayerValues(tiles[i], k))
  }

  /** The running statistics of every class once all `tiles` have been merged. */
  function Totals(tiles: seq<Tile>, layers: nat): (totals: seq<Running>)
    requires TilesFit(tiles, layers)
    ensures |totals| == layers
  {
    seq(layers, k requires 0 <= k < layers => Fold(Series(tiles, layers, k)))
  }

  /** The total table: one row per class with the note of the aggregated statistics (`total_notes.get(cl, 0)`). */
  function TotalRows(totals: seq<Running>, classes: seq<string>, sqrt: real -> real): (rows: seq<ClassRow>)
    requires |classes| <= |totals|
    ensures |rows| == |classes|
    ensures forall j :: 0 <= j < |rows| ==> rows[j].classKey == classes[j]
  {
    var notes := StatNotes(totals, classes, sqrt);
    seq(|classes|, j requires 0 <= j < |classes| => ClassRow(classes[j], notes[classes[j]]))
  }

  /**
   * `compute_metric_relative`: classes in sorted order, one pass over the
   * tiles that appends each tile's rows and merges its statistics into the
   * per-class totals, then the notes of the totals.
   */
  method ComputeMetricRelative(tiles: seq<Tile>, weightKeys: seq<string>, sqrt: real -> real)
    returns (tileRows: seq<TileRow>, totalRows: seq<ClassRow>)
    requires TilesFit(tiles, |weightKeys|)
    ensures var classes := Texts.SortStrings(weightKeys);
      && tileRows == PerTileRows(tiles, classes, sqrt)
      && totalRows == TotalRows(Totals(tiles, |classes|), classes, sqrt)
  {
    var classes := Texts.SortStrings(weightKeys);
    var totals;
    tileRows, totals := MergeTiles(tiles, classes, sqrt);
    var n := |classes|;
    var totalNotes := StatNotes(totals, classes, sqrt);
    totalRows := seq(n, j requires 0 <= j < n => ClassRow(classes[j], totalNotes[classes[j]]));
  }

  /**
   * The loop over the tiles of `compute_metric_relative`: appends each
   * tile's rows and merges its statistics into the per-class totals, which
   * start at zero.
   */
  method MergeTiles(tiles: seq<Tile>, classes: seq<string>, sqrt: real -> real)
    returns (tileRows: seq<TileRow>, totals: seq<Running>)
    requires TilesFit(tiles, |classes|)
    ensures tileRows == PerTileRows(tiles, classes, sqrt)
    ensures totals == Totals(tiles, |classes|)
  {
    var n := |classes|;
    totals := seq(n, k => Zero);
    tileRows := [];
    var i := 0;
    while i < |tiles|
      invariant 0 <= i <= |tiles|
      invariant totals == Totals(tiles[..i], n)
      invariant tileRows == PerTileRows(tiles[..i], classes, sqrt)
    {
      var t := tiles[i];
      var stats := TileStats(t);
      var notes := StatNotes(stats, classes, sqrt);
      var newLines := seq(n, j requires 0 <= j < n => TileRow(t.name, classes[j], notes[classes[j]]));
      assert newLines == TileRows(t, classes, sqrt);
      tileRows := tileRows + newLines;
      totals := UpdateAll(totals, stats);
      PerTileRowsStep(tiles, i, classes, sqrt);
      TotalsStep(tiles, i, n);
      i := i + 1;
    }
    assert tiles[..i] == tiles;
  }

  lemma PerTileRowsStep(tiles: seq<Tile>, i: nat, classes: seq<string>, sqrt: real -> real)
    requires TilesFit(tiles, |classes|) && i < |tiles|
    ensures PerTileRows(tiles[..i + 1], classes, sqrt) == PerTileRows(tiles[..i], classes, sqrt) + TileRows(tiles[i], classes, sqrt)
  {
    PrefixGrows(tiles, i);
  }

  /** The prefix one longer is the prefix followed by the next element. */
  lemma PrefixGrows<T>(s: seq<T>, i: nat)
    requires i < |s|
    ensures |s[..i + 1]| - 1 == i && s[..i + 1][..i] == s[..i] && s[..i + 1][i] == s[i]
  {
  }

  lemma TotalsStep(tiles: seq<Tile>, i: nat, layers: nat)
    requires TilesFit(tiles, layers) && i < |tiles|
    ensures Totals(tiles[..i + 1], layers) == UpdateAll(Totals(tiles[..i], layers), TileStats(tiles[i]))
  {
    PrefixGrows(tiles, i);
    var pre := tiles[..i + 1];
    forall k | 0 <= k < layers
      ensures Totals(pre, layers)[k] == Update(Totals(tiles[..i], layers)[k], TileStats(tiles[i])[k])
    {
      var s := Series(pre, layers, k);
      assert s[..i] == Series(tiles[..i], layers, k);
      assert s[i] == LayerValues(tiles[i], k);
    }
  }

  /**
   * When every tile has occupied pixels in layer `k`, the aggregated statistics
   * of class `k` are those of all its pixels over all tiles pooled together.
   */
  lemma TotalOfPooled(tiles: seq<Tile>, layers: nat, k: nat)
    requires TilesFit(tiles, layers) && k < layers && |tiles| > 0
    requires forall i :: 0 <= i < |tiles| ==> CountTrue(tiles[i].occupancy[k]) > 0
    ensures Totals(tiles, layers)[k] == StatsOf(Concat(Series(tiles, layers, k)))
  {
    FoldConcatenated(Series(tiles, layers, k));
  }

  /** The note a class gets from some statistics, among pairwise distinct classes. */
  lemma NoteOfStats(stats: seq<Running>, classes: seq<string>, sqrt: real -> real, j: nat)
    requires |classes| <= |stats| && Texts.Distinct(classes) && j < |classes|
    ensures StatNotes(stats, classes, sqrt)[classes[j]] == OneNote(MeanValue(stats[j]), Std(stats[j], sqrt), MaxValue(stats[j]))
  {
  }

  /**
   * The per-tile note of a class is the legacy note of the tile's layer
   * statistics; it is NaN exactly when the layer has no occupied pixel.
   */
  lemma TileNote(t: Tile, classes: seq<string>, sqrt: real -> real, j: nat)
    requires WellShaped(t) && |t.c1| == |classes| && Texts.Distinct(classes) && j < |classes|
    ensures var s := StatsOf(LayerValues(t, j));
      TileRows(t, classes, sqrt)[j].note == OneNote(MeanValue(s), Std(s, sqrt), MaxValue(s))
    ensures TileRows(t, classes, sqrt)[j].note.Some? <==> CountTrue(t.occupancy[j]) > 0
  {
    NoteOfStats(TileStats(t), classes, sqrt, j);
  }

  /**
   * The total note of a class is defined exactly when there is at least one
   * tile and every tile has occupied pixels in that class's layer.
   */
  lemma TotalNoteDefined(tiles: seq<Tile>, classes: seq<string>, sqrt: real -> real, j: nat)
    requires TilesFit(tiles, |classes|) && Texts.Distinct(classes) && j < |classes|
    ensures var note := TotalRows(Totals(tiles, |classes|), classes, sqrt)[j].note;
      note.Some? <==> |tiles| > 0 && forall i :: 0 <= i < |tiles| ==> CountTrue(tiles[i].occupancy[j]) > 0
  {
    var n := |classes|;
    NoteOfStats(Totals(tiles, n), classes, sqrt, j);
    SeriesNonEmpty(tiles, n, j);
    FoldCounted(Series(tiles, n, j));
  }

  /** The layer `k` values of every tile are non-empty exactly when every tile has occupied pixels in layer `k`. */
  lemma SeriesNonEmpty(tiles: seq<Tile>, layers: nat, k: nat)
    requires k < layers && TilesFit(tiles, layers)
    ensures var s := Series(tiles, layers, k);
      (forall i :: 0 <= i < |s| ==> |s[i]| > 0) <==> forall i :: 0 <= i < |tiles| ==> CountTrue(tiles[i].occupancy[k]) > 0
  {
    var s := Series(tiles, layers, k);
    assert forall i :: 0 <= i < |s| ==> |s[i]| == CountTrue(tiles[i].occupancy[k]);
  }

  /** The merged statistics of some layers are defined with some pixels exactly when there are layers, all non-empty. */
  lemma FoldCounted(layers: seq<seq<real>>)
    ensures var r := Fold(layers);
      r.Defined? && r.stat.count > 0 <==> |layers| > 0 && forall i :: 0 <= i < |layers| ==> |layers[i]| > 0
  {
    if Fold(layers).Defined? {
      CountPositive(layers);
    }
  }

  /** Non-empty layers hold some value as soon as there is one layer. */
  lemma {:induction false} CountPositive(layers: seq<seq<real>>)
    requires forall i :: 0 <= i < |layers| ==> |layers[i]| > 0
    ensures TotalCount(layers) > 0 <==> |layers| > 0
  {
    if |layers| > 0 {
      assert |layers[|layers| - 1]| > 0;
    }
  }

  /** A defined total note is the legacy note of the statistics of all the class's pixels pooled together. */
  lemma TotalNotePooled(tiles: seq<Tile>, classes: seq<string>, sqrt: real -> real, j: nat)
    requires TilesFit(tiles, |classes|) && Texts.Distinct(classes) && j < |classes| && |tiles| > 0
    requires forall i :: 0 <= i < |tiles| ==> CountTrue(tiles[i].occupancy[j]) > 0
    ensures var pool := StatsOf(Concat(Series(tiles, |classes|, j)));
      TotalRows(Totals(tiles, |classes|), classes, sqrt)[j].note == OneNote(MeanValue(pool), Std(pool, sqrt), MaxValue(pool))
  {
    NoteOfStats(Totals(tiles, |classes|), classes, sqrt, j);
    TotalOfPooled(tiles, |classes|, j);
  }
}
