/**
 * Merging of the per-tile results (`coclico/tools/results_merging.py` and its
 * near-copy `coclico/csv_manipulation/merge_results.py`, modelled once):
 * statistics over the tiles in long form, the weighted sum of those
 * statistics under the metric weights, and the left joins that put the
 * results of several classifications side by side.
 */
module ResultsMerging {
  import opened Wrappers
  import Texts
  import Tables
  import LeftJoin

  // ---------------------------------------------------------------- weighted sum

  /** One row of a statistics table in long form: columns `statistic`, `class`, `metric`, `result`. */
  datatype StatRow = StatRow(statistic: string, classKey: string, metric: string, result: real)

  /** A metric's class weights, in the order of the weights dictionary. */
  type ClassWeights = seq<(string, real)>

  /** The weights dictionary: a metric name and its class weights, in dictionary order. */
  type Weights = seq<(string, ClassWeights)>

  predicate Selects(row: StatRow, metric: string, cl: string) {
    row.metric == metric && row.classKey == cl
  }

  /** `group[(group["metric"] == metric) & (group["class"] == cl)]["result"]`, in row order. */
  function Matching(group: seq<StatRow>, metric: string, cl: string): (vals: seq<real>)
    ensures |vals| <= |group|
    ensures |vals| == 0 <==> forall i :: 0 <= i < |group| ==> !Selects(group[i], metric, cl)
  {
    if |group| == 0 then []
    else
      var n := |group| - 1;
      Matching(group[..n], metric, cl) + (if Selects(group[n], metric, cl) then [group[n].result] else [])
  }

  /** Exactly one row selected: its result is the only match. */
  lemma {:induction false} MatchingOne(group: seq<StatRow>, metric: string, cl: string, i: nat)
    requires i < |group| && Selects(group[i], metric, cl)
    requires forall j :: 0 <= j < |group| && j != i ==> !Selects(group[j], metric, cl)
    ensures Matching(group, metric, cl) == [group[i].result]
  {
    var n := |group| - 1;
    if i < n {
      MatchingOne(group[..n], metric, cl, i);
    }
  }

  lemma {:induction false} MatchingAppend(a: seq<StatRow>, b: seq<StatRow>, metric: string, cl: string)
    ensures Matching(a + b, metric, cl) == Matching(a, metric, cl) + Matching(b, metric, cl)
  {
    if |b| == 0 {
      assert a + b == a;
    } else {
      var n := |b| - 1;
      var last := if Selects(b[n], metric, cl) then [b[n].result] else [];
      MatchingAppend(a, b[..n], metric, cl);
      InitOfConcat(a, b);
      assert Matching(a + b, metric, cl) == Matching(a + b[..n], metric, cl) + last;
      Associative(Matching(a, metric, cl), Matching(b[..n], metric, cl), last);
    }
  }

  /** One term of the weighted sum: `weights[metric][cl] * val.values[0]`. */
  function Term(weight: real, value: real): real {
    weight * value
  }

  /**
   * The weighted sum over the classes of one metric, `None` as soon as a
   * class has no result or several.
   */
  function ClassesSum(group: seq<StatRow>, metric: string, classes: ClassWeights): Option<real> {
    if |classes| == 0 then Some(0.0)
    else
      var n := |classes| - 1;
      AddTerm(ClassesSum(group, metric, classes[..n]), classes[n].1, Matching(group, metric, classes[n].0))
  }

  /** One more class in the sum: none as soon as a class has no result or several. */
  function AddTerm(sum: Option<real>, weight: real, vals: seq<real>): Option<real> {
    match sum
    case None => None
    case Some(s) => if |vals| != 1 then None else Some(s + Term(weight, vals[0]))
  }

  /**
   * `compute_weighted_sum`: Σ over the metrics and their classes of
   * `weights[metric][cl] * value(metric, cl)`, `None` (a `ValueError`) as
   * soon as a metric and class have no result or several.
   */
  function WeightedSum(group: seq<StatRow>, weights: Weights): Option<real> {
    Total(MetricSums(group, weights))
  }

  /** The weighted sum of each metric over its classes, in the order of the weights. */
  function MetricSums(group: seq<StatRow>, weights: Weights): (sums: seq<Option<real>>)
    ensures |sums| == |weights|
    ensures forall i :: 0 <= i < |weights| ==> sums[i] == ClassesSum(group, weights[i].0, weights[i].1)
  {
    seq(|weights|, i requires 0 <= i < |weights| => ClassesSum(group, weights[i].0, weights[i].1))
  }

  /** The sum of some partial sums, `None` as soon as one of them is. */
  function Total(sums: seq<Option<real>>): Option<real> {
    if |sums| == 0 then Some(0.0)
    else
      var n := |sums| - 1;
      Plus(Total(sums[..n]), sums[n])
  }

  /** The sum of two partial sums; none if either is none. */
  function Plus(a: Option<real>, b: Option<real>): Option<real> {
    match a
    case None => None
    case Some(s) => match b case None => None case Some(t) => Some(s + t)
  }

  lemma ClassesSumStep(group: seq<StatRow>, metric: string, classes: ClassWeights, j: nat, s: real)
    requires j < |classes| && ClassesSum(group, metric, classes[..j]) == Some(s)
    requires |Matching(group, metric, classes[j].0)| == 1
    ensures ClassesSum(group, metric, classes[..j + 1]) == Some(s + Term(classes[j].1, Matching(group, metric, classes[j].0)[0]))
  {
    var prefix := classes[..j + 1];
    assert prefix[..j] == classes[..j] && prefix[j] == classes[j];
  }

  /** Every weighted metric and class has exactly one result in the group. */
  predicate Answered(group: seq<StatRow>, weights: Weights) {
    forall i, j :: 0 <= i < |weights| && 0 <= j < |weights[i].1| ==>
      |Matching(group, weights[i].0, weights[i].1[j].0)| == 1
  }

  lemma {:induction false} ClassesSumDefined(group: seq<StatRow>, metric: string, classes: ClassWeights)
    ensures ClassesSum(group, metric, classes).Some? <==>
      forall j :: 0 <= j < |classes| ==> |Matching(group, metric, classes[j].0)| == 1
  {
    if |classes| > 0 {
      var n := |classes| - 1;
      ClassesSumDefined(group, metric, classes[..n]);
    }
  }

  /** The sum of partial sums is defined exactly when each of them is. */
  lemma {:induction false} TotalDefined(sums: seq<Option<real>>)
    ensures Total(sums).Some? <==> forall i :: 0 <= i < |sums| ==> sums[i].Some?
  {
    if |sums| > 0 {
      var n := |sums| - 1;
      TotalDefined(sums[..n]);
      assert forall i :: 0 <= i < n ==> sums[..n][i] == sums[i];
    }
  }

  /** Partial sums that are all defined add up to the sum of their values. */
  lemma {:induction false} TotalOfSome(sums: seq<Option<real>>, xs: seq<real>)
    requires |sums| == |xs| && forall i :: 0 <= i < |sums| ==> sums[i] == Some(xs[i])
    ensures Total(sums) == Some(Sum(xs))
  {
    if |sums| > 0 {
      var n := |sums| - 1;
      TotalOfSome(sums[..n], xs[..n]);
    }
  }

  lemma TotalStep(sums: seq<Option<real>>, i: nat, s: real, t: real)
    requires i < |sums| && Total(sums[..i]) == Some(s) && sums[i] == Some(t)
    ensures Total(sums[..i + 1]) == Some(s + t)
  {
    var p := sums[..i + 1];
    assert p[..i] == sums[..i] && p[i] == sums[i];
  }

  /** The weighted sum is defined exactly when every weighted metric and class has one result. */
  lemma WeightedSumDefined(group: seq<StatRow>, weights: Weights)
    ensures WeightedSum(group, weights).Some? <==> Answered(group, weights)
  {
    var sums := MetricSums(group, weights);
    TotalDefined(sums);
    forall i | 0 <= i < |weights|
      ensures sums[i].Some? <==> forall j :: 0 <= j < |weights[i].1| ==> |Matching(group, weights[i].0, weights[i].1[j].0)| == 1
    {
      ClassesSumDefined(group, weights[i].0, weights[i].1);
    }
  }

  /**
   * `compute_weighted_sum` as written: two nested loops accumulating `res`,
   * raising `ValueError` at the first metric and class without exactly one
   * result. The inner loop is `ComputeClassesSum`.
   */
  method ComputeWeightedSum(group: seq<StatRow>, weights: Weights) returns (r: Result<real, string>)
    ensures r.Success? <==> Answered(group, weights)
    ensures r.Success? ==> Some(r.value) == WeightedSum(group, weights)
    ensures r.Failure? ==> r.error == "ValueError"
  {
    ghost var sums := MetricSums(group, weights);
    var res := 0.0;
    var i := 0;
    while i < |weights|
      invariant 0 <= i <= |weights|
      invariant Total(sums[..i]) == Some(res)
    {
      var t := ComputeClassesSum(group, weights[i].0, weights[i].1);
      if t.Failure? {
        assert !Answered(group, weights) by {
          var j :| 0 <= j < |weights[i].1| && |Matching(group, weights[i].0, weights[i].1[j].0)| != 1;
        }
        return Failure("ValueError");
      }
      TotalStep(sums, i, res, t.value);
      res := res + t.value;
      i := i + 1;
    }
    assert sums[..i] == sums;
    WeightedSumDefined(group, weights);
    return Success(res);
  }

  /**
   * The inner loop of `compute_weighted_sum`, over the classes of one
   * metric: `ValueError` at the first class without exactly one result,
   * otherwise Σ weight × result.
   */
  method ComputeClassesSum(group: seq<StatRow>, metric: string, classes: ClassWeights) returns (r: Result<real, string>)
    ensures r.Success? <==> forall j :: 0 <= j < |classes| ==> |Matching(group, metric, classes[j].0)| == 1
    ensures r.Success? ==> Some(r.value) == ClassesSum(group, metric, classes)
    ensures r.Failure? ==> r.error == "ValueError"
  {
    var t := 0.0;
    var j := 0;
    while j < |classes|
      invariant 0 <= j <= |classes|
      invariant ClassesSum(group, metric, classes[..j]) == Some(t)
    {
      var vals := Matching(group, metric, classes[j].0);
      if |vals| != 1 {
        return Failure("ValueError");
      }
      ClassesSumStep(group, metric, classes, j, t);
      t := t + Term(classes[j].1, vals[0]);
      j := j + 1;
    }
    assert classes[..j] == classes;
    ClassesSumDefined(group, metric, classes);
    return Success(t);
  }

  // ---------------------------------------------------------------- weighted result

  /** The rows of one statistic, in table order (a group of `groupby("statistic")`). */
  function Group(table: seq<StatRow>, statistic: string): (g: seq<StatRow>)
    ensures forall x :: x in g ==> x in table && x.statistic == statistic
  {
    if |table| == 0 then []
    else
      var n := |table| - 1;
      assert table == table[..n] + [table[n]];
      Group(table[..n], statistic) + (if table[n].statistic == statistic then [table[n]] else [])
  }

  lemma {:induction false} GroupAppend(a: seq<StatRow>, b: seq<StatRow>, statistic: string)
    ensures Group(a + b, statistic) == Group(a, statistic) + Group(b, statistic)
  {
    if |b| == 0 {
      assert a + b == a;
    } else {
      var n := |b| - 1;
      var last := if b[n].statistic == statistic then [b[n]] else [];
      GroupAppend(a, b[..n], statistic);
      InitOfConcat(a, b);
      assert Group(a + b, statistic) == Group(a + b[..n], statistic) + last;
      Associative(Group(a, statistic), Group(b[..n], statistic), last);
    }
  }

  lemma InitOfConcat<T>(a: seq<T>, b: seq<T>)
    requires |b| > 0
    ensures (a + b)[..|a + b| - 1] == a + b[..|b| - 1] && (a + b)[|a + b| - 1] == b[|b| - 1]
  {
  }

  lemma Associative<T>(x: seq<T>, y: seq<T>, z: seq<T>)
    ensures (x + y) + z == x + (y + z)
  {
  }

  /** The statistics of a table, each once, in sorted order (the index of `groupby("statistic")`). */
  function StatisticsOf(table: seq<StatRow>): (stats: seq<string>)
    ensures Texts.Distinct(stats) && Texts.SortedStrings(stats)
    ensures forall s :: s in stats <==> exists i :: 0 <= i < |table| && table[i].statistic == s
  {
    var column := seq(|table|, i requires 0 <= i < |table| => table[i].statistic);
    assert forall s :: s in column <==> exists i :: 0 <= i < |table| && table[i].statistic == s by {
      forall s | s in column ensures exists i :: 0 <= i < |table| && table[i].statistic == s {
        var i :| 0 <= i < |column| && column[i] == s;
      }
      forall s | exists i :: 0 <= i < |table| && table[i].statistic == s ensures s in column {
        var i :| 0 <= i < |table| && table[i].statistic == s;
        assert column[i] == s;
      }
    }
    var keys := Texts.Uniq(column);
    Texts.SortDistinct(keys);
    Texts.SortStrings(keys)
  }

  /** One row of the weighted result: columns `statistic` and `result`. */
  datatype WeightedRow = WeightedRow(statistic: string, result: real)

  /** One row per statistic holding its sum, in order; `ValueError` as soon as a statistic has none. */
  function Collect(stats: seq<string>, sums: seq<Option<real>>): (r: Result<seq<WeightedRow>, string>)
    requires |sums| == |stats|
    ensures r.Success? <==> forall k :: 0 <= k < |stats| ==> sums[k].Some?
    ensures r.Success? ==> |r.value| == |stats| && forall k :: 0 <= k < |stats| ==>
      r.value[k].statistic == stats[k] && Some(r.value[k].result) == sums[k]
    ensures r.Failure? ==> r.error == "ValueError"
  {
    if |stats| == 0 then Success([])
    else
      var n := |stats| - 1;
      var prev :- Collect(stats[..n], sums[..n]);
      match sums[n]
      case None => Failure("ValueError")
      case Some(v) => Success(prev + [WeightedRow(stats[n], v)])
  }

  /** The weighted rows of some statistics, in their order; `ValueError` when one group is not answered. */
  function WeightedRows(table: seq<StatRow>, stats: seq<string>, weights: Weights): (r: Result<seq<WeightedRow>, string>)
    ensures r.Success? <==> forall k :: 0 <= k < |stats| ==> WeightedSum(Group(table, stats[k]), weights).Some?
    ensures r.Success? ==> |r.value| == |stats| && forall k :: 0 <= k < |stats| ==>
      r.value[k].statistic == stats[k] && Some(r.value[k].result) == WeightedSum(Group(table, stats[k]), weights)
    ensures r.Failure? ==> r.error == "ValueError"
  {
    Collect(stats, seq(|stats|, k requires 0 <= k < |stats| => WeightedSum(Group(table, stats[k]), weights)))
  }

  /**
   * `compute_weighted_result`: one row per statistic of the table, in
   * sorted order, holding the weighted sum of that statistic's results;
   * `ValueError` when a weighted metric and class of some statistic has no
   * result or several. On an empty table `groupby(...).apply` has no group
   * to apply to and returns a DataFrame, which has no `to_frame`:
   * `AttributeError`.
   */
  function ComputeWeightedResult(table: seq<StatRow>, weights: Weights): (r: Result<seq<WeightedRow>, string>)
    ensures r.Success? <==> |table| > 0 && forall s :: s in StatisticsOf(table) ==> Answered(Group(table, s), weights)
    ensures r.Success? ==>
      && WeightedStatistics(r.value) == StatisticsOf(table)
      && forall k :: 0 <= k < |r.value| ==> Some(r.value[k].result) == WeightedSum(Group(table, r.value[k].statistic), weights)
    ensures r.Failure? ==> r.error == if |table| == 0 then "AttributeError" else "ValueError"
  {
    if |table| == 0 then Failure("AttributeError")
    else
      var stats := StatisticsOf(table);
      var r := WeightedRows(table, stats, weights);
      AllAnswered(table, stats, weights);
      assert r.Success? ==> WeightedStatistics(r.value) == stats;
      r
  }

  lemma AllAnswered(table: seq<StatRow>, stats: seq<string>, weights: Weights)
    ensures (forall s :: s in stats ==> Answered(Group(table, s), weights)) <==>
            (forall k :: 0 <= k < |stats| ==> WeightedSum(Group(table, stats[k]), weights).Some?)
  {
    forall s | s in stats {
      WeightedSumDefined(Group(table, s), weights);
    }
  }

  /** The `statistic` column of a weighted result. */
  function WeightedStatistics(rows: seq<WeightedRow>): (column: seq<string>)
    ensures |column| == |rows| && forall k :: 0 <= k < |rows| ==> column[k] == rows[k].statistic
  {
    seq(|rows|, k requires 0 <= k < |rows| => rows[k].statistic)
  }

  // ---------------------------------------------------------------- statistics over tiles

  /** One row of the per-tile results: `tile`, `class` and one value per metric column. */
  datatype TileRow = TileRow(tile: string, classKey: string, values: seq<real>)

  /** Every row has one value per metric column. */
  predicate Shaped(rows: seq<TileRow>, metrics: seq<string>) {
    forall i :: 0 <= i < |rows| ==> |rows[i].values| == |metrics|
  }

  /** The classes of the per-tile results, each once, sorted (the index of `groupby(["class"])`). */
  function ClassesOf(rows: seq<TileRow>): (classes: seq<string>)
    ensures Texts.Distinct(classes) && Texts.SortedStrings(classes)
    ensures forall c :: c in classes <==> exists i :: 0 <= i < |rows| && rows[i].classKey == c
  {
    var column := seq(|rows|, i requires 0 <= i < |rows| => rows[i].classKey);
    assert forall c :: c in column <==> exists i :: 0 <= i < |rows| && rows[i].classKey == c by {
      forall c | c in column ensures exists i :: 0 <= i < |rows| && rows[i].classKey == c {
        var i :| 0 <= i < |column| && column[i] == c;
      }
      forall c | exists i :: 0 <= i < |rows| && rows[i].classKey == c ensures c in column {
        var i :| 0 <= i < |rows| && rows[i].classKey == c;
        assert column[i] == c;
      }
    }
    var keys := Texts.Uniq(column);
    Texts.SortDistinct(keys);
    Texts.SortStrings(keys)
  }

  /** The values of metric column `j` over the rows of class `cl`, in row order. */
  function Column(rows: seq<TileRow>, cl: string, j: nat): (xs: seq<real>)
    ensures |xs| <= |rows|
  {
    if |rows| == 0 then []
    else
      var n := |rows| - 1;
      Column(rows[..n], cl, j) + (if rows[n].classKey == cl && j < |rows[n].values| then [rows[n].values[j]] else [])
  }

  /** A class of the results has at least one value in every metric column. */
  lemma {:induction false} ColumnNonEmpty(rows: seq<TileRow>, cl: string, j: nat, i: nat)
    requires i < |rows| && rows[i].classKey == cl && j < |rows[i].values|
    ensures |Column(rows, cl, j)| > 0
  {
    var n := |rows| - 1;
    if i < n {
      ColumnNonEmpty(rows[..n], cl, j, i);
    }
  }

  function Sum(xs: seq<real>): real {
    if |xs| == 0 then 0.0 else Sum(xs[..|xs| - 1]) + xs[|xs| - 1]
  }

  /** `mean()`: the sum over the count. */
  function Mean(xs: seq<real>): real
    requires |xs| > 0
  {
    Sum(xs) / |xs| as real
  }

  /** `min()`: a value of the column below or equal to every other. */
  function Min(xs: seq<real>): (m: real)
    requires |xs| > 0
    ensures m in xs && forall x :: x in xs ==> m <= x
  {
    var n := |xs| - 1;
    if n == 0 then xs[0]
    else
      assert xs == xs[..n] + [xs[n]];
      var m := Min(xs[..n]);
      if xs[n] < m then xs[n] else m
  }

  /** `max()`: a value of the column above or equal to every other. */
  function Max(xs: seq<real>): (m: real)
    requires |xs| > 0
    ensures m in xs && forall x :: x in xs ==> x <= m
  {
    var n := |xs| - 1;
    if n == 0 then xs[0]
    else
      assert xs == xs[..n] + [xs[n]];
      var m := Max(xs[..n]);
      if xs[n] > m then xs[n] else m
  }

  /** Values bounded below by `lo` sum to at least `|xs| * lo`, and to at most `|xs| * hi` when bounded above by `hi`. */
  lemma {:induction false} SumBounds(xs: seq<real>, lo: real, hi: real)
    requires forall x :: x in xs ==> lo <= x <= hi
    ensures |xs| as real * lo <= Sum(xs) <= |xs| as real * hi
  {
    if |xs| > 0 {
      var n := |xs| - 1;
      assert forall x :: x in xs[..n] ==> x in xs;
      SumBounds(xs[..n], lo, hi);
      assert xs[n] in xs;
      Stretch(|xs| as real, n as real, lo);
      Stretch(|xs| as real, n as real, hi);
    }
  }

  lemma Stretch(total: real, n: real, v: real)
    requires total == n + 1.0
    ensures total * v == n * v + v
  {
  }

  lemma MeanBounds(s: real, n: real, lo: real, hi: real)
    requires n > 0.0 && n * lo <= s <= n * hi
    ensures lo <= s / n <= hi
  {
    var q := s / n;
    assert q * n == s;
    if q < lo {
      Upper(q, lo, n, s);
    }
    if q > hi {
      Upper(hi, q, n, n * hi);
    }
  }

  lemma Upper(t: real, v: real, p: real, a: real)
    requires p > 0.0 && t < v && t * p == a
    ensures a < v * p
  {
    assert (v - t) * p > 0.0;
  }

  /** For every class and metric, the `min` row ≤ the `mean` row ≤ the `max` row. */
  lemma MinMeanMax(xs: seq<real>)
    requires |xs| > 0
    ensures Min(xs) <= Mean(xs) <= Max(xs)
  {
    MeanWithin(xs, Min(xs), Max(xs));
  }

  /** The mean of values within `[lo, hi]` lies within `[lo, hi]`. */
  lemma MeanWithin(xs: seq<real>, lo: real, hi: real)
    requires |xs| > 0 && forall x :: x in xs ==> lo <= x <= hi
    ensures lo <= Mean(xs) <= hi
  {
    SumBounds(xs, lo, hi);
    MeanBounds(Sum(xs), |xs| as real, lo, hi);
  }

  /** The statistics of `compute_stats`, in the order of its `concat`. */
  const Statistics: seq<string> := ["mean", "min", "max", "median", "std"]

  /**
   * Statistic `k` of a column; the median and the sample standard deviation
   * are pandas routines, given as parameters.
   */
  function StatValue(k: nat, xs: seq<real>, median: seq<real> -> real, std: seq<real> -> real): real
    requires k < |Statistics| && |xs| > 0
  {
    if k == 0 then Mean(xs)
    else if k == 1 then Min(xs)
    else if k == 2 then Max(xs)
    else if k == 3 then median(xs)
    else std(xs)
  }

  /** Every class has a value in each of the first `width` metric columns. */
  predicate Filled(rows: seq<TileRow>, classes: seq<string>, width: nat) {
    forall c, j :: c in classes && 0 <= j < width ==> |Column(rows, c, j)| > 0
  }

  /** The rows of statistic `k` of one metric: one per class, in class order. */
  function StatBlock(rows: seq<TileRow>, classes: seq<string>, metric: string, j: nat, k: nat,
                     median: seq<real> -> real, std: seq<real> -> real): (block: seq<StatRow>)
    requires k < |Statistics| && Filled(rows, classes, j + 1)
    ensures |block| == |classes|
    ensures forall x :: x in block ==> x.statistic == Statistics[k] && x.classKey in classes && x.metric == metric
    ensures forall p :: 0 <= p < |classes| ==>
      block[p] == StatRow(Statistics[k], classes[p], metric, StatValue(k, Column(rows, classes[p], j), median, std))
  {
    seq(|classes|, p requires 0 <= p < |classes| =>
      StatRow(Statistics[k], classes[p], metric, StatValue(k, Column(rows, classes[p], j), median, std)))
  }

  /** The rows of one metric after `melt`: the mean rows, then the min, max, median and std rows. */
  function MetricBlock(rows: seq<TileRow>, classes: seq<string>, metric: string, j: nat,
                       median: seq<real> -> real, std: seq<real> -> real): (block: seq<StatRow>)
    requires Filled(rows, classes, j + 1)
    ensures |block| == |Statistics| * |classes|
    ensures forall x :: x in block ==> x.statistic in Statistics && x.classKey in classes && x.metric == metric
  {
    var b0, b1, b2 := StatBlock(rows, classes, metric, j, 0, median, std), StatBlock(rows, classes, metric, j, 1, median, std),
      StatBlock(rows, classes, metric, j, 2, median, std);
    var b3, b4 := StatBlock(rows, classes, metric, j, 3, median, std), StatBlock(rows, classes, metric, j, 4, median, std);
    assert forall x :: x in b0 + b1 + b2 + b3 + b4 ==> x in b0 || x in b1 || x in b2 || x in b3 || x in b4;
    b0 + b1 + b2 + b3 + b4
  }

  /** The rows of the first `|metrics|` metric columns, metric after metric. */
  function MetricBlocks(rows: seq<TileRow>, classes: seq<string>, metrics: seq<string>,
                        median: seq<real> -> real, std: seq<real> -> real): (table: seq<StatRow>)
    requires Filled(rows, classes, |metrics|)
    ensures forall x :: x in table ==> x.statistic in Statistics && x.classKey in classes && x.metric in metrics
  {
    if |metrics| == 0 then []
    else
      var n := |metrics| - 1;
      MetricBlocks(rows, classes, metrics[..n], median, std) + MetricBlock(rows, classes, metrics[n], n, median, std)
  }

  lemma {:induction false} MetricBlocksLength(rows: seq<TileRow>, classes: seq<string>, metrics: seq<string>,
                                              median: seq<real> -> real, std: seq<real> -> real)
    requires Filled(rows, classes, |metrics|)
    ensures |MetricBlocks(rows, classes, metrics, median, std)| == |metrics| * (|Statistics| * |classes|)
  {
    if |metrics| > 0 {
      var n := |metrics| - 1;
      MetricBlocksLength(rows, classes, metrics[..n], median, std);
      Tables.Distribute(n, |Statistics| * |classes|);
    }
  }

  lemma ClassesFilled(rows: seq<TileRow>, metrics: seq<string>)
    requires Shaped(rows, metrics)
    ensures Filled(rows, ClassesOf(rows), |metrics|)
  {
    forall c, j | c in ClassesOf(rows) && 0 <= j < |metrics| ensures |Column(rows, c, j)| > 0 {
      var i :| 0 <= i < |rows| && rows[i].classKey == c;
      ColumnNonEmpty(rows, c, j, i);
    }
  }

  /**
   * `compute_stats`: the five statistics of every metric column over the
   * tiles of each class, in long form; one row per metric, statistic and
   * class.
   */
  function ComputeStats(rows: seq<TileRow>, metrics: seq<string>, median: seq<real> -> real, std: seq<real> -> real)
    : (table: seq<StatRow>)
    requires Shaped(rows, metrics)
    ensures forall x :: x in table ==> x.statistic in Statistics && x.classKey in ClassesOf(rows) && x.metric in metrics
  {
    ClassesFilled(rows, metrics);
    MetricBlocks(rows, ClassesOf(rows), metrics, median, std)
  }

  // ---------------------------------------------------------------- looking up the statistics

  lemma StatisticsDistinct()
    ensures Texts.Distinct(Statistics)
  {
    assert Statistics[1][1] != Statistics[2][1];
    assert Statistics[1][0] != Statistics[4][0] && Statistics[2][0] != Statistics[4][0];
  }

  lemma {:induction false} GroupAll(b: seq<StatRow>, statistic: string)
    requires forall x :: x in b ==> x.statistic == statistic
    ensures Group(b, statistic) == b
  {
    if |b| > 0 {
      var n := |b| - 1;
      assert b == b[..n] + [b[n]];
      assert forall x :: x in b[..n] ==> x in b;
      GroupAll(b[..n], statistic);
    }
  }

  lemma GroupNone(b: seq<StatRow>, statistic: string)
    requires forall x :: x in b ==> x.statistic != statistic
    ensures Group(b, statistic) == []
  {
  }

  /** Within one statistic's block, a class of the block has exactly one result per metric. */
  lemma StatBlockMatch(rows: seq<TileRow>, classes: seq<string>, metric: string, j: nat, k: nat,
                       median: seq<real> -> real, std: seq<real> -> real, c: string)
    requires k < |Statistics| && Filled(rows, classes, j + 1) && Texts.Distinct(classes) && c in classes
    ensures Matching(StatBlock(rows, classes, metric, j, k, median, std), metric, c)
            == [StatValue(k, Column(rows, c, j), median, std)]
  {
    var block := StatBlock(rows, classes, metric, j, k, median, std);
    var p :| 0 <= p < |classes| && classes[p] == c;
    MatchingOne(block, metric, c, p);
  }

  /** The group of statistic `k` among one metric's rows is that statistic's block. */
  lemma MetricBlockGroup(rows: seq<TileRow>, classes: seq<string>, metric: string, j: nat, k: nat,
                         median: seq<real> -> real, std: seq<real> -> real)
    requires Filled(rows, classes, j + 1) && k < |Statistics|
    ensures Group(MetricBlock(rows, classes, metric, j, median, std), Statistics[k])
            == StatBlock(rows, classes, metric, j, k, median, std)
  {
    var s := Statistics[k];
    var b0, b1, b2 := StatBlock(rows, classes, metric, j, 0, median, std), StatBlock(rows, classes, metric, j, 1, median, std),
      StatBlock(rows, classes, metric, j, 2, median, std);
    var b3, b4 := StatBlock(rows, classes, metric, j, 3, median, std), StatBlock(rows, classes, metric, j, 4, median, std);
    assert MetricBlock(rows, classes, metric, j, median, std) == b0 + b1 + b2 + b3 + b4;
    GroupPart(rows, classes, metric, j, 0, k, median, std);
    GroupPart(rows, classes, metric, j, 1, k, median, std);
    GroupPart(rows, classes, metric, j, 2, k, median, std);
    GroupPart(rows, classes, metric, j, 3, k, median, std);
    GroupPart(rows, classes, metric, j, 4, k, median, std);
    GroupOfParts(b0, b1, b2, b3, b4, s);
    Pick(Group(b0, s), Group(b1, s), Group(b2, s), Group(b3, s), Group(b4, s), k, StatBlock(rows, classes, metric, j, k, median, std));
  }

  /** Five parts of which all but part `k` are empty concatenate to part `k`. */
  lemma Pick<T>(g0: seq<T>, g1: seq<T>, g2: seq<T>, g3: seq<T>, g4: seq<T>, k: nat, b: seq<T>)
    requires k < 5
    requires g0 == (if k == 0 then b else []) && g1 == (if k == 1 then b else []) && g2 == (if k == 2 then b else [])
    requires g3 == (if k == 3 then b else []) && g4 == (if k == 4 then b else [])
    ensures g0 + g1 + g2 + g3 + g4 == b
  {
    var e: seq<T> := [];
    if k == 0 {
      assert b + e + e + e + e == b;
    } else if k == 1 {
      assert e + b + e + e + e == b;
    } else if k == 2 {
      assert e + e + b + e + e == b;
    } else if k == 3 {
      assert e + e + e + b + e == b;
    } else {
      assert e + e + e + e + b == b;
    }
  }

  lemma GroupOfParts(b0: seq<StatRow>, b1: seq<StatRow>, b2: seq<StatRow>, b3: seq<StatRow>, b4: seq<StatRow>, s: string)
    ensures Group(b0 + b1 + b2 + b3 + b4, s) == Group(b0, s) + Group(b1, s) + Group(b2, s) + Group(b3, s) + Group(b4, s)
  {
    GroupAppend(b0 + b1 + b2 + b3, b4, s);
    GroupAppend(b0 + b1 + b2, b3, s);
    GroupAppend(b0 + b1, b2, s);
    GroupAppend(b0, b1, s);
  }

  lemma GroupPart(rows: seq<TileRow>, classes: seq<string>, metric: string, j: nat, q: nat, k: nat,
                  median: seq<real> -> real, std: seq<real> -> real)
    requires Filled(rows, classes, j + 1) && q < |Statistics| && k < |Statistics|
    ensures var b := StatBlock(rows, classes, metric, j, q, median, std);
      Group(b, Statistics[k]) == if q == k then b else []
  {
    var b := StatBlock(rows, classes, metric, j, q, median, std);
    StatisticsDistinct();
    if q == k {
      GroupAll(b, Statistics[k]);
    } else {
      GroupNone(b, Statistics[k]);
    }
  }

  /** The table has one row per metric, statistic and class. */
  lemma StatsLength(rows: seq<TileRow>, metrics: seq<string>, median: seq<real> -> real, std: seq<real> -> real)
    requires Shaped(rows, metrics)
    ensures |ComputeStats(rows, metrics, median, std)| == |metrics| * (|Statistics| * |ClassesOf(rows)|)
  {
    ClassesFilled(rows, metrics);
    MetricBlocksLength(rows, ClassesOf(rows), metrics, median, std);
  }

  /** A metric and class of the table have exactly one result per statistic: the statistic of that class's column. */
  lemma {:induction false} BlocksLookup(rows: seq<TileRow>, classes: seq<string>, metrics: seq<string>,
                                        median: seq<real> -> real, std: seq<real> -> real, k: nat, c: string, j: nat)
    requires Filled(rows, classes, |metrics|) && Texts.Distinct(metrics) && Texts.Distinct(classes)
    requires k < |Statistics| && c in classes && j < |metrics|
    ensures Matching(Group(MetricBlocks(rows, classes, metrics, median, std), Statistics[k]), metrics[j], c)
            == [StatValue(k, Column(rows, c, j), median, std)]
    decreases |metrics|, 1
  {
    var n := |metrics| - 1;
    var v := StatValue(k, Column(rows, c, j), median, std);
    SplitLast(rows, classes, metrics, median, std, k, metrics[j], c);
    if j == n {
      LookupLast(rows, classes, metrics, median, std, k, c);
      assert [] + [v] == [v];
    } else {
      LookupEarlier(rows, classes, metrics, median, std, k, c, j);
      assert [v] + [] == [v];
    }
  }

  /** The results of a metric and class: those among the earlier metrics' rows, then those among the last one's. */
  lemma SplitLast(rows: seq<TileRow>, classes: seq<string>, metrics: seq<string>,
                  median: seq<real> -> real, std: seq<real> -> real, k: nat, m: string, c: string)
    requires Filled(rows, classes, |metrics|) && k < |Statistics| && |metrics| > 0
    ensures var n := |metrics| - 1; var s := Statistics[k];
      Matching(Group(MetricBlocks(rows, classes, metrics, median, std), s), m, c)
      == Matching(Group(MetricBlocks(rows, classes, metrics[..n], median, std), s), m, c)
         + Matching(StatBlock(rows, classes, metrics[n], n, k, median, std), m, c)
  {
    var n := |metrics| - 1;
    var s := Statistics[k];
    var prefix := MetricBlocks(rows, classes, metrics[..n], median, std);
    var block := MetricBlock(rows, classes, metrics[n], n, median, std);
    var sb := StatBlock(rows, classes, metrics[n], n, k, median, std);
    assert Group(MetricBlocks(rows, classes, metrics, median, std), s) == Group(prefix, s) + sb by {
      GroupAppend(prefix, block, s);
      MetricBlockGroup(rows, classes, metrics[n], n, k, median, std);
    }
    MatchingAppend(Group(prefix, s), sb, m, c);
  }

  /** The last metric's rows hold its one result; the rows before them hold none. */
  lemma LookupLast(rows: seq<TileRow>, classes: seq<string>, metrics: seq<string>,
                   median: seq<real> -> real, std: seq<real> -> real, k: nat, c: string)
    requires Filled(rows, classes, |metrics|) && Texts.Distinct(metrics) && Texts.Distinct(classes)
    requires k < |Statistics| && c in classes && |metrics| > 0
    ensures var n := |metrics| - 1;
      && Matching(Group(MetricBlocks(rows, classes, metrics[..n], median, std), Statistics[k]), metrics[n], c) == []
      && Matching(StatBlock(rows, classes, metrics[n], n, k, median, std), metrics[n], c)
         == [StatValue(k, Column(rows, c, n), median, std)]
  {
    var n := |metrics| - 1;
    assert metrics[n] !in metrics[..n];
    BlocksMissing(MetricBlocks(rows, classes, metrics[..n], median, std), classes, metrics[..n], Statistics[k], metrics[n], c);
    StatBlockMatch(rows, classes, metrics[n], n, k, median, std, c);
  }

  /** An earlier metric's result lies in the rows before the last metric's, which hold none of it. */
  lemma {:induction false} LookupEarlier(rows: seq<TileRow>, classes: seq<string>, metrics: seq<string>,
                                         median: seq<real> -> real, std: seq<real> -> real, k: nat, c: string, j: nat)
    requires Filled(rows, classes, |metrics|) && Texts.Distinct(metrics) && Texts.Distinct(classes)
    requires k < |Statistics| && c in classes && j < |metrics| - 1
    ensures var n := |metrics| - 1;
      && |Column(rows, c, j)| > 0
      && Matching(Group(MetricBlocks(rows, classes, metrics[..n], median, std), Statistics[k]), metrics[j], c)
         == [StatValue(k, Column(rows, c, j), median, std)]
      && Matching(StatBlock(rows, classes, metrics[n], n, k, median, std), metrics[j], c) == []
    decreases |metrics|, 0
  {
    var n := |metrics| - 1;
    var init := metrics[..n];
    DistinctPrefix(metrics, n, j);
    assert Filled(rows, classes, n);
    BlocksLookup(rows, classes, init, median, std, k, c, j);
    LastBlockOther(rows, classes, metrics, median, std, k, c, j);
  }

  /** The last metric's rows hold no result of an earlier metric. */
  lemma LastBlockOther(rows: seq<TileRow>, classes: seq<string>, metrics: seq<string>,
                       median: seq<real> -> real, std: seq<real> -> real, k: nat, c: string, j: nat)
    requires Filled(rows, classes, |metrics|) && Texts.Distinct(metrics) && k < |Statistics| && j < |metrics| - 1
    ensures var n := |metrics| - 1;
      Matching(StatBlock(rows, classes, metrics[n], n, k, median, std), metrics[j], c) == []
  {
    var n := |metrics| - 1;
    assert metrics[j] != metrics[n];
    MatchingOtherMetric(StatBlock(rows, classes, metrics[n], n, k, median, std), metrics[n], metrics[j], c);
  }

  /** A prefix of a sequence without repetition has none either, and its elements differ from the one after it. */
  lemma DistinctPrefix<T>(s: seq<T>, n: nat, j: nat)
    requires Texts.Distinct(s) && j < n < |s|
    ensures Texts.Distinct(s[..n]) && s[..n][j] == s[j] && s[j] != s[n]
  {
    var init := s[..n];
    forall a, b | 0 <= a < b < n ensures init[a] != init[b] {
      assert init[a] == s[a] && init[b] == s[b];
    }
  }

  lemma MatchingOtherMetric(g: seq<StatRow>, other: string, m: string, c: string)
    requires forall x :: x in g ==> x.metric == other
    requires other != m
    ensures Matching(g, m, c) == []
  {
    forall i | 0 <= i < |g| ensures !Selects(g[i], m, c) {
      assert g[i] in g;
    }
  }

  /** A metric or class absent from the per-tile results has no result at all. */
  lemma BlocksMissing(table: seq<StatRow>, classes: seq<string>, metrics: seq<string>, s: string, m: string, c: string)
    requires forall x :: x in table ==> x.classKey in classes && x.metric in metrics
    requires m !in metrics || c !in classes
    ensures Matching(Group(table, s), m, c) == []
  {
    var g := Group(table, s);
    forall i | 0 <= i < |g| ensures !Selects(g[i], m, c) {
      assert g[i] in g;
    }
  }

  /**
   * In the `compute_stats` table, statistic `k` of metric `metrics[j]` for a
   * class of the results is a single row holding that statistic of the
   * class's values in that column.
   */
  lemma StatsLookup(rows: seq<TileRow>, metrics: seq<string>, median: seq<real> -> real, std: seq<real> -> real,
                    k: nat, c: string, j: nat)
    requires Shaped(rows, metrics) && Texts.Distinct(metrics)
    requires k < |Statistics| && c in ClassesOf(rows) && j < |metrics|
    ensures |Column(rows, c, j)| > 0
    ensures Matching(Group(ComputeStats(rows, metrics, median, std), Statistics[k]), metrics[j], c)
            == [StatValue(k, Column(rows, c, j), median, std)]
  {
    ClassesFilled(rows, metrics);
    BlocksLookup(rows, ClassesOf(rows), metrics, median, std, k, c, j);
  }

  // ---------------------------------------------------------------- weighted result of the statistics

  /** Every weighted metric is a metric column and every weighted class a class of the per-tile results. */
  predicate Covered(weights: Weights, metrics: seq<string>, classes: seq<string>) {
    forall i :: 0 <= i < |weights| ==> CoveredEntry(weights[i], metrics, classes)
  }

  /** The weights of one metric: a metric with a weighted class is a metric column, each weighted class a class. */
  predicate CoveredEntry(entry: (string, ClassWeights), metrics: seq<string>, classes: seq<string>) {
    && (|entry.1| > 0 ==> entry.0 in metrics)
    && forall j :: 0 <= j < |entry.1| ==> entry.1[j].0 in classes
  }

  /** In every statistic's group, the weighted sum finds exactly one result for each weight iff the weights are covered. */
  lemma StatsAnswered(rows: seq<TileRow>, metrics: seq<string>, median: seq<real> -> real, std: seq<real> -> real,
                      weights: Weights, k: nat)
    requires Shaped(rows, metrics) && Texts.Distinct(metrics) && k < |Statistics|
    ensures Answered(Group(ComputeStats(rows, metrics, median, std), Statistics[k]), weights)
            <==> Covered(weights, metrics, ClassesOf(rows))
  {
    var g := Group(ComputeStats(rows, metrics, median, std), Statistics[k]);
    var classes := ClassesOf(rows);
    StatsMatching(rows, metrics, median, std, k);
    forall i | 0 <= i < |weights|
      ensures CoveredEntry(weights[i], metrics, classes) <==> AnsweredEntry(g, weights[i])
    {
      EntryAnswered(g, weights[i], metrics, classes);
    }
    assert Answered(g, weights) <==> forall i :: 0 <= i < |weights| ==> AnsweredEntry(g, weights[i]) by {
      if forall i :: 0 <= i < |weights| ==> AnsweredEntry(g, weights[i]) {
        forall i, j | 0 <= i < |weights| && 0 <= j < |weights[i].1|
          ensures |Matching(g, weights[i].0, weights[i].1[j].0)| == 1
        {
          assert AnsweredEntry(g, weights[i]);
        }
      }
    }
  }

  /** The weights of one metric find one result per class. */
  predicate AnsweredEntry(group: seq<StatRow>, entry: (string, ClassWeights)) {
    forall j :: 0 <= j < |entry.1| ==> |Matching(group, entry.0, entry.1[j].0)| == 1
  }

  lemma EntryAnswered(g: seq<StatRow>, entry: (string, ClassWeights), metrics: seq<string>, classes: seq<string>)
    requires forall m, c :: |Matching(g, m, c)| == 1 <==> m in metrics && c in classes
    ensures CoveredEntry(entry, metrics, classes) <==> AnsweredEntry(g, entry)
  {
    forall j | 0 <= j < |entry.1|
      ensures |Matching(g, entry.0, entry.1[j].0)| == 1 <==> entry.0 in metrics && entry.1[j].0 in classes
    {
    }
    if |entry.1| > 0 {
      assert |Matching(g, entry.0, entry.1[0].0)| == 1 <==> entry.0 in metrics && entry.1[0].0 in classes;
    }
  }

  /** A statistic's group holds one result exactly for the metrics and classes of the per-tile results. */
  lemma StatsMatching(rows: seq<TileRow>, metrics: seq<string>, median: seq<real> -> real, std: seq<real> -> real, k: nat)
    requires Shaped(rows, metrics) && Texts.Distinct(metrics) && k < |Statistics|
    ensures forall m, c :: |Matching(Group(ComputeStats(rows, metrics, median, std), Statistics[k]), m, c)| == 1
                           <==> m in metrics && c in ClassesOf(rows)
  {
    forall m, c
      ensures |Matching(Group(ComputeStats(rows, metrics, median, std), Statistics[k]), m, c)| == 1
              <==> m in metrics && c in ClassesOf(rows)
    {
      StatsTerm(rows, metrics, median, std, k, m, c);
    }
  }

  lemma StatsTerm(rows: seq<TileRow>, metrics: seq<string>, median: seq<real> -> real, std: seq<real> -> real,
                  k: nat, m: string, c: string)
    requires Shaped(rows, metrics) && Texts.Distinct(metrics) && k < |Statistics|
    ensures |Matching(Group(ComputeStats(rows, metrics, median, std), Statistics[k]), m, c)| == 1
            <==> m in metrics && c in ClassesOf(rows)
  {
    if m in metrics && c in ClassesOf(rows) {
      var jj :| 0 <= jj < |metrics| && metrics[jj] == m;
      StatsLookup(rows, metrics, median, std, k, c, jj);
    } else {
      BlocksMissing(ComputeStats(rows, metrics, median, std), ClassesOf(rows), metrics, Statistics[k], m, c);
    }
  }

  /** With some results and some metrics, the table holds exactly the five statistics. */
  lemma StatsStatistics(rows: seq<TileRow>, metrics: seq<string>, median: seq<real> -> real, std: seq<real> -> real)
    requires Shaped(rows, metrics) && Texts.Distinct(metrics) && |rows| > 0 && |metrics| > 0
    ensures forall s :: s in StatisticsOf(ComputeStats(rows, metrics, median, std)) <==> s in Statistics
  {
    var table := ComputeStats(rows, metrics, median, std);
    forall k | 0 <= k < |Statistics| ensures Statistics[k] in StatisticsOf(table) {
      StatisticPresent(rows, metrics, median, std, k);
    }
    AllIn(Statistics, StatisticsOf(table));
    StatisticsInStats(rows, metrics, median, std);
  }

  lemma AllIn<T>(xs: seq<T>, ys: seq<T>)
    requires forall k :: 0 <= k < |xs| ==> xs[k] in ys
    ensures forall x :: x in xs ==> x in ys
  {
  }

  lemma StatisticPresent(rows: seq<TileRow>, metrics: seq<string>, median: seq<real> -> real, std: seq<real> -> real, k: nat)
    requires Shaped(rows, metrics) && Texts.Distinct(metrics) && |rows| > 0 && |metrics| > 0 && k < |Statistics|
    ensures Statistics[k] in StatisticsOf(ComputeStats(rows, metrics, median, std))
  {
    var table := ComputeStats(rows, metrics, median, std);
    var g := Group(table, Statistics[k]);
    var c := rows[0].classKey;
    assert |g| > 0 by {
      assert c in ClassesOf(rows);
      StatsLookup(rows, metrics, median, std, k, c, 0);
      assert |Matching(g, metrics[0], c)| == 1;
    }
    assert g[0] in table && g[0].statistic == Statistics[k] by {
      assert g[0] in g;
    }
    StatisticOfRow(table, g[0]);
  }

  lemma StatisticOfRow(table: seq<StatRow>, x: StatRow)
    requires x in table
    ensures x.statistic in StatisticsOf(table)
  {
    var p :| 0 <= p < |table| && table[p] == x;
  }

  /** Without results or without metrics, the table is empty and its weighted result raises `AttributeError`. */
  lemma EmptyStats(rows: seq<TileRow>, metrics: seq<string>, median: seq<real> -> real, std: seq<real> -> real,
                   weights: Weights)
    requires Shaped(rows, metrics) && (|rows| == 0 || |metrics| == 0)
    ensures ComputeStats(rows, metrics, median, std) == []
    ensures ComputeWeightedResult(ComputeStats(rows, metrics, median, std), weights) == Failure("AttributeError")
  {
    var table := ComputeStats(rows, metrics, median, std);
    assert StatisticsOf(table) == [];
  }

  /**
   * `compute_weighted_result` over `compute_stats`: with some results and
   * some metrics, the `ValueError` is raised exactly when a weighted metric
   * is not a column of the results or a weighted class has no tile.
   */
  lemma WeightedResultOfStats(rows: seq<TileRow>, metrics: seq<string>, median: seq<real> -> real, std: seq<real> -> real,
                              weights: Weights)
    requires Shaped(rows, metrics) && Texts.Distinct(metrics) && |rows| > 0 && |metrics| > 0
    ensures ComputeWeightedResult(ComputeStats(rows, metrics, median, std), weights).Success?
            <==> Covered(weights, metrics, ClassesOf(rows))
  {
    var table := ComputeStats(rows, metrics, median, std);
    StatsStatistics(rows, metrics, median, std);
    forall k | 0 <= k < |Statistics| {
      StatsAnswered(rows, metrics, median, std, weights, k);
    }
    if !Covered(weights, metrics, ClassesOf(rows)) {
      assert Statistics[0] in StatisticsOf(table);
    } else {
      forall s | s in StatisticsOf(table) ensures Answered(Group(table, s), weights) {
        var k :| 0 <= k < |Statistics| && Statistics[k] == s;
      }
    }
  }

  /** The position of a name in a list of names. */
  function IndexOf(names: seq<string>, x: string): (i: nat)
    requires x in names
    ensures i < |names| && names[i] == x
  {
    if names[0] == x then 0 else 1 + IndexOf(names[1..], x)
  }

  /** Σ over a metric's weighted classes of weight × `cell(metric, class)`. */
  function ClassesTotal(m: string, classes: ClassWeights, cell: (string, string) -> real): real {
    if |classes| == 0 then 0.0
    else
      var n := |classes| - 1;
      ClassesTotal(m, classes[..n], cell) + Term(classes[n].1, cell(m, classes[n].0))
  }

  /** Σ over the weighted metrics that are metric columns, and over their classes, of weight × `cell(metric, class)`. */
  function WeightedTotal(weights: Weights, metrics: seq<string>, cell: (string, string) -> real): real {
    Sum(MetricTotals(weights, metrics, cell))
  }

  /** Each weighted metric's total over its classes, zero for a metric that is not a metric column. */
  function MetricTotals(weights: Weights, metrics: seq<string>, cell: (string, string) -> real): (totals: seq<real>)
    ensures |totals| == |weights|
  {
    seq(|weights|, i requires 0 <= i < |weights| =>
      if weights[i].0 in metrics then ClassesTotal(weights[i].0, weights[i].1, cell) else 0.0)
  }

  /** Statistic `k` of metric `m` over the tiles of class `c`. */
  function Cell(rows: seq<TileRow>, metrics: seq<string>, k: nat, m: string, c: string,
                median: seq<real> -> real, std: seq<real> -> real): real
    requires Shaped(rows, metrics) && k < |Statistics| && m in metrics && c in ClassesOf(rows)
  {
    ClassesFilled(rows, metrics);
    StatValue(k, Column(rows, c, IndexOf(metrics, m)), median, std)
  }

  /** Statistic `k` of every metric column and class of the per-tile results (zero for any other pair). */
  function Cells(rows: seq<TileRow>, metrics: seq<string>, k: nat, median: seq<real> -> real, std: seq<real> -> real)
    : (string, string) -> real
    requires Shaped(rows, metrics) && k < |Statistics|
  {
    (m, c) => if m in metrics && c in ClassesOf(rows) then Cell(rows, metrics, k, m, c, median, std) else 0.0
  }

  /** The weighted sum of statistic `k`, computed straight from the per-tile results. */
  function Reference(rows: seq<TileRow>, metrics: seq<string>, k: nat, weights: Weights,
                     median: seq<real> -> real, std: seq<real> -> real): real
    requires Shaped(rows, metrics) && k < |Statistics|
  {
    WeightedTotal(weights, metrics, Cells(rows, metrics, k, median, std))
  }

  /** The `compute_stats` table holds exactly one row for statistic `k`, metric `m` and class `c`: its cell. */
  lemma CellLookup(rows: seq<TileRow>, metrics: seq<string>, median: seq<real> -> real, std: seq<real> -> real,
                   k: nat, m: string, c: string)
    requires Shaped(rows, metrics) && Texts.Distinct(metrics) && k < |Statistics| && m in metrics && c in ClassesOf(rows)
    ensures Matching(Group(ComputeStats(rows, metrics, median, std), Statistics[k]), m, c)
            == [Cell(rows, metrics, k, m, c, median, std)]
  {
    StatsLookup(rows, metrics, median, std, k, c, IndexOf(metrics, m));
  }

  /** Every metric and class has exactly one result in a group: its cell. */
  ghost predicate HoldsCells(g: seq<StatRow>, metrics: seq<string>, classes: seq<string>, cell: (string, string) -> real) {
    forall m, c :: m in metrics && c in classes ==> Matching(g, m, c) == [cell(m, c)]
  }

  lemma StatsCells(rows: seq<TileRow>, metrics: seq<string>, median: seq<real> -> real, std: seq<real> -> real, k: nat)
    requires Shaped(rows, metrics) && Texts.Distinct(metrics) && k < |Statistics|
    ensures HoldsCells(Group(ComputeStats(rows, metrics, median, std), Statistics[k]), metrics, ClassesOf(rows),
                       Cells(rows, metrics, k, median, std))
  {
    var cell := Cells(rows, metrics, k, median, std);
    forall m, c | m in metrics && c in ClassesOf(rows)
      ensures Matching(Group(ComputeStats(rows, metrics, median, std), Statistics[k]), m, c) == [cell(m, c)]
    {
      CellLookup(rows, metrics, median, std, k, m, c);
    }
  }

  /** With every cell the one result of its metric and class, a metric's weighted sum is the total of its cells. */
  lemma {:induction false} ClassesSumOfCells(g: seq<StatRow>, metrics: seq<string>, names: seq<string>,
                                             cell: (string, string) -> real, m: string, classes: ClassWeights)
    requires m in metrics && forall j :: 0 <= j < |classes| ==> classes[j].0 in names
    requires HoldsCells(g, metrics, names, cell)
    ensures ClassesSum(g, m, classes) == Some(ClassesTotal(m, classes, cell))
  {
    if |classes| > 0 {
      var n := |classes| - 1;
      var init := classes[..n];
      KeysPrefix(classes, names, n);
      ClassesSumOfCells(g, metrics, names, cell, m, init);
      assert Matching(g, m, classes[n].0) == [cell(m, classes[n].0)];
      ClassesSumLast(g, m, classes, ClassesTotal(m, init, cell), cell(m, classes[n].0));
    }
  }

  /** The classes of a prefix of the weights, and the class after it, are among those of the whole. */
  lemma KeysPrefix(classes: ClassWeights, keys: seq<string>, n: nat)
    requires n < |classes| && forall j :: 0 <= j < |classes| ==> classes[j].0 in keys
    ensures (forall j :: 0 <= j < n ==> classes[..n][j].0 in keys) && classes[n].0 in keys
  {
  }

  lemma ClassesSumLast(g: seq<StatRow>, m: string, classes: ClassWeights, s: real, v: real)
    requires |classes| > 0 && ClassesSum(g, m, classes[..|classes| - 1]) == Some(s)
    requires Matching(g, m, classes[|classes| - 1].0) == [v]
    ensures ClassesSum(g, m, classes) == Some(s + Term(classes[|classes| - 1].1, v))
  {
    var n := |classes| - 1;
    var vals := Matching(g, m, classes[n].0);
    assert |vals| == 1 && vals[0] == v;
    assert ClassesSum(g, m, classes) == AddTerm(Some(s), classes[n].1, vals);
  }

  /** With every cell the one result of its metric and class, the weighted sum is the weighted total of the cells. */
  lemma WeightedSumOfCells(g: seq<StatRow>, weights: Weights, metrics: seq<string>, names: seq<string>,
                           cell: (string, string) -> real)
    requires Covered(weights, metrics, names) && HoldsCells(g, metrics, names, cell)
    ensures WeightedSum(g, weights) == Some(WeightedTotal(weights, metrics, cell))
  {
    var sums, totals := MetricSums(g, weights), MetricTotals(weights, metrics, cell);
    forall i | 0 <= i < |weights| ensures sums[i] == Some(totals[i]) {
      assert CoveredEntry(weights[i], metrics, names);
      if weights[i].0 in metrics {
        ClassesSumOfCells(g, metrics, names, cell, weights[i].0, weights[i].1);
      }
    }
    TotalOfSome(sums, totals);
  }

  /**
   * The weighted sum of statistic `k` in the `compute_stats` table is the
   * weighted sum of that statistic computed straight from the per-tile
   * results.
   */
  lemma WeightedSumOfStats(rows: seq<TileRow>, metrics: seq<string>, median: seq<real> -> real,
                           std: seq<real> -> real, k: nat, weights: Weights)
    requires Shaped(rows, metrics) && Texts.Distinct(metrics) && k < |Statistics|
    requires Covered(weights, metrics, ClassesOf(rows))
    ensures WeightedSum(Group(ComputeStats(rows, metrics, median, std), Statistics[k]), weights)
            == Some(Reference(rows, metrics, k, weights, median, std))
  {
    StatsCells(rows, metrics, median, std, k);
    WeightedSumOfCells(Group(ComputeStats(rows, metrics, median, std), Statistics[k]), weights, metrics, ClassesOf(rows),
                       Cells(rows, metrics, k, median, std));
  }

  /**
   * `compute_weighted_result` over `compute_stats`, when every weighted
   * metric and class occurs in the per-tile results: no `ValueError`; an
   * error only when there are no results or no metrics (the empty table's
   * `AttributeError`); and each statistic's row holds the weighted sum of
   * that statistic computed straight from the per-tile results.
   */
  lemma WeightedResultValues(rows: seq<TileRow>, metrics: seq<string>, median: seq<real> -> real, std: seq<real> -> real,
                             weights: Weights)
    requires Shaped(rows, metrics) && Texts.Distinct(metrics) && Covered(weights, metrics, ClassesOf(rows))
    ensures var r := ComputeWeightedResult(ComputeStats(rows, metrics, median, std), weights);
      && (r.Success? <==> |rows| > 0 && |metrics| > 0)
      && (r.Success? ==> forall p :: 0 <= p < |r.value| ==>
        && r.value[p].statistic in Statistics
        && r.value[p].result == Reference(rows, metrics, IndexOf(Statistics, r.value[p].statistic), weights, median, std))
  {
    var table := ComputeStats(rows, metrics, median, std);
    var r := ComputeWeightedResult(table, weights);
    if |rows| == 0 || |metrics| == 0 {
      EmptyStats(rows, metrics, median, std, weights);
    } else {
      WeightedResultOfStats(rows, metrics, median, std, weights);
      StatsStatistics(rows, metrics, median, std);
      forall p | 0 <= p < |r.value|
        ensures r.value[p].statistic in Statistics
        ensures r.value[p].result == Reference(rows, metrics, IndexOf(Statistics, r.value[p].statistic), weights, median, std)
      {
        assert WeightedStatistics(r.value)[p] == r.value[p].statistic;
        var k := IndexOf(Statistics, r.value[p].statistic);
        WeightedSumOfStats(rows, metrics, median, std, k, weights);
      }
    }
  }

  // ---------------------------------------------------------------- merging

  /** The key `merge_stats` joins on: columns `statistic`, `class`, `metric`. */
  datatype StatKey = StatKey(statistic: string, classKey: string, metric: string)

  function KeyOf(x: StatRow): StatKey {
    StatKey(x.statistic, x.classKey, x.metric)
  }

  /** A statistics table as a frame keyed on statistic, class and metric. */
  function StatFrame(table: seq<StatRow>): (f: LeftJoin.Frame<StatKey>)
    ensures |f| == |table| && forall i :: 0 <= i < |table| ==> f[i] == (KeyOf(table[i]), table[i].result)
  {
    seq(|table|, i requires 0 <= i < |table| => (KeyOf(table[i]), table[i].result))
  }

  /** A weighted result table as a frame keyed on the statistic. */
  function WeightedFrame(rows: seq<WeightedRow>): (f: LeftJoin.Frame<string>)
    ensures |f| == |rows| && forall i :: 0 <= i < |rows| ==> f[i] == (rows[i].statistic, rows[i].result)
  {
    seq(|rows|, i requires 0 <= i < |rows| => (rows[i].statistic, rows[i].result))
  }

  function StatFrames(tables: seq<seq<StatRow>>): (fs: seq<LeftJoin.Frame<StatKey>>)
    ensures |fs| == |tables| && forall i :: 0 <= i < |tables| ==> fs[i] == StatFrame(tables[i])
  {
    seq(|tables|, i requires 0 <= i < |tables| => StatFrame(tables[i]))
  }

  function WeightedFrames(results: seq<seq<WeightedRow>>): (fs: seq<LeftJoin.Frame<string>>)
    ensures |fs| == |results| && forall i :: 0 <= i < |results| ==> fs[i] == WeightedFrame(results[i])
  {
    seq(|results|, i requires 0 <= i < |results| => WeightedFrame(results[i]))
  }

  lemma UniqueOfTwo(a: seq<StatRow>, b: seq<StatRow>, x: seq<WeightedRow>, y: seq<WeightedRow>)
    requires LeftJoin.UniqueKeys(StatFrame(a)) && LeftJoin.UniqueKeys(StatFrame(b))
    requires LeftJoin.UniqueKeys(WeightedFrame(x)) && LeftJoin.UniqueKeys(WeightedFrame(y))
    ensures forall i :: 0 <= i < |[a, b]| ==> LeftJoin.UniqueKeys(StatFrame([a, b][i]))
    ensures forall i :: 0 <= i < |[x, y]| ==> LeftJoin.UniqueKeys(WeightedFrame([x, y][i]))
  {
  }

  lemma FramesOfTwo(a: seq<StatRow>, b: seq<StatRow>, x: seq<WeightedRow>, y: seq<WeightedRow>)
    ensures StatFrames([a, b]) == [StatFrame(a), StatFrame(b)]
    ensures WeightedFrames([x, y]) == [WeightedFrame(x), WeightedFrame(y)]
  {
  }

  /**
   * `merge_stats` without the CSV output: the statistics tables of several
   * classifications side by side, `result_i` coming from the `i`-th table.
   */
  method MergeStats(tables: seq<seq<StatRow>>) returns (r: Result<seq<LeftJoin.Joined<StatKey>>, string>)
    ensures |tables| == 0 ==> r == Failure("IndexError")
    ensures |tables| > 0 ==>
      (r.Success? <==> |tables| == 1 || forall i :: 0 <= i < |tables| ==> LeftJoin.UniqueKeys(StatFrame(tables[i])))
    ensures |tables| > 0 && r.Failure? ==> r.error == "MergeError"
    ensures r.Success? ==> r.value == LeftJoin.LeftJoinAll(StatFrames(tables))
  {
    r := LeftJoin.MergeFrames(StatFrames(tables));
  }

  /** `merge_weighted_results` without the CSV output: the same join, keyed on the statistic. */
  method MergeWeightedResults(results: seq<seq<WeightedRow>>) returns (r: Result<seq<LeftJoin.Joined<string>>, string>)
    ensures |results| == 0 ==> r == Failure("IndexError")
    ensures |results| > 0 ==>
      (r.Success? <==> |results| == 1 || forall i :: 0 <= i < |results| ==> LeftJoin.UniqueKeys(WeightedFrame(results[i])))
    ensures |results| > 0 && r.Failure? ==> r.error == "MergeError"
    ensures r.Success? ==> r.value == LeftJoin.LeftJoinAll(WeightedFrames(results))
  {
    r := LeftJoin.MergeFrames(WeightedFrames(results));
  }

  /** No two rows of a statistics table share statistic, class and metric. */
  predicate DistinctKeys(table: seq<StatRow>) {
    forall i, j :: 0 <= i < j < |table| ==> KeyOf(table[i]) != KeyOf(table[j])
  }

  lemma DistinctConcat(a: seq<StatRow>, b: seq<StatRow>)
    requires DistinctKeys(a) && DistinctKeys(b)
    requires forall x, y :: x in a && y in b ==> KeyOf(x) != KeyOf(y)
    ensures DistinctKeys(a + b)
  {
    var c := a + b;
    forall i, j | 0 <= i < j < |c| ensures KeyOf(c[i]) != KeyOf(c[j]) {
      if j < |a| {
        assert c[i] == a[i] && c[j] == a[j];
      } else if i >= |a| {
        assert c[i] == b[i - |a|] && c[j] == b[j - |a|];
      } else {
        assert c[i] == a[i] && c[j] == b[j - |a|];
        assert c[i] in a && c[j] in b;
      }
    }
  }

  lemma StatBlockDistinct(rows: seq<TileRow>, classes: seq<string>, metric: string, j: nat, k: nat,
                          median: seq<real> -> real, std: seq<real> -> real)
    requires k < |Statistics| && Filled(rows, classes, j + 1) && Texts.Distinct(classes)
    ensures DistinctKeys(StatBlock(rows, classes, metric, j, k, median, std))
  {
    var b := StatBlock(rows, classes, metric, j, k, median, std);
    forall p, q | 0 <= p < q < |b| ensures KeyOf(b[p]) != KeyOf(b[q]) {
      assert b[p].classKey == classes[p] && b[q].classKey == classes[q];
    }
  }

  lemma MetricBlockDistinct(rows: seq<TileRow>, classes: seq<string>, metric: string, j: nat,
                            median: seq<real> -> real, std: seq<real> -> real)
    requires Filled(rows, classes, j + 1) && Texts.Distinct(classes)
    ensures DistinctKeys(MetricBlock(rows, classes, metric, j, median, std))
  {
    var b0, b1, b2 := StatBlock(rows, classes, metric, j, 0, median, std), StatBlock(rows, classes, metric, j, 1, median, std),
      StatBlock(rows, classes, metric, j, 2, median, std);
    var b3, b4 := StatBlock(rows, classes, metric, j, 3, median, std), StatBlock(rows, classes, metric, j, 4, median, std);
    StatBlockDistinct(rows, classes, metric, j, 0, median, std);
    StatBlockDistinct(rows, classes, metric, j, 1, median, std);
    StatBlockDistinct(rows, classes, metric, j, 2, median, std);
    StatBlockDistinct(rows, classes, metric, j, 3, median, std);
    StatBlockDistinct(rows, classes, metric, j, 4, median, std);
    DistinctConcat(b0, b1);
    DistinctConcat(b0 + b1, b2);
    DistinctConcat(b0 + b1 + b2, b3);
    DistinctConcat(b0 + b1 + b2 + b3, b4);
  }

  lemma {:induction false} MetricBlocksDistinct(rows: seq<TileRow>, classes: seq<string>, metrics: seq<string>,
                                                median: seq<real> -> real, std: seq<real> -> real)
    requires Filled(rows, classes, |metrics|) && Texts.Distinct(classes) && Texts.Distinct(metrics)
    ensures DistinctKeys(MetricBlocks(rows, classes, metrics, median, std))
  {
    if |metrics| > 0 {
      var n := |metrics| - 1;
      var prefix := MetricBlocks(rows, classes, metrics[..n], median, std);
      var last := MetricBlock(rows, classes, metrics[n], n, median, std);
      MetricBlocksDistinct(rows, classes, metrics[..n], median, std);
      MetricBlockDistinct(rows, classes, metrics[n], n, median, std);
      assert metrics[n] !in metrics[..n];
      DistinctConcat(prefix, last);
    }
  }

  /** `compute_stats` never repeats a key, so `merge_stats` accepts its tables. */
  lemma StatsKeysUnique(rows: seq<TileRow>, metrics: seq<string>, median: seq<real> -> real, std: seq<real> -> real)
    requires Shaped(rows, metrics) && Texts.Distinct(metrics)
    ensures LeftJoin.UniqueKeys(StatFrame(ComputeStats(rows, metrics, median, std)))
  {
    ClassesFilled(rows, metrics);
    MetricBlocksDistinct(rows, ClassesOf(rows), metrics, median, std);
  }

  /** The keys of the `compute_stats` table: every statistic of every class and every metric column. */
  lemma StatsKeys(rows: seq<TileRow>, metrics: seq<string>, median: seq<real> -> real, std: seq<real> -> real)
    requires Shaped(rows, metrics) && Texts.Distinct(metrics)
    ensures forall key: StatKey :: key in LeftJoin.Keys(StatFrame(ComputeStats(rows, metrics, median, std))) <==>
      key.statistic in Statistics && key.classKey in ClassesOf(rows) && key.metric in metrics
  {
    var table := ComputeStats(rows, metrics, median, std);
    forall key | key in LeftJoin.Keys(StatFrame(table))
      ensures key.statistic in Statistics && key.classKey in ClassesOf(rows) && key.metric in metrics
    {
      FrameKeyRow(table, key);
    }
    forall key: StatKey | key.statistic in Statistics && key.classKey in ClassesOf(rows) && key.metric in metrics
      ensures key in LeftJoin.Keys(StatFrame(table))
    {
      var k := IndexOf(Statistics, key.statistic);
      assert |Matching(Group(table, Statistics[k]), key.metric, key.classKey)| == 1 by {
        StatsLookup(rows, metrics, median, std, k, key.classKey, IndexOf(metrics, key.metric));
      }
      MatchingKey(table, key);
    }
  }

  lemma FrameKeyRow(table: seq<StatRow>, key: StatKey)
    requires key in LeftJoin.Keys(StatFrame(table))
    ensures exists x :: x in table && KeyOf(x) == key
  {
    var i :| 0 <= i < |table| && StatFrame(table)[i].0 == key;
    assert table[i] in table;
  }

  /** A statistic's group that finds a result for a metric and a class holds that key. */
  lemma MatchingKey(table: seq<StatRow>, key: StatKey)
    requires |Matching(Group(table, key.statistic), key.metric, key.classKey)| > 0
    ensures key in LeftJoin.Keys(StatFrame(table))
  {
    var g := Group(table, key.statistic);
    var q :| 0 <= q < |g| && Selects(g[q], key.metric, key.classKey);
    assert g[q] in g;
    var i :| 0 <= i < |table| && table[i] == g[q];
    assert StatFrame(table)[i].0 == key;
  }

  /** A successful weighted result holds each statistic once, so `merge_weighted_results` accepts it. */
  lemma WeightedKeysUnique(table: seq<StatRow>, weights: Weights)
    requires ComputeWeightedResult(table, weights).Success?
    ensures LeftJoin.UniqueKeys(WeightedFrame(ComputeWeightedResult(table, weights).value))
  {
    var rows := ComputeWeightedResult(table, weights).value;
    var column := WeightedStatistics(rows);
    assert Texts.Distinct(column);
    forall i, j | 0 <= i < j < |rows| ensures WeightedFrame(rows)[i].0 != WeightedFrame(rows)[j].0 {
      assert column[i] != column[j];
    }
  }

  /**
   * `merge_all_results` without the files: the statistics and the weighted
   * result of each of the two classifications (a `ValueError` in either
   * stops everything), then the two statistics tables and the two weighted
   * results joined side by side. The joins never raise `MergeError`.
   */
  method MergeAllResults(rows1: seq<TileRow>, metrics1: seq<string>, rows2: seq<TileRow>, metrics2: seq<string>,
                         weights: Weights, median: seq<real> -> real, std: seq<real> -> real)
    returns (r: Result<(seq<LeftJoin.Joined<StatKey>>, seq<LeftJoin.Joined<string>>), string>)
    requires Shaped(rows1, metrics1) && Texts.Distinct(metrics1) && Shaped(rows2, metrics2) && Texts.Distinct(metrics2)
    ensures var w1 := ComputeWeightedResult(ComputeStats(rows1, metrics1, median, std), weights);
            var w2 := ComputeWeightedResult(ComputeStats(rows2, metrics2, median, std), weights);
      && (r.Success? <==> w1.Success? && w2.Success?)
      && (r.Failure? ==> r.error == if w1.Failure? then w1.error else w2.error)
      && (r.Success? ==>
        && r.value.0 == LeftJoin.LeftJoinAll([StatFrame(ComputeStats(rows1, metrics1, median, std)),
                                             StatFrame(ComputeStats(rows2, metrics2, median, std))])
        && r.value.1 == LeftJoin.LeftJoinAll([WeightedFrame(w1.value), WeightedFrame(w2.value)]))
  {
    var stats1 := ComputeStats(rows1, metrics1, median, std);
    var result1 := ComputeWeightedResult(stats1, weights);
    if result1.Failure? {
      return Failure(result1.error);
    }
    var stats2 := ComputeStats(rows2, metrics2, median, std);
    var result2 := ComputeWeightedResult(stats2, weights);
    if result2.Failure? {
      return Failure(result2.error);
    }
    StatsKeysUnique(rows1, metrics1, median, std);
    StatsKeysUnique(rows2, metrics2, median, std);
    WeightedKeysUnique(stats1, weights);
    WeightedKeysUnique(stats2, weights);
    FramesOfTwo(stats1, stats2, result1.value, result2.value);
    UniqueOfTwo(stats1, stats2, result1.value, result2.value);
    var merged := MergeStats([stats1, stats2]);
    var weighted := MergeWeightedResults([result1.value, result2.value]);
    assert merged.Success? && weighted.Success?;
    return Success((merged.value, weighted.value));
  }

  /**
   * When the second classification's per-tile results cover every class
   * and metric of the first, the merged statistics table has no missing
   * `result_1`.
   */
  lemma MergedStatsComplete(rows1: seq<TileRow>, metrics1: seq<string>, rows2: seq<TileRow>, metrics2: seq<string>,
                            median: seq<real> -> real, std: seq<real> -> real)
    requires Shaped(rows1, metrics1) && Texts.Distinct(metrics1) && Shaped(rows2, metrics2) && Texts.Distinct(metrics2)
    requires forall c :: c in ClassesOf(rows1) ==> c in ClassesOf(rows2)
    requires forall m :: m in metrics1 ==> m in metrics2
    ensures var frames := [StatFrame(ComputeStats(rows1, metrics1, median, std)), StatFrame(ComputeStats(rows2, metrics2, median, std))];
      forall p :: 0 <= p < |frames[0]| ==> LeftJoin.LeftJoinAll(frames)[p].results[1].Some?
  {
    var frames := [StatFrame(ComputeStats(rows1, metrics1, median, std)), StatFrame(ComputeStats(rows2, metrics2, median, std))];
    StatsKeys(rows1, metrics1, median, std);
    StatsKeys(rows2, metrics2, median, std);
    JoinCompleteOfTwo(frames[0], frames[1]);
  }

  /**
   * When the second classification has at least one tile and one metric,
   * the merged weighted results have no missing `result_1`: both hold the
   * five statistics.
   */
  lemma MergedWeightedComplete(rows1: seq<TileRow>, metrics1: seq<string>, rows2: seq<TileRow>, metrics2: seq<string>,
                               weights: Weights, median: seq<real> -> real, std: seq<real> -> real)
    requires Shaped(rows1, metrics1) && Texts.Distinct(metrics1) && Shaped(rows2, metrics2) && Texts.Distinct(metrics2)
    requires |rows2| > 0 && |metrics2| > 0
    requires ComputeWeightedResult(ComputeStats(rows1, metrics1, median, std), weights).Success?
    requires ComputeWeightedResult(ComputeStats(rows2, metrics2, median, std), weights).Success?
    ensures var frames := [WeightedFrame(ComputeWeightedResult(ComputeStats(rows1, metrics1, median, std), weights).value),
                           WeightedFrame(ComputeWeightedResult(ComputeStats(rows2, metrics2, median, std), weights).value)];
      forall p :: 0 <= p < |frames[0]| ==> LeftJoin.LeftJoinAll(frames)[p].results[1].Some?
  {
    var stats1, stats2 := ComputeStats(rows1, metrics1, median, std), ComputeStats(rows2, metrics2, median, std);
    StatisticsInStats(rows1, metrics1, median, std);
    StatsStatistics(rows2, metrics2, median, std);
    WeightedComplete(stats1, stats2, weights);
  }

  /** Every statistic of the `compute_stats` table is one of the five. */
  lemma StatisticsInStats(rows: seq<TileRow>, metrics: seq<string>, median: seq<real> -> real, std: seq<real> -> real)
    requires Shaped(rows, metrics)
    ensures forall s :: s in StatisticsOf(ComputeStats(rows, metrics, median, std)) ==> s in Statistics
  {
    var table := ComputeStats(rows, metrics, median, std);
    StatisticsWithin(table, Statistics);
  }

  /** The statistics of a table whose rows all hold one of `names` are among `names`. */
  lemma StatisticsWithin(table: seq<StatRow>, names: seq<string>)
    requires forall x :: x in table ==> x.statistic in names
    ensures forall s :: s in StatisticsOf(table) ==> s in names
  {
    forall s | s in StatisticsOf(table) ensures s in names {
      var p :| 0 <= p < |table| && table[p].statistic == s;
      assert table[p] in table;
    }
  }

  lemma WeightedComplete(table1: seq<StatRow>, table2: seq<StatRow>, weights: Weights)
    requires ComputeWeightedResult(table1, weights).Success? && ComputeWeightedResult(table2, weights).Success?
    requires forall s :: s in StatisticsOf(table1) ==> s in StatisticsOf(table2)
    ensures var frames := [WeightedFrame(ComputeWeightedResult(table1, weights).value),
                           WeightedFrame(ComputeWeightedResult(table2, weights).value)];
      forall p :: 0 <= p < |frames[0]| ==> LeftJoin.LeftJoinAll(frames)[p].results[1].Some?
  {
    var w1, w2 := ComputeWeightedResult(table1, weights).value, ComputeWeightedResult(table2, weights).value;
    assert WeightedStatistics(w1) == StatisticsOf(table1) && WeightedStatistics(w2) == StatisticsOf(table2);
    forall key | key in LeftJoin.Keys(WeightedFrame(w1)) ensures key in LeftJoin.Keys(WeightedFrame(w2)) {
      WeightedKey(w1, w2, key);
    }
    JoinCompleteOfTwo(WeightedFrame(w1), WeightedFrame(w2));
  }

  lemma WeightedKey(w1: seq<WeightedRow>, w2: seq<WeightedRow>, key: string)
    requires key in LeftJoin.Keys(WeightedFrame(w1))
    requires forall s :: s in WeightedStatistics(w1) ==> s in WeightedStatistics(w2)
    ensures key in LeftJoin.Keys(WeightedFrame(w2))
  {
    var i :| 0 <= i < |w1| && WeightedFrame(w1)[i].0 == key;
    assert WeightedStatistics(w1)[i] == key;
    assert key in WeightedStatistics(w2);
    var q :| 0 <= q < |w2| && WeightedStatistics(w2)[q] == key;
    assert WeightedFrame(w2)[q].0 == key;
  }

  /** Two tables joined: the keys of the first all held by the second leave no missing `result_1`. */
  lemma JoinCompleteOfTwo<K(!new)>(first: LeftJoin.Frame<K>, second: LeftJoin.Frame<K>)
    requires forall key :: key in LeftJoin.Keys(first) ==> key in LeftJoin.Keys(second)
    ensures forall p :: 0 <= p < |first| ==> LeftJoin.LeftJoinAll([first, second])[p].results[1].Some?
  {
    LeftJoin.JoinComplete([first, second]);
  }
}
