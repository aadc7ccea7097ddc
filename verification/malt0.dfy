/**
 * MALT0 note (`MALT0.compute_note`): per row, the coefficient-weighted
 * average of the notes of the maximum, mean and standard deviation of the
 * height differences.
 */
module Malt0 {
  import opened Wrappers
  import opened Commons
  import opened Frames

  const MetricName := "malt0"
  const MaxDiff := "max_diff"
  const MeanDiff := "mean_diff"
  const StdDiff := "std_diff"

  /** The note configuration of one sub-metric: its ramp and its coefficient. */
  datatype SubConfig = SubConfig(ramp: Ramp, coefficient: real)

  /** The note configuration of MALT0: one entry per sub-metric. */
  datatype NoteConfig = NoteConfig(maxDiff: SubConfig, meanDiff: SubConfig, stdDiff: SubConfig)

  /**
   * The ramp actually used for `std_diff`: the metric values of its own
   * control points with the note values of the `mean_diff` control points.
   */
  function StdRamp(cfg: NoteConfig): Ramp {
    Ramp(Point(cfg.stdDiff.ramp.minPoint.metric, cfg.meanDiff.ramp.minPoint.note),
         Point(cfg.stdDiff.ramp.maxPoint.metric, cfg.meanDiff.ramp.maxPoint.note))
  }

  function SumCoefficients(cfg: NoteConfig): real {
    cfg.maxDiff.coefficient + cfg.meanDiff.coefficient + cfg.stdDiff.coefficient
  }

  /** Every ramp can score every value and the weights do not sum to zero. */
  predicate ValidConfig(cfg: NoteConfig) {
    && NonDegenerate(cfg.maxDiff.ramp) && NonDegenerate(cfg.meanDiff.ramp) && NonDegenerate(StdRamp(cfg))
    && SumCoefficients(cfg) != 0.0
  }

  /**
   * The note of one row: the three sub-notes weighted by their coefficients
   * and divided by the sum of the coefficients. NaN in any sub-metric gives NaN.
   */
  function RowNote(cfg: NoteConfig, maxDiff: Option<real>, meanDiff: Option<real>, stdDiff: Option<real>): (note: Option<real>)
    requires ValidConfig(cfg)
    ensures note.Some? <==> maxDiff.Some? && meanDiff.Some? && stdDiff.Some?
    ensures note.Some? ==>
      note.value * SumCoefficients(cfg)
      == cfg.maxDiff.coefficient * Score(cfg.maxDiff.ramp, maxDiff.value)
       + cfg.meanDiff.coefficient * Score(cfg.meanDiff.ramp, meanDiff.value)
       + cfg.stdDiff.coefficient * Score(StdRamp(cfg), stdDiff.value)
  {
    var maxNote := ScoreOpt(cfg.maxDiff.ramp, maxDiff);
    var meanNote := ScoreOpt(cfg.meanDiff.ramp, meanDiff);
    var stdNote := ScoreOpt(StdRamp(cfg), stdDiff);
    if maxNote.Some? && meanNote.Some? && stdNote.Some? then
      var total := cfg.maxDiff.coefficient * maxNote.value + cfg.meanDiff.coefficient * meanNote.value
                   + cfg.stdDiff.coefficient * stdNote.value;
      DivTimes(total, SumCoefficients(cfg));
      Some(total / SumCoefficients(cfg))
    else None
  }

  /**
   * A configuration with coefficients 1, 2 and 2, the `max_diff` ramp from
   * (0.1, 1) to (4, 0) and the `mean_diff` and `std_diff` ramps from
   * (0.01, 1) to (0.5, 0): the one the MALT0 note test cases imply.
   */
  const ExampleConfig := NoteConfig(
    SubConfig(Ramp(Point(0.1, 1.0), Point(4.0, 0.0)), 1.0),
    SubConfig(Ramp(Point(0.01, 1.0), Point(0.5, 0.0)), 2.0),
    SubConfig(Ramp(Point(0.01, 1.0), Point(0.5, 0.0)), 2.0))

  /** The expected notes of the MALT0 note test cases, one sub-metric varied at a time, then all three. */
  lemma RowNoteExamples()
    ensures ValidConfig(ExampleConfig)
    ensures RowNote(ExampleConfig, Some(0.0), Some(0.5), Some(0.0)) == Some(3.0 / 5.0)
    ensures RowNote(ExampleConfig, Some(0.0), Some(0.255), Some(0.0)) == Some(4.0 / 5.0)
    ensures RowNote(ExampleConfig, Some(0.0), Some(0.0), Some(0.5)) == Some(3.0 / 5.0)
    ensures RowNote(ExampleConfig, Some(0.0), Some(0.0), None) == None
    ensures RowNote(ExampleConfig, Some(4.0), Some(0.0), Some(0.0)) == Some(4.0 / 5.0)
    ensures RowNote(ExampleConfig, Some(2.05), Some(0.0), Some(0.0)) == Some(4.5 / 5.0)
    ensures RowNote(ExampleConfig, Some(0.09), Some(0.01), Some(0.01)) == Some(1.0)
    ensures RowNote(ExampleConfig, Some(4.0001), Some(0.5), Some(0.5)) == Some(0.0)
    ensures RowNote(ExampleConfig, Some(2.05), Some(0.255), Some(0.255)) == Some(0.5)
  {
  }

  /** The note values of the three ramps used (those of `max_diff` and `mean_diff`) lie in `[lo, hi]`. */
  predicate NotesWithin(cfg: NoteConfig, lo: real, hi: real) {
    && lo <= cfg.maxDiff.ramp.minPoint.note <= hi && lo <= cfg.maxDiff.ramp.maxPoint.note <= hi
    && lo <= cfg.meanDiff.ramp.minPoint.note <= hi && lo <= cfg.meanDiff.ramp.maxPoint.note <= hi
  }

  /**
   * With non-negative coefficients, the note is a convex combination of the
   * sub-notes: when every control note lies in `[lo, hi]`, so does the note.
   */
  lemma RowNoteWithin(cfg: NoteConfig, maxDiff: real, meanDiff: real, stdDiff: real, lo: real, hi: real)
    requires ValidConfig(cfg) && NotesWithin(cfg, lo, hi)
    requires cfg.maxDiff.coefficient >= 0.0 && cfg.meanDiff.coefficient >= 0.0 && cfg.stdDiff.coefficient >= 0.0
    ensures var note := RowNote(cfg, Some(maxDiff), Some(meanDiff), Some(stdDiff));
      note.Some? && lo <= note.value <= hi
  {
    var x := Score(cfg.maxDiff.ramp, maxDiff);
    var y := Score(cfg.meanDiff.ramp, meanDiff);
    var z := Score(StdRamp(cfg), stdDiff);
    assert lo <= x <= hi by { ScoreBetween(cfg.maxDiff.ramp, maxDiff, lo, hi); }
    assert lo <= y <= hi by { ScoreBetween(cfg.meanDiff.ramp, meanDiff, lo, hi); }
    assert lo <= z <= hi by { ScoreBetween(StdRamp(cfg), stdDiff, lo, hi); }
    var note := RowNote(cfg, Some(maxDiff), Some(meanDiff), Some(stdDiff));
    RowNoteWeighted(cfg, maxDiff, meanDiff, stdDiff);
    ConvexNote(cfg, note.value, x, y, z, lo, hi);
  }

  /** `v` times the sum of the coefficients is the coefficient-weighted sum of the sub-notes `x`, `y` and `z`. */
  predicate Weighted(cfg: NoteConfig, v: real, x: real, y: real, z: real) {
    v * SumCoefficients(cfg) == cfg.maxDiff.coefficient * x + cfg.meanDiff.coefficient * y + cfg.stdDiff.coefficient * z
  }

  lemma RowNoteWeighted(cfg: NoteConfig, maxDiff: real, meanDiff: real, stdDiff: real)
    requires ValidConfig(cfg)
    ensures var note := RowNote(cfg, Some(maxDiff), Some(meanDiff), Some(stdDiff));
      note.Some? && Weighted(cfg, note.value, Score(cfg.maxDiff.ramp, maxDiff), Score(cfg.meanDiff.ramp, meanDiff),
                             Score(StdRamp(cfg), stdDiff))
  {
  }

  lemma ConvexNote(cfg: NoteConfig, v: real, x: real, y: real, z: real, lo: real, hi: real)
    requires SumCoefficients(cfg) != 0.0 && Weighted(cfg, v, x, y, z)
    requires cfg.maxDiff.coefficient >= 0.0 && cfg.meanDiff.coefficient >= 0.0 && cfg.stdDiff.coefficient >= 0.0
    requires lo <= x <= hi && lo <= y <= hi && lo <= z <= hi
    ensures lo <= v <= hi
  {
    Convex(cfg.maxDiff.coefficient, cfg.meanDiff.coefficient, cfg.stdDiff.coefficient, SumCoefficients(cfg),
           x, y, z, v, lo, hi);
  }

  lemma DivTimes(p: real, s: real)
    requires s != 0.0
    ensures p / s * s == p
  {
  }

  lemma ScoreBetween(r: Ramp, x: real, lo: real, hi: real)
    requires NonDegenerate(r)
    requires lo <= r.minPoint.note <= hi && lo <= r.maxPoint.note <= hi
    ensures lo <= Score(r, x) <= hi
  {
    ScoreWithinNotes(r, x);
  }

  /** A weighted average with non-negative weights stays within the bounds of the averaged values. */
  lemma Convex(a: real, b: real, c: real, s: real, x: real, y: real, z: real, v: real, lo: real, hi: real)
    requires a >= 0.0 && b >= 0.0 && c >= 0.0 && s == a + b + c && s != 0.0
    requires lo <= x <= hi && lo <= y <= hi && lo <= z <= hi
    requires v * s == a * x + b * y + c * z
    ensures lo <= v <= hi
  {
    WeightedBounds(a, b, c, s, x, y, z, lo, hi);
    Between(v, s, lo, hi);
  }

  lemma WeightedBounds(a: real, b: real, c: real, s: real, x: real, y: real, z: real, lo: real, hi: real)
    requires a >= 0.0 && b >= 0.0 && c >= 0.0 && s == a + b + c
    requires lo <= x <= hi && lo <= y <= hi && lo <= z <= hi
    ensures lo * s <= a * x + b * y + c * z <= hi * s
  {
    Scaled(a, x, lo, hi);
    Scaled(b, y, lo, hi);
    Scaled(c, z, lo, hi);
    Spread3(a, b, c, s, lo);
    Spread3(a, b, c, s, hi);
    SumLe(a * lo, b * lo, c * lo, a * x, b * y, c * z);
    SumLe(a * x, b * y, c * z, a * hi, b * hi, c * hi);
  }

  lemma SumLe(p: real, q: real, r: real, p': real, q': real, r': real)
    requires p <= p' && q <= q' && r <= r'
    ensures p + q + r <= p' + q' + r'
  {
  }

  lemma Scaled(a: real, x: real, lo: real, hi: real)
    requires a >= 0.0 && lo <= x <= hi
    ensures a * lo <= a * x <= a * hi
  {
  }

  lemma Spread3(a: real, b: real, c: real, s: real, t: real)
    requires s == a + b + c
    ensures t * s == a * t + b * t + c * t
  {
  }

  lemma Between(v: real, s: real, lo: real, hi: real)
    requires s > 0.0 && lo * s <= v * s <= hi * s
    ensures lo <= v <= hi
  {
  }

  /** The note column of a frame's rows. */
  function NoteColumn(cfg: NoteConfig, maxs: seq<Option<real>>, means: seq<Option<real>>, stds: seq<Option<real>>): (col: seq<Cell>)
    requires ValidConfig(cfg) && |maxs| == |means| == |stds|
    ensures |col| == |maxs|
    ensures forall i :: 0 <= i < |col| ==> col[i] == Num(RowNote(cfg, maxs[i], means[i], stds[i]))
  {
    seq(|maxs|, i requires 0 <= i < |maxs| => Num(RowNote(cfg, maxs[i], means[i], stds[i])))
  }

  /**
   * `MALT0.compute_note`: adds the `malt0` column computed row by row and
   * drops the three input columns, in place; the other columns and the row
   * order are kept. A missing input column raises `KeyError` (`ok` false)
   * before the frame is touched.
   */
  method ComputeNote(df: Frame, cfg: NoteConfig) returns (ok: bool)
    requires df.Valid() && ValidConfig(cfg)
    requires MaxDiff in df.data ==> df.Numeric(MaxDiff)
    requires MeanDiff in df.data ==> df.Numeric(MeanDiff)
    requires StdDiff in df.data ==> df.Numeric(StdDiff)
    modifies df
    ensures df.Valid() && df.height == old(df.height)
    ensures ok <==> MaxDiff in old(df.data) && MeanDiff in old(df.data) && StdDiff in old(df.data)
    ensures !ok ==> df.columns == old(df.columns) && df.data == old(df.data)
    ensures ok ==> df.columns == Without(Assigned(old(df.columns), MetricName), [MaxDiff, MeanDiff, StdDiff])
    ensures ok ==> df.data == old(df.data)[MetricName := NoteColumn(cfg, old(df.Numbers(MaxDiff)),
                                                                    old(df.Numbers(MeanDiff)), old(df.Numbers(StdDiff)))]
                              - {MaxDiff, MeanDiff, StdDiff}
  {
    ok := MaxDiff in df.data && MeanDiff in df.data && StdDiff in df.data;
    if !ok {
      return;
    }
    var notes := NoteColumn(cfg, df.Numbers(MaxDiff), df.Numbers(MeanDiff), df.Numbers(StdDiff));
    df.SetColumn(MetricName, notes);
    ok := df.Drop([MaxDiff, MeanDiff, StdDiff]);
  }
}
