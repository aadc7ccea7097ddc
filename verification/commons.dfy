/**
 * The bounded affine scorer (`bounded_affine_function`) that turns a raw
 * comparison value into a note, and the two-regime rule that every note
 * strategy (MPAP0, MPLA0, MOBJ0) builds from it.
 */
module Commons {
  import opened Wrappers

  /** A control point of a scoring ramp: a metric value and the note it gets. */
  datatype Point = Point(metric: real, note: real)

  /** The two control points of a ramp, the one with the lowest metric first. */
  datatype Ramp = Ramp(minPoint: Point, maxPoint: Point)

  /**
   * The scorer divides by `x_max - x_min` only when `x_min <= x <= x_max`;
   * the division is by zero exactly when the query sits on two equal bounds.
   */
  predicate Scorable(r: Ramp, x: real) {
    !(x == r.minPoint.metric && x == r.maxPoint.metric)
  }

  /** A ramp whose two control points have different metric values: every query can be scored. */
  predicate NonDegenerate(r: Ramp) {
    r.minPoint.metric != r.maxPoint.metric
  }

  /** Clamped linear interpolation between the two control points. */
  function Score(r: Ramp, x: real): (y: real)
    requires Scorable(r, x)
    ensures x < r.minPoint.metric ==> y == r.minPoint.note
    ensures r.minPoint.metric <= x && r.maxPoint.metric < x ==> y == r.maxPoint.note
    // between the bounds the point (x, y) lies on the line through both control points
    ensures r.minPoint.metric <= x <= r.maxPoint.metric ==>
              (y - r.minPoint.note) * (r.maxPoint.metric - r.minPoint.metric)
              == (r.maxPoint.note - r.minPoint.note) * (x - r.minPoint.metric)
  {
    var xMin, yMin, xMax, yMax := r.minPoint.metric, r.minPoint.note, r.maxPoint.metric, r.maxPoint.note;
    if x < xMin then yMin
    else if x > xMax then yMax
    else
      var a := (yMax - yMin) / (xMax - xMin);
      var b := yMin - a * xMin;
      a * x + b
  }

  /** The ramp passes through both of its control points. */
  lemma ScoreAtControlPoints(r: Ramp)
    requires r.minPoint.metric < r.maxPoint.metric
    ensures Score(r, r.minPoint.metric) == r.minPoint.note
    ensures Score(r, r.maxPoint.metric) == r.maxPoint.note
  {
    var d := r.maxPoint.metric - r.minPoint.metric;
    var y := Score(r, r.maxPoint.metric);
    assert (y - r.minPoint.note) * d == (r.maxPoint.note - r.minPoint.note) * d;
  }

  /** Whatever the query, the note lies between the two control notes. */
  lemma ScoreWithinNotes(r: Ramp, x: real)
    requires Scorable(r, x)
    ensures Min(r.minPoint.note, r.maxPoint.note) <= Score(r, x) <= Max(r.minPoint.note, r.maxPoint.note)
  {
    var xMin, yMin, xMax, yMax := r.minPoint.metric, r.minPoint.note, r.maxPoint.metric, r.maxPoint.note;
    if xMin <= x <= xMax {
      var d, t := xMax - xMin, x - xMin;
      assert 0.0 < d && 0.0 <= t <= d;
      var y := Score(r, x);
      assert (y - yMin) * d == (yMax - yMin) * t;
      if yMin <= yMax {
        assert (yMax - yMin) * t <= (yMax - yMin) * d;
        assert 0.0 <= (y - yMin) * d <= (yMax - yMin) * d;
      } else {
        assert (yMin - yMax) * t <= (yMin - yMax) * d;
        assert (yMax - yMin) * d <= (y - yMin) * d <= 0.0;
      }
    }
  }

  /** The note moves with the query in the direction the ramp goes: up when `y_min <= y_max`, down otherwise. */
  lemma ScoreMonotone(r: Ramp, x1: real, x2: real)
    requires Scorable(r, x1) && Scorable(r, x2) && x1 <= x2
    ensures r.minPoint.note <= r.maxPoint.note ==> Score(r, x1) <= Score(r, x2)
    ensures r.maxPoint.note <= r.minPoint.note ==> Score(r, x2) <= Score(r, x1)
  {
    var xMin, yMin, xMax, yMax := r.minPoint.metric, r.minPoint.note, r.maxPoint.metric, r.maxPoint.note;
    ScoreWithinNotes(r, x1);
    ScoreWithinNotes(r, x2);
    if xMin <= x1 && x2 <= xMax {
      SlopeMonotone(yMin, yMax, xMax - xMin, x1 - xMin, x2 - xMin, Score(r, x1), Score(r, x2));
    }
  }

  /** Two points on a line of slope `(yMax - yMin) / d` are ordered as the slope says. */
  lemma SlopeMonotone(yMin: real, yMax: real, d: real, t1: real, t2: real, y1: real, y2: real)
    requires 0.0 < d && t1 <= t2
    requires (y1 - yMin) * d == (yMax - yMin) * t1
    requires (y2 - yMin) * d == (yMax - yMin) * t2
    ensures yMin <= yMax ==> y1 <= y2
    ensures yMax <= yMin ==> y2 <= y1
  {
    assert (y2 - y1) * d == (yMax - yMin) * (t2 - t1);
    if yMin <= yMax {
      assert 0.0 <= (yMax - yMin) * (t2 - t1);
    } else {
      assert (yMax - yMin) * (t2 - t1) <= 0.0;
    }
  }

  /** The scoring cases of the source's own tests. */
  lemma ScoreExamples()
    ensures var r := Ramp(Point(1.0, 3.0), Point(2.0, 1.0));
      && Score(r, 0.0) == 3.0 && Score(r, 1.0) == 3.0 && Score(r, 1.5) == 2.0
      && Score(r, 1.75) == 1.5 && Score(r, 2.0) == 1.0 && Score(r, 3.0) == 1.0
    ensures var r := Ramp(Point(1.0, 0.0), Point(5.0, 2.0));
      && Score(r, -1.0) == 0.0 && Score(r, 1.0) == 0.0 && Score(r, 2.0) == 0.5
      && Score(r, 4.0) == 1.5 && Score(r, 5.0) == 2.0 && Score(r, 12.0) == 2.0
  {
  }

  /**
   * The scorer applied to a value that may be NaN: NaN fails both comparisons
   * and propagates through `a*x + b`, so the note is NaN too.
   */
  function ScoreOpt(r: Ramp, x: Option<real>): (y: Option<real>)
    requires NonDegenerate(r)
    ensures y.Some? <==> x.Some?
    ensures y.Some? ==> Min(r.minPoint.note, r.maxPoint.note) <= y.value <= Max(r.minPoint.note, r.maxPoint.note)
  {
    match x
    case None => None
    case Some(v) => ScoreWithinNotes(r, v); Some(Score(r, v))
  }

  /**
   * The scorer applied to the float quotient `num / den`: a zero denominator
   * gives NaN for `0/0` and an infinity otherwise, and an infinity is clamped
   * to the note of the side it falls on.
   */
  function ScoreQuotient(r: Ramp, num: Option<real>, den: Option<real>): (y: Option<real>)
    requires NonDegenerate(r)
    ensures y.Some? <==> num.Some? && den.Some? && (num.value != 0.0 || den.value != 0.0)
    ensures y.Some? ==> Min(r.minPoint.note, r.maxPoint.note) <= y.value <= Max(r.minPoint.note, r.maxPoint.note)
  {
    if num.None? || den.None? then None
    else if den.value != 0.0 then ScoreOpt(r, Some(num.value / den.value))
    else if num.value == 0.0 then None
    else if num.value > 0.0 then Some(r.maxPoint.note)   // +inf is above every bound
    else Some(r.minPoint.note)                          // -inf is below every bound
  }

  /**
   * Note configuration of a two-regime metric: the reference-size threshold
   * and the ramps used at or above it and under it.
   */
  datatype RegimeConfig = RegimeConfig(threshold: real, above: Ramp, under: Ramp)

  predicate ValidRegimeConfig(cfg: RegimeConfig) {
    NonDegenerate(cfg.above) && NonDegenerate(cfg.under)
  }

  /** pandas' `size >= threshold`, which is false for NaN. */
  predicate AtLeast(size: Option<real>, threshold: real) {
    size.Some? && size.value >= threshold
  }

  /**
   * The per-row choice of every two-regime note: with enough reference data
   * the ratio `num / den` is scored through the above-threshold ramp, and
   * otherwise the absolute miscount `miss` through the under-threshold ramp.
   */
  function TwoRegimeNote(cfg: RegimeConfig, size: Option<real>, num: Option<real>, den: Option<real>,
                         miss: Option<real>): (note: Option<real>)
    requires ValidRegimeConfig(cfg)
    ensures note.Some? <==> if AtLeast(size, cfg.threshold) then num.Some? && den.Some? && (num.value != 0.0 || den.value != 0.0)
                            else miss.Some?
    ensures note.Some? ==> WithinNotes(if AtLeast(size, cfg.threshold) then cfg.above else cfg.under, note.value)
  {
    if AtLeast(size, cfg.threshold) then ScoreQuotient(cfg.above, num, den)
    else ScoreOpt(cfg.under, miss)
  }

  /** `y` lies between the two control notes of `r`. */
  predicate WithinNotes(r: Ramp, y: real) {
    Min(r.minPoint.note, r.maxPoint.note) <= y <= Max(r.minPoint.note, r.maxPoint.note)
  }

  /** Float addition where NaN is contagious. */
  function OptAdd(a: Option<real>, b: Option<real>): (c: Option<real>)
    ensures c.Some? <==> a.Some? && b.Some?
  {
    if a.Some? && b.Some? then Some(a.value + b.value) else None
  }

  /** Float subtraction where NaN is contagious. */
  function OptSub(a: Option<real>, b: Option<real>): (c: Option<real>)
    ensures c.Some? <==> a.Some? && b.Some?
  {
    if a.Some? && b.Some? then Some(a.value - b.value) else None
  }

  /** All four control notes of a configuration lie in `[lo, hi]`. */
  predicate NotesWithin(cfg: RegimeConfig, lo: real, hi: real) {
    && lo <= cfg.above.minPoint.note <= hi && lo <= cfg.above.maxPoint.note <= hi
    && lo <= cfg.under.minPoint.note <= hi && lo <= cfg.under.maxPoint.note <= hi
  }

  /** A defined two-regime note stays within the range of the configured notes. */
  lemma TwoRegimeWithin(cfg: RegimeConfig, size: Option<real>, num: Option<real>, den: Option<real>,
                        miss: Option<real>, lo: real, hi: real)
    requires ValidRegimeConfig(cfg) && NotesWithin(cfg, lo, hi)
    ensures var note := TwoRegimeNote(cfg, size, num, den, miss);
            note.Some? ==> lo <= note.value <= hi
  {
  }

  /**
   * The threshold is inclusive: a reference size equal to it takes the ratio
   * branch, any smaller (or NaN) size takes the miscount branch.
   */
  lemma TwoRegimeBoundary(cfg: RegimeConfig, num: Option<real>, den: Option<real>, miss: Option<real>, below: real)
    requires ValidRegimeConfig(cfg) && below < cfg.threshold
    ensures TwoRegimeNote(cfg, Some(cfg.threshold), num, den, miss) == ScoreQuotient(cfg.above, num, den)
    ensures TwoRegimeNote(cfg, Some(below), num, den, miss) == ScoreOpt(cfg.under, miss)
    ensures TwoRegimeNote(cfg, None, num, den, miss) == ScoreOpt(cfg.under, miss)
  {
  }

  /**
   * With a positive threshold and defined inputs, the note is defined as soon
   * as the ratio's denominator is at least the reference size.
   */
  lemma TwoRegimeDefined(cfg: RegimeConfig, size: real, num: real, den: real, miss: real)
    requires ValidRegimeConfig(cfg) && cfg.threshold > 0.0 && size <= den
    ensures TwoRegimeNote(cfg, Some(size), Some(num), Some(den), Some(miss)).Some?
  {
  }

  function Min(a: real, b: real): real { if a <= b then a else b }
  function Max(a: real, b: real): real { if a >= b then a else b }
}
