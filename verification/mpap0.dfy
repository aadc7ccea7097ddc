/**
 * MPAP0 note (`MPAP0.compute_note`): per row, with enough reference points
 * the relative point-count difference is scored, otherwise the absolute one.
 */
module Mpap0 {
  import opened Wrappers
  import opened Commons
  import opened Frames

  const MetricName := "mpap0"
  const RefCount := "ref_count"
  const AbsoluteDiff := "absolute_diff"

  /**
   * The note of one row: at or above the threshold `absolute_diff / ref_count`
   * is scored through the above-threshold ramp, otherwise `absolute_diff`
   * through the under-threshold ramp.
   */
  function RowNote(cfg: RegimeConfig, refCount: Option<real>, absDiff: Option<real>): (note: Option<real>)
    requires ValidRegimeConfig(cfg)
    ensures cfg.threshold > 0.0 && AtLeast(refCount, cfg.threshold) && absDiff.Some? ==>
              note == ScoreOpt(cfg.above, Some(absDiff.value / refCount.value))
    ensures !AtLeast(refCount, cfg.threshold) ==> note == ScoreOpt(cfg.under, absDiff)
  {
    TwoRegimeNote(cfg, refCount, absDiff, refCount, absDiff)
  }

  /**
   * With a positive threshold the ratio branch never divides by zero: the
   * note is NaN exactly when the absolute difference is.
   */
  lemma RowNoteDefined(cfg: RegimeConfig, refCount: Option<real>, absDiff: Option<real>)
    requires ValidRegimeConfig(cfg) && cfg.threshold > 0.0
    ensures RowNote(cfg, refCount, absDiff).Some? <==> absDiff.Some?
  {
  }

  /** The note column of a frame's rows. */
  function NoteColumn(cfg: RegimeConfig, refCounts: seq<Option<real>>, absDiffs: seq<Option<real>>): (col: seq<Cell>)
    requires ValidRegimeConfig(cfg) && |refCounts| == |absDiffs|
    ensures |col| == |refCounts|
    ensures forall i :: 0 <= i < |col| ==> col[i] == Num(RowNote(cfg, refCounts[i], absDiffs[i]))
  {
    seq(|refCounts|, i requires 0 <= i < |refCounts| => Num(RowNote(cfg, refCounts[i], absDiffs[i])))
  }

  /**
   * `MPAP0.compute_note`: adds the `mpap0` column computed row by row and
   * drops the two input columns, in place. A missing input column raises
   * `KeyError` (`ok` false) before the frame is touched.
   */
  method ComputeNote(df: Frame, cfg: RegimeConfig) returns (ok: bool)
    requires df.Valid() && ValidRegimeConfig(cfg)
    requires RefCount in df.data ==> df.Numeric(RefCount)
    requires AbsoluteDiff in df.data ==> df.Numeric(AbsoluteDiff)
    modifies df
    ensures df.Valid() && df.height == old(df.height)
    ensures ok <==> RefCount in old(df.data) && AbsoluteDiff in old(df.data)
    ensures !ok ==> df.columns == old(df.columns) && df.data == old(df.data)
    ensures ok ==> df.columns == Without(Assigned(old(df.columns), MetricName), [AbsoluteDiff, RefCount])
    ensures ok ==> df.data == old(df.data)[MetricName := NoteColumn(cfg, old(df.Numbers(RefCount)), old(df.Numbers(AbsoluteDiff)))]
                              - {AbsoluteDiff, RefCount}
  {
    ok := RefCount in df.data && AbsoluteDiff in df.data;
    if !ok {
      return;
    }
    var notes := NoteColumn(cfg, df.Numbers(RefCount), df.Numbers(AbsoluteDiff));
    df.SetColumn(MetricName, notes);
    ok := df.Drop([AbsoluteDiff, RefCount]);
  }
}
