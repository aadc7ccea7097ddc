/**
 * MOBJ0 note (`MOBJ0.compute_note`): per row, with enough reference objects
 * the share of paired objects is scored, otherwise the number of unpaired ones.
 */
module Mobj0 {
  import opened Wrappers
  import opened Commons
  import opened Frames

  const MetricName := "mobj0"
  const RefObjectCount := "ref_object_count"
  const PairedCount := "paired_count"
  const NotPairedCount := "not_paired_count"

  /**
   * The note of one row: at or above the threshold
   * `paired / (paired + not_paired)` is scored through the above-threshold
   * ramp, otherwise `not_paired` through the under-threshold ramp.
   */
  function RowNote(cfg: RegimeConfig, refCount: Option<real>, paired: Option<real>, notPaired: Option<real>): (note: Option<real>)
    requires ValidRegimeConfig(cfg)
    ensures AtLeast(refCount, cfg.threshold) && paired.Some? && notPaired.Some? && paired.value + notPaired.value != 0.0 ==>
              note == ScoreOpt(cfg.above, Some(paired.value / (paired.value + notPaired.value)))
    ensures !AtLeast(refCount, cfg.threshold) ==> note == ScoreOpt(cfg.under, notPaired)
  {
    TwoRegimeNote(cfg, refCount, paired, OptAdd(paired, notPaired), notPaired)
  }

  /**
   * The threshold is inclusive: a reference count equal to it is scored on the
   * pairing ratio, a smaller one on the unpaired count.
   */
  lemma RowNoteBoundary(cfg: RegimeConfig, paired: real, notPaired: real)
    requires ValidRegimeConfig(cfg) && paired + notPaired != 0.0
    ensures RowNote(cfg, Some(cfg.threshold), Some(paired), Some(notPaired))
         == ScoreOpt(cfg.above, Some(paired / (paired + notPaired)))
    ensures RowNote(cfg, Some(cfg.threshold - 1.0), Some(paired), Some(notPaired))
         == ScoreOpt(cfg.under, Some(notPaired))
  {
  }

  /** The note column of a frame's rows. */
  function NoteColumn(cfg: RegimeConfig, refCounts: seq<Option<real>>, paired: seq<Option<real>>,
                      notPaired: seq<Option<real>>): (col: seq<Cell>)
    requires ValidRegimeConfig(cfg) && |refCounts| == |paired| == |notPaired|
    ensures |col| == |refCounts|
    ensures forall i :: 0 <= i < |col| ==> col[i] == Num(RowNote(cfg, refCounts[i], paired[i], notPaired[i]))
  {
    seq(|refCounts|, i requires 0 <= i < |refCounts| => Num(RowNote(cfg, refCounts[i], paired[i], notPaired[i])))
  }

  /**
   * `MOBJ0.compute_note`: adds the `mobj0` column computed row by row and
   * drops the three input columns, in place; the other columns and the row
   * order are kept. A missing input column raises `KeyError` (`ok` false)
   * before the frame is touched.
   */
  method ComputeNote(df: Frame, cfg: RegimeConfig) returns (ok: bool)
    requires df.Valid() && ValidRegimeConfig(cfg)
    requires RefObjectCount in df.data ==> df.Numeric(RefObjectCount)
    requires PairedCount in df.data ==> df.Numeric(PairedCount)
    requires NotPairedCount in df.data ==> df.Numeric(NotPairedCount)
    modifies df
    ensures df.Valid() && df.height == old(df.height)
    ensures ok <==> RefObjectCount in old(df.data) && PairedCount in old(df.data) && NotPairedCount in old(df.data)
    ensures !ok ==> df.columns == old(df.columns) && df.data == old(df.data)
    ensures ok ==> df.columns == Without(Assigned(old(df.columns), MetricName), [RefObjectCount, PairedCount, NotPairedCount])
    ensures ok ==> df.data == old(df.data)[MetricName := NoteColumn(cfg, old(df.Numbers(RefObjectCount)),
                                                                    old(df.Numbers(PairedCount)), old(df.Numbers(NotPairedCount)))]
                              - {RefObjectCount, PairedCount, NotPairedCount}
  {
    ok := RefObjectCount in df.data && PairedCount in df.data && NotPairedCount in df.data;
    if !ok {
      return;
    }
    var notes := NoteColumn(cfg, df.Numbers(RefObjectCount), df.Numbers(PairedCount), df.Numbers(NotPairedCount));
    df.SetColumn(MetricName, notes);
    ok := df.Drop([RefObjectCount, PairedCount, NotPairedCount]);
  }
}
