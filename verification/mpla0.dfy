/**
 * MPLA0 note (`MPLA0.compute_note`): per row, with enough reference pixels
 * the intersection over union of the two occupancy maps is scored, otherwise
 * the number of pixels in the union but not in the intersection.
 */
module Mpla0 {
  import opened Wrappers
  import opened Commons
  import opened Frames

  const MetricName := "mpla0"
  const RefPixelCount := "ref_pixel_count"
  const Intersection := "intersection"
  const Union := "union"

  /**
   * The note of one row: at or above the threshold `intersection / union`
   * is scored through the above-threshold ramp, otherwise
   * `union - intersection` through the under-threshold ramp.
   */
  function RowNote(cfg: RegimeConfig, refCount: Option<real>, inter: Option<real>, union: Option<real>): (note: Option<real>)
    requires ValidRegimeConfig(cfg)
    ensures cfg.threshold > 0.0 && AtLeast(refCount, cfg.threshold) && inter.Some? && union.Some? &&
            refCount.value <= union.value ==>
              note == ScoreOpt(cfg.above, Some(inter.value / union.value))
    ensures !AtLeast(refCount, cfg.threshold) ==> note == ScoreOpt(cfg.under, OptSub(union, inter))
  {
    TwoRegimeNote(cfg, refCount, inter, union, OptSub(union, inter))
  }

  /**
   * With a positive threshold and a union at least as large as the reference
   * count (which the relative step guarantees), defined counts give a defined note.
   */
  lemma RowNoteDefined(cfg: RegimeConfig, refCount: real, inter: real, union: real)
    requires ValidRegimeConfig(cfg) && cfg.threshold > 0.0 && refCount <= union
    ensures RowNote(cfg, Some(refCount), Some(inter), Some(union)).Some?
  {
  }

  /** The note column of a frame's rows. */
  function NoteColumn(cfg: RegimeConfig, refCounts: seq<Option<real>>, inters: seq<Option<real>>,
                      unions: seq<Option<real>>): (col: seq<Cell>)
    requires ValidRegimeConfig(cfg) && |refCounts| == |inters| == |unions|
    ensures |col| == |refCounts|
    ensures forall i :: 0 <= i < |col| ==> col[i] == Num(RowNote(cfg, refCounts[i], inters[i], unions[i]))
  {
    seq(|refCounts|, i requires 0 <= i < |refCounts| => Num(RowNote(cfg, refCounts[i], inters[i], unions[i])))
  }

  /**
   * `MPLA0.compute_note`: adds the `mpla0` column computed row by row and
   * drops the three input columns, in place. A missing input column raises
   * `KeyError` (`ok` false) before the frame is touched.
   */
  method ComputeNote(df: Frame, cfg: RegimeConfig) returns (ok: bool)
    requires df.Valid() && ValidRegimeConfig(cfg)
    requires RefPixelCount in df.data ==> df.Numeric(RefPixelCount)
    requires Intersection in df.data ==> df.Numeric(Intersection)
    requires Union in df.data ==> df.Numeric(Union)
    modifies df
    ensures df.Valid() && df.height == old(df.height)
    ensures ok <==> RefPixelCount in old(df.data) && Intersection in old(df.data) && Union in old(df.data)
    ensures !ok ==> df.columns == old(df.columns) && df.data == old(df.data)
    ensures ok ==> df.columns == Without(Assigned(old(df.columns), MetricName), [RefPixelCount, Intersection, Union])
    ensures ok ==> df.data == old(df.data)[MetricName := NoteColumn(cfg, old(df.Numbers(RefPixelCount)),
                                                                    old(df.Numbers(Intersection)), old(df.Numbers(Union)))]
                              - {RefPixelCount, Intersection, Union}
  {
    ok := RefPixelCount in df.data && Intersection in df.data && Union in df.data;
    if !ok {
      return;
    }
    var notes := NoteColumn(cfg, df.Numbers(RefPixelCount), df.Numbers(Intersection), df.Numbers(Union));
    df.SetColumn(MetricName, notes);
    ok := df.Drop([RefPixelCount, Intersection, Union]);
  }
}
