/**
 * The older, single-tile MPAP0 pipeline (`coclico/metrics/mpap0.py`): count
 * the points of each class key in two point clouds, take the per-class
 * absolute differences, and note each class with the two-regime rule whose
 * threshold and control points are written into the code.
 */
module MetricsMpap0 {
  import opened Wrappers
  import opened Commons
  import Texts
  import Mpap0Intrinsic

  type Counts = map<string, int>

  function Abs(x: int): nat {
    if x < 0 then -x else x
  }

  /** `d.get(k, 0)`. */
  function Get(m: Counts, k: string): int {
    if k in m then m[k] else 0
  }

  // ---------------------------------------------------------------- intrinsic

  /**
   * The key selection of `compute_metric_intrisic_mpap0` as written: every
   * class key of the weights is looked up verbatim among pdal's class values,
   * 0 when absent.
   */
  function SelectCounts(points: Counts, classKeys: seq<string>): (out: Counts)
    ensures forall k :: k in out <==> k in classKeys
    ensures forall k :: k in out && k !in points ==> out[k] == 0
    ensures forall k :: k in out && k in points ==> out[k] == points[k]
  {
    map k | k in classKeys :: Get(points, k)
  }

  /** `compute_metric_intrisic_mpap0` as written, without the pdal pipeline. */
  function IntrinsicAsWritten(raw: seq<string>, classKeys: seq<string>): (r: Result<Counts, string>)
    ensures r.Success? <==> Mpap0Intrinsic.AllParse(raw, Mpap0Intrinsic.IntOfFloat)
    ensures r.Success? ==> forall k :: k in r.value <==> k in classKeys
  {
    var points :- Mpap0Intrinsic.PointsCounts(raw, Mpap0Intrinsic.IntOfFloat);
    Success(SelectCounts(points, classKeys))
  }

  /**
   * `compute_metric_intrisic_mpap0` with composed class keys summed as its
   * documentation and tests expect, through the `merge_counts` rule of the
   * per-tile MPAP0 intrinsic metric.
   */
  function Intrinsic(raw: seq<string>, classKeys: seq<string>): (r: Result<Counts, string>)
    ensures r.Success? <==> Mpap0Intrinsic.AllParse(raw, Mpap0Intrinsic.IntOfFloat)
    ensures r.Success? ==> forall k :: k in r.value <==> k in classKeys
    ensures r.Success? ==> forall k :: k in r.value ==>
      r.value[k] == Mpap0Intrinsic.MergeCounts(Mpap0Intrinsic.PointsCounts(raw, Mpap0Intrinsic.IntOfFloat).value, k)
  {
    var points :- Mpap0Intrinsic.PointsCounts(raw, Mpap0Intrinsic.IntOfFloat);
    Success(Mpap0Intrinsic.OutCounts(points, classKeys))
  }

  /** On a simple class key, free of `,` and of surrounding whitespace, both selections agree. */
  lemma SimpleKeysAgree(points: Counts, classKeys: seq<string>, k: string)
    requires k in classKeys && ',' !in k && Texts.Strip(k) == k
    ensures SelectCounts(points, classKeys)[k] == Mpap0Intrinsic.OutCounts(points, classKeys)[k]
  {
    Mpap0Intrinsic.MergeSingle(points, k);
  }

  /**
   * The composed key `"3,4,5"` of the intrinsic test: looked up verbatim it
   * counts 0, since no pdal class value contains a comma, where the test
   * expects the sum of the counts of classes 3, 4 and 5.
   */
  lemma ComposedKeyAsWritten(points: Counts, zero: string, one: string, three: string, four: string, five: string)
    requires Mpap0Intrinsic.TestCounts(points, zero, one, three, four, five)
    requires forall k :: k in points ==> ',' !in k
    ensures var key := three + "," + four + "," + five;
      && SelectCounts(points, [key])[key] == 0
      && Mpap0Intrinsic.OutCounts(points, [key])[key] == 1625 + 3145 + 31074
  {
    var key := three + "," + four + "," + five;
    assert key[1] == ',';
    Mpap0Intrinsic.MergeComposedExample(points, zero, one, three, four, five);
  }

  // ---------------------------------------------------------------- relative

  /**
   * `compute_metric_relative_mpap0`: one entry per class counted in either
   * cloud, the absolute difference of the two counts, a missing count being 0.
   */
  function Relative(ci: Counts, ref: Counts): (d: map<string, nat>)
    ensures forall k :: k in d <==> k in ci || k in ref
    ensures forall k :: k in d ==>
      && Get(ci, k) <= Get(ref, k) + d[k] && Get(ref, k) <= Get(ci, k) + d[k]
      && (d[k] == Get(ci, k) - Get(ref, k) || d[k] == Get(ref, k) - Get(ci, k))
  {
    map k | k in ci.Keys + ref.Keys :: Abs(Get(ci, k) - Get(ref, k))
  }

  /** The comparison does not depend on which cloud is the reference. */
  lemma RelativeSymmetric(ci: Counts, ref: Counts)
    ensures Relative(ci, ref) == Relative(ref, ci)
  {
    var d, e := Relative(ci, ref), Relative(ref, ci);
    assert forall k :: k in d ==> d[k] == e[k];
  }

  /** A class counted the same in both clouds, or in neither, has no difference. */
  lemma RelativeSame(ci: Counts, ref: Counts, k: string)
    requires k in ci || k in ref
    ensures Relative(ci, ref)[k] == 0 <==> Get(ci, k) == Get(ref, k)
  {
  }

  /** The relative test case: classes counted on one side only are compared with 0. */
  lemma RelativeExample()
    ensures Relative(map["1" := 12, "2" := 20, "3,4" := 2], map["1" := 10, "2" := 20, "5" := 2])
            == map["1" := 2, "2" := 0, "3,4" := 2, "5" := 2]
  {
  }

  // ---------------------------------------------------------------- note

  /** `count >= 1000`, relative difference scored from (0, 1) to (0.1, 0), absolute one from (20, 1) to (100, 0). */
  const NoteRegimes := RegimeConfig(1000.0, Ramp(Point(0.0, 1.0), Point(0.1, 0.0)), Ramp(Point(20.0, 1.0), Point(100.0, 0.0)))

  /**
   * `compute_one_note`: with at least 1000 reference points the relative
   * difference `abs_diff / count` is scored, otherwise the absolute one.
   */
  function OneNote(absDiff: int, count: int): (note: real)
    ensures 0.0 <= note <= 1.0
    ensures count >= 1000 ==> note == Score(NoteRegimes.above, absDiff as real / count as real)
    ensures count < 1000 ==> note == Score(NoteRegimes.under, absDiff as real)
  {
    var n := TwoRegimeNote(NoteRegimes, Some(count as real), Some(absDiff as real), Some(count as real), Some(absDiff as real));
    assert n.Some?;
    n.value
  }

  /** For a given reference count, a larger difference never gets a better note. */
  lemma OneNoteMonotone(d1: int, d2: int, count: int)
    requires d1 <= d2
    ensures OneNote(d2, count) <= OneNote(d1, count)
  {
    if count >= 1000 {
      var c := count as real;
      assert d1 as real / c <= d2 as real / c by {
        DivMono(d1 as real, d2 as real, c);
      }
      ScoreMonotone(NoteRegimes.above, d1 as real / c, d2 as real / c);
    } else {
      ScoreMonotone(NoteRegimes.under, d1 as real, d2 as real);
    }
  }

  lemma DivMono(a: real, b: real, c: real)
    requires a <= b && c > 0.0
    ensures a / c <= b / c
  {
  }

  /**
   * `compute_note_mpap0`: one note per class of the differences, the
   * reference count of a class the reference does not count being 0.
   */
  function Note(diffs: map<string, nat>, ref: Counts): (notes: map<string, real>)
    ensures forall k :: k in notes <==> k in diffs
    ensures forall k :: k in notes ==> 0.0 <= notes[k] <= 1.0
  {
    map k | k in diffs :: OneNote(diffs[k], Get(ref, k))
  }

  /** A class the reference does not count is noted on its absolute difference. */
  lemma NoteMissingReference(diffs: map<string, nat>, ref: Counts, k: string)
    requires k in diffs && k !in ref
    ensures Note(diffs, ref)[k] == Score(NoteRegimes.under, diffs[k] as real)
  {
  }

  /** The note test cases: differences at or above 1000 reference points, then below. */
  lemma NoteExamples()
    ensures Note(map[], map[]) == map[]
    ensures OneNote(0, 1000) == 1.0 && OneNote(50, 1000) == 0.5 && OneNote(300, 2000) == 0.0
    ensures OneNote(10, 0) == 1.0 && OneNote(60, 100) == 0.5 && OneNote(100, 200) == 0.0 && OneNote(500, 100) == 0.0
  {
  }

  // ---------------------------------------------------------------- one tile

  /** A row of the tile's note table. */
  datatype NoteRow = NoteRow(tile: string, classKey: string, note: real)

  /** The merged count of class key `k` in a cloud whose count entries all parse. */
  function KeyCount(raw: seq<string>, k: string): int
    requires Mpap0Intrinsic.AllParse(raw, Mpap0Intrinsic.IntOfFloat)
  {
    Mpap0Intrinsic.MergeCounts(Mpap0Intrinsic.PointsCounts(raw, Mpap0Intrinsic.IntOfFloat).value, k)
  }

  /**
   * `compare_one_tile_mpap0` without the files: counts both clouds, compares
   * them and writes one note row per class key of the weights, in their
   * order. Every class key has a note, so `note[cl]` never fails: the note
   * of the absolute difference of the key's merged counts in the two clouds,
   * against its merged count in the reference.
   */
  function CompareOneTile(tile: string, ciRaw: seq<string>, refRaw: seq<string>, classKeys: seq<string>)
    : (r: Result<seq<NoteRow>, string>)
    ensures r.Success? <==> Mpap0Intrinsic.AllParse(ciRaw, Mpap0Intrinsic.IntOfFloat)
                            && Mpap0Intrinsic.AllParse(refRaw, Mpap0Intrinsic.IntOfFloat)
    ensures r.Failure? ==> r.error == "ValueError"
    ensures r.Success? ==> |r.value| == |classKeys|
    ensures r.Success? ==> forall j :: 0 <= j < |classKeys| ==>
      && r.value[j].tile == tile && r.value[j].classKey == classKeys[j] && 0.0 <= r.value[j].note <= 1.0
      && r.value[j].note == OneNote(Abs(KeyCount(ciRaw, classKeys[j]) - KeyCount(refRaw, classKeys[j])),
                                    KeyCount(refRaw, classKeys[j]))
  {
    var ci :- Intrinsic(ciRaw, classKeys);
    var ref :- Intrinsic(refRaw, classKeys);
    var notes := Note(Relative(ci, ref), ref);
    Success(seq(|classKeys|, j requires 0 <= j < |classKeys| => NoteRow(tile, classKeys[j], notes[classKeys[j]])))
  }

  /** A cloud compared with itself gives every class key the top note. */
  lemma CompareSame(tile: string, raw: seq<string>, classKeys: seq<string>)
    requires Mpap0Intrinsic.AllParse(raw, Mpap0Intrinsic.IntOfFloat)
    ensures var r := CompareOneTile(tile, raw, raw, classKeys);
      r.Success? && forall j :: 0 <= j < |classKeys| ==> r.value[j].note == 1.0
  {
    forall count: int ensures OneNote(0, count) == 1.0 {
      OneNoteZero(count);
    }
  }

  lemma OneNoteZero(count: int)
    ensures OneNote(0, count) == 1.0
  {
    if count >= 1000 {
      assert 0 as real / count as real == 0.0;
    }
  }
}
