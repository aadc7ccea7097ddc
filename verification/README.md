# coclico metric engine — a Dafny model

coclico compares a classification of lidar point clouds (`c1`) with a
reference classification (`ref`), tile by tile. For each class key of the
configured class weights it computes four metrics:

- MPAP0: point counts per class;
- MPLA0: occupancy maps per class (union, intersection, reference pixel count);
- MALT0: height differences over the occupied pixels (max, mean, standard
  deviation, merged over the tiles with Chan's parallel variance algorithm);
- MOBJ0: paired and unpaired objects.

Each metric's relative results are turned into notes in `[0, 1]` by the
bounded affine scorer (`bounded_affine_function`) and a two-regime rule: with
enough reference data a ratio is scored, otherwise an absolute miscount.
Finally the per-tile notes are reduced to statistics (mean, min, max, median,
std per class and metric), summed under the metric weights, and the results
of several classifications are joined side by side.

The model has one module per source file of that core, plus a few shared
helper modules:

| module | models |
|---|---|
| `Commons` | `coclico/metrics/commons.py` and the two-regime rule shared by the note strategies |
| `Malt0Relative`, `Malt0` | `coclico/malt0/malt0_relative.py`, `coclico/malt0/malt0.py` |
| `Mpla0Relative`, `Mpla0` | `coclico/mpla0/mpla0_relative.py`, `coclico/mpla0/mpla0.py` |
| `Mpap0Relative`, `Mpap0`, `Mpap0Intrinsic` | `coclico/mpap0/*.py` |
| `MetricsMpap0` | `coclico/metrics/mpap0.py` |
| `Mobj0` | `coclico/mobj0/mobj0.py` |
| `OccupancyMap` | `coclico/metrics/occupancy_map.py` |
| `ResultsMerging`, `LeftJoin` | `coclico/tools/results_merging.py` and its near copy `coclico/csv_manipulation/merge_results.py` |
| `Io` | `coclico/io.py` |
| `Rasters`, `Dicts`, `OrderedDicts`, `Frames`, `Tables`, `Texts`, `Wrappers` | numpy boolean rasters, `Counter`, Python dictionaries, pandas frames, list flattening, string operations, Option/Result |

Modelling choices:

- **NaN.** A float NaN (or a numpy masked value) is `Option.None`, and it propagates as in numpy. The results merging is the exception: its per-tile values are plain reals (see "## Left out").
- **Division by zero.** A float quotient by zero is an infinity for a non-zero numerator, which the scorer clamps to the note on that side. For `0/0` it is NaN.
- **Python errors.** A raised Python error (`KeyError`, `ValueError`, `MergeError`, `IndexError`) is a `Result.Failure` naming it.
- **Dictionaries.** A dictionary whose order matters is an association list (`OrderedDicts.Dict`). `d[k] = v` keeps the position of an existing key, and in a comprehension the later value wins. Count dictionaries and `Counter`s are maps.
- **DataFrames.** A pandas frame updated in place by the `compute_note` static methods is the class `Frames.Frame`. Its methods `SetColumn` and `Drop` change it in place, so each `ComputeNote` method states the new columns and cells in terms of the old ones.
- **Loops.** The loops of the relative steps are methods:
  - `Malt0Relative.MergeTiles` (called by `Malt0Relative.ComputeMetricRelative`), `Mpla0Relative.ComputeMetricRelative` and `Mpap0Relative.ComputeMetricRelative`;
  - `ResultsMerging.ComputeWeightedSum` (whose inner loop is `ResultsMerging.ComputeClassesSum`), `LeftJoin.MergeFrames`, `Io.ReadMetricsWeights` and `OccupancyMap.CreateOccupancyArray`.

  Each is proved against a specification function, and the properties the source promises are proved about that function.
- **Foreign numeric routines are parameters.** The square root, the pandas median and the sample standard deviation are functions passed in. Their results are not specified.
- **Scalar scorer.** `bounded_affine_function` is written for one value (`if x_query < x_min`), while the note strategies hand it whole columns. The model applies it row by row, which is what the strategies mean.
- **MALT0's std note as written.** In `MALT0.compute_note` the `std_diff` note takes the note values of the `mean_diff` control points (`coclico/malt0/malt0.py:108-109`). The model keeps this (`Malt0.StdRamp`).
- **Masked MALT0 statistics.** A tile with no occupied pixel in a layer gives masked statistics. numpy keeps the running aggregate masked from then on, so the total note of that class is NaN. The model follows this code rather than a reading in which such a layer contributes zeros (`Malt0Relative.TotalNoteDefined`).

## Model

| member | source | states |
|---|---|---|
| Commons.Score | coclico/metrics/commons.py:4-36 | below the lower bound the note is the lower control note; above the upper bound it is the upper control note; between the bounds the point lies on the line through the two control points; defined whenever the division is not by zero |
| Commons.ScoreAtControlPoints | coclico/metrics/commons.py:29-34 | the ramp passes through both control points |
| Commons.ScoreWithinNotes | coclico/metrics/commons.py:4-36 | every note lies between the two control notes (the clamp the docstring draws) |
| Commons.ScoreMonotone | coclico/metrics/commons.py:20-34 | the note moves with the query in the direction the ramp goes: non-decreasing when the upper note is higher, non-increasing otherwise |
| Commons.ScoreExamples | test/metrics/test_commons.py:5-14 | the twelve query/note pairs of the scorer's own tests |
| Commons.ScoreOpt | coclico/metrics/commons.py:23-34 | a NaN query gives a NaN note; a defined query gives a note within the control notes |
| Commons.ScoreQuotient | coclico/mpap0/mpap0.py:87-99 | scoring a float quotient: undefined exactly for NaN operands or `0/0`; otherwise within the control notes (an infinity is clamped) |
| Commons.TwoRegimeNote | coclico/mpap0/mpap0.py:87-111 | the `np.where` choice: defined exactly when the chosen branch is (the ratio at or above the threshold, the miscount below it or for a NaN size), and within the chosen ramp's notes |
| Commons.TwoRegimeWithin | coclico/mpap0/mpap0.py:87-111 | a defined two-regime note stays in the range of the four configured notes |
| Commons.TwoRegimeBoundary | coclico/mpap0/mpap0.py:88 | the threshold is inclusive; a size below it or a NaN size takes the miscount branch |
| Commons.TwoRegimeDefined | coclico/mpla0/mpla0.py:100-123 | with a positive threshold, a denominator at least the reference size gives a defined note |
| Commons.OptAdd | coclico/mobj0/mobj0.py:57 | float addition is defined iff both operands are |
| Commons.OptSub | coclico/mpla0/mpla0.py:122 | float subtraction is defined iff both operands are |
| Malt0Relative.AbsDiff | coclico/malt0/malt0_relative.py:127 | `abs(c1 - ref)` pixel by pixel: same shape, every cell non-negative and equal to the distance of the two heights |
| Malt0Relative.OccupiedCount | coclico/malt0/malt0_relative.py:56 | the number of unmasked values equals the number of occupied pixels |
| Malt0Relative.OccupiedStack | coclico/malt0/malt0_relative.py:54-56 | the occupied values of a raster stacked under another are those of the first then those of the second |
| Malt0Relative.MaxOf | coclico/malt0/malt0_relative.py:55 | the maximum is one of the values and bounds all of them |
| Malt0Relative.Mean | coclico/malt0/malt0_relative.py:57 | the mean times the count is the sum |
| Malt0Relative.StatsOf | coclico/malt0/malt0_relative.py:54-59 | per-layer statistics: the count is the number of occupied values; defined iff there is one; the max is the largest value; mean × count = sum |
| Malt0Relative.Update | coclico/malt0/malt0_relative.py:81-85 | merging statistics adds the counts; defined iff both sides are; the max is the larger max |
| Malt0Relative.SumConcat | coclico/malt0/malt0_relative.py:82-85 | sums of pooled values add |
| Malt0Relative.SqDevConcat | coclico/malt0/malt0_relative.py:83-84 | squared deviations of pooled values add |
| Malt0Relative.MaxConcat | coclico/malt0/malt0_relative.py:81 | the max of pooled values is the larger of the two maxima |
| Malt0Relative.SqDevShift | coclico/malt0/malt0_relative.py:83-84 | moving the centre of the squared deviations from `d` to `c` adds 2(d − c)(Σx − n·d) + n(d − c)² |
| Malt0Relative.ChanAlgebra | coclico/malt0/malt0_relative.py:83-85 | Chan's correction term equals the spread of the two means around the merged mean |
| Malt0Relative.CentredShift | coclico/malt0/malt0_relative.py:83-84 | the squared deviations around any centre are M2 plus count × (mean − centre)² |
| Malt0Relative.MeanMerge | coclico/malt0/malt0_relative.py:85 | the count-weighted average of two means is the value whose multiple by the total count is the sum of the weighted means |
| Malt0Relative.ChanMerge | coclico/malt0/malt0_relative.py:81-85 | `update_overall_stats` of the statistics of two value sets is exactly the statistics of the pooled values (max, count, mean, M2) |
| Malt0Relative.ChanMean | coclico/malt0/malt0_relative.py:85 | the merged mean is the pooled mean |
| Malt0Relative.ChanM2 | coclico/malt0/malt0_relative.py:83-84 | the merged M2 is the pooled M2 |
| Malt0Relative.SpreadAtMergedMean | coclico/malt0/malt0_relative.py:84 | the spread term of Chan's formula in terms of the merged mean |
| Malt0Relative.MeanOfConcat | coclico/malt0/malt0_relative.py:85 | the pooled mean expressed through the two sums |
| Malt0Relative.SqDevOfConcat | coclico/malt0/malt0_relative.py:84 | the pooled M2 around the merged mean splits into the two parts' squared deviations |
| Malt0Relative.MergedMeanIs | coclico/malt0/malt0_relative.py:85 | the merged mean of two statistics is the mean of the pooled values |
| Malt0Relative.StatsExampleFirstLayer | test/malt0/test_malt0_relative.py:25-45 | first layer of the test raster: max 2, count 5, mean 1.6, M2 1.2 |
| Malt0Relative.StatsExampleSecondLayer | test/malt0/test_malt0_relative.py:25-45 | second layer of the test raster: max 4, count 6, mean 1.5, M2 13.5 |
| Malt0Relative.UpdateZero | coclico/malt0/malt0_relative.py:100-111 | the all-zero initial totals are neutral for a first tile with non-negative values |
| Malt0Relative.Concat | test/malt0/test_malt0_relative.py:77-81 | pooling the layers of several rasters: the pooled count is the total count |
| Malt0Relative.Fold | coclico/malt0/malt0_relative.py:113-136 | the running statistics of one class after the loop: the count is the total occupied count; defined iff no tile's layer is empty |
| Malt0Relative.FoldConcatenated | coclico/malt0/malt0_relative.py:113-136 | merging tile by tile gives exactly the statistics of all pixels pooled together (what the test at test/malt0/test_malt0_relative.py:48-86 checks) |
| Malt0Relative.MeanValue | coclico/malt0/malt0_relative.py:57 | a mean exists iff the statistics are not masked |
| Malt0Relative.MaxValue | coclico/malt0/malt0_relative.py:55 | a max exists iff the statistics are not masked |
| Malt0Relative.Std | coclico/malt0/malt0_relative.py:138 | `sqrt(m2 / count)` is defined iff the statistics are unmasked with a positive count |
| Malt0Relative.StdOfValues | coclico/malt0/malt0_relative.py:58 | a non-empty layer's std is the square root of its population variance; an empty layer's is NaN |
| Malt0Relative.OneNote | coclico/malt0/malt0_relative.py:17-24 | the legacy note is defined iff the mean, std and max are, and lies in `[0, 1]` |
| Malt0Relative.OneNoteExamples | test/malt0/test_malt0_relative.py:91-126 | the expected notes of the source's tests, NaN case included |
| Malt0Relative.ComputeNote | coclico/malt0/malt0_relative.py:31 | the notes are keyed by exactly the classes; a class takes the note of its last position |
| Malt0Relative.NotesOfDistinct | coclico/malt0/malt0_relative.py:31 | for distinct classes, class `i` gets the note of the `i`-th entries |
| Malt0Relative.LayerValues | coclico/malt0/malt0_relative.py:126-127 | a tile's layer values (the occupied absolute differences) number the occupied pixels and are non-negative |
| Malt0Relative.TileStats | coclico/malt0/malt0_relative.py:126-128 | one statistic per layer, whose count is that layer's number of occupied pixels |
| Malt0Relative.TileRows | coclico/malt0/malt0_relative.py:129-132 | one row per class, in class order, naming the tile and the class |
| Malt0Relative.Series | coclico/malt0/malt0_relative.py:113-128 | layer `k` of every tile, in tile order |
| Malt0Relative.Totals | coclico/malt0/malt0_relative.py:100-136 | one running statistic per class |
| Malt0Relative.TotalRows | coclico/malt0/malt0_relative.py:145-147 | one total row per class, in class order |
| Malt0Relative.ComputeMetricRelative | coclico/malt0/malt0_relative.py:90-151 | the loop over tiles produces exactly the per-tile table and the total table of the sorted classes |
| Malt0Relative.FoldCounted | coclico/malt0/malt0_relative.py:134-138 | the merged statistics of the tiles are defined with a positive pixel count exactly when there is a tile and every tile's layer is non-empty |
| Malt0Relative.MergeTiles | coclico/malt0/malt0_relative.py:111-136 | the loop over the tiles, from zero totals, yields exactly the per-tile table and the per-class totals of all tiles |
| Malt0Relative.PerTileRowsStep | coclico/malt0/malt0_relative.py:131-132 | one more tile appends its rows |
| Malt0Relative.TotalsStep | coclico/malt0/malt0_relative.py:134-136 | one more tile merges its statistics into every class's totals |
| Malt0Relative.TotalOfPooled | coclico/malt0/malt0_relative.py:113-138 | when every tile has occupied pixels in a layer, that class's totals are the statistics of all its pixels pooled |
| Malt0Relative.NoteOfStats | coclico/malt0/malt0_relative.py:145-147 | for distinct classes, a class's total note is the legacy note of its statistics |
| Malt0Relative.TileNote | coclico/malt0/malt0_relative.py:126-131 | a tile's note for a class is the legacy note of its layer statistics, defined iff the layer has an occupied pixel |
| Malt0Relative.TotalNoteDefined | coclico/malt0/malt0_relative.py:134-147 | a class's total note is defined iff there is a tile and every tile has occupied pixels in that layer |
| Malt0Relative.TotalNotePooled | coclico/malt0/malt0_relative.py:134-147 | a defined total note is the legacy note of the statistics of all the class's pixels pooled |
| Malt0.RowNote | coclico/malt0/malt0.py:97-122 | defined iff all three sub-metrics are; note × Σcoefficients = Σ coefficient × sub-note |
| Malt0.RowNoteExamples | test/malt0/test_malt0.py:22-86 | the expected notes of the source's test frame, NaN included |
| Malt0.RowNoteWithin | coclico/malt0/malt0.py:101-122 | with non-negative coefficients and control notes in `[lo, hi]`, the note is in `[lo, hi]` (the `0 <= note <= 1` comments) |
| Malt0.Convex | coclico/malt0/malt0.py:118-122 | a weighted average with non-negative weights stays within the bounds of its terms |
| Malt0.WeightedBounds | coclico/malt0/malt0.py:118-121 | bounds of a non-negative weighted sum |
| Malt0.NoteColumn | coclico/malt0/malt0.py:118-122 | one note per row, the row's note |
| Malt0.ComputeNote | coclico/malt0/malt0.py:83-126 | succeeds iff the three columns exist, else the frame is unchanged (`KeyError`); otherwise adds the `malt0` column and drops the three inputs, keeping every other column and the height |
| Mpla0Relative.RasterOr | coclico/mpla0/mpla0_relative.py:67 | layer by layer, pixel-wise OR |
| Mpla0Relative.RasterAnd | coclico/mpla0/mpla0_relative.py:68 | layer by layer, pixel-wise AND |
| Mpla0Relative.SumByLayer | coclico/mpla0/mpla0_relative.py:27-28 | keyed by the layer names that `zip` pairs with a layer |
| Mpla0Relative.SumByLayerCount | coclico/mpla0/mpla0_relative.py:15-30 | for distinct names, layer `i`'s entry is its number of set pixels |
| Mpla0Relative.TileCounts | coclico/mpla0/mpla0_relative.py:67-69 | the per-tile union, intersection and reference counts of a class are the pixel counts of OR, AND and the reference layer, 0 when the raster has no such layer (`.get(cl, 0)`) |
| Mpla0Relative.TileOrdered | coclico/mpla0/mpla0_relative.py:67-81 | per tile and class, intersection ≤ reference count ≤ union |
| Mpla0Relative.TotalOrdered | coclico/mpla0/mpla0_relative.py:71-73 | the same order holds for the totals over all tiles |
| Mpla0Relative.TileRows | coclico/mpla0/mpla0_relative.py:75-85 | one row per class, in class order, with the tile's counts |
| Mpla0Relative.TileBlocks | coclico/mpla0/mpla0_relative.py:75-85 | one block of rows per tile |
| Mpla0Relative.PerTileRowsLength | coclico/mpla0/mpla0_relative.py:75-85 | the per-tile table has tiles × classes rows |
| Mpla0Relative.PerTileRowsOf | coclico/mpla0/mpla0_relative.py:85 | tile `i`'s rows sit at positions `i·|classes|` onwards |
| Mpla0Relative.TotalRows | coclico/mpla0/mpla0_relative.py:92-100 | one total row per class, in class order |
| Mpla0Relative.TotalRowsOrdered | coclico/mpla0/mpla0_relative.py:92-100 | in every total row, intersection ≤ reference count ≤ union |
| Mpla0Relative.TracksStep | coclico/mpla0/mpla0_relative.py:71-73 | adding a tile's `Counter` keeps the running totals equal to the sum over the tiles seen |
| Mpla0Relative.PerTileRowsStep | coclico/mpla0/mpla0_relative.py:85 | one more tile appends its rows |
| Mpla0Relative.ComputeMetricRelative | coclico/mpla0/mpla0_relative.py:33-104 | the loop produces exactly the per-tile table and the total table of the sorted classes |
| Rasters.Or | coclico/mpla0/mpla0_relative.py:67 | pixel-wise OR of two masks of the same shape |
| Rasters.And | coclico/mpla0/mpla0_relative.py:68 | pixel-wise AND of two masks of the same shape |
| Rasters.CountBounds | coclico/mpla0/mpla0_relative.py:67-69 | count(AND) ≤ count(ref) ≤ count(OR) and count(OR) + count(AND) = count(c1) + count(ref) |
| Mpla0.RowNote | coclico/mpla0/mpla0.py:100-123 | at or above a positive threshold (the union then being at least the reference count), `intersection / union` through the above ramp; below it or for a NaN count, `union - intersection` through the under ramp |
| Mpla0.RowNoteDefined | coclico/mpla0/mpla0.py:100-123 | with a positive threshold and union ≥ reference count, defined counts give a defined note |
| Mpla0.NoteColumn | coclico/mpla0/mpla0.py:100-123 | one note per row, the row's note |
| Mpla0.ComputeNote | coclico/mpla0/mpla0.py:85-128 | succeeds iff the three columns exist, else the frame is unchanged; otherwise adds `mpla0` and drops the three inputs |
| Mobj0.RowNote | coclico/mobj0/mobj0.py:46-69 | at or above the threshold, `paired / (paired + not_paired)` through the above ramp; below it, `not_paired` through the under ramp |
| Mobj0.RowNoteBoundary | coclico/mobj0/mobj0.py:47 | a reference count equal to the threshold takes the ratio; a smaller one takes the unpaired count |
| Mobj0.NoteColumn | coclico/mobj0/mobj0.py:46-69 | one note per row, the row's note |
| Mobj0.ComputeNote | coclico/mobj0/mobj0.py:31-74 | succeeds iff the three columns exist, else the frame is unchanged; otherwise adds `mobj0` and drops the three inputs |
| Mpap0.RowNote | coclico/mpap0/mpap0.py:87-111 | at or above the threshold, `absolute_diff / ref_count` through the above ramp; below it, `absolute_diff` through the under ramp |
| Mpap0.RowNoteDefined | coclico/mpap0/mpap0.py:87-111 | with a positive threshold the note is NaN exactly when the absolute difference is |
| Mpap0.NoteColumn | coclico/mpap0/mpap0.py:87-111 | one note per row, the row's note |
| Mpap0.ComputeNote | coclico/mpap0/mpap0.py:74-116 | succeeds iff both columns exist, else the frame is unchanged; otherwise adds `mpap0` and drops the two inputs |
| Mpap0Relative.AbsoluteDiff | coclico/mpap0/mpap0_relative.py:14-15 | keyed by exactly the classes; each value is the distance between the two counts (a missing count is 0), so it bounds each count's difference from the other |
| Mpap0Relative.AbsoluteDiffSymmetric | coclico/mpap0/mpap0_relative.py:15 | swapping `c1` and `ref` changes nothing |
| Mpap0Relative.RelativeDiff | coclico/mpap0/mpap0_relative.py:18-19 | `KeyError` iff a class is missing from `ref`; otherwise keyed by the classes, 0 where the reference count is 0, and value × ref = absolute difference elsewhere |
| Mpap0Relative.TileRows | coclico/mpap0/mpap0_relative.py:55-58 | one row per class, in class order, with the tile's absolute difference and reference count |
| Mpap0Relative.TileBlocks | coclico/mpap0/mpap0_relative.py:55-59 | one block of rows per tile |
| Mpap0Relative.PerTileRowsLength | coclico/mpap0/mpap0_relative.py:55-59 | the per-tile table has tiles × classes rows |
| Mpap0Relative.TotalRows | coclico/mpap0/mpap0_relative.py:66-68 | one total row per class, in class order |
| Mpap0Relative.TotalDiffBound | coclico/mpap0/mpap0_relative.py:52-66 | the total absolute difference is at most the sum of the per-tile absolute differences |
| Mpap0Relative.TotalDiffCancels | coclico/mpap0/mpap0_relative.py:66 | per-tile differences can cancel out in the total (10 + 10 per tile, 0 in total) |
| Mpap0Relative.TracksStep | coclico/mpap0/mpap0_relative.py:52-53 | adding a tile's `Counter` keeps the running totals equal to the sum over the tiles seen |
| Mpap0Relative.TotalRowsOfCounters | coclico/mpap0/mpap0_relative.py:66-68 | the total rows built from the counters are the rows of the summed counts |
| Mpap0Relative.PerTileRowsStep | coclico/mpap0/mpap0_relative.py:59 | one more tile appends its rows |
| Mpap0Relative.ComputeMetricRelative | coclico/mpap0/mpap0_relative.py:22-72 | `KeyError` iff some tile's reference counts lack a class (`ref_count[cl]`); otherwise exactly the per-tile table and the total table |
| Mpap0Intrinsic.FloatKey | coclico/metrics/mpap0.py:32 | `str(int(float(v)))`: a defined key is the canonical decimal of an integer |
| Mpap0Intrinsic.FloatKeyOfParts | coclico/metrics/mpap0.py:32 | a stripped value with one `.` is read from its integer and fractional sides |
| Mpap0Intrinsic.IntegerPartOfDecimal | coclico/metrics/mpap0.py:32 | `int(float(...))` of the text of `n` followed by a fraction is `n` |
| Mpap0Intrinsic.FloatKeyFraction | coclico/metrics/mpap0.py:32 | `".ddd"` is a float with integer part 0 |
| Mpap0Intrinsic.FloatKeyInnerSpace | coclico/metrics/mpap0.py:32 | whitespace inside the literal (`"1 .5"`) makes `float()` raise |
| Mpap0Intrinsic.ParseEntry | coclico/mpap0/mpap0_intrinsic.py:29-31 | `ValueError` unless the entry splits on `/` into exactly two parts and the count parses; a key cut before the dot holds no dot |
| Mpap0Intrinsic.DecimalPlain | coclico/mpap0/mpap0_intrinsic.py:29-31 | a decimal numeral holds neither `/` nor `.` |
| Mpap0Intrinsic.EntryRoundTrip | coclico/mpap0/mpap0_intrinsic.py:29-31 | parsing `v.frac/n` gives back `(v, n)` |
| Mpap0Intrinsic.FloatKeyRoundTrip | coclico/metrics/mpap0.py:32 | the float key of `n.ddd`, with any surrounding whitespace, is the decimal of `n` |
| Mpap0Intrinsic.Collect | coclico/mpap0/mpap0_intrinsic.py:31 | the dictionary comprehension succeeds iff every entry parses; otherwise it fails with an entry's error |
| Mpap0Intrinsic.CollectStep | coclico/mpap0/mpap0_intrinsic.py:31 | one more entry assigns its key |
| Mpap0Intrinsic.CollectLastWins | coclico/mpap0/mpap0_intrinsic.py:31 | a class's count is that of its last entry |
| Mpap0Intrinsic.CollectFrom | coclico/mpap0/mpap0_intrinsic.py:31 | every collected count comes from some entry |
| Mpap0Intrinsic.ParseAll | coclico/mpap0/mpap0_intrinsic.py:29 | one parse per raw entry, in order |
| Mpap0Intrinsic.PointsCounts | coclico/mpap0/mpap0_intrinsic.py:29-31 | succeeds iff every entry parses, otherwise `ValueError` |
| Mpap0Intrinsic.SumTokens | coclico/mpap0/mpap0_intrinsic.py:35 | a sum of non-negative counts is non-negative |
| Mpap0Intrinsic.MergeCounts | coclico/mpap0/mpap0_intrinsic.py:33-37 | a composed key's count is non-negative for non-negative counts |
| Mpap0Intrinsic.MergeSingle | coclico/mpap0/mpap0_intrinsic.py:33-37 | a plain key counts its stripped class, 0 when absent |
| Mpap0Intrinsic.MergeComposed | coclico/mpap0/mpap0_intrinsic.py:33-37 | a composed key counts its first class plus the rest |
| Mpap0Intrinsic.MergeSimpleExample | test/mpap0/test_mpap0_intrinsic.py:38 | classes 0 and 1 count 0 and 543 |
| Mpap0Intrinsic.MergeComposedExample | test/mpap0/test_mpap0_intrinsic.py:38 | `"3,4,5"` counts 1625 + 3145 + 31074 |
| Mpap0Intrinsic.MergeSpacedExample | test/mpap0/test_mpap0_intrinsic.py:38 | `"3 , 4"` counts 1625 + 3145 |
| Mpap0Intrinsic.OutCounts | coclico/mpap0/mpap0_intrinsic.py:40 | keyed by exactly the class keys, each with its merged count, non-negative |
| Mpap0Intrinsic.ComputeMetricIntrinsic | coclico/mpap0/mpap0_intrinsic.py:11-48 | succeeds iff every entry parses; keyed by exactly the class keys |
| MetricsMpap0.SelectCounts | coclico/metrics/mpap0.py:34 | keyed by exactly the class keys; the verbatim count or 0 |
| MetricsMpap0.IntrinsicAsWritten | coclico/metrics/mpap0.py:12-36 | as written: succeeds iff every entry parses; keyed by the class keys |
| MetricsMpap0.Intrinsic | coclico/metrics/mpap0.py:12-36 | corrected: the same, with each key's count merged over its composed classes |
| MetricsMpap0.SimpleKeysAgree | coclico/metrics/mpap0.py:34 | on a plain key the as-written and the corrected selection agree |
| MetricsMpap0.ComposedKeyAsWritten | coclico/metrics/mpap0.py:34 | on the test counts, `"3,4,5"` is 0 as written but 1625 + 3145 + 31074 once merged |
| MetricsMpap0.Relative | coclico/metrics/mpap0.py:39-43 | keyed by the union of the keys; each value is the distance between the counts (0 when missing) |
| MetricsMpap0.RelativeSymmetric | coclico/metrics/mpap0.py:39-43 | swapping the two classifications changes nothing |
| MetricsMpap0.RelativeSame | coclico/metrics/mpap0.py:41 | a difference is 0 iff both counts agree |
| MetricsMpap0.RelativeExample | test/metrics/test_mpap0.py:33-37 | the toy example of the tests |
| MetricsMpap0.OneNote | coclico/metrics/mpap0.py:47-54 | in `[0, 1]`; the relative ramp for ≥ 1000 reference points, the absolute ramp otherwise |
| MetricsMpap0.OneNoteMonotone | coclico/metrics/mpap0.py:47-54 | a larger difference never gets a better note |
| MetricsMpap0.Note | coclico/metrics/mpap0.py:56-58 | keyed by exactly the differences' keys, every note in `[0, 1]` |
| MetricsMpap0.NoteMissingReference | coclico/metrics/mpap0.py:57 | a class missing from the reference is scored on the absolute ramp (count 0) |
| MetricsMpap0.NoteExamples | test/metrics/test_mpap0.py:40-57 | the expected notes of the tests |
| MetricsMpap0.CompareOneTile | coclico/metrics/mpap0.py:63-76 | `ValueError` iff a count entry of either cloud does not parse; otherwise one row per class key, in order, holding the tile, the class and the note of the absolute difference of the key's merged counts against its merged reference count |
| MetricsMpap0.CompareSame | coclico/metrics/mpap0.py:63-76 | a cloud compared with itself gives every class key the note 1 |
| OccupancyMap.Column | coclico/metrics/occupancy_map.py:41 | the column index is in the grid and brackets `x` between pixel edges (the last column takes everything to the right) |
| OccupancyMap.Row | coclico/metrics/occupancy_map.py:42 | the row index is in the grid and brackets `y` between pixel edges (the last row takes everything below) |
| OccupancyMap.Quotient | coclico/metrics/occupancy_map.py:41-42 | `int()` of a non-negative quotient brackets it |
| OccupancyMap.ColumnClamped | coclico/metrics/occupancy_map.py:41 | points beyond the right edge go to the last column |
| OccupancyMap.Occupancy | coclico/metrics/occupancy_map.py:38-43 | a `ny × nx` grid |
| OccupancyMap.HitByStep | coclico/metrics/occupancy_map.py:40-43 | after one more point a cell is hit iff it was already hit or the point falls in it |
| OccupancyMap.CreateOccupancyArray | coclico/metrics/occupancy_map.py:15-45 | a fresh `ny × nx` array whose cells are the occupancy grid |
| OccupancyMap.OccupancyOfPoints | coclico/metrics/occupancy_map.py:23-24 | a cell is set iff at least one point falls in it |
| OccupancyMap.OccupancySamePoints | coclico/metrics/occupancy_map.py:40-43 | the grid depends only on the set of points, not on their order or repetitions |
| OccupancyMap.Select | coclico/metrics/occupancy_map.py:70-71 | keeps exactly the points whose classification is among the key's classes |
| OccupancyMap.Xs | coclico/metrics/occupancy_map.py:70 | the x coordinates, in order |
| OccupancyMap.Ys | coclico/metrics/occupancy_map.py:71 | the y coordinates, in order |
| OccupancyMap.SelectInside | coclico/metrics/occupancy_map.py:60-71 | a selection of a cloud inside the grid is inside the grid |
| OccupancyMap.Layer | coclico/metrics/occupancy_map.py:65-78 | a `ny × nx` layer |
| OccupancyMap.LayerCell | coclico/metrics/occupancy_map.py:65-78 | a layer's cell is set iff a point of the key's classes falls in it |
| OccupancyMap.LayerEmpty | coclico/metrics/occupancy_map.py:65-78 | no point of the key's classes gives an empty layer |
| OccupancyMap.OccupancyLayers | coclico/metrics/occupancy_map.py:83 | one layer per class key, in sorted key order |
| OccupancyMap.OccupancyLayersOrder | coclico/metrics/occupancy_map.py:82-83 | the layer order is sorted and holds each key once |
| ResultsMerging.Matching | coclico/tools/results_merging.py:85 | the results selected by metric and class, in row order; none iff no row matches |
| ResultsMerging.MatchingOne | coclico/tools/results_merging.py:85-86 | exactly one matching row gives exactly its result |
| ResultsMerging.WeightedSumDefined | coclico/tools/results_merging.py:81-93 | the weighted sum is defined iff every weighted metric and class has exactly one result |
| ResultsMerging.ClassesSumDefined | coclico/tools/results_merging.py:83-90 | one metric's sum over its classes is defined iff each of its classes has exactly one result |
| ResultsMerging.ComputeClassesSum | coclico/tools/results_merging.py:83-90 | over the classes of one metric: `ValueError` iff some class has no or several results; otherwise Σ weight × result |
| ResultsMerging.TotalDefined | coclico/tools/results_merging.py:82-90 | the sum over the metrics is defined iff every metric's own sum is |
| ResultsMerging.ComputeWeightedSum | coclico/tools/results_merging.py:81-93 | `ValueError` iff some weighted metric and class has no or several results; otherwise Σ weight × result |
| ResultsMerging.Group | coclico/tools/results_merging.py:95 | the rows of one statistic, in table order |
| ResultsMerging.GroupAppend | coclico/tools/results_merging.py:95 | grouping distributes over concatenation |
| ResultsMerging.StatisticsOf | coclico/tools/results_merging.py:95 | the groups' keys: each statistic of the table once, sorted |
| ResultsMerging.WeightedRows | coclico/tools/results_merging.py:95-100 | one row per statistic with its group's weighted sum, or `ValueError` |
| ResultsMerging.ComputeWeightedResult | coclico/tools/results_merging.py:60-100 | `AttributeError` on an empty table; otherwise `ValueError` iff some statistic's group lacks a weighted result; otherwise one row per statistic, sorted, holding its weighted sum |
| ResultsMerging.WeightedStatistics | coclico/tools/results_merging.py:96-98 | the `statistic` column of the result |
| ResultsMerging.ClassesOf | coclico/tools/results_merging.py:17 | the classes of the results, each once, sorted |
| ResultsMerging.Column | coclico/tools/results_merging.py:17-31 | the values of one metric column for one class |
| ResultsMerging.ColumnNonEmpty | coclico/tools/results_merging.py:17-31 | a class of the results has a value in every metric column |
| ResultsMerging.Min | coclico/tools/results_merging.py:20 | a value of the column bounding all others from below |
| ResultsMerging.Max | coclico/tools/results_merging.py:23 | a value of the column bounding all others from above |
| ResultsMerging.MinMeanMax | coclico/tools/results_merging.py:17-25 | min ≤ mean ≤ max for every class and metric |
| ResultsMerging.MeanWithin | coclico/tools/results_merging.py:17 | the mean of notes in `[lo, hi]` is in `[lo, hi]` |
| ResultsMerging.ComputeStats | coclico/tools/results_merging.py:7-40 | every row holds one of the five statistics, a class of the results and a metric column |
| ResultsMerging.StatsLength | coclico/tools/results_merging.py:33-38 | metrics × 5 × classes rows |
| ResultsMerging.StatsLookup | coclico/tools/results_merging.py:17-38 | for each statistic, metric and class, exactly one row, holding that statistic of the class's column |
| ResultsMerging.BlocksMissing | coclico/tools/results_merging.py:36-38 | a metric or class absent from the results has no row |
| ResultsMerging.StatsAnswered | coclico/tools/results_merging.py:83-90 | a statistic's group answers every weight iff every weighted metric is a column and every weighted class is a class of the results |
| ResultsMerging.EmptyStats | coclico/tools/results_merging.py:7-100 | with no results or no metrics the table is empty and its weighted result raises `AttributeError` |
| ResultsMerging.WeightedResultOfStats | coclico/tools/results_merging.py:60-100 | over `compute_stats`, `ValueError` iff a weighted metric or class is absent from the results |
| ResultsMerging.WeightedSumOfStats | coclico/tools/results_merging.py:81-93 | the weighted sum of a statistic's group equals that sum computed straight from the per-tile results |
| ResultsMerging.WeightedResultValues | coclico/tools/results_merging.py:60-100 | when the weights are covered, the weighted result succeeds iff there are results and metrics, and every result row holds one of the five statistics and the weighted sum computed straight from the per-tile results |
| ResultsMerging.StatFrame | coclico/tools/results_merging.py:54 | the statistics table keyed on statistic, class and metric |
| ResultsMerging.WeightedFrame | coclico/tools/results_merging.py:107 | the weighted result keyed on the statistic |
| ResultsMerging.MergeStats | coclico/tools/results_merging.py:43-57 | `IndexError` on no table; `MergeError` iff there are several tables and one repeats a key; otherwise the chain of left joins |
| ResultsMerging.MergeWeightedResults | coclico/tools/results_merging.py:103-110 | the same, keyed on the statistic |
| ResultsMerging.StatsKeysUnique | coclico/tools/results_merging.py:33-38 | `compute_stats` never repeats a key, so `validate="1:1"` accepts it |
| ResultsMerging.StatsKeys | coclico/tools/results_merging.py:33-38 | its keys are exactly the statistic × class × metric combinations |
| ResultsMerging.WeightedKeysUnique | coclico/tools/results_merging.py:95-100 | a weighted result holds each statistic once |
| ResultsMerging.MergeAllResults | coclico/csv_manipulation/merge_results.py:152-168 | an error of either weighted result stops everything with that error; otherwise both joins succeed (never `MergeError`) and equal the left joins of the two tables |
| ResultsMerging.MergedStatsComplete | coclico/csv_manipulation/merge_results.py:164-167 | if the second results cover the first's classes and metrics, the merged statistics have no missing `result_1` |
| ResultsMerging.MergedWeightedComplete | coclico/csv_manipulation/merge_results.py:162-168 | with some results in the second classification, the merged weighted results have no missing `result_1` |
| LeftJoin.Lookup | coclico/tools/results_merging.py:54 | a key's result is found iff some row holds it, and is a result of such a row |
| LeftJoin.LookupUnique | coclico/tools/results_merging.py:54 | with unique keys, a row's key finds that row's result |
| LeftJoin.LeftJoinAll | coclico/tools/results_merging.py:51-56 | the first table's rows in order, its own result first, then each further table's result for the key |
| LeftJoin.JoinColumn | coclico/tools/results_merging.py:54 | one left join appends one looked-up result per row |
| LeftJoin.JoinStep | coclico/tools/results_merging.py:53-56 | one more table is one more left join |
| LeftJoin.MergeFrames | coclico/tools/results_merging.py:43-57 | `IndexError` on no table; `MergeError` iff there are several tables and one repeats a key; otherwise `LeftJoinAll` |
| LeftJoin.JoinedResult | coclico/tools/results_merging.py:54 | a missing key gives a missing value; a present key gives its result |
| LeftJoin.Keys | coclico/tools/results_merging.py:54 | the keys of a table |
| LeftJoin.JoinComplete | coclico/tools/results_merging.py:51-56 | tables holding the first table's keys leave no missing value |
| Io.CleanClasses | coclico/io.py:25 | distinct keys without spaces, exactly the cleaned keys of the input |
| Io.CleanKeepsWeight | coclico/io.py:25 | a class keeps its weight under its cleaned key unless a later class cleans to the same key |
| Io.CleanWithoutSpaces | coclico/io.py:25 | keys without spaces come out unchanged, in order |
| Io.CleanOne | coclico/io.py:25 | one class: its key loses its spaces |
| Io.CleanCollision | coclico/io.py:25 | two keys equal but for spaces: one key, the later weight |
| Io.CleanExamples | coclico/io.py:25 | `"3 _ 4"` becomes `"3_4"`; `"1"` and `" 1"` collide and keep the later weight |
| Io.SpacedPair | coclico/io.py:25 | `a b c` loses both spaces |
| Io.CleanedWeights | coclico/io.py:23-26 | every metric with its class weights cleaned, in file order |
| Io.ReadMetricsWeights | coclico/io.py:11-29 | `ValueError` iff a metric name is not a known metric; otherwise the same metrics in order, each with its class keys cleaned |
| Io.CleanedStep | coclico/io.py:26 | a new metric name goes last |
| OrderedDicts.Put | coclico/io.py:26 | `d[k] = v`: the keys gain `k`, `k` maps to `v`, the other keys keep their values; a new key goes last |
| OrderedDicts.FromPairs | coclico/io.py:25 | a comprehension's keys: distinct, exactly those of the pairs |
| OrderedDicts.FromPairsLast | coclico/io.py:25 | a key takes the value of its last pair |
| OrderedDicts.FromDistinctPairs | coclico/io.py:25 | pairs with distinct keys give themselves back |
| Dicts.Zip | coclico/mpla0/mpla0_relative.py:28 | keyed by exactly the keys; the last occurrence of a key gives its value |
| Dicts.ZipDistinct | coclico/mpla0/mpla0_relative.py:28 | with distinct keys, key `i` maps to value `i` |
| Dicts.CounterAdd | coclico/mpla0/mpla0_relative.py:71-73 | `Counter +=`: counts add, and keys whose count is 0 are dropped |
| Frames.Without | coclico/malt0/malt0.py:124 | the columns left after `drop`: exactly those not dropped |
| Frames.Assigned | coclico/malt0/malt0.py:118 | the columns after assigning one: the old ones plus that one |
| Frames.Frame.Numbers | coclico/malt0/malt0.py:100 | a numeric column's values, cell by cell |
| Frames.Frame.SetColumn | coclico/malt0/malt0.py:118 | assigns one column in place and leaves the others |
| Frames.Frame.Drop | coclico/malt0/malt0.py:124 | `KeyError` with the frame unchanged iff a name is not a column; otherwise removes exactly those columns |
| Texts.Split | coclico/mpap0/mpap0_intrinsic.py:29 | at least one part, no part holds the separator |
| Texts.JoinSplit | coclico/mpap0/mpap0_intrinsic.py:29 | joining the parts back with the separator gives the string |
| Texts.SplitAt | coclico/mpap0/mpap0_intrinsic.py:34 | the text before the first separator is the first part |
| Texts.StripSpec | coclico/mpap0/mpap0_intrinsic.py:35 | the stripped text is a slice of the input surrounded only by whitespace, the characters of Python's `str.isspace` |
| Texts.RemoveSpaces | coclico/io.py:25 | `replace(" ", "")`: no space left, never longer than the input |
| Texts.RemoveSpacesCounts | coclico/io.py:25 | every character other than the space is kept, as many times as it occurs |
| Texts.ParseDecimal | coclico/mpap0/mpap0_intrinsic.py:31 | `int()` of a decimal numeral gives the number back |
| Texts.SortStrings | coclico/mpla0/mpla0_relative.py:57 | `sorted()`: a sorted permutation |
| Texts.SortDistinct | coclico/malt0/malt0_relative.py:95 | sorting distinct keys keeps them distinct |
| Texts.Uniq | coclico/tools/results_merging.py:17 | each element once, the same elements |
| Tables.FlatLength | coclico/mpla0/mpla0_relative.py:85 | `extend` of equal blocks gives blocks × size rows |
| Tables.FlatAppend | coclico/mpla0/mpla0_relative.py:85 | flattening distributes over concatenation |
| Tables.FlatSplit | coclico/mpla0/mpla0_relative.py:85 | a block sits between the blocks before and after it |

## Left out

- File and process I/O is not modelled: rasterio, laspy, the pdal pipeline, CSV/JSON/YAML reading and writing, `mkdir`, logging, `parse_args` and the `__main__` blocks. The data they read are parameters; the data they write are the returned tables.
- Tile order is not modelled. `ref_dir.iterdir()` yields files in an unspecified order, so the tiles are a sequence given by the caller.
- Docker and GPAO job construction (`create_metric_intrinsic_one_job`, `create_metric_relative_to_ref_jobs`, `create_merge_all_results_project`) is not modelled, because it only builds command lines.
- `get_raster_geometry_from_las_bounds` and `split_composed_class` are not part of this model. Their results (the grid geometry, the integer classes of a key) are parameters (`OccupancyMap.Geometry`, `classesOf`).
- Floating point is not modelled. Reals are exact. NaN and the infinities of a division by zero are modelled only where described above. Float rounding, the `np.uint8` cast and float printing are not.
- The square root, the pandas `median` and the sample `std` are parameters without a specification, so nothing is proved about their values. Two consequences:
  - `std` of a single tile is NaN in pandas, which the model does not capture.
  - `ma.std` at `coclico/malt0/malt0_relative.py:58` is modelled as `sqrt(m2 / count)`.
- OccupancyMap.Column and OccupancyMap.Row require the point to lie right of (resp. below) the grid's top-left edge. The source clamps only the upper index. `int(...)` truncates toward zero, so a point less than one pixel outside that edge lands in index 0, and only a point further out gives a negative index that Python wraps around. The geometry computed from the cloud's own bounds never produces such a point.
- Malt0Relative.Update requires a positive merged count when both sides are defined. The source divides by it unguarded; with two unmasked sides the count is always positive.
- Malt0Relative.FoldConcatenated is stated for non-negative values, which `abs()` guarantees. The all-zero initial maximum would otherwise differ from the pooled maximum.
- Io.ReadMetricsWeights requires distinct metric names, since they are the keys of a YAML mapping. An empty weights file (`None`) and non-mapping values are not modelled.
- ResultsMerging.ComputeStats requires distinct metric columns, since CSV column names are distinct.
- The `tools` version of the results merging reads the class column with type inference (integers), so string weight keys would not match it. The model uses string classes, as the `csv_manipulation` version forces.
- `melt` is not modelled in the source's order. The model orders metrics by column order; the source takes them from a Python set, whose order is unspecified.
- `merge_results.merge_all_results` is modelled for its two classifications; `results_by_tile` and `main` are not part of this model.
- `malt0_intrinsic`, `mobj0_intrinsic` and `mobj0_relative` are not part of this model. Only the MOBJ0 note, which works on their output, is modelled.
- `rename(..., inplace=True)` renames the caller's first frame in `merge_stats`. This aliasing effect is not modelled.
- Texts.ParseInt accepts surrounding whitespace, an optional `+` or `-` sign and ASCII digits. Python's `int()` also accepts `_` between digits and non-ASCII decimal digits, which pdal's counts never contain.
- Mpap0Intrinsic.FloatKey reads surrounding whitespace, an optional sign, ASCII digits and an optional `.` with more digits. Python's `float()` also accepts exponents (`"1e3"` gives key `"1000"`), `_` between digits (`"1_0.0"` gives `"10"`) and non-ASCII digits, which the model rejects. It also accepts `inf` and `nan`, on which `int()` raises `OverflowError` and `ValueError`; the model reports both as `ValueError`. pdal writes classification values as digits with six decimals.
- ResultsMerging.ComputeStats takes per-tile values that are plain reals, never NaN. A tile's note can be NaN (`Malt0.RowNote`, `Mpap0.RowNote` and `Malt0Relative.TotalNoteDefined` give `None`). pandas' `groupby(...).mean/min/max/median/std` skip such values (`coclico/tools/results_merging.py:17-30`), and a class whose values are all NaN gets a NaN statistic. None of this is modelled.
- ResultsMerging.ComputeWeightedResult takes statistics that are plain reals, so a NaN statistic, which `res += weights[metric][cl] * val.values[0]` would propagate into the weighted sum, is not modelled.
- Malt0.RowNote requires coefficients that do not sum to zero, and ramps whose two control points differ. The source divides by `sum_coefs` unguarded (`coclico/malt0/malt0.py:113-122`). A zero sum then gives ±inf notes, or NaN where the weighted sum is also 0. The model's notes are reals and cannot hold an infinity.
- Malt0.NoteColumn inherits that requirement of Malt0.RowNote.
- Malt0.ComputeNote inherits that requirement of Malt0.RowNote.

## Findings

| source | as written | input that shows it | evidently intended | confidence | as-written member | corrected member |
|---|---|---|---|---|---|---|
| coclico/metrics/mpap0.py:34 | each class key is looked up verbatim (`points_counts.get(str(k), 0)`), so a composed key such as `"3,4,5"` is never found | class key `"3,4,5"` with counts 3 → 1625, 4 → 3145, 5 → 31074 gives 0 | the sum of the counts of the key's classes, as the docstring and `merge_counts` of `coclico/mpap0/mpap0_intrinsic.py:12-14,33-40` do and as `test/metrics/test_mpap0.py:30` expects (1625 + 3145 + 31074) | not executed | MetricsMpap0.IntrinsicAsWritten, MetricsMpap0.ComposedKeyAsWritten | MetricsMpap0.Intrinsic (used by MetricsMpap0.CompareOneTile) |
