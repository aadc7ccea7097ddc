/**
 * Boolean raster layers (occupancy maps): pixel counts and the cell-wise
 * `np.logical_or` / `np.logical_and` of two layers of the same shape.
 */
module Rasters {
  /** One occupancy layer, row by row: true where the class is present. */
  type Mask = seq<seq<bool>>

  predicate SameMask(a: Mask, b: Mask) {
    |a| == |b| && forall r :: 0 <= r < |a| ==> |a[r]| == |b[r]|
  }

  function CountRow(occ: seq<bool>): nat {
    if |occ| == 0 then 0 else (if occ[0] then 1 else 0) + CountRow(occ[1..])
  }

  /** `np.sum` of a layer: its number of set pixels. */
  function CountTrue(m: Mask): nat {
    if |m| == 0 then 0 else CountRow(m[0]) + CountTrue(m[1..])
  }

  function RowOr(a: seq<bool>, b: seq<bool>): (r: seq<bool>)
    requires |a| == |b|
    ensures |r| == |a| && forall c :: 0 <= c < |r| ==> r[c] == (a[c] || b[c])
  {
    seq(|a|, c requires 0 <= c < |a| => a[c] || b[c])
  }

  function RowAnd(a: seq<bool>, b: seq<bool>): (r: seq<bool>)
    requires |a| == |b|
    ensures |r| == |a| && forall c :: 0 <= c < |r| ==> r[c] == (a[c] && b[c])
  {
    seq(|a|, c requires 0 <= c < |a| => a[c] && b[c])
  }

  /** `np.logical_or` of two layers: a pixel is set when it is set in either. */
  function Or(a: Mask, b: Mask): (m: Mask)
    requires SameMask(a, b)
    ensures SameMask(m, a)
    ensures forall r, c :: 0 <= r < |m| && 0 <= c < |m[r]| ==> m[r][c] == (a[r][c] || b[r][c])
  {
    seq(|a|, r requires 0 <= r < |a| => RowOr(a[r], b[r]))
  }

  /** `np.logical_and` of two layers: a pixel is set when it is set in both. */
  function And(a: Mask, b: Mask): (m: Mask)
    requires SameMask(a, b)
    ensures SameMask(m, a)
    ensures forall r, c :: 0 <= r < |m| && 0 <= c < |m[r]| ==> m[r][c] == (a[r][c] && b[r][c])
  {
    seq(|a|, r requires 0 <= r < |a| => RowAnd(a[r], b[r]))
  }

  lemma {:induction false} RowCountBounds(a: seq<bool>, b: seq<bool>)
    requires |a| == |b|
    ensures CountRow(RowAnd(a, b)) <= CountRow(b) <= CountRow(RowOr(a, b))
    ensures CountRow(RowOr(a, b)) + CountRow(RowAnd(a, b)) == CountRow(a) + CountRow(b)
  {
    if |a| > 0 {
      RowCountBounds(a[1..], b[1..]);
      assert RowAnd(a, b)[1..] == RowAnd(a[1..], b[1..]);
      assert RowOr(a, b)[1..] == RowOr(a[1..], b[1..]);
    }
  }

  /**
   * The pixels set in both layers are at most those set in the second, which
   * are at most those set in either; and the union and the intersection
   * together count every set pixel of each layer once.
   */
  lemma {:induction false} CountBounds(a: Mask, b: Mask)
    requires SameMask(a, b)
    ensures CountTrue(And(a, b)) <= CountTrue(b) <= CountTrue(Or(a, b))
    ensures CountTrue(Or(a, b)) + CountTrue(And(a, b)) == CountTrue(a) + CountTrue(b)
  {
    if |a| > 0 {
      RowCountBounds(a[0], b[0]);
      CountBounds(a[1..], b[1..]);
      assert And(a, b)[1..] == And(a[1..], b[1..]);
      assert Or(a, b)[1..] == Or(a[1..], b[1..]);
    }
  }
}
