/**
 * Output tables built block by block (`data.extend(new_line)` once per
 * tile): the length of the table and where each block sits in it.
 */
module Tables {
  /** The rows of consecutive blocks, block after block. */
  function Flat<T>(blocks: seq<seq<T>>): seq<T> {
    if |blocks| == 0 then [] else
      var n := |blocks| - 1;
      Flat(blocks[..n]) + blocks[n]
  }

  lemma {:induction false} FlatLength<T>(blocks: seq<seq<T>>, c: nat)
    requires forall b :: b in blocks ==> |b| == c
    ensures |Flat(blocks)| == |blocks| * c
  {
    if |blocks| > 0 {
      var n := |blocks| - 1;
      FlatLength(blocks[..n], c);
      Distribute(n, c);
    }
  }

  lemma Distribute(n: nat, c: nat)
    ensures (n + 1) * c == n * c + c
  {
  }

  /** The table of two runs of blocks is the table of the first followed by that of the second. */
  lemma {:induction false} FlatAppend<T>(x: seq<seq<T>>, y: seq<seq<T>>)
    ensures Flat(x + y) == Flat(x) + Flat(y)
  {
    if |y| == 0 {
      assert x + y == x;
    } else {
      var n := |y| - 1;
      FlatAppend(x, y[..n]);
      assert (x + y)[..|x| + n] == x + y[..n];
    }
  }

  /** Block `i` sits between the blocks before it and the blocks after it. */
  lemma FlatSplit<T>(x: seq<seq<T>>, i: nat)
    requires i < |x|
    ensures Flat(x) == Flat(x[..i]) + x[i] + Flat(x[i + 1..])
  {
    var init, rest := x[..i + 1], x[i + 1..];
    assert x == init + rest;
    FlatStep(x, i);
    FlatAppend(init, rest);
  }

  /** The blocks up to `i` included are those before `i`, then block `i`. */
  lemma FlatStep<T>(x: seq<seq<T>>, i: nat)
    requires i < |x|
    ensures Flat(x[..i + 1]) == Flat(x[..i]) + x[i]
  {
    var init := x[..i + 1];
    assert init[..i] == x[..i];
  }
}
