/**
 * The part of a pandas DataFrame that the note strategies touch: named
 * columns in order, one cell per row in each, a column assignment that
 * replaces a column in place or appends a new one, and a column drop that
 * raises `KeyError` when a name is not a column.
 */
module Frames {
  import opened Wrappers
  import Texts

  /** One cell: a text (a tile name, a class) or a number, NaN being `None`. */
  datatype Cell = Text(text: string) | Num(num: Option<real>)

  /** The columns of `cols` that are not in `names`, in their order. */
  function Without(cols: seq<string>, names: seq<string>): (r: seq<string>)
    ensures forall c :: c in r <==> c in cols && c !in names
    ensures Texts.Distinct(cols) ==> Texts.Distinct(r)
  {
    if |cols| == 0 then []
    else
      var rest := Without(cols[1..], names);
      assert forall c :: c in cols <==> c == cols[0] || c in cols[1..];
      if cols[0] in names then rest
      else
        [cols[0]] + rest
  }

  /** The columns after assigning the column `name`: unchanged when it exists, `name` appended otherwise. */
  function Assigned(cols: seq<string>, name: string): (r: seq<string>)
    ensures forall c :: c in r <==> c in cols || c == name
    ensures Texts.Distinct(cols) ==> Texts.Distinct(r)
  {
    if name in cols then cols else cols + [name]
  }

  class Frame {
    var columns: seq<string>
    var data: map<string, seq<Cell>>
    var height: nat

    /** Distinct column names, each with a column of `height` cells. */
    ghost predicate Valid()
      reads this
    {
      && Texts.Distinct(columns)
      && (forall c :: c in data <==> c in columns)
      && (forall c :: c in data ==> |data[c]| == height)
    }

    /** A frame of `height` rows and no column yet. */
    constructor (height: nat)
      ensures Valid() && columns == [] && data == map[] && this.height == height
    {
      columns := [];
      data := map[];
      this.height := height;
    }

    /** The column `name` holds numbers (or NaN) only. */
    predicate Numeric(name: string)
      reads this
    {
      name in data && forall i :: 0 <= i < |data[name]| ==> data[name][i].Num?
    }

    /** The numbers of a numeric column, row by row. */
    function Numbers(name: string): (xs: seq<Option<real>>)
      reads this
      requires Numeric(name)
      ensures |xs| == |data[name]|
      ensures forall i :: 0 <= i < |xs| ==> data[name][i] == Num(xs[i])
    {
      var col := data[name];
      seq(|col|, i requires 0 <= i < |col| && col[i].Num? => col[i].num)
    }

    /**
     * `df[name] = values`: an existing column keeps its position and gets the
     * new values; a new column is appended after the others.
     */
    method SetColumn(name: string, values: seq<Cell>)
      requires Valid() && |values| == height
      modifies this
      ensures Valid() && height == old(height)
      ensures data == old(data)[name := values]
      ensures columns == Assigned(old(columns), name)
    {
      if name !in columns {
        columns := columns + [name];
      }
      data := data[name := values];
    }

    /**
     * `df.drop(columns=names, inplace=True)`: every name must be a column,
     * otherwise `KeyError` is raised (`ok` false) and the frame is unchanged.
     */
    method Drop(names: seq<string>) returns (ok: bool)
      requires Valid()
      modifies this
      ensures Valid() && height == old(height)
      ensures ok <==> forall n :: n in names ==> n in old(columns)
      ensures ok ==> columns == Without(old(columns), names) && data == old(data) - (set n | n in names)
      ensures !ok ==> columns == old(columns) && data == old(data)
    {
      ok := forall n :: n in names ==> n in columns;
      if ok {
        columns := Without(columns, names);
        data := data - (set n | n in names);
      }
    }
  }
}
