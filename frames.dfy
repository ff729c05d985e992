/** A pandas data frame as the training script sees it: an ordered list of
    named columns, each with its dtype (numeric or not) and its cells. */
module Frames {
  import opened Common

  /** A cell value: a number, or text (pandas' object dtype). */
  datatype Value = Num(x: real) | Str(s: string)

  /** A cell; `None` is pandas' NaN. */
  type Cell = Option<Value>

  /** One column. `numeric` is the column's dtype as pandas reports it
      (`select_dtypes(include=[np.number])`); it travels with the column. */
  datatype Column = Column(name: string, numeric: bool, cells: seq<Cell>)

  type Frame = seq<Column>

  /** `df.columns`. */
  function Names(df: Frame): (r: seq<string>)
    ensures |r| == |df|
    ensures forall j :: 0 <= j < |df| ==> r[j] == df[j].name
  {
    seq(|df|, j requires 0 <= j < |df| => df[j].name)
  }

  /** `set(df.columns)`. */
  function NameSet(df: Frame): set<string>
  {
    set j | 0 <= j < |df| :: df[j].name
  }

  /** Every column has `rows` cells. */
  predicate Rectangular(df: Frame, rows: nat)
  {
    forall j :: 0 <= j < |df| ==> |df[j].cells| == rows
  }

  /** No two columns share a name. */
  predicate DistinctNames(df: Frame)
  {
    forall i, j :: 0 <= i < j < |df| ==> df[i].name != df[j].name
  }

  /** The number of rows of a frame (zero for a frame with no columns). */
  function Height(df: Frame): nat
  {
    if |df| == 0 then 0 else |df[0].cells|
  }

  /** The position of the column called `name`. */
  function ColumnIndex(df: Frame, name: string): (j: nat)
    requires name in NameSet(df)
    ensures j < |df| && df[j].name == name
    ensures forall i :: 0 <= i < j ==> df[i].name != name
  {
    if df[0].name == name then 0
    else
      assert name in NameSet(df[1..]) by {
        var j :| 0 <= j < |df| && df[j].name == name;
        assert df[1..][j - 1].name == name;
      }
      1 + ColumnIndex(df[1..], name)
  }
}
