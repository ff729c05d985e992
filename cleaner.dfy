/** `load_training_df` after the file has been read: canonicalise the headers,
    insist on the needed columns, drop the identifier, normalise the label and
    drop the rows without one, make the label an integer, coerce the hinted
    numeric columns, and fill what is still missing. */
module Cleaner {
  import opened Common
  import opened Seqs
  import opened Frames
  import opened Headers
  import opened ChurnLabel
  import opened Median

  /** The columns training cannot do without. */
  const Needed: set<string> := {
    "Age", "Gender", "Tenure", "Usage", "Support", "PaymentDelay",
    "Subscription", "Contract", "TotalSpend", "LastInteraction", "Churn"
  }

  /** The columns coerced to numbers whatever the reader made of them. */
  const NumericHint: set<string> := {
    "Age", "Tenure", "Usage", "Support", "PaymentDelay", "TotalSpend", "LastInteraction"
  }

  const IdColumn: string := "CustomerID"
  const LabelColumn: string := "Churn"
  const Unknown: string := "Unknown"

  /** The `ValueError` raised when needed columns are absent, with their names. */
  datatype LoadError = MissingColumns(names: set<string>)

  /** The facts about the constant names the cleaning steps rely on. */
  lemma NameFacts()
    ensures LabelColumn in Needed && IdColumn !in Needed
    ensures LabelColumn !in NumericHint && IdColumn != LabelColumn
  {
  }

  // ---------------------------------------------------------------- columns

  /** `df.drop(columns=[name])`: every column called `name` removed. */
  function DropColumn(df: Frame, name: string): (r: Frame)
  {
    Filter(df, seq(|df|, j requires 0 <= j < |df| => df[j].name != name))
  }

  /** Dropping a column removes its name, keeps the other columns whole and
      keeps names distinct. */
  lemma DropColumnKeeps(df: Frame, name: string)
    ensures NameSet(DropColumn(df, name)) == NameSet(df) - {name}
    ensures forall k :: 0 <= k < |DropColumn(df, name)| ==> DropColumn(df, name)[k] in df
    ensures DistinctNames(df) ==> DistinctNames(DropColumn(df, name))
  {
    var mask := seq(|df|, j requires 0 <= j < |df| => df[j].name != name);
    var idx := IndicesWhere(mask);
    var r := DropColumn(df, name);
    forall n | n in NameSet(df) - {name}
      ensures n in NameSet(r)
    {
      var j :| 0 <= j < |df| && df[j].name == n;
      assert j in idx;
      var k :| 0 <= k < |idx| && idx[k] == j;
      assert r[k].name == n;
    }
    forall k | 0 <= k < |r|
      ensures r[k] in df
    {
      assert r[k] == df[idx[k]];
    }
    if DistinctNames(df) {
      forall k, l | 0 <= k < l < |r|
        ensures r[k].name != r[l].name
      {
        assert idx[k] < idx[l];
      }
    }
  }

  /** Dropping keeps the other columns in order: nothing changes when there
      is no such column, and when there is exactly one the frame closes up
      around it. */
  lemma DropColumnOrder(df: Frame, name: string)
    ensures name !in NameSet(df) ==> DropColumn(df, name) == df
    ensures DistinctNames(df) && name in NameSet(df) ==>
      var p := ColumnIndex(df, name);
      DropColumn(df, name) == df[..p] + df[p + 1..]
  {
    if name !in NameSet(df) {
      DropAbsent(df, name);
    } else if DistinctNames(df) {
      DropUnique(df, name, ColumnIndex(df, name));
    }
  }

  lemma DropAbsent(df: Frame, name: string)
    requires name !in NameSet(df)
    ensures DropColumn(df, name) == df
  {
    var mask := seq(|df|, j requires 0 <= j < |df| => df[j].name != name);
    assert forall i :: 0 <= i < |mask| ==> mask[i] by {
      forall i | 0 <= i < |mask|
        ensures mask[i]
      {
        assert df[i].name in NameSet(df);
      }
    }
    FilterAll(df, mask);
  }

  lemma DropUnique(df: Frame, name: string, p: nat)
    requires DistinctNames(df) && p < |df| && df[p].name == name
    ensures DropColumn(df, name) == df[..p] + df[p + 1..]
  {
    var mask := seq(|df|, j requires 0 <= j < |df| => df[j].name != name);
    assert forall i :: 0 <= i < |mask| ==> (mask[i] <==> i != p) by {
      forall i | 0 <= i < |mask|
        ensures mask[i] <==> i != p
      {
        if i < p {
          assert df[i].name != df[p].name;
        } else if i > p {
          assert df[p].name != df[i].name;
        }
      }
    }
    AllButOneIndices(mask, p);
    var r := DropColumn(df, name);
    var rest := df[..p] + df[p + 1..];
    assert |r| == |rest|;
    forall k | 0 <= k < |r|
      ensures r[k] == rest[k]
    {
      if k < p {
        assert r[k] == df[k];
      } else {
        assert r[k] == df[k + 1];
      }
    }
  }

  /** `df.drop(columns=["CustomerID"])` when there is such a column. */
  function DropId(df: Frame): Frame
  {
    if IdColumn in NameSet(df) then DropColumn(df, IdColumn) else df
  }

  /** The identifier is gone, every other column is still there, names stay
      distinct and every column keeps its rows. */
  lemma DropIdProperties(df: Frame, rows: nat)
    requires Rectangular(df, rows)
    ensures NameSet(DropId(df)) == NameSet(df) - {IdColumn}
    ensures DistinctNames(df) ==> DistinctNames(DropId(df))
    ensures Rectangular(DropId(df), rows)
  {
    DropColumnKeeps(df, IdColumn);
  }

  // ---------------------------------------------------------------- rows

  /** `s.notna()` over the labels. */
  function LabelMask(labels: seq<Option<real>>): (keep: seq<bool>)
    ensures |keep| == |labels|
    ensures forall i :: 0 <= i < |labels| ==> (keep[i] <==> labels[i].Some?)
  {
    seq(|labels|, i requires 0 <= i < |labels| => labels[i].Some?)
  }

  /** A numeric label column: a present label is a number cell, a missing one NaN. */
  function LabelCells(labels: seq<Option<real>>): (cells: seq<Cell>)
    ensures |cells| == |labels|
    ensures forall i :: 0 <= i < |labels| ==> (cells[i].Some? <==> labels[i].Some?)
    ensures forall i :: 0 <= i < |labels| && labels[i].Some? ==> cells[i] == Some(Num(labels[i].value))
  {
    seq(|labels|, i requires 0 <= i < |labels| => if labels[i].Some? then Some(Num(labels[i].value)) else None)
  }

  /** `df.dropna(subset=["Churn"])`: the rows `keep` marks, in their order. */
  function KeepRows(df: Frame, keep: seq<bool>): (r: Frame)
    requires Rectangular(df, |keep|)
    ensures |r| == |df|
    ensures forall j :: 0 <= j < |df| ==> r[j] == df[j].(cells := Filter(df[j].cells, keep))
  {
    seq(|df|, j requires 0 <= j < |df| => df[j].(cells := Filter(df[j].cells, keep)))
  }

  /** `astype(int)` on one present number: the fraction dropped toward zero. */
  function TruncateCell(c: Cell): Cell
  {
    match c
    case Some(Num(x)) => Some(Num(Trunc(x) as real))
    case _ => c
  }

  function TruncateColumn(col: Column): (r: Column)
    ensures r.name == col.name && r.numeric && |r.cells| == |col.cells|
    ensures forall i :: 0 <= i < |col.cells| ==> r.cells[i] == TruncateCell(col.cells[i])
  {
    Column(col.name, true, seq(|col.cells|, i requires 0 <= i < |col.cells| => TruncateCell(col.cells[i])))
  }

  // ---------------------------------------------------------------- coercion

  /** `pd.to_numeric(..., errors="coerce")` on one cell: numbers and NaN stay,
      text becomes its number, or NaN when it is not one. */
  function CoerceCell(c: Cell, parse: string -> Option<real>): Cell
  {
    match c
    case Some(Str(s)) => (match parse(s) case Some(x) => Some(Num(x)) case None => None)
    case _ => c
  }

  /** A hinted column coerced to numbers; any other column is left alone. */
  function CoerceColumn(col: Column, parse: string -> Option<real>): (r: Column)
    ensures r.name == col.name && |r.cells| == |col.cells|
    ensures col.name in NumericHint ==> r.numeric && forall i :: 0 <= i < |col.cells| ==> r.cells[i] == CoerceCell(col.cells[i], parse)
    ensures col.name !in NumericHint ==> r == col
  {
    if col.name in NumericHint then
      Column(col.name, true, seq(|col.cells|, i requires 0 <= i < |col.cells| => CoerceCell(col.cells[i], parse)))
    else col
  }

  // ---------------------------------------------------------------- filling

  /** The numbers present in a column (`Series.median` skips NaN). */
  function PresentNumbers(cells: seq<Cell>): (xs: seq<real>)
    ensures |xs| <= |cells|
  {
    if |cells| == 0 then []
    else
      (match cells[0] case Some(Num(x)) => [x] case _ => []) + PresentNumbers(cells[1..])
  }

  /** `fillna(v)`: every NaN replaced by `v`; `None` (a NaN median) fills nothing. */
  function FillCells(cells: seq<Cell>, v: Cell): (r: seq<Cell>)
    ensures |r| == |cells|
    ensures forall i :: 0 <= i < |cells| ==> r[i] == if cells[i].None? then v else cells[i]
  {
    seq(|cells|, i requires 0 <= i < |cells| => if cells[i].None? then v else cells[i])
  }

  /** `fillna(median)`'s value: the median of the numbers present, or NaN
      when there are none. */
  function MedianFill(cells: seq<Cell>): Cell
  {
    match Median.Median(PresentNumbers(cells))
    case Some(m) => Some(Num(m))
    case None => None
  }

  /** The value a column's gaps are filled with: its median for a numeric
      column other than the label, `"Unknown"` for a categorical one. */
  function FillValue(col: Column): Cell
  {
    if !col.numeric then Some(Str(Unknown))
    else if col.name == LabelColumn then None
    else MedianFill(col.cells)
  }

  /** The first fill loop's effect on one column. */
  function FillNumeric(col: Column): (r: Column)
    ensures r.name == col.name && r.numeric == col.numeric && |r.cells| == |col.cells|
  {
    if col.numeric && col.name != LabelColumn then col.(cells := FillCells(col.cells, FillValue(col))) else col
  }

  /** The second fill loop's effect on one column. */
  function FillCategorical(col: Column): (r: Column)
    ensures r.name == col.name && r.numeric == col.numeric && |r.cells| == |col.cells|
  {
    if !col.numeric then col.(cells := FillCells(col.cells, FillValue(col))) else col
  }

  /** Both fill loops together: a present cell stays, a gap takes the
      column's fill value. */
  lemma FillBoth(col: Column)
    ensures FillCategorical(FillNumeric(col)).name == col.name
    ensures FillCategorical(FillNumeric(col)).numeric == col.numeric
    ensures |FillCategorical(FillNumeric(col)).cells| == |col.cells|
    ensures forall i :: 0 <= i < |col.cells| ==>
      FillCategorical(FillNumeric(col)).cells[i] == if col.cells[i].Some? then col.cells[i] else FillValue(col)
  {
  }

  // ---------------------------------------------------------------- pipeline

  /** A per-column step applied to every column. */
  function CoerceAll(df: Frame, parse: string -> Option<real>): (r: Frame)
    ensures |r| == |df| && forall j :: 0 <= j < |df| ==> r[j] == CoerceColumn(df[j], parse)
  {
    seq(|df|, j requires 0 <= j < |df| => CoerceColumn(df[j], parse))
  }

  function FillNumericAll(df: Frame): (r: Frame)
    ensures |r| == |df| && forall j :: 0 <= j < |df| ==> r[j] == FillNumeric(df[j])
  {
    seq(|df|, j requires 0 <= j < |df| => FillNumeric(df[j]))
  }

  function FillCategoricalAll(df: Frame): (r: Frame)
    ensures |r| == |df| && forall j :: 0 <= j < |df| ==> r[j] == FillCategorical(df[j])
  {
    seq(|df|, j requires 0 <= j < |df| => FillCategorical(df[j]))
  }

  /** The normalised label of every row. */
  function LabelsOf(d: Frame, show: real -> string, parse: string -> Option<real>): (labels: seq<Option<real>>)
    requires LabelColumn in NameSet(d)
  {
    NormalizeLabels(d[ColumnIndex(d, LabelColumn)].cells, show, parse)
  }

  /** The rows that keep a label, in their order. */
  function Labelled(d: Frame, show: real -> string, parse: string -> Option<real>): (idx: seq<nat>)
    requires LabelColumn in NameSet(d)
  {
    IndicesWhere(LabelMask(LabelsOf(d, show, parse)))
  }

  /** The frame the fill loops start from, for a frame `d` of `rows` rows
      without its identifier: the label normalised, the unlabelled rows gone,
      the label cast to integers and the hinted columns coerced. */
  function Prepared(d: Frame, rows: nat, parse: string -> Option<real>, show: real -> string): Frame
    requires Rectangular(d, rows) && LabelColumn in NameSet(d)
  {
    var c := ColumnIndex(d, LabelColumn);
    var labels := LabelsOf(d, show, parse);
    var kept := KeepRows(d[c := Column(LabelColumn, true, LabelCells(labels))], LabelMask(labels));
    CoerceAll(kept[c := TruncateColumn(kept[c])], parse)
  }

  /** Everything `load_training_df` does after the identifier is dropped: the
      cleaned frame and the number of rows dropped. */
  function Clean(d: Frame, rows: nat, parse: string -> Option<real>, show: real -> string): (Frame, nat)
    requires Rectangular(d, rows) && LabelColumn in NameSet(d)
  {
    (FillCategoricalAll(FillNumericAll(Prepared(d, rows, parse, show))), CountFalse(LabelMask(LabelsOf(d, show, parse))))
  }

  /** What `load_training_df` returns for a frame of `rows` rows: the error
      naming every missing needed column, or the cleaned frame together with
      the number of rows dropped for their label. */
  function Load(raw: Frame, rows: nat, parse: string -> Option<real>, show: real -> string): Result<(Frame, nat), LoadError>
    requires Rectangular(raw, rows)
  {
    CanonicalProperties(raw);
    var canon := Canonical(raw);
    if !(Needed <= NameSet(canon)) then Failure(MissingColumns(Needed - NameSet(canon)))
    else
      NameFacts();
      DropIdProperties(canon, rows);
      Success(Clean(DropId(canon), rows, parse, show))
  }

  /** `load_training_df` from the frame the reader produced. */
  method LoadTrainingDf(raw: Frame, parse: string -> Option<real>, show: real -> string)
    returns (res: Result<(Frame, nat), LoadError>)
    requires Rectangular(raw, Height(raw))
    ensures res == Load(raw, Height(raw), parse, show)
  {
    var rows := Height(raw);
    var df := CanonicalizeColumns(raw);
    if !(Needed <= NameSet(df)) {
      LoadUnfolds(raw, rows, parse, show);
      return Failure(MissingColumns(Needed - NameSet(df)));
    }
    LoadUnfolds(raw, rows, parse, show);
    if IdColumn in NameSet(df) {
      df := DropColumn(df, IdColumn);
    }
    var cleaned := CleanFrame(df, rows, parse, show);
    res := Success(cleaned);
  }

  /** `Load` step by step, so that callers need not unfold it. */
  lemma LoadUnfolds(raw: Frame, rows: nat, parse: string -> Option<real>, show: real -> string)
    requires Rectangular(raw, rows)
    ensures !(Needed <= NameSet(Canonical(raw))) ==>
      Load(raw, rows, parse, show) == Failure(MissingColumns(Needed - NameSet(Canonical(raw))))
    ensures Needed <= NameSet(Canonical(raw)) ==>
      Rectangular(DropId(Canonical(raw)), rows) && LabelColumn in NameSet(DropId(Canonical(raw))) &&
      Load(raw, rows, parse, show) == Success(Clean(DropId(Canonical(raw)), rows, parse, show))
  {
    CanonicalProperties(raw);
    if Needed <= NameSet(Canonical(raw)) {
      NameFacts();
      DropIdProperties(Canonical(raw), rows);
    }
  }

  /** The label, row and fill steps, in the order the script runs them. */
  method CleanFrame(d: Frame, rows: nat, parse: string -> Option<real>, show: real -> string)
    returns (r: (Frame, nat))
    requires Rectangular(d, rows) && LabelColumn in NameSet(d)
    ensures r == Clean(d, rows, parse, show)
  {
    var df := d;
    var c := ColumnIndex(df, LabelColumn);
    var labels := NormalizeLabels(df[c].cells, show, parse);
    df := df[c := Column(LabelColumn, true, LabelCells(labels))];
    var keep := LabelMask(labels);
    var dropped := CountFalse(keep);
    df := KeepRows(df, keep);
    df := df[c := TruncateColumn(df[c])];
    df := CoerceHinted(df, parse);
    df := FillNumericColumns(df);
    df := FillCategoricalColumns(df);
    r := (df, dropped);
  }

  /** The loop over the hinted columns, each coerced to numbers in place. */
  method CoerceHinted(df0: Frame, parse: string -> Option<real>) returns (df: Frame)
    ensures df == CoerceAll(df0, parse)
  {
    df := df0;
    for j := 0 to |df|
      invariant |df| == |df0|
      invariant forall k :: 0 <= k < j ==> df[k] == CoerceColumn(df0[k], parse)
      invariant forall k :: j <= k < |df| ==> df[k] == df0[k]
    {
      if df[j].name in NumericHint {
        df := df[j := CoerceColumn(df[j], parse)];
      }
    }
  }

  /** The loop over the numeric columns but the label, each filled with its median. */
  method FillNumericColumns(df0: Frame) returns (df: Frame)
    ensures df == FillNumericAll(df0)
  {
    df := df0;
    for j := 0 to |df|
      invariant |df| == |df0|
      invariant forall k :: 0 <= k < j ==> df[k] == FillNumeric(df0[k])
      invariant forall k :: j <= k < |df| ==> df[k] == df0[k]
    {
      if df[j].numeric && df[j].name != LabelColumn {
        df := df[j := df[j].(cells := FillCells(df[j].cells, FillValue(df[j])))];
      }
    }
  }

  /** The loop over the categorical columns, each filled with "Unknown". */
  method FillCategoricalColumns(df0: Frame) returns (df: Frame)
    ensures df == FillCategoricalAll(df0)
  {
    df := df0;
    for j := 0 to |df|
      invariant |df| == |df0|
      invariant forall k :: 0 <= k < j ==> df[k] == FillCategorical(df0[k])
      invariant forall k :: j <= k < |df| ==> df[k] == df0[k]
    {
      if !df[j].numeric {
        df := df[j := df[j].(cells := FillCells(df[j].cells, Some(Str(Unknown))))];
      }
    }
  }
}
