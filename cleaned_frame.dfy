/** What the frame `load_training_df` returns looks like, stated against the
    frame it was given rather than against the steps it took. */
module CleanedFrame {
  import opened Common
  import opened Seqs
  import opened Frames
  import opened Headers
  import opened ChurnLabel
  import opened Median
  import opened Cleaner

  /** A cell of column `col` after the coercion loop. */
  function Coerced(col: Column, c: Cell, parse: string -> Option<real>): Cell
  {
    if col.name in NumericHint then CoerceCell(c, parse) else c
  }

  /** Column `j` of `d` on the labelled rows, after coercion: what the fill
      loops find there. */
  function PreparedCells(d: Frame, rows: nat, parse: string -> Option<real>, show: real -> string, j: nat): (cells: seq<Cell>)
    requires Rectangular(d, rows) && LabelColumn in NameSet(d) && j < |d|
  {
    var idx := Labelled(d, show, parse);
    seq(|idx|, k requires 0 <= k < |idx| => Coerced(d[j], d[j].cells[idx[k]], parse))
  }

  /** Whether a column other than the label is numeric by the time the fill
      loops run: it was read as numbers, or it is one of the hinted columns. */
  predicate NumericAfter(col: Column)
  {
    col.numeric || col.name in NumericHint
  }

  lemma PreparedShape(d: Frame, rows: nat, parse: string -> Option<real>, show: real -> string)
    requires Rectangular(d, rows) && LabelColumn in NameSet(d)
    ensures Names(Prepared(d, rows, parse, show)) == Names(d)
    ensures Rectangular(Prepared(d, rows, parse, show), |Labelled(d, show, parse)|)
  {
    var c := ColumnIndex(d, LabelColumn);
    var labels := LabelsOf(d, show, parse);
    var n := |Labelled(d, show, parse)|;
    var kept := KeepRows(d[c := Column(LabelColumn, true, LabelCells(labels))], LabelMask(labels));
    var cast := kept[c := TruncateColumn(kept[c])];
    assert |cast| == |d| && forall j :: 0 <= j < |d| ==> cast[j].name == d[j].name && |cast[j].cells| == n;
    var p := Prepared(d, rows, parse, show);
    assert p == CoerceAll(cast, parse);
    assert Names(p) == Names(d);
  }

  /** The columns keep their names and order, every column has one cell per
      labelled row, and the rows dropped are exactly the rows whose label is
      missing. */
  lemma CleanShape(d: Frame, rows: nat, parse: string -> Option<real>, show: real -> string)
    requires Rectangular(d, rows) && LabelColumn in NameSet(d)
    ensures Names(Clean(d, rows, parse, show).0) == Names(d)
    ensures Rectangular(Clean(d, rows, parse, show).0, |Labelled(d, show, parse)|)
    ensures |Labelled(d, show, parse)| + Clean(d, rows, parse, show).1 == rows
    ensures forall i :: 0 <= i < rows ==> (i in Labelled(d, show, parse) <==> LabelsOf(d, show, parse)[i].Some?)
  {
    PreparedShape(d, rows, parse, show);
    KeptPlusRejected(LabelMask(LabelsOf(d, show, parse)));
    assert Names(Clean(d, rows, parse, show).0) == Names(Prepared(d, rows, parse, show));
  }

  /** The label column on the labelled rows: every label present, cast to an
      integer. */
  lemma PreparedLabel(d: Frame, rows: nat, parse: string -> Option<real>, show: real -> string, k: nat)
    requires Rectangular(d, rows) && LabelColumn in NameSet(d) && k < |Labelled(d, show, parse)|
    ensures var c := ColumnIndex(d, LabelColumn);
      var p := Prepared(d, rows, parse, show)[c];
      var l := LabelsOf(d, show, parse)[Labelled(d, show, parse)[k]];
      p.name == LabelColumn && p.numeric && k < |p.cells| &&
      l.Some? && p.cells[k] == Some(Num(Trunc(l.value) as real))
  {
    NameFacts();
  }

  /** Any other column on the labelled rows, coerced when hinted. */
  lemma PreparedOther(d: Frame, rows: nat, parse: string -> Option<real>, show: real -> string, j: nat)
    requires Rectangular(d, rows) && LabelColumn in NameSet(d) && j < |d| && d[j].name != LabelColumn
    ensures Prepared(d, rows, parse, show)[j] == Column(d[j].name, d[j].numeric || d[j].name in NumericHint, PreparedCells(d, rows, parse, show, j))
  {
    var p := Prepared(d, rows, parse, show)[j];
    assert p.cells == PreparedCells(d, rows, parse, show, j);
  }

  /** The label of every row that is kept: present, and cast to an integer
      toward zero. */
  lemma CleanedLabel(d: Frame, rows: nat, parse: string -> Option<real>, show: real -> string, k: nat)
    requires Rectangular(d, rows) && LabelColumn in NameSet(d) && k < |Labelled(d, show, parse)|
    ensures var c := ColumnIndex(d, LabelColumn);
      var out := Clean(d, rows, parse, show).0[c];
      var l := LabelsOf(d, show, parse)[Labelled(d, show, parse)[k]];
      out.name == LabelColumn && out.numeric && k < |out.cells| &&
      l.Some? && out.cells[k] == Some(Num(Trunc(l.value) as real))
  {
    var c := ColumnIndex(d, LabelColumn);
    PreparedLabel(d, rows, parse, show, k);
    FillBoth(Prepared(d, rows, parse, show)[c]);
  }

  /** A cell of any other column: the cell of its row, coerced when the
      column is hinted; a gap left by that is filled with "Unknown" in a
      categorical column and with the median of the column's numbers in a
      numeric one. */
  lemma CleanedCell(d: Frame, rows: nat, parse: string -> Option<real>, show: real -> string, j: nat, k: nat)
    requires Rectangular(d, rows) && LabelColumn in NameSet(d)
    requires j < |d| && d[j].name != LabelColumn && k < |Labelled(d, show, parse)|
    ensures var out := Clean(d, rows, parse, show).0[j];
      var cells := PreparedCells(d, rows, parse, show, j);
      k < |cells| == |out.cells| &&
      out.cells[k] == if cells[k].Some? then cells[k]
                      else if !NumericAfter(d[j]) then Some(Str(Unknown))
                      else MedianFill(cells)
  {
    PreparedOther(d, rows, parse, show, j);
    FillBoth(Prepared(d, rows, parse, show)[j]);
  }

  /** The only gaps left are in a numeric column without a single number on
      the labelled rows, where the median itself is missing. */
  lemma CleanedGaps(d: Frame, rows: nat, parse: string -> Option<real>, show: real -> string, j: nat, k: nat)
    requires Rectangular(d, rows) && LabelColumn in NameSet(d) && DistinctNames(d)
    requires j < |d| && k < |Labelled(d, show, parse)|
    ensures var out := Clean(d, rows, parse, show).0;
      j < |out| && k < |out[j].cells| &&
      (out[j].cells[k].None? ==>
         d[j].name != LabelColumn && NumericAfter(d[j]) &&
         PresentNumbers(PreparedCells(d, rows, parse, show, j)) == [])
  {
    CleanShape(d, rows, parse, show);
    if Clean(d, rows, parse, show).0[j].cells[k].None? {
      GapCause(d, rows, parse, show, j, k);
    }
  }

  lemma GapCause(d: Frame, rows: nat, parse: string -> Option<real>, show: real -> string, j: nat, k: nat)
    requires Rectangular(d, rows) && LabelColumn in NameSet(d) && DistinctNames(d)
    requires j < |d| && k < |Labelled(d, show, parse)|
    requires Clean(d, rows, parse, show).0[j].cells[k].None?
    ensures d[j].name != LabelColumn && NumericAfter(d[j])
    ensures PresentNumbers(PreparedCells(d, rows, parse, show, j)) == []
  {
    PreparedShape(d, rows, parse, show);
    if d[j].name == LabelColumn {
      CleanedLabel(d, rows, parse, show, k);
      assert false;
    }
    CleanedCell(d, rows, parse, show, j, k);
  }

  /** Loading fails exactly when a needed column is absent after
      canonicalisation, and the error names every needed column that no raw
      header canonicalises to, and nothing else. */
  lemma LoadRejects(raw: Frame, rows: nat, parse: string -> Option<real>, show: real -> string, n: string)
    requires Rectangular(raw, rows)
    ensures Load(raw, rows, parse, show).Failure? <==> !(Needed <= NameSet(Canonical(raw)))
    ensures Load(raw, rows, parse, show).Failure? ==>
      (n in Load(raw, rows, parse, show).error.names <==>
       n in Needed && forall j :: 0 <= j < |raw| ==> CanonicalName(raw[j].name) != n)
  {
    LoadUnfolds(raw, rows, parse, show);
    CanonicalProperties(raw);
  }

  /** A loaded frame has the canonical columns but the identifier, in their
      order, with distinct names and every needed column among them. */
  lemma LoadShape(raw: Frame, rows: nat, parse: string -> Option<real>, show: real -> string)
    requires Rectangular(raw, rows)
    ensures Load(raw, rows, parse, show).Success? ==>
      var out := Load(raw, rows, parse, show).value.0;
      Names(out) == Names(DropId(Canonical(raw))) &&
      NameSet(out) == NameSet(Canonical(raw)) - {IdColumn} &&
      DistinctNames(out) && IdColumn !in NameSet(out) && Needed <= NameSet(out)
  {
    if Load(raw, rows, parse, show).Success? {
      LoadedShape(raw, rows, parse, show);
    }
  }

  lemma LoadedShape(raw: Frame, rows: nat, parse: string -> Option<real>, show: real -> string)
    requires Rectangular(raw, rows) && Load(raw, rows, parse, show).Success?
    ensures var out := Load(raw, rows, parse, show).value.0;
      Names(out) == Names(DropId(Canonical(raw))) &&
      NameSet(out) == NameSet(Canonical(raw)) - {IdColumn} &&
      DistinctNames(out) && IdColumn !in NameSet(out) && Needed <= NameSet(out)
  {
    var canon := Canonical(raw);
    var d := DropId(canon);
    LoadUnfolds(raw, rows, parse, show);
    var out := Load(raw, rows, parse, show).value.0;
    assert out == Clean(d, rows, parse, show).0;
    assert NameSet(d) == NameSet(canon) - {IdColumn} && DistinctNames(d) by {
      CanonicalProperties(raw);
      DropIdProperties(canon, rows);
    }
    assert Names(out) == Names(d) by {
      CleanShape(d, rows, parse, show);
    }
    SameNames(out, d);
    assert Needed <= NameSet(out) by {
      NameFacts();
      SubsetWithout(Needed, NameSet(canon), IdColumn);
    }
  }

  lemma SubsetWithout(a: set<string>, b: set<string>, x: string)
    requires a <= b && x !in a
    ensures a <= b - {x}
  {
  }

  /** Frames with the same list of names have the same set of names and are
      alike in having distinct names. */
  lemma SameNames(a: Frame, b: Frame)
    requires Names(a) == Names(b)
    ensures NameSet(a) == NameSet(b)
    ensures DistinctNames(a) == DistinctNames(b)
  {
    assert |a| == |Names(a)| == |b|;
    assert forall j :: 0 <= j < |a| ==> a[j].name == Names(a)[j] == b[j].name;
  }

  /** A numeric column with three values and one gap, such as 10, a gap, 30
      and 20, has the gap filled with the middle value (20). */
  lemma ImputationExample(cells: seq<Cell>, a: real, b: real, c: real)
    requires a <= b <= c
    requires cells == [Some(Num(a)), None, Some(Num(c)), Some(Num(b))]
    ensures FillCells(cells, MedianFill(cells))[1] == Some(Num(b))
  {
    var xs := PresentNumbers(cells);
    ExamplePresent(cells, a, b, c);
    assert multiset(xs) == multiset{a, b, c};
    MedianOfThree(xs, a, b, c);
    MedianFillOf(cells, b);
  }

  lemma ExamplePresent(cells: seq<Cell>, a: real, b: real, c: real)
    requires cells == [Some(Num(a)), None, Some(Num(c)), Some(Num(b))]
    ensures PresentNumbers(cells) == [a, c, b]
  {
    var t := [Some(Num(b))];
    assert PresentNumbers(t) == [b] by {
      assert t[1..] == [];
    }
    assert PresentNumbers([Some(Num(c))] + t) == [c, b] by {
      assert ([Some(Num(c))] + t)[1..] == t;
    }
    assert PresentNumbers([None, Some(Num(c))] + t) == [c, b] by {
      assert ([None, Some(Num(c))] + t)[1..] == [Some(Num(c))] + t;
    }
    assert cells == [Some(Num(a))] + ([None, Some(Num(c))] + t);
  }

  lemma MedianFillOf(cells: seq<Cell>, m: real)
    requires Median.Median(PresentNumbers(cells)) == Some(m)
    ensures MedianFill(cells) == Some(Num(m))
  {
  }
}
