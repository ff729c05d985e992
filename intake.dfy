/** The app's intake form: ten fields typed or chosen by the user, turned into
    one model row, and the list of fields still missing. */
module Intake {
  import opened Common
  import opened Seqs
  import opened AsciiText

  /** The first, unselected option of every select box. */
  const Placeholder: string := "— Select —"

  /** `to_num`: the stripped text, blank meaning missing, otherwise what
      `float()` makes of it (`parseFloat`, `None` where it raises). */
  function ToNum(text: string, parseFloat: string -> Option<real>): Option<real>
  {
    var s := Strip(text);
    if s == "" then None else parseFloat(s)
  }

  /** Text made only of whitespace is missing. */
  lemma ToNumBlank(text: string, parseFloat: string -> Option<real>)
    requires AllSpace(text)
    ensures ToNum(text, parseFloat) == None
  {
    StripPadded(text, [], []);
    assert text + [] + [] == text;
  }

  /** Whitespace around a number does not matter: a padded number reads as
      what `float()` makes of the bare number. */
  lemma ToNumPadded(left: string, core: string, right: string, parseFloat: string -> Option<real>)
    requires AllSpace(left) && AllSpace(right) && IsStripped(core) && core != ""
    ensures ToNum(left + core + right, parseFloat) == parseFloat(core)
  {
    StripPadded(left, core, right);
  }

  /** A value is present only if its stripped text is not blank and parses. */
  lemma ToNumPresent(text: string, parseFloat: string -> Option<real>)
    requires ToNum(text, parseFloat).Some?
    ensures Strip(text) != "" && parseFloat(Strip(text)) == ToNum(text, parseFloat)
  {
  }

  /** A value of the model row: a number from a text box, or a select box's choice. */
  datatype FieldValue = Number(n: Option<real>) | Choice(s: string)

  /** What the widgets hold when "Predict" is pressed. */
  datatype Form = Form(
    age: string, gender: string, tenure: string, usage: string, support: string,
    payment: string, subscription: string, contract: string, spend: string, last: string)

  /** One row for the model, in the order the dictionary literal lists its keys. */
  type Row = seq<(string, FieldValue)>

  const FieldOrder: seq<string> := [
    "Age", "Gender", "Tenure", "Usage", "Support", "PaymentDelay",
    "Subscription", "Contract", "TotalSpend", "LastInteraction"
  ]

  function BuildRow(f: Form, parseFloat: string -> Option<real>): (row: Row)
    ensures |row| == |FieldOrder|
    ensures forall i :: 0 <= i < |row| ==> row[i].0 == FieldOrder[i]
  {
    [ ("Age", Number(ToNum(f.age, parseFloat))),
      ("Gender", Choice(f.gender)),
      ("Tenure", Number(ToNum(f.tenure, parseFloat))),
      ("Usage", Number(ToNum(f.usage, parseFloat))),
      ("Support", Number(ToNum(f.support, parseFloat))),
      ("PaymentDelay", Number(ToNum(f.payment, parseFloat))),
      ("Subscription", Choice(f.subscription)),
      ("Contract", Choice(f.contract)),
      ("TotalSpend", Number(ToNum(f.spend, parseFloat))),
      ("LastInteraction", Number(ToNum(f.last, parseFloat))) ]
  }

  /** `v in (None, "", "— Select —")`. */
  predicate IsBlank(v: FieldValue)
  {
    v == Number(None) || v == Choice("") || v == Choice(Placeholder)
  }

  function Keys(row: Row): (keys: seq<string>)
    ensures |keys| == |row| && forall i :: 0 <= i < |row| ==> keys[i] == row[i].0
  {
    seq(|row|, i requires 0 <= i < |row| => row[i].0)
  }

  function BlankMask(row: Row): (mask: seq<bool>)
    ensures |mask| == |row| && forall i :: 0 <= i < |row| ==> (mask[i] <==> IsBlank(row[i].1))
  {
    seq(|row|, i requires 0 <= i < |row| => IsBlank(row[i].1))
  }

  /** `[k for k, v in row.items() if v in (None, "", "— Select —")]`. */
  function MissingFields(row: Row): (missing: seq<string>)
  {
    Filter(Keys(row), BlankMask(row))
  }

  /** A key is listed exactly when its value is blank, and the list keeps the
      row's order. */
  lemma MissingFieldsExactly(row: Row, i: nat)
    requires i < |row|
    ensures IsBlank(row[i].1) <==> i in IndicesWhere(BlankMask(row))
    ensures forall k :: 0 <= k < |MissingFields(row)| ==>
      MissingFields(row)[k] == row[IndicesWhere(BlankMask(row))[k]].0 && IsBlank(row[IndicesWhere(BlankMask(row))[k]].1)
    ensures forall k, l :: 0 <= k < l < |MissingFields(row)| ==> IndicesWhere(BlankMask(row))[k] < IndicesWhere(BlankMask(row))[l]
  {
  }

  /** Nothing is missing exactly when no value is blank. */
  lemma NothingMissing(row: Row)
    ensures MissingFields(row) == [] <==> forall i :: 0 <= i < |row| ==> !IsBlank(row[i].1)
  {
    FilterEmpty(Keys(row), BlankMask(row));
  }

  /** The form as it first appears, empty boxes and placeholder choices. */
  function EmptyForm(): Form
  {
    Form("", Placeholder, "", "", "", "", Placeholder, Placeholder, "", "")
  }

  /** Every field of the empty form is missing, and reported in field order. */
  lemma EmptyFormAllMissing(parseFloat: string -> Option<real>)
    ensures MissingFields(BuildRow(EmptyForm(), parseFloat)) == FieldOrder
  {
    var row := BuildRow(EmptyForm(), parseFloat);
    assert forall i :: 0 <= i < |row| ==> BlankMask(row)[i] by {
      ToNumBlank("", parseFloat);
    }
    FilterAll(Keys(row), BlankMask(row));
    assert Keys(row) == FieldOrder;
  }
}
