/** `_normalize_churn`: every churn cell is printed, stripped and lower-cased,
    looked up in a small lexicon (1, 0 or missing), and anything the lexicon
    does not know is handed to numeric coercion. */
module ChurnLabel {
  import opened Common
  import opened AsciiText
  import opened Frames

  /** Texts that mean "churned". */
  const TrueWords: set<string> := {"yes", "y", "true", "t", "1"}

  /** Texts that mean "stayed". */
  const FalseWords: set<string> := {"no", "n", "false", "f", "0"}

  /** Texts that mean "no label". */
  const MissingWords: set<string> := {"nan", ""}

  /** `str(v)` of a cell (`series.astype(str)`): NaN prints as "nan", text as
      itself and a number as whatever `show` (Python's `str` on a float or an
      int) prints. */
  function CellText(c: Cell, show: real -> string): string
  {
    match c
    case None => "nan"
    case Some(Str(s)) => s
    case Some(Num(x)) => show(x)
  }

  /** The text the lexicon is consulted with: stripped, then lower-cased. */
  function LabelKey(text: string): string
  {
    LowerAll(Strip(text))
  }

  /** The label a key stands for. `parse` is `pd.to_numeric(..., errors="coerce")`
      on a single string: a number, or `None` for text that is not one. */
  function KeyLabel(key: string, parse: string -> Option<real>): Option<real>
  {
    if key in TrueWords then Some(1.0)
    else if key in FalseWords then Some(0.0)
    else if key in MissingWords then None
    else parse(key)
  }

  /** The label of one printed cell. */
  function NormalizeLabel(text: string, parse: string -> Option<real>): Option<real>
  {
    KeyLabel(LabelKey(text), parse)
  }

  /** `_normalize_churn` on a whole column, cell by cell. */
  function NormalizeLabels(cells: seq<Cell>, show: real -> string, parse: string -> Option<real>): (r: seq<Option<real>>)
    ensures |r| == |cells|
    ensures forall i :: 0 <= i < |cells| ==> r[i] == NormalizeLabel(CellText(cells[i], show), parse)
  {
    seq(|cells|, i requires 0 <= i < |cells| => NormalizeLabel(CellText(cells[i], show), parse))
  }

  /** Whitespace around a label does not change its key. */
  lemma KeyIgnoresPadding(left: string, core: string, right: string)
    requires AllSpace(left) && AllSpace(right) && IsStripped(core)
    ensures LabelKey(left + core + right) == LowerAll(core)
  {
    StripPadded(left, core, right);
  }

  /** Case does not change the key of a label. */
  lemma KeyIgnoresCase(text: string)
    ensures LabelKey(LowerAll(text)) == LabelKey(text)
  {
    StripLowerCommute(text);
    LowerAllIdempotent(Strip(text));
  }

  /** Case does not change the label. */
  lemma LabelIgnoresCase(text: string, parse: string -> Option<real>)
    ensures NormalizeLabel(LowerAll(text), parse) == NormalizeLabel(text, parse)
  {
    KeyIgnoresCase(text);
  }

  /** Every lexicon word is free of surrounding whitespace. */
  lemma LexiconStripped(w: string)
    requires w in TrueWords + FalseWords + MissingWords
    ensures IsStripped(w)
  {
  }

  /** A lexicon word in any case, surrounded by any whitespace, has the
      lower-cased word as its key. */
  lemma PaddedWordKey(left: string, word: string, right: string)
    requires AllSpace(left) && AllSpace(right)
    requires LowerAll(word) in TrueWords + FalseWords + MissingWords
    ensures LabelKey(left + word + right) == LowerAll(word)
  {
    LexiconStripped(LowerAll(word));
    LowerKeepsSpacing(word);
    KeyIgnoresPadding(left, word, right);
  }

  lemma TrueKeyLabel(key: string, parse: string -> Option<real>)
    requires key in TrueWords
    ensures KeyLabel(key, parse) == Some(1.0)
  {
  }

  lemma FalseKeyLabel(key: string, parse: string -> Option<real>)
    requires key in FalseWords
    ensures KeyLabel(key, parse) == Some(0.0)
  {
    LexiconDisjoint();
  }

  lemma MissingKeyLabel(key: string, parse: string -> Option<real>)
    requires key in MissingWords
    ensures KeyLabel(key, parse) == None
  {
    LexiconDisjoint();
  }

  /** A true word in any case, surrounded by any whitespace, is labelled 1. */
  lemma TrueWordLabel(left: string, word: string, right: string, parse: string -> Option<real>)
    requires AllSpace(left) && AllSpace(right) && LowerAll(word) in TrueWords
    ensures NormalizeLabel(left + word + right, parse) == Some(1.0)
  {
    PaddedWordKey(left, word, right);
    TrueKeyLabel(LowerAll(word), parse);
  }

  /** A false word in any case, surrounded by any whitespace, is labelled 0. */
  lemma FalseWordLabel(left: string, word: string, right: string, parse: string -> Option<real>)
    requires AllSpace(left) && AllSpace(right) && LowerAll(word) in FalseWords
    ensures NormalizeLabel(left + word + right, parse) == Some(0.0)
  {
    PaddedWordKey(left, word, right);
    FalseKeyLabel(LowerAll(word), parse);
  }

  /** "nan" in any case, or nothing at all, surrounded by any whitespace, is
      missing. */
  lemma MissingWordLabel(left: string, word: string, right: string, parse: string -> Option<real>)
    requires AllSpace(left) && AllSpace(right) && LowerAll(word) in MissingWords
    ensures NormalizeLabel(left + word + right, parse) == None
  {
    PaddedWordKey(left, word, right);
    MissingKeyLabel(LowerAll(word), parse);
  }

  /** A text outside the lexicon is labelled by numeric coercion of its key;
      in particular, one that does not parse is missing. */
  lemma CoercedLabel(text: string, parse: string -> Option<real>)
    requires LabelKey(text) !in TrueWords + FalseWords + MissingWords
    ensures NormalizeLabel(text, parse) == parse(LabelKey(text))
    ensures parse(LabelKey(text)).None? ==> NormalizeLabel(text, parse).None?
  {
  }

  /** The three lexicon groups are disjoint, so the lookup order does not matter. */
  lemma LexiconDisjoint()
    ensures TrueWords * FalseWords == {}
    ensures TrueWords * MissingWords == {} && FalseWords * MissingWords == {}
  {
  }

  /** A NaN cell prints as "nan" and stays missing. */
  lemma MissingCellStaysMissing(show: real -> string, parse: string -> Option<real>)
    ensures NormalizeLabel(CellText(None, show), parse) == None
  {
    var nan := CellText(None, show);
    NanKey(nan);
    NanIsMissing(nan);
    MissingKeyLabel(nan, parse);
  }

  lemma NanKey(nan: string)
    requires nan == "nan"
    ensures LabelKey(nan) == nan
  {
    PlainKey(nan);
  }

  /** A stripped text without capitals is its own key. */
  lemma PlainKey(text: string)
    requires IsStripped(text) && forall i :: 0 <= i < |text| ==> !IsUpper(text[i])
    ensures LabelKey(text) == text
  {
    StripOfStripped(text);
    LowerAllOfLower(text);
  }

  lemma NanIsMissing(nan: string)
    requires nan == "nan"
    ensures nan in MissingWords
  {
  }
}
