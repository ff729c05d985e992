/** Header canonicalisation of the training script: every raw column name is
    reduced to a key, the key is matched against an ordered alias table by
    prefix (first entry wins), and later columns that end up with a name
    already taken are dropped. */
module Headers {
  import opened Common
  import opened Seqs
  import opened AsciiText
  import opened Frames

  /** An ordered alias table: (key prefix, canonical name) pairs. */
  type AliasTable = seq<(string, string)>

  /** The training script's alias table, in declaration order. */
  const HeaderCanon: AliasTable := [
    ("customer", "CustomerID"),
    ("customerid", "CustomerID"),
    ("age", "Age"),
    ("gender", "Gender"),
    ("tenure", "Tenure"),
    ("usage", "Usage"),
    ("support", "Support"),
    ("payment", "PaymentDelay"),
    ("paymentdelay", "PaymentDelay"),
    ("subscription", "Subscription"),
    ("contract", "Contract"),
    ("total", "TotalSpend"),
    ("totalspend", "TotalSpend"),
    ("last", "LastInteraction"),
    ("lastinteraction", "LastInteraction"),
    ("churn", "Churn")
  ]

  /** Entry `i` is the first entry of `table`, in table order, whose key
      prefixes `key`. */
  predicate IsFirstMatch(table: AliasTable, key: string, i: int)
  {
    && 0 <= i < |table|
    && table[i].0 <= key
    && forall j :: 0 <= j < i ==> !(table[j].0 <= key)
  }

  /** No entry's key prefixes `key`. */
  predicate NoMatch(table: AliasTable, key: string)
  {
    forall j :: 0 <= j < |table| ==> !(table[j].0 <= key)
  }

  /** The first entry at or after `from` whose key is a prefix of `key`. */
  function FirstMatch(table: AliasTable, key: string, from: nat): (r: Option<nat>)
    requires from <= |table|
    ensures r.Some? ==> from <= r.value < |table| && table[r.value].0 <= key
    ensures r.Some? ==> forall j :: from <= j < r.value ==> !(table[j].0 <= key)
    ensures r.None? ==> forall j :: from <= j < |table| ==> !(table[j].0 <= key)
    decreases |table| - from
  {
    if from == |table| then None
    else if table[from].0 <= key then Some(from)
    else FirstMatch(table, key, from + 1)
  }

  /** The name a raw column is given under `table` (`mapped or c`). */
  function Rename(table: AliasTable, raw: string): string
  {
    match FirstMatch(table, NormalizeKey(raw), 0)
    case Some(i) => table[i].1
    case None => raw
  }

  /** The name a raw column is given by the training script's table. */
  function CanonicalName(raw: string): string
  {
    Rename(HeaderCanon, raw)
  }

  /** A column is named after the first entry, in table order, whose key
      prefixes its normalised name. */
  lemma RenameMatched(table: AliasTable, raw: string, i: int)
    requires IsFirstMatch(table, NormalizeKey(raw), i)
    ensures Rename(table, raw) == table[i].1
  {
    var key := NormalizeKey(raw);
    var r := FirstMatch(table, key, 0);
    assert r.Some? && r.value == i by {
      if r.Some? && r.value < i {
      } else if r.Some? && r.value > i {
      }
    }
  }

  /** A column no entry recognises keeps its raw name. */
  lemma RenameUnmatched(table: AliasTable, raw: string)
    requires NoMatch(table, NormalizeKey(raw))
    ensures Rename(table, raw) == raw
  {
  }

  /** Exactly one of the two cases of `Rename` applies to every key. */
  lemma MatchCases(table: AliasTable, key: string)
    ensures NoMatch(table, key) || exists i :: IsFirstMatch(table, key, i)
    ensures NoMatch(table, key) ==> forall i :: !IsFirstMatch(table, key, i)
  {
    match FirstMatch(table, key, 0)
    case Some(i) => assert IsFirstMatch(table, key, i);
    case None =>
  }

  /** A later entry whose key extends an earlier entry's key never wins: the
      earlier entry already matched. This is what makes `customerid`,
      `paymentdelay`, `totalspend` and `lastinteraction` dead entries. */
  lemma ShadowedEntry(table: AliasTable, key: string, earlier: nat, later: nat)
    requires earlier < later < |table|
    requires table[earlier].0 <= table[later].0
    ensures !IsFirstMatch(table, key, later)
  {
    if table[later].0 <= key {
      assert table[earlier].0 <= key;
    }
  }

  /** The four shadowed entries of the table are never the first match. */
  lemma DeadEntries(key: string)
    ensures !IsFirstMatch(HeaderCanon, key, 1) && !IsFirstMatch(HeaderCanon, key, 8)
    ensures !IsFirstMatch(HeaderCanon, key, 12) && !IsFirstMatch(HeaderCanon, key, 14)
  {
    ShadowedEntry(HeaderCanon, key, 0, 1);
    ShadowedEntry(HeaderCanon, key, 7, 8);
    ShadowedEntry(HeaderCanon, key, 11, 12);
    ShadowedEntry(HeaderCanon, key, 13, 14);
  }

  /** A renamed column carries one of the table's canonical names, or its raw
      name when the table does not recognise it. */
  lemma RenameRange(table: AliasTable, raw: string)
    ensures Rename(table, raw) == raw || exists i :: 0 <= i < |table| && Rename(table, raw) == table[i].1
  {
    var key := NormalizeKey(raw);
    MatchCases(table, key);
    if NoMatch(table, key) {
      RenameUnmatched(table, raw);
    } else {
      var i :| IsFirstMatch(table, key, i);
      RenameMatched(table, raw, i);
    }
  }

  /** Every column renamed to its canonical name (`df.columns = new_cols`). */
  function Renamed(df: Frame): (r: Frame)
    ensures |r| == |df|
    ensures forall j :: 0 <= j < |df| ==> r[j] == df[j].(name := CanonicalName(df[j].name))
  {
    seq(|df|, j requires 0 <= j < |df| => df[j].(name := CanonicalName(df[j].name)))
  }

  /** `df.columns = names`. */
  function WithNames(df: Frame, names: seq<string>): (r: Frame)
    requires |names| == |df|
  {
    seq(|df|, j requires 0 <= j < |df| => df[j].(name := names[j]))
  }

  lemma RenamedByNames(df: Frame, names: seq<string>)
    requires |names| == |df|
    requires forall j :: 0 <= j < |df| ==> names[j] == CanonicalName(df[j].name)
    ensures WithNames(df, names) == Renamed(df)
  {
  }

  /** `~names.duplicated()`: position `i` holds the first occurrence of its name. */
  function FirstOccurrences(names: seq<string>): (mask: seq<bool>)
    ensures |mask| == |names|
    ensures forall i :: 0 <= i < |names| ==> (mask[i] <==> names[i] !in names[..i])
  {
    seq(|names|, i requires 0 <= i < |names| => names[i] !in names[..i])
  }

  /** `df.loc[:, ~df.columns.duplicated()]`: keep the first column of every name. */
  function Dedup(df: Frame): (r: Frame)
  {
    Filter(df, FirstOccurrences(Names(df)))
  }

  /** The positions of `df` that `Dedup` keeps. */
  function Survivors(df: Frame): seq<nat>
  {
    IndicesWhere(FirstOccurrences(Names(df)))
  }

  /** The columns that survive deduplication are, in their original relative
      order, exactly the first occurrences of their names. */
  lemma DedupKeepsFirstOccurrences(df: Frame)
    ensures var idx := Survivors(df);
      && |Dedup(df)| == |idx|
      && (forall k, l :: 0 <= k < l < |idx| ==> idx[k] < idx[l])
      && (forall k :: 0 <= k < |idx| ==> idx[k] < |df| && Dedup(df)[k] == df[idx[k]])
      && (forall k, j :: 0 <= k < |idx| && 0 <= j < idx[k] ==> df[j].name != df[idx[k]].name)
      && (forall i :: 0 <= i < |df| && (forall j :: 0 <= j < i ==> df[j].name != df[i].name) ==> i in idx)
  {
    var names := Names(df);
    var idx := Survivors(df);
    forall k, j | 0 <= k < |idx| && 0 <= j < idx[k]
      ensures df[j].name != df[idx[k]].name
    {
      assert names[..idx[k]][j] == df[j].name;
    }
    forall i | 0 <= i < |df| && (forall j :: 0 <= j < i ==> df[j].name != df[i].name)
      ensures i in idx
    {
      assert names[i] !in names[..i];
    }
  }

  /** After deduplication no two columns share a name. */
  lemma DedupDistinct(df: Frame)
    ensures DistinctNames(Dedup(df))
  {
    DedupKeepsFirstOccurrences(df);
    var idx := Survivors(df);
    var r := Dedup(df);
    forall k, l | 0 <= k < l < |r|
      ensures r[k].name != r[l].name
    {
      assert idx[k] < idx[l];
    }
  }

  /** Deduplication loses no name: the same set of names remains. */
  lemma DedupNames(df: Frame)
    ensures NameSet(Dedup(df)) == NameSet(df)
  {
    DedupKeepsFirstOccurrences(df);
    var idx := Survivors(df);
    forall n | n in NameSet(df)
      ensures n in NameSet(Dedup(df))
    {
      var i := ColumnIndex(df, n);
      assert i in idx;
      var k :| 0 <= k < |idx| && idx[k] == i;
      assert Dedup(df)[k].name == n;
    }
  }

  /** Deduplication keeps every row count. */
  lemma DedupRectangular(df: Frame, rows: nat)
    requires Rectangular(df, rows)
    ensures Rectangular(Dedup(df), rows)
  {
    DedupKeepsFirstOccurrences(df);
  }

  /** The frame `_canonicalize_columns` returns: renamed, then deduplicated. */
  function Canonical(df: Frame): Frame
  {
    Dedup(Renamed(df))
  }

  /** What canonicalisation promises: distinct names, exactly the canonical
      names of the input columns, and the same number of rows. */
  lemma CanonicalProperties(df: Frame)
    ensures DistinctNames(Canonical(df))
    ensures NameSet(Canonical(df)) == set j | 0 <= j < |df| :: CanonicalName(df[j].name)
    ensures forall rows: nat :: Rectangular(df, rows) ==> Rectangular(Canonical(df), rows)
  {
    var renamed := Renamed(df);
    DedupDistinct(renamed);
    DedupNames(renamed);
    forall n | n in NameSet(renamed)
      ensures n in set j | 0 <= j < |df| :: CanonicalName(df[j].name)
    {
      var j :| 0 <= j < |renamed| && renamed[j].name == n;
    }
    forall rows: nat | Rectangular(df, rows)
      ensures Rectangular(Canonical(df), rows)
    {
      DedupRectangular(renamed, rows);
    }
  }

  /** The inner loop of `_canonicalize_columns`: compute the key, then scan
      the table in order and stop at the first entry whose key prefixes it. */
  method MapHeader(table: AliasTable, raw: string) returns (name: string)
    ensures name == Rename(table, raw)
  {
    var key := NormalizeKey(raw);
    var mapped: Option<string> := None;
    ghost var found := 0;
    for k := 0 to |table|
      invariant mapped.None?
      invariant forall j :: 0 <= j < k ==> !(table[j].0 <= key)
    {
      if table[k].0 <= key {
        mapped := Some(table[k].1);
        found := k;
        assert IsFirstMatch(table, key, found);
        break;
      }
    }
    if mapped.Some? {
      RenameMatched(table, raw, found);
    } else {
      RenameUnmatched(table, raw);
    }
    name := if mapped.Some? then mapped.value else raw;
  }

  /** The renaming loop of `_canonicalize_columns`: one new name per column,
      in column order. */
  method NewColumnNames(table: AliasTable, df: Frame) returns (newCols: seq<string>)
    ensures |newCols| == |df|
    ensures forall j :: 0 <= j < |df| ==> newCols[j] == Rename(table, df[j].name)
  {
    newCols := [];
    for c := 0 to |df|
      invariant |newCols| == c
      invariant forall j :: 0 <= j < c ==> newCols[j] == Rename(table, df[j].name)
    {
      var mapped := MapHeader(table, df[c].name);
      newCols := newCols + [mapped];
    }
  }

  /** `_canonicalize_columns`: rename every column, then drop the columns
      whose new name is already taken. */
  method CanonicalizeColumns(df: Frame) returns (out: Frame)
    ensures out == Canonical(df)
  {
    var newCols := NewColumnNames(HeaderCanon, df);
    RenamedByNames(df, newCols);
    out := Dedup(WithNames(df, newCols));
  }
}
