# Churn prediction: data cleaning and intake, modelled in Dafny

This project models two parts of a customer-churn prediction system:

- the cleaning half of the training script, `load_training_df` in
  `src/churn/train.py`, with its header canonicaliser and its churn-label
  normaliser;
- the small logic layer of the Streamlit app that scores one customer,
  `app/streamlit_app.py`. That layer covers the `to_num` parser, the
  missing-field check on the intake form, the session state with its "form"
  and "result" views, and the numbers shown on the result tile.

What the model covers:

- **Header canonicalisation** (`Headers`, `AsciiText`). A raw column name is
  reduced to a key: lower-cased, with only its letters and digits kept. The
  key is matched against the ordered alias table `HEADER_CANON`, and the
  first key prefix in table order wins. An unmatched column keeps its name.
  Then only the first column of each name is kept. The loops of
  `_canonicalize_columns` are methods, each proved equal to a specification
  function. Lemmas about those functions cover:
  - first-match semantics;
  - the four table entries that can never win;
  - distinct names after deduplication, with first occurrences and order kept.
- **Churn label normalisation** (`ChurnLabel`). Each cell is printed, stripped
  and lower-cased, then looked up in the lexicon:
  - yes / y / true / t / 1 give 1;
  - no / n / false / f / 0 give 0;
  - "nan" and "" give missing;
  - anything else goes to numeric coercion.
- **The cleaner** (`Cleaner`, `CleanedFrame`, `Median`, `Seqs`, `Frames`).
  A data frame is a sequence of named columns. Each column carries its dtype
  (`numeric`) and its cells, and `None` stands for NaN. The steps, in order:
  1. Reject the frame when a needed column is missing, naming every missing
     column.
  2. Drop `CustomerID`.
  3. Normalise `Churn` and drop the rows without a label, counting them.
  4. Cast `Churn` to an integer.
  5. Coerce the hinted numeric columns.
  6. Fill numeric gaps with the column median.
  7. Fill categorical gaps with `"Unknown"`.

  `Cleaner.LoadTrainingDf` runs these steps with one loop per column pass and
  is proved equal to the function `Cleaner.Load`. The lemmas in
  `CleanedFrame` then describe the result cell by cell, in terms of the frame
  that was read. The median is defined by insertion sort and proved to be a
  median: at least half of the values lie on each side of it, and it does not
  depend on the order of the values.
- **Training cutoff** (`Training`). At validation, a probability of 0.5 or
  more scores as class 1.
- **Intake and session** (`Intake`, `Session`). `to_num` is modelled, and so
  is the ordered list of missing fields. A `SessionState` class holds the keys
  `mode`, `threshold` and `result`, with these transitions:
  - `Initialize` sets only the keys that are absent;
  - `Submit` consults the model only when no field is missing;
  - `PredictAgain` returns to the form and keeps the result.

  The tile shows:
  - the risk class and the card style;
  - the confidence;
  - the gauge angle.

The classifier is not computed. It enters as a function parameter. So do
`float()` / `pd.to_numeric` on one string (`parse`, `parseFloat`, returning
`None` where Python raises or gives NaN) and Python's `str` of a number
(`show`).

In three places the code does less than the system is meant to do. The model
follows the code:

- No missing value is meant to remain after cleaning. But the code fills a
  numeric column with its median, and the median of a column with no numbers
  at all is NaN, so that column keeps its gaps. `CleanedFrame.CleanedGaps`
  states exactly when gaps remain.
- The label is meant to end up as 0 or 1. The code accepts any numeric label
  that coercion produces (for example "2" or "0.7") and casts it with
  `astype(int)`, which truncates toward zero. `CleanedFrame.CleanedLabel`
  states the truncation.
- Column kinds are meant to come from the runtime types of the values. The
  code uses the pandas dtype, which the model carries as each column's
  `numeric` flag. The reader sets the flag, and coercion and label
  normalisation set it to numeric.

## Model

| member | source | states |
|---|---|---|
| `AsciiText.NormalizeKey` | src/churn/train.py:49 | the key is no longer than the name and holds only lower-case letters and digits |
| `AsciiText.NormalizeKeyFilterFirst` | src/churn/train.py:49 | lower-casing and keeping the alphanumerics commute: the key is also the lower-cased string of the name's letters and digits |
| `AsciiText.NormalizeKeyOfAlnum` | src/churn/train.py:49 | a name made only of letters and digits has its lower-cased self as key |
| `AsciiText.NormalizeKeyConcat` | src/churn/train.py:49 | the key of a concatenation is the concatenation of the keys |
| `AsciiText.NormalizeKeyIdempotent` | src/churn/train.py:49 | normalising a key again changes nothing |
| `AsciiText.StripPadded` | src/churn/train.py:62 | `strip()` removes exactly the surrounding whitespace: a stripped core padded with whitespace strips back to the core |
| `AsciiText.StripLowerCommute` | src/churn/train.py:62 | stripping and lower-casing commute |
| `AsciiText.LowerAllIdempotent` | src/churn/train.py:62 | lower-casing twice is lower-casing once |
| `Headers.FirstMatch` | src/churn/train.py:51-54 | the result is the first table entry, in table order, whose key prefixes the name's key, and `None` only when no entry's key does |
| `Headers.RenameMatched` | src/churn/train.py:51-55 | a column whose key first matches entry `i` is named `table[i].1` |
| `Headers.RenameUnmatched` | src/churn/train.py:55 | a column whose key matches no entry keeps its raw name |
| `Headers.MatchCases` | src/churn/train.py:51-55 | every key either matches no entry or has a first-matching entry, never both |
| `Headers.RenameRange` | src/churn/train.py:51-55 | a renamed column carries its raw name or one of the table's canonical names |
| `Headers.ShadowedEntry` | src/churn/train.py:20-37 | a later entry whose key extends an earlier entry's key is never the first match (not longest-prefix matching) |
| `Headers.DeadEntries` | src/churn/train.py:20-37 | the `customerid`, `paymentdelay`, `totalspend` and `lastinteraction` entries are never the first match of any key |
| `Headers.MapHeader` | src/churn/train.py:49-55 | the inner search loop with `break` yields the value of the first matching entry, or the raw name |
| `Headers.NewColumnNames` | src/churn/train.py:47-55 | the outer loop appends, for every column in order, its renamed name |
| `Headers.RenamedByNames` | src/churn/train.py:56 | assigning the new names gives every column its canonical name and changes nothing else |
| `Headers.DedupKeepsFirstOccurrences` | src/churn/train.py:57 | the surviving columns are, in their original order, exactly the first occurrences of their names |
| `Headers.DedupDistinct` | src/churn/train.py:57 | after deduplication no two columns share a name |
| `Headers.DedupNames` | src/churn/train.py:57 | deduplication keeps every name |
| `Headers.DedupRectangular` | src/churn/train.py:57 | deduplication keeps every column's rows |
| `Headers.CanonicalProperties` | src/churn/train.py:46-58 | the canonical frame has distinct names, exactly the canonical names of the raw columns, and the same row count |
| `Headers.CanonicalizeColumns` | src/churn/train.py:46-58 | rename every column, then keep the first column of every name |
| `HeaderExamples.TableFacts` | src/churn/train.py:20-37 | the table has 16 entries, with `support -> Support` at 6 and `payment -> PaymentDelay` at 7 |
| `HeaderExamples.KeyStartsWith` | src/churn/train.py:49 | the key of a name begins with the key of any prefix of the name |
| `HeaderExamples.PaymentFirst` | src/churn/train.py:28 | every key beginning with "payment" first matches the `payment` entry |
| `HeaderExamples.SupportFirst` | src/churn/train.py:27 | every key beginning with "support" first matches the `support` entry |
| `HeaderExamples.InitialRUnmatched` | src/churn/train.py:20-37 | no entry matches a key beginning with `r` |
| `HeaderExamples.PaymentDelayExample` | src/churn/train.py:28-29 | "PaymentDelay" maps to PaymentDelay through `payment`, not `paymentdelay` |
| `HeaderExamples.SupportCallsExample` | src/churn/train.py:27 | "Support Calls" maps to Support through `support` |
| `HeaderExamples.UnmatchedExample` | src/churn/train.py:55 | "Region" matches nothing and keeps its name |
| `ChurnLabel.KeyIgnoresPadding` | src/churn/train.py:62 | surrounding whitespace does not change a label's key |
| `ChurnLabel.LabelIgnoresCase` | src/churn/train.py:62 | case does not change a label |
| `ChurnLabel.LexiconDisjoint` | src/churn/train.py:63-67 | the 1-words, 0-words and missing-words are disjoint, so the lookup is a function |
| `ChurnLabel.TrueWordLabel` | src/churn/train.py:62-68 | yes/y/true/t/1 in any case, with any surrounding whitespace, normalise to 1 |
| `ChurnLabel.FalseWordLabel` | src/churn/train.py:62-68 | no/n/false/f/0 in any case, with any surrounding whitespace, normalise to 0 |
| `ChurnLabel.MissingWordLabel` | src/churn/train.py:62-68 | "nan" in any case, or blank text, normalises to missing |
| `ChurnLabel.CoercedLabel` | src/churn/train.py:68-69 | a key outside the lexicon is labelled by numeric coercion, so it is missing when it does not parse |
| `ChurnLabel.MissingCellStaysMissing` | src/churn/train.py:62-66 | a NaN cell prints as "nan" and stays missing |
| `Median.SortSorted` | src/churn/train.py:103 | the sort used by the median is ascending |
| `Median.SortMultiset` | src/churn/train.py:103 | the sort rearranges the values and nothing else |
| `Median.SortedUnique` | src/churn/train.py:103 | two ascending arrangements of the same values are equal |
| `Median.Median` | src/churn/train.py:103 | the median is missing exactly when there are no values |
| `Median.MedianOfPermutation` | src/churn/train.py:103 | the median depends only on the values, not on their order |
| `Median.MedianBalanced` | src/churn/train.py:103 | at least half of the values are at most the median, and at least half are at least it |
| `Median.MedianOfSorted` | src/churn/train.py:103 | the median of sorted values is the middle value, or the mean of the two middle values |
| `Median.MedianOfOne` | src/churn/train.py:103 | the median of one value is that value |
| `Median.MedianOfTwo` | src/churn/train.py:103 | the median of two values is their mean, in either order |
| `Median.MedianOfThree` | src/churn/train.py:103 | the median of three values is the middle one, whatever their order |
| `Common.Trunc` | src/churn/train.py:91 | `int()` of a number drops its fraction toward zero |
| `Seqs.IndicesWhere` | src/churn/train.py:90 | the kept positions are in range, strictly increasing, and include every position the mask holds at |
| `Seqs.KeptPlusRejected` | src/churn/train.py:87-90 | kept rows plus dropped rows make up all the rows |
| `Seqs.Filter` | src/churn/train.py:90 | a filter keeps, in order, the elements at the positions the mask holds at |
| `Cleaner.NameFacts` | src/churn/train.py:39-44 | `Churn` is needed and not hinted; `CustomerID` is neither needed nor `Churn` |
| `Cleaner.DropColumnKeeps` | src/churn/train.py:82-83 | dropping a column removes exactly its name, keeps every other column whole, and keeps names distinct |
| `Cleaner.DropColumnOrder` | src/churn/train.py:82-83 | the other columns keep their order: dropping an absent name changes nothing, and dropping the one column with that name closes the frame up around it |
| `Cleaner.DropIdProperties` | src/churn/train.py:82-83 | `CustomerID` is gone, every other name remains, names stay distinct and rows are kept |
| `Cleaner.FillNumeric` | src/churn/train.py:101-103 | the numeric fill keeps a column's name, dtype and length |
| `Cleaner.FillCategorical` | src/churn/train.py:104-105 | the categorical fill keeps a column's name, dtype and length |
| `Cleaner.FillBoth` | src/churn/train.py:97-105 | after both fill loops, a present cell stays and a gap takes the column's fill value: the median for a numeric non-label column, "Unknown" for a categorical one |
| `Cleaner.LoadUnfolds` | src/churn/train.py:76-90 | loading fails with the missing names, or cleans the canonical frame without its identifier |
| `Cleaner.CoerceHinted` | src/churn/train.py:94-95 | the coercion loop coerces every hinted column in place |
| `Cleaner.FillNumericColumns` | src/churn/train.py:101-103 | the numeric fill loop fills every numeric column but `Churn` with its median |
| `Cleaner.FillCategoricalColumns` | src/churn/train.py:104-105 | the categorical fill loop fills every categorical column with "Unknown" |
| `Cleaner.CleanFrame` | src/churn/train.py:85-105 | the label, row, cast, coercion and fill steps run in the script's order |
| `Cleaner.LoadTrainingDf` | src/churn/train.py:72-108 | the whole cleaning of a read frame: the error naming the missing columns, or the cleaned frame and the dropped-row count |
| `CleanedFrame.PreparedShape` | src/churn/train.py:86-95 | before filling, the columns keep their names and hold one cell per labelled row |
| `CleanedFrame.CleanShape` | src/churn/train.py:86-105 | names and order are kept, each column has one cell per labelled row, and dropped plus kept rows equal all rows, with a row kept exactly when its label is present |
| `CleanedFrame.PreparedLabel` | src/churn/train.py:86-91 | before filling, each kept label is present and truncated to an integer |
| `CleanedFrame.PreparedOther` | src/churn/train.py:94-95 | before filling, any other column holds its labelled rows, coerced when hinted, and is numeric when read as numeric or hinted |
| `CleanedFrame.CleanedLabel` | src/churn/train.py:86-91 | in the result, every kept row's `Churn` is present and equals its normalised label truncated toward zero |
| `CleanedFrame.CleanedCell` | src/churn/train.py:94-105 | in the result, every other cell is its row's cell, coerced when hinted; a gap becomes "Unknown" in a categorical column and the median of the column's present numbers in a numeric one |
| `CleanedFrame.CleanedGaps` | src/churn/train.py:97-105 | a gap survives only in a numeric non-label column that has no number at all on the kept rows |
| `CleanedFrame.LoadRejects` | src/churn/train.py:76-80 | loading fails exactly when a needed column is absent after canonicalisation, and the error names exactly the needed names that no raw header maps to |
| `CleanedFrame.LoadShape` | src/churn/train.py:76-83 | a loaded frame has the canonical columns, in order, minus `CustomerID`: names distinct, every needed column present |
| `CleanedFrame.ImputationExample` | src/churn/train.py:103 | a numeric column holding 10, a gap, 30 and 20 has the gap filled with 20 (any three values with the gap: the middle one) |
| `Training.CutoffMonotone` | src/churn/train.py:138 | a higher probability never gets the lower class |
| `Training.CutoffConcat` | src/churn/train.py:138 | the cutoff is applied element by element |
| `Intake.ToNumBlank` | app/streamlit_app.py:304-307 | blank or whitespace-only text is missing |
| `Intake.ToNumPadded` | app/streamlit_app.py:304-311 | surrounding whitespace is ignored: padded text reads as what `float()` makes of the bare text |
| `Intake.ToNumPresent` | app/streamlit_app.py:304-311 | a number comes only from non-blank stripped text that parses, and is its parse |
| `Intake.BuildRow` | app/streamlit_app.py:378-389 | the row has the ten fields in the order Age, Gender, Tenure, Usage, Support, PaymentDelay, Subscription, Contract, TotalSpend, LastInteraction |
| `Intake.MissingFieldsExactly` | app/streamlit_app.py:390 | a field is listed exactly when its value is blank, and the list keeps the row's order |
| `Intake.NothingMissing` | app/streamlit_app.py:390-391 | nothing is missing exactly when no value is blank |
| `Intake.EmptyFormAllMissing` | app/streamlit_app.py:352-390 | on the untouched form, with empty boxes and placeholder choices, all ten fields are missing, listed in field order |
| `Seqs.FilterEmpty` | app/streamlit_app.py:390-391 | a filter keeps nothing exactly when the mask holds nowhere |
| `Seqs.FilterAll` | app/streamlit_app.py:390 | a mask that holds everywhere keeps everything |
| `Session.SetDefaultProperties` | app/streamlit_app.py:294-299 | setting a default yields a value, keeps a value already there, and repeating it changes nothing |
| `Session.SessionState.constructor` | app/streamlit_app.py:294-299 | a fresh session has no keys |
| `Session.SessionState.Initialize` | app/streamlit_app.py:294-299 | each absent key gets its default (form view, configured threshold, no result), present keys are kept, and the session is ready |
| `Session.SessionState.SetThreshold` | app/streamlit_app.py:366-372 | the slider's value becomes the threshold and nothing else changes |
| `Session.SessionState.Submit` | app/streamlit_app.py:377-400 | with a field missing, the missing list is returned and mode, result and threshold are unchanged; otherwise the decision on the model's probability is stored and the mode becomes result |
| `Session.SessionState.PredictAgain` | app/streamlit_app.py:479-481 | the mode becomes form, and result and threshold are untouched |
| `Session.SubmitShows` | app/streamlit_app.py:394-413 | after a complete submit, the tile shows the model's probability, the threshold, and risk exactly when prob >= thr |
| `Session.RiskClassHigh` | app/streamlit_app.py:462 | the risk class is "High" exactly for an at-risk result |
| `Session.CardClassHigh` | app/streamlit_app.py:424 | the card is styled "high" exactly for an at-risk result |
| `Session.ConfidenceBound` | app/streamlit_app.py:466 | the confidence lies in [0, 1], is at least thr when at risk, and exceeds 1 - thr otherwise |
| `Session.DecideMonotone` | app/streamlit_app.py:397 | a higher probability or a lower threshold can only add risk |
| `Session.AgreesWithTraining` | app/streamlit_app.py:397 | at threshold 0.5 the app decides as the training script's cutoff scores |
| `Session.GaugeAngleAsWritten` | app/streamlit_app.py:426 | the angle as written is clamped to [10, 180] |
| `Session.GaugeAsWrittenIsFlat` | app/streamlit_app.py:426 | as written, the angle is 10 for every probability |
| `Session.GaugeAngle` | app/streamlit_app.py:426 | the corrected angle is clamped to [10, 180] |
| `Session.TruncMonotone` | app/streamlit_app.py:426 | `int()` of a non-negative number is monotone |
| `Session.GaugeTracksProbability` | app/streamlit_app.py:426 | the corrected angle grows with the probability, is 180 at certainty, and is unclamped from 10/180 up |
| `Session.GaugeDiscrepancy` | app/streamlit_app.py:426 | at probability 0.9 the gauge as written shows 10 degrees, where the corrected one shows 162 |

## Left out

- Reading the CSV or Excel file and the path fallback. This is file I/O. The model starts from the frame the reader produced.
- Training, the sklearn pipeline, XGBoost, the train/test split and the AUC and F1 metrics. These are library numerics. The classifier is a function parameter into [0, 1].
- Saving and loading the model, and the missing-model error in the app. These are file I/O and serialisation.
- The `print` statements. The dropped-row count is returned instead of printed.
- Everything the app renders: CSS, HTML, emoji, `time.sleep`, `st.rerun`, the logo, and the "Close" button, which does nothing. These are presentation.
- Parsing the `THRESHOLD` environment variable. It is environment input, so the default threshold is a parameter of `Initialize`.
- The slider's range check, 0.05 to 0.95. This is widget behaviour. `SetThreshold` accepts any value.
- Full Unicode `lower()`, `isalnum()` and `isspace()`. The model covers ASCII only.
- pandas dtype inference. Each column's dtype is given as data, and an integer column that `fillna` turns into floats is not distinguished from it.
- Floating point. Cells, probabilities and medians are exact reals, and the median is exact rather than float64.
- Intake.ToNum: `float()` on "nan" or "inf" gives a NaN or infinite value in Python, and the form does not count that as missing. The model's `parseFloat` only has real numbers and `None`, so that case cannot be expressed.
- Cleaner.TruncateCell: `astype(int)` raises on an infinite label, which coercion can produce from "inf". Labels here are reals, so that error path is not modelled.
- Cleaner.TruncateCell: `astype(int)` casts to a 64-bit integer, so a finite label beyond about ±9.2e18 (such as "1e19") gives an arbitrary value in pandas. `Common.Trunc` is unbounded and returns the truncated number itself; the int64 width is not modelled.
- Cleaner.CoerceHinted: the source visits the hinted columns in set order. The model visits columns by position. Each step touches only its own column, so the order does not change the result.
- The frame is a value. pandas views, copies and in-place aliasing are not modelled.

## Findings

| source | as written | input that shows it | evidently intended | confidence | as-written member | corrected member |
|---|---|---|---|---|---|---|
| app/streamlit_app.py:426 | `max(10, min(180, int(prob * 1.8)))` with `prob` a probability in [0, 1] | prob = 0.9 gives `int(1.62) = 1`, clamped to 10. Every probability gives 10, so the gauge never moves | 1.8 degrees per percent of churn risk, as the tile prints it (`prob*100`, line 447): `int(prob * 180)`, which gives 162 at 0.9 | likely; not executed | `Session.GaugeAsWrittenIsFlat` | `Session.GaugeTracksProbability` |
