# Sentiment dashboard: label rule and table pipeline

This project models, in Dafny, the classify-and-aggregate core of a small
Streamlit dashboard (`app.py`) that labels uploaded posts as Positive,
Negative or Neutral with the VADER lexicon scorer and shows how many posts
carry each label.

- `sentiment.dfy`, module `Sentiment`: the label rule `get_sentiment_vader`.
  The text is stripped with Python's `str.strip()` (modelled exactly on
  Python's whitespace set). Stripped text shorter than 5 characters gives
  `(Neutral, 0.0)`. Otherwise the compound score of the scorer decides:
  `>= 0.05` is Positive, `<= -0.05` is Negative, anything else Neutral, and
  the raw score is returned. The VADER scorer is a parameter
  `scorer: string -> real`.
- `table.dfy`, module `Table`: the parsed table (columns with a type tag,
  rows mapping column names to optional strings) and the choice of text
  columns: type tag `object`, lower-cased name neither `date` nor `id`, in
  column order.
- `pipeline.dfy`, module `Pipeline`: the script body as methods with loops.
  `SynthesizeText` builds `Text` per row. `LabelRows` adds `Sentiment` and
  `Confidence Score`. `DropErrors` is the `!= "Error"` filter. `CountLabels`
  is `value_counts()`. `Analyze` runs one pass and ends in one of the three
  notices or in a report.

Three consequences of the code as written, which its notices and comments
do not suggest:

- The "no valid text data" test (app.py:82) tests `Text` for nulls. `Text`
  is built with `fillna` (app.py:77, 79), so it never holds a null, and
  `.all()` of an empty column is true. The notice therefore appears exactly
  when the table has no rows, not when every text is empty
  (`AllNullOnlyWhenEmpty`, `Analyze`).
- Rows with empty text are not excluded from the counts. They are labelled
  `(Neutral, 0.0)` (app.py:87) and counted (app.py:97), so the counts add
  up to the number of rows (`CountsSumToRows`, `Analyze`).
- The `Error` label is never produced (app.py:87), so the filter at
  app.py:90 keeps every row and the "all rows had errors" notice at
  app.py:93-94 cannot appear (`WithoutErrorsKeepsAll`, `Analyze`).

## Model

| member | source | states |
|---|---|---|
| `Sentiment.StripLeft` | app.py:38 | the result is a suffix of the input, everything cut off is whitespace, and the result is empty or starts with a non-whitespace character |
| `Sentiment.StripRight` | app.py:38 | the result is a prefix of the input, everything cut off is whitespace, and the result is empty or ends with a non-whitespace character |
| `Sentiment.Strip` | app.py:38 | the stripped text is no longer than the input and is empty or neither starts nor ends with whitespace |
| `Sentiment.StripSplit` | app.py:38 | the input is whitespace, then the stripped text, then whitespace |
| `Sentiment.StripOfPadded` | app.py:38 | any core that neither starts nor ends with whitespace, surrounded by whitespace, strips to exactly that core |
| `Sentiment.StripIdempotent` | app.py:38 | stripping twice gives the same text as stripping once |
| `Sentiment.StripIgnoresPadding` | app.py:38 | adding whitespace on either side does not change the stripped text |
| `Sentiment.Classify` | app.py:37-50 | short stripped text (fewer than 5 characters) gives `(Neutral, 0.0)`; otherwise the score is exactly the scorer's value on the stripped text; the label is Positive iff score >= 0.05, Negative iff score <= -0.05, Neutral iff in between; never `Error` |
| `Sentiment.ScoreInRange` | app.py:42-50 | if the scorer stays in [-1, 1], the returned score does too |
| `Sentiment.ScorerSeenOnlyOnStrippedText` | app.py:38-42 | two scorers that agree on the stripped text give the same result, and any two scorers do when the stripped text is short: the scorer is consulted only on the stripped text, and not at all for short text |
| `Sentiment.ClassifyDependsOnStripped` | app.py:37-50 | texts with the same stripped form get the same label and score |
| `Sentiment.ClassifyIgnoresPadding` | app.py:37-50 | surrounding whitespace never changes the label or the score |
| `Sentiment.ClassifyOfStripped` | app.py:37-50 | classifying the stripped text gives the same result as classifying the raw text |
| `Sentiment.ShortTextIsNeutral` | app.py:39-40 | the text "ok" is `(Neutral, 0.0)` whatever the scorer |
| `Table.TextColumns` | app.py:66 | every selected name is the name of an `object` column not called date or id in any case, and every such column's name is selected |
| `Table.TextColumnsAreSelection` | app.py:66 | the selection lists the names of the columns at strictly increasing positions, and a position is among them exactly when its column is a text column, so the original order is kept |
| `Table.DateInAnyCaseIsExcluded` | app.py:66 | a column called `date` in any capitalisation is never a text column |
| `Table.IdInAnyCaseIsExcluded` | app.py:66 | a column called `id` in any capitalisation is never a text column |
| `Pipeline.SynthesizeText` | app.py:76-79 | one `Text` per row: `Title` + " " + `Content` with missing cells read as "" when both columns exist, ignoring the selected column; otherwise the selected cell with a missing cell read as "" |
| `Pipeline.AllNullOnlyWhenEmpty` | app.py:82-83 | the null test on the synthesized `Text` column holds exactly when there are no rows |
| `Pipeline.LabelRows` | app.py:87 | one labelled row per row: its columns other than `Text`, `Sentiment` and `Confidence Score` are unchanged, its text is the row's `Text`, and its label and score are the classifier's on that text; no row is labelled `Error` |
| `Pipeline.WithoutErrors` | app.py:90 | a row is kept iff it is in the input and not labelled `Error`, and the number kept is the number of rows minus the number of `Error` rows |
| `Pipeline.WithoutErrorsCounts` | app.py:90-97 | the filter keeps the count of every label other than `Error` and leaves no `Error` row |
| `Pipeline.WithoutErrorsKeepsAll` | app.py:90 | without `Error` rows the filter returns its input unchanged |
| `Pipeline.DropErrors` | app.py:90 | the loop computes exactly the filtered rows, in order |
| `Pipeline.CountsPartitionRows` | app.py:97 | the Positive, Negative, Neutral and Error counts add up to the number of rows |
| `Pipeline.CountLabels` | app.py:97 | a label is in the count map iff some row carries it, and its entry is the number of rows carrying it |
| `Pipeline.CountsSumToRows` | app.py:97 | for rows without `Error`, the count map has no `Error` entry and its counts add up to the number of rows |
| `Pipeline.Analyze` | app.py:66-97 | the "no text columns" notice appears iff no column qualifies; the "no text data" notice iff there are text columns but no rows; the "all rows had errors" notice never; otherwise the report holds every row, each with its other columns unchanged, its synthesized `Text` and the classifier's label and score, and label counts that match the rows, have no `Error` entry and add up to the number of rows |

## Left out

- Package installation (`install_libraries`, the `pip` calls, app.py:6-21) is a process side effect.
- The lexicon download and the VADER scorer (app.py:31-34, 42) are not modelled. The scorer is a parameter; its range [-1, 1] is assumed only where `ScoreInRange` needs it.
- Floating point is not modelled: scores are exact reals. No double lies strictly between ±0.05 and the double nearest it, so the threshold tests give the same label as the program for every double score. The floating-point arithmetic inside the scorer is not modelled.
- `str(text)` (app.py:38) is the identity here, since every cell is text or missing. Non-string values inside an `object` column are not modelled.
- `str.lower()` (app.py:66) is modelled on ASCII letters only. Unicode case mapping is not modelled.
- CSV parsing and pandas type inference (app.py:63) are not modelled; the table arrives parsed, with a type tag per column.
- Every cell is modelled as optional text. A numeric `Title` or `Content` column holding at least one number would make pandas raise at app.py:77; the model does not raise. A column with every cell missing reads as "" both there and in the model.
- The `"Text" not in df.columns` half of the test at app.py:82 is always false after the assignment above it and is not modelled.
- Streamlit widgets, the spinner and the tables shown (app.py:53-59, 72-73, 99-108, 131) are user interface. The selection box becomes the parameter `selected` of `Analyze`.
- The per-row display loop over `iterrows` (app.py:105-108) only renders text and is not modelled.
- The bar chart (app.py:110-123) and the CSV download (app.py:126-129) are rendering and I/O.
- `1.snscrape.py`, a client of a forum API that writes a CSV file, is not part of this model.
