/**
 * The body of the dashboard once a table has been uploaded: pick the text
 * columns, build a `Text` value per row, give up with a notice when there is
 * nothing to analyse, label every row, drop rows labelled `Error`, and count
 * the rows per label for the distribution chart.
 */
module Pipeline {
  import opened Sentiment
  import opened Table

  /** The columns labelling adds to the table, overwriting any of the same name. */
  const AddedColumns: set<string> := {"Text", "Sentiment", "Confidence Score"}

  /** A labelled row: its other columns, its `Text`, `Sentiment` and
      `Confidence Score`. */
  datatype ClassifiedRow = ClassifiedRow(fields: Row, text: string, sentiment: Label, confidence: real)

  /** What one pass over an uploaded table ends with: one of the three
      notices, or the labelled rows with their label counts. */
  datatype Outcome =
    | NoTextColumns
    | NoTextData
    | AllRowsErrored
    | Report(rows: seq<ClassifiedRow>, counts: map<Label, nat>)

  /** A cell as text, a missing cell or column read as "" (`fillna('')`). */
  function CellText(row: Row, name: string): string {
    if name in row && row[name].Some? then row[name].value else ""
  }

  predicate HasColumn(columns: seq<Column>, name: string) {
    exists c | c in columns :: c.name == name
  }

  /** Whether `Text` is built from `Title` and `Content` rather than from the
      column the user selected. */
  predicate CombinesTitleAndContent(columns: seq<Column>) {
    HasColumn(columns, "Title") && HasColumn(columns, "Content")
  }

  /** The `Text` of a row. */
  function RowText(columns: seq<Column>, row: Row, selected: string): string {
    if CombinesTitleAndContent(columns) then CellText(row, "Title") + " " + CellText(row, "Content")
    else CellText(row, selected)
  }

  /** The `Text` column seen as cells that might be null. */
  function AsCells(texts: seq<string>): seq<Option<string>> {
    seq(|texts|, i requires 0 <= i < |texts| => Some(texts[i]))
  }

  /** `isnull().all()`: true of a column with no non-null cell, the empty
      column included. */
  predicate AllNull(cells: seq<Option<string>>) {
    forall i :: 0 <= i < |cells| ==> cells[i].None?
  }

  /** A `Text` column has no null cell, so the "no valid text data" check
      holds exactly when the table has no rows. */
  lemma AllNullOnlyWhenEmpty(texts: seq<string>)
    ensures AllNull(AsCells(texts)) <==> texts == []
  {
    if texts != [] {
      assert AsCells(texts)[0] == Some(texts[0]);
    }
  }

  /** The number of rows carrying label `l`. */
  function Count(rows: seq<ClassifiedRow>, l: Label): nat {
    if rows == [] then 0
    else Count(rows[..|rows| - 1], l) + (if rows[|rows| - 1].sentiment == l then 1 else 0)
  }

  /** Every row carries exactly one label, so the four counts add up to the
      number of rows. */
  lemma {:induction false} CountsPartitionRows(rows: seq<ClassifiedRow>)
    ensures Count(rows, Positive) + Count(rows, Negative) + Count(rows, Neutral) + Count(rows, Error) == |rows|
  {
    if rows != [] {
      CountsPartitionRows(rows[..|rows| - 1]);
    }
  }

  lemma CountAppend(rows: seq<ClassifiedRow>, r: ClassifiedRow, l: Label)
    ensures Count(rows + [r], l) == Count(rows, l) + (if r.sentiment == l then 1 else 0)
  {
    assert (rows + [r])[..|rows|] == rows;
  }

  /** The rows whose label is not `Error`, in their order. */
  function WithoutErrors(rows: seq<ClassifiedRow>): (kept: seq<ClassifiedRow>)
    ensures forall r :: r in kept ==> r in rows && r.sentiment != Error
    ensures forall r :: r in rows && r.sentiment != Error ==> r in kept
    ensures |kept| == |rows| - Count(rows, Error)
  {
    if rows == [] then []
    else
      var init, last := rows[..|rows| - 1], rows[|rows| - 1];
      assert rows == init + [last];
      WithoutErrors(init) + (if last.sentiment != Error then [last] else [])
  }

  /** Dropping the `Error` rows keeps the count of every other label and
      leaves no `Error` row. */
  lemma {:induction false} WithoutErrorsCounts(rows: seq<ClassifiedRow>, l: Label)
    ensures Count(WithoutErrors(rows), l) == if l == Error then 0 else Count(rows, l)
  {
    if rows != [] {
      var init, last := rows[..|rows| - 1], rows[|rows| - 1];
      WithoutErrorsCounts(init, l);
      CountAppend(init, last, l);
      assert rows == init + [last];
      if last.sentiment != Error {
        CountAppend(WithoutErrors(init), last, l);
      } else {
        assert WithoutErrors(rows) == WithoutErrors(init) + [];
        assert WithoutErrors(init) + [] == WithoutErrors(init);
      }
    }
  }

  /** A table with no `Error` row passes through the filter unchanged. */
  lemma {:induction false} WithoutErrorsKeepsAll(rows: seq<ClassifiedRow>)
    requires Count(rows, Error) == 0
    ensures WithoutErrors(rows) == rows
  {
    if rows != [] {
      var init, last := rows[..|rows| - 1], rows[|rows| - 1];
      assert Count(rows, Error) == Count(init, Error) + (if last.sentiment == Error then 1 else 0);
      WithoutErrorsKeepsAll(init);
      assert WithoutErrors(rows) == init + [last];
      assert rows == init + [last];
    }
  }

  /** The sum of the counts in a label-count map. */
  function Total(counts: map<Label, nat>): nat {
    (if Positive in counts then counts[Positive] else 0)
    + (if Negative in counts then counts[Negative] else 0)
    + (if Neutral in counts then counts[Neutral] else 0)
    + (if Error in counts then counts[Error] else 0)
  }

  /** The label counts of rows none of which is labelled `Error` add up to
      the number of rows, and `Error` is not among them. */
  lemma CountsSumToRows(rows: seq<ClassifiedRow>, counts: map<Label, nat>)
    requires forall l :: l in counts <==> Count(rows, l) > 0
    requires forall l :: l in counts ==> counts[l] == Count(rows, l)
    requires Count(rows, Error) == 0
    ensures Error !in counts && Total(counts) == |rows|
  {
    CountsPartitionRows(rows);
  }

  /** Builds the `Text` value of every row: `Title` and `Content` joined by a
      space when the table has both columns, the selected column otherwise,
      with missing cells read as "". */
  method SynthesizeText(f: Frame, selected: string) returns (texts: seq<string>)
    ensures |texts| == |f.rows|
    ensures forall i :: 0 <= i < |f.rows| ==> texts[i] == RowText(f.columns, f.rows[i], selected)
  {
    var combine := CombinesTitleAndContent(f.columns);
    texts := [];
    for i := 0 to |f.rows|
      invariant |texts| == i
      invariant forall k :: 0 <= k < i ==> texts[k] == RowText(f.columns, f.rows[k], selected)
    {
      var row := f.rows[i];
      var text := if combine then CellText(row, "Title") + " " + CellText(row, "Content")
                  else CellText(row, selected);
      texts := texts + [text];
    }
  }

  /** Row `r` is `source` labelled by the classification of `text`. */
  ghost predicate LabelledFrom(r: ClassifiedRow, source: Row, text: string, scorer: string -> real) {
    && r.fields == source - AddedColumns
    && r.text == text
    && Classification(r.sentiment, r.confidence) == Classify(scorer, text)
  }

  /** Labels every row by its text: the row keeps its other columns and
      gains `Text`, `Sentiment` and `Confidence Score`. */
  method LabelRows(rows: seq<Row>, texts: seq<string>, scorer: string -> real) returns (labelled: seq<ClassifiedRow>)
    requires |texts| == |rows|
    ensures |labelled| == |rows|
    ensures forall i :: 0 <= i < |rows| ==> LabelledFrom(labelled[i], rows[i], texts[i], scorer)
    ensures Count(labelled, Error) == 0
  {
    labelled := [];
    for i := 0 to |rows|
      invariant |labelled| == i
      invariant forall k :: 0 <= k < i ==> LabelledFrom(labelled[k], rows[k], texts[k], scorer)
      invariant Count(labelled, Error) == 0
    {
      var c := Classify(scorer, texts[i]);
      var row := ClassifiedRow(rows[i] - AddedColumns, texts[i], c.sentiment, c.score);
      CountAppend(labelled, row, Error);
      labelled := labelled + [row];
    }
  }

  /** The filter on the `Sentiment` column: keeps the rows not labelled `Error`. */
  method DropErrors(rows: seq<ClassifiedRow>) returns (kept: seq<ClassifiedRow>)
    ensures kept == WithoutErrors(rows)
  {
    kept := [];
    for i := 0 to |rows|
      invariant kept == WithoutErrors(rows[..i])
    {
      assert rows[..i + 1][..i] == rows[..i];
      if rows[i].sentiment != Error {
        kept := kept + [rows[i]];
      }
    }
    assert rows[..|rows|] == rows;
  }

  /** `value_counts()`: each label that occurs, with the number of rows
      carrying it. */
  method CountLabels(rows: seq<ClassifiedRow>) returns (counts: map<Label, nat>)
    ensures forall l :: l in counts <==> Count(rows, l) > 0
    ensures forall l :: l in counts ==> counts[l] == Count(rows, l)
  {
    counts := map[];
    for i := 0 to |rows|
      invariant forall l :: l in counts <==> Count(rows[..i], l) > 0
      invariant forall l :: l in counts ==> counts[l] == Count(rows[..i], l)
    {
      assert rows[..i + 1] == rows[..i] + [rows[i]];
      forall l ensures Count(rows[..i + 1], l) == Count(rows[..i], l) + (if rows[i].sentiment == l then 1 else 0) {
        CountAppend(rows[..i], rows[i], l);
      }
      var l := rows[i].sentiment;
      counts := counts[l := (if l in counts then counts[l] else 0) + 1];
    }
    assert rows[..|rows|] == rows;
  }

  /** One pass of the dashboard over an uploaded table, with `selected` the
      column picked in the selection box (one of the text columns whenever
      there are any). */
  method Analyze(f: Frame, selected: string, scorer: string -> real) returns (outcome: Outcome)
    requires TextColumns(f.columns) != [] ==> selected in TextColumns(f.columns)
    ensures outcome.NoTextColumns? <==> TextColumns(f.columns) == []
    ensures outcome.NoTextData? <==> TextColumns(f.columns) != [] && f.rows == []
    ensures !outcome.AllRowsErrored?
    ensures outcome.Report? ==> |outcome.rows| == |f.rows|
    ensures outcome.Report? ==>
      forall i :: 0 <= i < |f.rows| ==>
        LabelledFrom(outcome.rows[i], f.rows[i], RowText(f.columns, f.rows[i], selected), scorer)
    ensures outcome.Report? ==>
      forall l :: l in outcome.counts <==> Count(outcome.rows, l) > 0
    ensures outcome.Report? ==>
      forall l :: l in outcome.counts ==> outcome.counts[l] == Count(outcome.rows, l)
    ensures outcome.Report? ==> Error !in outcome.counts && Total(outcome.counts) == |f.rows|
  {
    var textColumns := TextColumns(f.columns);
    if textColumns == [] {
      return NoTextColumns;
    }
    var texts := SynthesizeText(f, selected);
    AllNullOnlyWhenEmpty(texts);
    if AllNull(AsCells(texts)) {
      return NoTextData;
    }
    var labelled := LabelRows(f.rows, texts, scorer);
    var cleaned := DropErrors(labelled);
    WithoutErrorsKeepsAll(labelled);
    assert cleaned == labelled;
    assert |cleaned| == |f.rows| != 0;
    if cleaned == [] {
      return AllRowsErrored;
    }
    var counts := CountLabels(cleaned);
    CountsSumToRows(cleaned, counts);
    return Report(cleaned, counts);
  }
}
