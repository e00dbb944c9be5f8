/**
 * The uploaded table, as the dashboard sees it once the CSV file has been
 * parsed: named columns, each with the type tag the parser inferred, and
 * rows that map column names to a cell that may be missing (null/NaN).
 * The selection of the candidate text columns lives here.
 */
module Table {

  datatype Option<T> = None | Some(value: T)

  /** A column: its name and its inferred type tag ("object" for strings). */
  datatype Column = Column(name: string, dtype: string)

  /** A row: column name to cell, `None` for a missing value. */
  type Row = map<string, Option<string>>

  datatype Frame = Frame(columns: seq<Column>, rows: seq<Row>)

  /** The type tag of string-valued columns. */
  const ObjectDType: string := "object"

  /** Column names that are never offered as text, compared in lower case. */
  const ExcludedNames: seq<string> := ["date", "id"]

  function LowerChar(c: char): char {
    if 'A' <= c <= 'Z' then (c as int + 32) as char else c
  }

  /** `str.lower()` on the ASCII range. */
  function Lower(s: string): string {
    seq(|s|, i requires 0 <= i < |s| => LowerChar(s[i]))
  }

  /** A column the dashboard offers for analysis: string-typed, and not
      called `date` or `id` in any capitalisation. */
  predicate IsTextColumn(c: Column) {
    c.dtype == ObjectDType && Lower(c.name) !in ExcludedNames
  }

  /** The names of the text columns, in column order. */
  function TextColumns(columns: seq<Column>): (names: seq<string>)
    ensures |names| <= |columns|
    ensures forall n :: n in names ==> exists c :: c in columns && IsTextColumn(c) && c.name == n
    ensures forall c :: c in columns && IsTextColumn(c) ==> c.name in names
  {
    if columns == [] then []
    else
      var init, last := columns[..|columns| - 1], columns[|columns| - 1];
      assert columns == init + [last];
      TextColumns(init) + (if IsTextColumn(last) then [last.name] else [])
  }

  /** The positions of the text columns, in increasing order. */
  ghost function TextColumnIndices(columns: seq<Column>): seq<nat>
  {
    if columns == [] then []
    else
      var n := |columns| - 1;
      TextColumnIndices(columns[..n]) + (if IsTextColumn(columns[n]) then [n] else [])
  }

  /** The selection, exactly: the result lists the names of the columns at
      strictly increasing positions, and a position is among them if and
      only if its column is a text column. */
  lemma {:induction false} TextColumnsAreSelection(columns: seq<Column>)
    ensures var idx := TextColumnIndices(columns);
      && |idx| == |TextColumns(columns)|
      && (forall k :: 0 <= k < |idx| ==> idx[k] < |columns| && TextColumns(columns)[k] == columns[idx[k]].name)
      && (forall k, m :: 0 <= k < m < |idx| ==> idx[k] < idx[m])
      && (forall i :: 0 <= i < |columns| ==> (i in idx <==> IsTextColumn(columns[i])))
  {
    if columns != [] {
      var n := |columns| - 1;
      var init := columns[..n];
      TextColumnsAreSelection(init);
      assert columns == init + [columns[n]];
      var idx0 := TextColumnIndices(init);
      var idx := TextColumnIndices(columns);
      assert idx == idx0 + (if IsTextColumn(columns[n]) then [n] else []);
      forall i | 0 <= i < |columns| ensures i in idx <==> IsTextColumn(columns[i]) {
        if i < n {
          assert columns[i] == init[i];
          assert i != n;
        }
      }
    }
  }

  /** Every capitalisation of `date` is excluded, however it is written. */
  lemma DateInAnyCaseIsExcluded(c: Column)
    requires |c.name| == 4
    requires c.name[0] in "dD" && c.name[1] in "aA" && c.name[2] in "tT" && c.name[3] in "eE"
    ensures !IsTextColumn(c)
  {
    assert Lower(c.name) == "date";
  }

  /** Every capitalisation of `id` is excluded, however it is written. */
  lemma IdInAnyCaseIsExcluded(c: Column)
    requires |c.name| == 2
    requires c.name[0] in "iI" && c.name[1] in "dD"
    ensures !IsTextColumn(c)
  {
    assert Lower(c.name) == "id";
  }
}
