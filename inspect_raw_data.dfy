/** Raw-table cleaning (data_processing/inspect_raw_data.py, clean_dataframe): drop exact
    duplicate rows, keeping the first, then fill the missing cells column by column with
    "Unknown" in categorical columns and 0 in numeric ones. */
module InspectRawData {
  import opened Collections
  import opened Strings

  /** One cell of a raw table; Missing is pandas' NaN. Two missing cells compare equal,
      as drop_duplicates treats them. */
  datatype Cell = Missing | Text(text: string) | Number(value: real)

  /** The dtype test of the fill loop: "object" columns are categorical, all others numeric. */
  datatype ColumnKind = Categorical | Numeric

  type Row = seq<Cell>

  /** Every row has one cell per column. */
  predicate Rectangular(kinds: seq<ColumnKind>, rows: seq<Row>) {
    forall i :: 0 <= i < |rows| ==> |rows[i]| == |kinds|
  }

  /** fillna on one cell: a missing cell becomes "Unknown" or 0 by column kind; any
      other cell is kept. */
  function FillCell(kind: ColumnKind, c: Cell): (d: Cell)
    ensures d != Missing
    ensures c != Missing ==> d == c
    ensures c == Missing && kind == Categorical ==> d == Text(Unknown)
    ensures c == Missing && kind == Numeric ==> d == Number(0.0)
  {
    if c != Missing then c else if kind == Categorical then Text(Unknown) else Number(0.0)
  }

  /** df[col].fillna(...) for column col: that column's cells are filled, every other
      cell is kept. */
  function FillColumn(rows: seq<Row>, col: nat, kind: ColumnKind): (r: seq<Row>)
    requires forall i :: 0 <= i < |rows| ==> col < |rows[i]|
    ensures |r| == |rows|
    ensures forall i :: 0 <= i < |rows| ==> |r[i]| == |rows[i]|
    ensures forall i :: 0 <= i < |rows| ==> r[i][col] == FillCell(kind, rows[i][col])
    ensures forall i, j :: 0 <= i < |rows| && 0 <= j < |rows[i]| && j != col ==> r[i][j] == rows[i][j]
  {
    seq(|rows|, i requires 0 <= i < |rows| => rows[i][col := FillCell(kind, rows[i][col])])
  }

  /** A row with every cell filled by its column's rule. */
  function FillRow(kinds: seq<ColumnKind>, row: Row): (r: Row)
    requires |row| == |kinds|
    ensures |r| == |row|
    ensures forall j :: 0 <= j < |row| ==> r[j] == FillCell(kinds[j], row[j])
  {
    seq(|row|, j requires 0 <= j < |row| => FillCell(kinds[j], row[j]))
  }

  /** The table with every row filled. */
  function FillTable(kinds: seq<ColumnKind>, rows: seq<Row>): (r: seq<Row>)
    requires Rectangular(kinds, rows)
    ensures |r| == |rows|
    ensures forall i :: 0 <= i < |rows| ==> r[i] == FillRow(kinds, rows[i])
  {
    seq(|rows|, i requires 0 <= i < |rows| => FillRow(kinds, rows[i]))
  }

  /** clean_dataframe: drop_duplicates, then one fillna per column in column order. The
      result is the de-duplicated table with every row filled; it has no missing cell,
      no more rows than the input and the same columns. */
  method CleanDataFrame(kinds: seq<ColumnKind>, rows: seq<Row>) returns (df: seq<Row>)
    requires Rectangular(kinds, rows)
    ensures Rectangular(kinds, Dedup(rows))
    ensures df == FillTable(kinds, Dedup(rows))
    ensures Rectangular(kinds, df) && |df| <= |rows|
    ensures forall i, j :: 0 <= i < |df| && 0 <= j < |kinds| ==> df[i][j] != Missing
  {
    var unique := Dedup(rows);
    assert forall i :: 0 <= i < |unique| ==> unique[i] in rows;
    df := unique;
    for col := 0 to |kinds|
      invariant |df| == |unique|
      invariant forall i :: 0 <= i < |df| ==> |df[i]| == |kinds|
      invariant forall i, j :: 0 <= i < |df| && 0 <= j < col ==> df[i][j] == FillCell(kinds[j], unique[i][j])
      invariant forall i, j :: 0 <= i < |df| && col <= j < |kinds| ==> df[i][j] == unique[i][j]
    {
      df := FillColumn(df, col, kinds[col]);
    }
    assert forall i :: 0 <= i < |df| ==> df[i] == FillRow(kinds, unique[i]);
  }

  /** The kept rows are distinct, each is the first occurrence of its value, every input
      row has its value kept, and the kept rows keep their input order. */
  lemma DedupKeepsFirstOccurrences(rows: seq<Row>)
    ensures NoDup(Dedup(rows))
    ensures forall k :: 0 <= k < |Dedup(rows)| ==> Dedup(rows)[k] in rows
    ensures forall i :: 0 <= i < |rows| ==> rows[i] in Dedup(rows)
    ensures forall j, k :: 0 <= j < k < |Dedup(rows)| ==>
      FirstIndex(rows, Dedup(rows)[j]) < FirstIndex(rows, Dedup(rows)[k])
  {
    forall j, k | 0 <= j < k < |Dedup(rows)|
      ensures FirstIndex(rows, Dedup(rows)[j]) < FirstIndex(rows, Dedup(rows)[k])
    {
      DedupKeepsFirstOccurrenceOrder(rows, j, k);
    }
  }

  /** Duplicates are dropped before the gaps are filled: a row with a missing name and a
      row that already says "Unknown" are both kept, and both read "Unknown" afterwards,
      while two rows that are both missing collapse into one. */
  lemma DedupBeforeFill()
    ensures var kinds, rows := [Categorical], [[Missing], [Text(Unknown)]];
      && Rectangular(kinds, Dedup(rows))
      && |FillTable(kinds, Dedup(rows))| == 2
      && FillTable(kinds, Dedup(rows))[0] == FillTable(kinds, Dedup(rows))[1] == [Text(Unknown)]
    ensures |Dedup([[Missing], [Missing]])| == 1
  {
    var kinds, rows: seq<Row> := [Categorical], [[Missing], [Text(Unknown)]];
    assert rows[..1] == [[Missing]];
    assert Dedup(rows) == rows;
    var twice: seq<Row> := [[Missing], [Missing]];
    assert twice[..1] == [[Missing]];
    assert Dedup(twice) == [[Missing]];
  }
}
