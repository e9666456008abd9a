/**
 * The raw corporate-action table a market-data provider returns for one ticker:
 * a date-indexed frame with one column per action type ("Dividends",
 * "Stock Splits", ...), and the row-major walk over its truthy cells.
 */
module ActionTable {

  datatype Option<T> = None | Some(value: T)

  /** One row of the frame: its date index, already rendered as YYYY-MM-DD,
      and one value per column, in column order. */
  datatype Row = Row(date: string, cells: seq<real>)

  /** No element occurs twice. */
  predicate Distinct<T(==)>(s: seq<T>) {
    forall i, j :: 0 <= i < j < |s| ==> s[i] != s[j]
  }

  datatype Table = Table(columns: seq<string>, rows: seq<Row>) {

    /** Every row holds exactly one value per column, as every data frame does,
        and no column name occurs twice (with a repeated name, selecting a
        cell by name yields several values and its truth test raises). */
    predicate WellFormed() {
      && Distinct(columns)
      && forall i :: 0 <= i < |rows| ==> |rows[i].cells| == |columns|
    }

    /** A data frame is empty when either of its axes has length zero. */
    predicate IsEmpty() {
      |rows| == 0 || |columns| == 0
    }
  }

  /** A cell counts as an action when its value is truthy; 0.0 is falsy. */
  predicate IsTruthy(v: real) {
    v != 0.0
  }

  /** One output row: the action type (the column name), the date and the value. */
  datatype Record = Record(actionType: string, date: string, value: real)

  /** The records of one row's truthy cells, in column order.  Defined on the
      last column so that it extends one column at a time. */
  function RowRecords(columns: seq<string>, date: string, cells: seq<real>): (r: seq<Record>)
    requires |cells| == |columns|
    ensures |r| <= |cells|
    ensures forall k :: 0 <= k < |r| ==> r[k].date == date && IsTruthy(r[k].value)
    decreases |cells|
  {
    if |cells| == 0 then []
    else
      var n := |cells| - 1;
      RowRecords(columns[..n], date, cells[..n])
        + (if IsTruthy(cells[n]) then [Record(columns[n], date, cells[n])] else [])
  }

  /** Taking one more column of a row adds that cell's record exactly when the
      cell is truthy. */
  lemma RowRecordsExtend(columns: seq<string>, date: string, cells: seq<real>, j: nat)
    requires |cells| == |columns| && j < |cells|
    ensures RowRecords(columns[..j + 1], date, cells[..j + 1])
         == RowRecords(columns[..j], date, cells[..j])
            + (if IsTruthy(cells[j]) then [Record(columns[j], date, cells[j])] else [])
  {
    assert columns[..j + 1][..j] == columns[..j];
    assert cells[..j + 1][..j] == cells[..j];
  }

  /** The records of the truthy cells of the given rows, in row-major order. */
  function RowsRecords(columns: seq<string>, rows: seq<Row>): (r: seq<Record>)
    requires forall i :: 0 <= i < |rows| ==> |rows[i].cells| == |columns|
    ensures forall k :: 0 <= k < |r| ==> IsTruthy(r[k].value)
    decreases |rows|
  {
    if |rows| == 0 then []
    else
      var n := |rows| - 1;
      RowsRecords(columns, rows[..n]) + RowRecords(columns, rows[n].date, rows[n].cells)
  }

  /** Every truthy cell of the table as a record, row by row, column by column. */
  function TruthyRecords(t: Table): seq<Record>
    requires t.WellFormed()
  {
    RowsRecords(t.columns, t.rows)
  }

  /** Number of truthy values in one row (a reference count, independent of records). */
  function CountTruthy(cells: seq<real>): nat
  {
    if |cells| == 0 then 0
    else (if IsTruthy(cells[0]) then 1 else 0) + CountTruthy(cells[1..])
  }

  /** Number of truthy cells in the given rows. */
  function CountTruthyRows(rows: seq<Row>): nat
  {
    if |rows| == 0 then 0 else CountTruthy(rows[0].cells) + CountTruthyRows(rows[1..])
  }

  lemma {:induction false} CountTruthySnoc(cells: seq<real>, v: real)
    ensures CountTruthy(cells + [v]) == CountTruthy(cells) + (if IsTruthy(v) then 1 else 0)
    decreases |cells|
  {
    if |cells| > 0 {
      assert (cells + [v])[1..] == cells[1..] + [v];
      CountTruthySnoc(cells[1..], v);
    }
  }

  lemma {:induction false} CountTruthyRowsSnoc(rows: seq<Row>, row: Row)
    ensures CountTruthyRows(rows + [row]) == CountTruthyRows(rows) + CountTruthy(row.cells)
    decreases |rows|
  {
    if |rows| > 0 {
      assert (rows + [row])[1..] == rows[1..] + [row];
      CountTruthyRowsSnoc(rows[1..], row);
    }
  }

  /** One record per truthy cell of a row. */
  lemma {:induction false} RowRecordsCount(columns: seq<string>, date: string, cells: seq<real>)
    requires |cells| == |columns|
    ensures |RowRecords(columns, date, cells)| == CountTruthy(cells)
    decreases |cells|
  {
    if |cells| > 0 {
      var n := |cells| - 1;
      RowRecordsCount(columns[..n], date, cells[..n]);
      CountTruthySnoc(cells[..n], cells[n]);
      assert cells[..n] + [cells[n]] == cells;
    }
  }

  /** One record per truthy cell of the table: the record count is the number
      of truthy cells, and every falsy cell is left out. */
  lemma {:induction false} TruthyRecordsCount(t: Table)
    requires t.WellFormed()
    ensures |TruthyRecords(t)| == CountTruthyRows(t.rows)
  {
    RowsRecordsCount(t.columns, t.rows);
  }

  lemma {:induction false} RowsRecordsCount(columns: seq<string>, rows: seq<Row>)
    requires forall i :: 0 <= i < |rows| ==> |rows[i].cells| == |columns|
    ensures |RowsRecords(columns, rows)| == CountTruthyRows(rows)
    decreases |rows|
  {
    if |rows| > 0 {
      var n := |rows| - 1;
      RowsRecordsCount(columns, rows[..n]);
      RowRecordsCount(columns, rows[n].date, rows[n].cells);
      CountTruthyRowsSnoc(rows[..n], rows[n]);
      assert rows[..n] + [rows[n]] == rows;
    }
  }

  /** Every record of a row is the record of one of the row's truthy cells. */
  lemma {:induction false} RowRecordsSound(columns: seq<string>, date: string, cells: seq<real>, c: Record)
    requires |cells| == |columns|
    requires c in RowRecords(columns, date, cells)
    ensures exists j :: 0 <= j < |cells| && IsTruthy(cells[j]) && c == Record(columns[j], date, cells[j])
    decreases |cells|
  {
    var n := |cells| - 1;
    var cols, vals := columns[..n], cells[..n];
    if c in RowRecords(cols, date, vals) {
      RowRecordsSound(cols, date, vals, c);
      var j :| 0 <= j < n && IsTruthy(vals[j]) && c == Record(cols[j], date, vals[j]);
      assert vals[j] == cells[j] && cols[j] == columns[j];
    } else {
      assert IsTruthy(cells[n]) && c == Record(columns[n], date, cells[n]);
    }
  }

  /** Every truthy cell of a row yields its record. */
  lemma {:induction false} RowRecordsComplete(columns: seq<string>, date: string, cells: seq<real>, j: nat)
    requires |cells| == |columns|
    requires j < |cells| && IsTruthy(cells[j])
    ensures Record(columns[j], date, cells[j]) in RowRecords(columns, date, cells)
    decreases |cells|
  {
    var n := |cells| - 1;
    if j < n {
      var cols, vals := columns[..n], cells[..n];
      assert vals[j] == cells[j] && cols[j] == columns[j];
      RowRecordsComplete(cols, date, vals, j);
    }
  }

  /** Every record of the rows is the record of a truthy cell. */
  lemma {:induction false} RowsRecordsSound(columns: seq<string>, rows: seq<Row>, c: Record)
    requires forall i :: 0 <= i < |rows| ==> |rows[i].cells| == |columns|
    requires c in RowsRecords(columns, rows)
    ensures exists i, j :: 0 <= i < |rows| && 0 <= j < |columns| && IsTruthy(rows[i].cells[j])
                           && c == Record(columns[j], rows[i].date, rows[i].cells[j])
    decreases |rows|
  {
    var n := |rows| - 1;
    var prev := rows[..n];
    if c in RowsRecords(columns, prev) {
      RowsRecordsSound(columns, prev, c);
      var i, j :| 0 <= i < n && 0 <= j < |columns| && IsTruthy(prev[i].cells[j])
                  && c == Record(columns[j], prev[i].date, prev[i].cells[j]);
      assert prev[i] == rows[i];
    } else {
      RowRecordsSound(columns, rows[n].date, rows[n].cells, c);
      var j :| 0 <= j < |rows[n].cells| && IsTruthy(rows[n].cells[j])
               && c == Record(columns[j], rows[n].date, rows[n].cells[j]);
      assert 0 <= n < |rows| && 0 <= j < |columns|;
    }
  }

  /** Every truthy cell of the rows yields its record. */
  lemma {:induction false} RowsRecordsComplete(columns: seq<string>, rows: seq<Row>, i: nat, j: nat)
    requires forall k :: 0 <= k < |rows| ==> |rows[k].cells| == |columns|
    requires i < |rows| && j < |columns| && IsTruthy(rows[i].cells[j])
    ensures Record(columns[j], rows[i].date, rows[i].cells[j]) in RowsRecords(columns, rows)
    decreases |rows|
  {
    var n := |rows| - 1;
    if i < n {
      var prev := rows[..n];
      assert prev[i] == rows[i];
      RowsRecordsComplete(columns, prev, i, j);
    } else {
      RowRecordsComplete(columns, rows[n].date, rows[n].cells, j);
    }
  }

  /** The records are exactly the truthy cells: a record is produced if and only
      if some cell holds a truthy value, under that cell's column and row date. */
  lemma TruthyRecordsMembers(t: Table, c: Record)
    requires t.WellFormed()
    ensures c in TruthyRecords(t) <==>
      exists i, j :: 0 <= i < |t.rows| && 0 <= j < |t.columns| && IsTruthy(t.rows[i].cells[j])
                     && c == Record(t.columns[j], t.rows[i].date, t.rows[i].cells[j])
  {
    if c in TruthyRecords(t) {
      RowsRecordsSound(t.columns, t.rows, c);
    }
    if exists i, j :: 0 <= i < |t.rows| && 0 <= j < |t.columns| && IsTruthy(t.rows[i].cells[j])
                      && c == Record(t.columns[j], t.rows[i].date, t.rows[i].cells[j]) {
      var i, j :| 0 <= i < |t.rows| && 0 <= j < |t.columns| && IsTruthy(t.rows[i].cells[j])
                  && c == Record(t.columns[j], t.rows[i].date, t.rows[i].cells[j]);
      RowsRecordsComplete(t.columns, t.rows, i, j);
    }
  }

  /** No records at all exactly when every cell is falsy. */
  lemma NoRecordsIffAllFalsy(t: Table)
    requires t.WellFormed()
    ensures TruthyRecords(t) == [] <==>
      forall i, j :: 0 <= i < |t.rows| && 0 <= j < |t.columns| ==> !IsTruthy(t.rows[i].cells[j])
  {
    if TruthyRecords(t) != [] {
      TruthyRecordsMembers(t, TruthyRecords(t)[0]);
    } else {
      forall i, j | 0 <= i < |t.rows| && 0 <= j < |t.columns|
        ensures !IsTruthy(t.rows[i].cells[j])
      {
        TruthyRecordsMembers(t, Record(t.columns[j], t.rows[i].date, t.rows[i].cells[j]));
      }
    }
  }

  /** An empty frame (no rows, or no columns) has no truthy cell. */
  lemma {:induction false} EmptyTableHasNoRecords(t: Table)
    requires t.WellFormed() && t.IsEmpty()
    ensures TruthyRecords(t) == []
  {
    if |t.rows| > 0 {
      NoRecordsIffAllFalsy(t);
    }
  }
}
