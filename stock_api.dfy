/**
 * The stock-actions API object: it organizes one ticker's corporate-action
 * table into per-type groups held in its `organizedActions` field, flattens
 * them into (type, date, value) records and decides what is displayed.
 */
module StockApi {
  import opened ActionTable
  import opened Grouping

  /** The grouping that organizing a table produces: the truthy cells, read row
      by row and column by column, filed by column name. */
  function Organize(t: Table): seq<Group>
    requires t.WellFormed()
  {
    GroupAll(TruthyRecords(t))
  }

  /** Organizing yields exactly one entry per truthy cell. */
  lemma OrganizeCount(t: Table)
    requires t.WellFormed()
    ensures TotalSize(Organize(t)) == CountTruthyRows(t.rows)
    ensures |Flatten(Organize(t))| == CountTruthyRows(t.rows)
  {
    GroupAllSize(TruthyRecords(t));
    TruthyRecordsCount(t);
    FlattenLength(Organize(t));
  }

  /** The organized dictionary is empty exactly when every cell is falsy. */
  lemma OrganizeEmptyIffAllFalsy(t: Table)
    requires t.WellFormed()
    ensures Organize(t) == [] <==>
      forall i, j :: 0 <= i < |t.rows| && 0 <= j < |t.columns| ==> !IsTruthy(t.rows[i].cells[j])
  {
    GroupAllEmpty(TruthyRecords(t));
    NoRecordsIffAllFalsy(t);
  }

  /** Every record of the flattened dictionary is a truthy cell of the table,
      and every truthy cell appears exactly as often as it occurs in the table. */
  lemma OrganizePermutation(t: Table)
    requires t.WellFormed()
    ensures multiset(Flatten(Organize(t))) == multiset(TruthyRecords(t))
    ensures forall c :: c in Flatten(Organize(t)) ==>
      exists i, j :: 0 <= i < |t.rows| && 0 <= j < |t.columns| && IsTruthy(t.rows[i].cells[j])
                     && c == Record(t.columns[j], t.rows[i].date, t.rows[i].cells[j])
  {
    GroupAllPermutation(TruthyRecords(t));
    forall c | c in Flatten(Organize(t))
      ensures exists i, j :: 0 <= i < |t.rows| && 0 <= j < |t.columns| && IsTruthy(t.rows[i].cells[j])
                             && c == Record(t.columns[j], t.rows[i].date, t.rows[i].cells[j])
    {
      assert c in multiset(Flatten(Organize(t)));
      TruthyRecordsMembers(t, c);
    }
  }

  /** Keys are the column names that hold a truthy cell, ordered by their first
      truthy cell in row-major order (not by column order). */
  lemma OrganizeKeys(t: Table)
    requires t.WellFormed()
    ensures FirstAppearanceOrder(Keys(Organize(t)), Kinds(TruthyRecords(t)))
  {
    GroupAllKeys(TruthyRecords(t));
  }

  /** Every key's list is non-empty. */
  lemma OrganizeNonEmpty(t: Table)
    requires t.WellFormed()
    ensures AllNonEmpty(Organize(t))
  {
    GroupAllNonEmpty(TruthyRecords(t));
  }

  /** Key k's list holds the truthy cells of column k, in row order. */
  lemma OrganizeLookup(t: Table, k: string)
    requires t.WellFormed()
    ensures Lookup(Organize(t), k) == Select(TruthyRecords(t), k)
  {
    GroupAllLookup(TruthyRecords(t), k);
  }

  /** A displayed cell: text or a number. */
  datatype Field = Text(s: string) | Number(x: real)

  /** The columns of the frame built from the groups: each entry's `date` and
      `value`, then the `type` column added afterwards. */
  const FrameColumns: seq<string> := ["date", "value", "type"]

  /** The columns shown, in the order shown. */
  const DisplayColumns: seq<string> := ["type", "date", "value"]

  /** A record as a row of the built frame, aligned with FrameColumns. */
  function FrameRow(r: Record): seq<Field> {
    [Text(r.date), Number(r.value), Text(r.actionType)]
  }

  /** Selecting columns by name from a frame row; None when a name is missing
      (the data frame would raise a KeyError). */
  function ProjectRow(columns: seq<string>, row: seq<Field>, names: seq<string>): (r: Option<seq<Field>>)
    requires |row| == |columns|
    ensures r.Some? <==> forall k :: 0 <= k < |names| ==> names[k] in columns
    ensures r.Some? ==> |r.value| == |names|
    ensures r.Some? ==> forall k :: 0 <= k < |names| ==> r.value[k] == row[FirstIndex(columns, names[k])]
    decreases |names|
  {
    if |names| == 0 then Some([])
    else
      var i := FirstIndex(columns, names[0]);
      if i == |columns| then None
      else
        match ProjectRow(columns, row, names[1..])
        case None => None
        case Some(rest) => Some([row[i]] + rest)
  }

  /** The displayed line of a record: its type, date and value, in that order. */
  function DisplayRow(r: Record): (line: seq<Field>)
    ensures line == [Text(r.actionType), Text(r.date), Number(r.value)]
  {
    var p := ProjectRow(FrameColumns, FrameRow(r), DisplayColumns);
    if p.Some? then p.value else []
  }

  function DisplayLines(df: seq<Record>): (lines: seq<seq<Field>>)
    ensures |lines| == |df|
    ensures forall i :: 0 <= i < |df| ==> lines[i] == DisplayRow(df[i])
  {
    seq(|df|, i requires 0 <= i < |df| => DisplayRow(df[i]))
  }

  /** What handling one ticker shows: a table (under a header when the object
      has a truthy current ticker symbol), the "No actions found" message, or
      nothing at all. */
  datatype Output =
    | Printed(header: Option<string>, lines: seq<seq<Field>>)
    | NoActionsFound(ticker: string)
    | Nothing

  class YFActions {
    /** The last dictionary organized, or None before the first one. */
    var organizedActions: Option<seq<Group>>
    /** The symbol shown above a printed table, when truthy. */
    var currentTickerSymbol: Option<string>

    constructor ()
      ensures organizedActions == None && currentTickerSymbol == None
    {
      organizedActions := None;
      currentTickerSymbol := None;
    }

    /** The header line shown above a table: the current ticker symbol when it
        is set and non-empty. */
    function Header(): (h: Option<string>)
      reads this
      ensures h.Some? <==> currentTickerSymbol.Some? && currentTickerSymbol.value != ""
      ensures h.Some? ==> h == currentTickerSymbol
    {
      match currentTickerSymbol
      case Some(s) => if s != "" then Some(s) else None
      case None => None
    }

    /** Groups the truthy cells of the table by column name into the field.
        An empty frame returns None and leaves the field as it was; otherwise
        the field is rebuilt from scratch and the result is None when no cell
        is truthy. */
    method GetOrganizedStockActions(t: Table) returns (r: Option<seq<Group>>)
      requires t.WellFormed()
      modifies this`organizedActions
      ensures t.IsEmpty() ==> organizedActions == old(organizedActions)
      ensures !t.IsEmpty() ==> organizedActions == Some(Organize(t))
      ensures r == if Organize(t) == [] then None else Some(Organize(t))
      ensures r.Some? ==> organizedActions == r
    {
      if t.IsEmpty() {
        EmptyTableHasNoRecords(t);
        return None;
      }
      organizedActions := Some([]);
      var i := 0;
      while i < |t.rows|
        invariant 0 <= i <= |t.rows|
        invariant organizedActions == Some(GroupAll(RowsRecords(t.columns, t.rows[..i])))
      {
        FileRow(t.columns, t.rows[i].date, t.rows[i].cells, RowsRecords(t.columns, t.rows[..i]));
        FileLastRow(t.columns, t.rows, i);
        i := i + 1;
      }
      assert t.rows[..i] == t.rows;
      r := if organizedActions.value == [] then None else organizedActions;
    }

    /** The inner loop over one row's columns: files each truthy cell under its
        column name, after the records `done` of the earlier rows. */
    method FileRow(columns: seq<string>, date: string, cells: seq<real>, ghost done: seq<Record>)
      requires |cells| == |columns|
      requires organizedActions == Some(GroupAll(done))
      modifies this`organizedActions
      ensures organizedActions == Some(GroupAll(done + RowRecords(columns, date, cells)))
    {
      assert RowRecords(columns[..0], date, cells[..0]) == [];
      assert done + [] == done;
      ghost var inRow: seq<Record> := [];
      var j := 0;
      while j < |columns|
        invariant 0 <= j <= |columns|
        invariant inRow == RowRecords(columns[..j], date, cells[..j])
        invariant organizedActions == Some(GroupAll(done + inRow))
      {
        var v := cells[j];
        RowRecordsExtend(columns, date, cells, j);
        if IsTruthy(v) {
          var c := Record(columns[j], date, v);
          GroupAllAppend(done, inRow, c);
          organizedActions := Some(SetDefaultAppend(organizedActions.value, c));
          inRow := inRow + [c];
        }
        j := j + 1;
      }
      assert columns[..j] == columns && cells[..j] == cells;
    }

    /** Appends the organized groups, in key order, to the records already in
        `acc`, tagging each entry with its group's key. */
    method CreateStockRecords(acc: seq<Record>) returns (df: seq<Record>)
      requires organizedActions.Some?
      ensures df == acc + Flatten(organizedActions.value)
    {
      var groups := organizedActions.value;
      df := acc;
      var i := 0;
      while i < |groups|
        invariant 0 <= i <= |groups|
        invariant df + Flatten(groups[i..]) == acc + Flatten(groups)
      {
        assert groups[i..][1..] == groups[i + 1..];
        df := df + Tagged(groups[i]);
        i := i + 1;
      }
      assert groups[i..] == [];
    }

    /** The table as printed: the header, then one line per record. */
    function FormattedStockActions(df: seq<Record>): (out: Output)
      reads this
      ensures out.Printed? && out.header == Header() && |out.lines| == |df|
      ensures forall i :: 0 <= i < |df| ==>
        out.lines[i] == [Text(df[i].actionType), Text(df[i].date), Number(df[i].value)]
    {
      Printed(Header(), DisplayLines(df))
    }

    /** Organizes the table and prints its records, or reports that the ticker
        has no actions. */
    method HandleStockActions(t: Table, tickerSymbol: string) returns (out: Output)
      requires t.WellFormed()
      modifies this`organizedActions
      ensures Organize(t) == [] ==> out == NoActionsFound(tickerSymbol)
      ensures Organize(t) != [] ==> out == Printed(Header(), DisplayLines(Flatten(Organize(t))))
      ensures !t.IsEmpty() ==> organizedActions == Some(Organize(t))
      ensures t.IsEmpty() ==> organizedActions == old(organizedActions)
    {
      var organized := GetOrganizedStockActions(t);
      if organized.Some? {
        var df := CreateStockRecords([]);
        assert df == Flatten(Organize(t));
        OrganizedNeverFlattensEmpty(t);
        if |df| > 0 {
          out := FormattedStockActions(df);
        } else {
          out := Nothing;
        }
      } else {
        out := NoActionsFound(tickerSymbol);
      }
    }
  }

  /** Once every column of row i is filed, the records filed are those of the
      first i + 1 rows. */
  lemma FileLastRow(columns: seq<string>, rows: seq<Row>, i: nat)
    requires forall k :: 0 <= k < |rows| ==> |rows[k].cells| == |columns|
    requires i < |rows|
    ensures RowsRecords(columns, rows[..i]) + RowRecords(columns, rows[i].date, rows[i].cells)
         == RowsRecords(columns, rows[..i + 1])
  {
    assert rows[..i + 1][..i] == rows[..i];
  }

  /** When organizing finds anything, the flattened records are non-empty, so
      the branch that shows nothing is never taken. */
  lemma OrganizedNeverFlattensEmpty(t: Table)
    requires t.WellFormed()
    ensures Organize(t) != [] ==> Flatten(Organize(t)) != []
  {
    GroupAllSize(TruthyRecords(t));
    FlattenLength(Organize(t));
    if Organize(t) != [] {
      assert TotalSize(Organize(t)) == |TruthyRecords(t)|;
      assert TruthyRecords(t) != [];
    }
  }

  /** Organizing the same table twice gives the same result: nothing carries
      over from one call to the next. */
  method OrganizeTwice(api: YFActions, t: Table) returns (first: Option<seq<Group>>, second: Option<seq<Group>>)
    requires t.WellFormed()
    modifies api
    ensures first == second
  {
    first := api.GetOrganizedStockActions(t);
    second := api.GetOrganizedStockActions(t);
  }

  /** After organizing one ticker's table, organizing another's yields what a
      fresh object would: the earlier ticker's groups do not survive, unless
      the second frame is empty and the field is left as it was. */
  method SwitchTicker(api: YFActions, previous: Table, next: Table) returns (r: Option<seq<Group>>)
    requires previous.WellFormed() && next.WellFormed()
    modifies api
    ensures r == if Organize(next) == [] then None else Some(Organize(next))
    ensures !next.IsEmpty() ==> api.organizedActions == Some(Organize(next))
    ensures next.IsEmpty() && !previous.IsEmpty() ==> api.organizedActions == Some(Organize(previous))
  {
    var _ := api.GetOrganizedStockActions(previous);
    r := api.GetOrganizedStockActions(next);
  }
}
