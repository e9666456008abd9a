# Corporate-action reshaping in algotrader

algotrader reads a portfolio of ticker symbols and prints each ticker's
corporate actions (dividends, stock splits). For each ticker it fetches a
date-indexed frame from the market-data provider, with one column per action
type. Its one piece of real logic turns that frame into a table of
`type | date | value` rows. This project models that logic and proves what it
does.

- `ActionTable` (`action_table.dfy`) holds the raw frame. A frame is a list of
  column names plus rows. Each row is a date and one value per column. The
  module defines the row-major walk over the frame's truthy cells. A cell is
  truthy when its value is not `0.0`. The module proves three things:
  - each truthy cell yields exactly one record;
  - the records are exactly the truthy cells;
  - a frame whose cells are all falsy yields no records.
- `Grouping` (`grouping.dfy`) models the insertion-ordered dictionary, as an
  association list of groups. `dict.setdefault(k, []).append(v)` becomes
  `SetDefaultAppend`. Grouping is a left fold of it over the records.
  Flattening concatenates the groups in key order.
- `StockApi` (`stock_api.dfy`) holds the class `YFActions` with the two fields
  the source keeps, `organizedActions` and `currentTickerSymbol`. Its methods
  model the source's loops:
  - the nested row/column loop that rebuilds the field;
  - the loop that concatenates one tagged frame per group;
  - the column projection used for display;
  - the branch between printing the table and reporting "No actions found".

Each method's postcondition ties its result and the new field value to one of
the specification functions `Organize`, `GroupAll` or `Flatten`. The lemmas
about these functions state what the grouping promises: record count,
membership and multiplicity, key order, per-key contents, non-empty groups,
and the empty cases.

Two details of the source that the model keeps:

- The source tests `actions.empty`. For a data frame this is true when either
  axis has length zero. So a frame with rows but no columns also returns
  `None` before the field is reset, not only a frame with no rows
  (`Table.IsEmpty`).
- `StockAPI`, `BaseStockAPI` and `YFActions` form a three-level class
  hierarchy in the source. The model has a single class, `YFActions`, holding
  the inherited fields and methods.

## Model

| member | source | states |
|---|---|---|
| `ActionTable.Table.IsEmpty` | main.py:84 | `actions.empty`: true when the frame has no rows or no columns; see `EmptyTableHasNoRecords` |
| `ActionTable.TruthyRecords` | main.py:87-89 | the walk over rows and, within a row, over columns, keeping the truthy cells; see `TruthyRecordsCount`, `TruthyRecordsMembers`, `NoRecordsIffAllFalsy` |
| `Grouping.SetDefaultAppend` | main.py:90 | `setdefault(type, []).append(entry)`; see `SetDefaultAppendKeys`, `SetDefaultAppendLookup`, `SetDefaultAppendSize`, `SetDefaultAppendNonEmpty`, `SetDefaultAppendFlatten` |
| `Grouping.GroupAll` | main.py:87-90 | filing every record in walk order; see `GroupAllKeys`, `GroupAllLookup`, `GroupAllSize`, `GroupAllNonEmpty`, `GroupAllPermutation`, `GroupAllEmpty` |
| `Grouping.Tagged` | main.py:98-99 | one group's entries as records carrying the group's key in the `type` column; see `TaggedSnoc`, `FlattenAt` |
| `Grouping.Flatten` | main.py:97-100 | the groups' tagged frames concatenated in key order; see `FlattenLength`, `FlattenAt`, `GroupAllPermutation` |
| `StockApi.Organize` | main.py:86-91 | the dictionary organizing a frame builds; see `OrganizeCount`, `OrganizeKeys`, `OrganizeLookup`, `OrganizeNonEmpty`, `OrganizePermutation`, `OrganizeEmptyIffAllFalsy` |
| `StockApi.FrameRow` | main.py:98-99 | a record as a row of the built frame, with columns date, value, type; see `DisplayRow` |
| `ActionTable.EmptyTableHasNoRecords` | main.py:84-85 | a frame with no rows or no columns has no truthy cell, so organizing it yields nothing |
| `ActionTable.RowRecords` | main.py:88-89 | a row yields at most one record per column; every record carries the row's date and a truthy value |
| `ActionTable.RowsRecords` | main.py:87-89 | every record produced by the row-major walk has a truthy value |
| `ActionTable.TruthyRecordsCount` | main.py:87-90 | the number of records equals the number of truthy cells, counted independently; falsy cells yield nothing |
| `ActionTable.RowsRecordsCount` | main.py:87-90 | over any list of rows, one record per truthy cell |
| `ActionTable.RowRecordsCount` | main.py:88-89 | within one row, one record per truthy cell |
| `ActionTable.RowRecordsSound` | main.py:88-89 | every record of a row is the (column, date, value) of one of its truthy cells |
| `ActionTable.RowRecordsComplete` | main.py:88-89 | every truthy cell of a row yields its record |
| `ActionTable.RowsRecordsSound` | main.py:87-89 | every record of the walk is the (column, row date, value) of a truthy cell |
| `ActionTable.RowsRecordsComplete` | main.py:87-89 | every truthy cell of any row yields its record |
| `ActionTable.TruthyRecordsMembers` | main.py:87-90 | a record is produced if and only if some truthy cell holds that value under that column and row date |
| `ActionTable.NoRecordsIffAllFalsy` | main.py:89-91 | there are no records exactly when every cell is falsy |
| `Grouping.FirstIndex` | main.py:90 | returns the position of the first occurrence of a key, or the length when the key is absent; nothing before that position matches |
| `Grouping.SetDefaultAppendKeys` | main.py:90 | filing under an existing key leaves the key order unchanged; a new key is appended at the end of the dictionary |
| `Grouping.SetDefaultAppendSize` | main.py:90 | filing adds exactly one entry to the dictionary |
| `Grouping.SetDefaultAppendLookup` | main.py:90 | the filed key's list gains the new entry at its end; every other key's list is unchanged |
| `Grouping.SetDefaultAppendNonEmpty` | main.py:90 | filing keeps every list non-empty |
| `Grouping.TaggedSnoc` | main.py:98-99 | tagging a group whose list gained one entry adds that one record at the end |
| `Grouping.SetDefaultAppendFlatten` | main.py:90 | filing a record adds exactly that record to the flattened dictionary, as a multiset |
| `Grouping.GroupAllSnoc` | main.py:87-90 | grouping the records plus one more is filing that record into the grouping of the others |
| `Grouping.GroupAllAppend` | main.py:87-90 | filing one more record after the records filed so far is one `SetDefaultAppend` on the current dictionary |
| `Grouping.GroupAllSize` | main.py:87-90 | the dictionary holds exactly one entry per record |
| `Grouping.GroupAllLookup` | main.py:87-90 | each key's list is exactly the entries of the records of that type, in the order the records were walked |
| `Grouping.GroupAllNonEmpty` | main.py:90 | a key exists only with at least one entry: no list is empty |
| `Grouping.FirstAppearanceOrderSnoc` | main.py:90 | one more record keeps the keys distinct, equal to the types seen so far, and ordered by first occurrence |
| `Grouping.GroupAllKeys` | main.py:87-90 | the keys are the distinct action types, ordered by each type's first record in row-major order |
| `Grouping.GroupAllPermutation` | main.py:87-100 | flattening the dictionary gives back a permutation of the records |
| `Grouping.GroupAllEmpty` | main.py:91 | the dictionary is empty exactly when there are no records |
| `Grouping.FirstIndexSnoc` | main.py:90 | extending the record sequence does not move an existing type's first occurrence; a type seen for the first time has its first occurrence at the end |
| `Grouping.FlattenLength` | main.py:97-100 | the flattened output has exactly as many records as the groups have entries in total |
| `Grouping.FlattenAt` | main.py:97-100 | entry j of group i lands at the position after all earlier groups' entries, plus j, tagged with group i's key: groups in key order, entries in list order |
| `StockApi.OrganizeCount` | main.py:86-100 | the organized dictionary, and the records flattened from it, hold one entry per truthy cell |
| `StockApi.OrganizeEmptyIffAllFalsy` | main.py:89-91 | the organized dictionary is empty exactly when every cell is falsy |
| `StockApi.OrganizePermutation` | main.py:87-100 | the flattened records are a permutation of the truthy cells, and each one is the (column, date, value) of a truthy cell |
| `StockApi.OrganizeKeys` | main.py:87-90 | the keys are the columns holding a truthy cell, each once, ordered by their first truthy cell in row-major order (not column order) |
| `StockApi.OrganizeNonEmpty` | main.py:90 | every key's list is non-empty |
| `StockApi.OrganizeLookup` | main.py:87-90 | key k's list holds column k's truthy cells, each as its date and value, in row order |
| `ActionTable.RowRecordsExtend` | main.py:88-89 | taking one more column of a row adds that cell's record exactly when the cell is truthy |
| `StockApi.FileLastRow` | main.py:87-88 | once every column of row i is filed, the records are those of the first i + 1 rows |
| `StockApi.ProjectRow` | main.py:76 | selecting columns by name succeeds exactly when every name is a column, and returns each named column's value in the order asked |
| `StockApi.DisplayRow` | main.py:76 | from a frame built as date, value, type, the displayed line is type, date, value, in that order |
| `StockApi.DisplayLines` | main.py:76-77 | one displayed line per record, in record order |
| `StockApi.YFActions.constructor` | main.py:65-68 | a new object has no organized actions and no current ticker symbol |
| `StockApi.YFActions.Header` | main.py:74-75 | a header is shown exactly when the current ticker symbol is set and non-empty, and it shows that symbol |
| `StockApi.YFActions.GetOrganizedStockActions` | main.py:79-91 | an empty frame returns None and leaves the field as it was; otherwise the field is rebuilt from scratch and holds `Organize(t)`; the result is None exactly when no cell is truthy, and otherwise equals the field |
| `StockApi.YFActions.FileRow` | main.py:88-90 | the inner loop over one row's columns leaves in the field the grouping of the earlier records followed by this row's truthy cells, in column order |
| `StockApi.YFActions.CreateStockRecords` | main.py:93-101 | the result is the accumulator followed by every group's entries tagged with its key, in key order |
| `StockApi.YFActions.FormattedStockActions` | main.py:70-77 | the printed table has the header, then one line per record, holding its type, date and value |
| `StockApi.YFActions.HandleStockActions` | main.py:125-136 | with no truthy cell, reports "No actions found" for the ticker; otherwise prints the displayed lines of the flattened grouping; the field is updated as by organizing |
| `StockApi.OrganizedNeverFlattensEmpty` | main.py:131-134 | when organizing finds anything, the flattened records are non-empty, so the branch that prints nothing is never taken |
| `StockApi.OrganizeTwice` | main.py:86 | organizing the same frame twice gives the same result |
| `StockApi.SwitchTicker` | main.py:84-86 | after another ticker's frame, the result depends only on the new frame; only an empty new frame leaves the earlier groups in the field |

## Left out

- The provider fetch is left out. `yf.Ticker` and `ticker.actions` (main.py:83, main.py:122) are network calls, so the frame is a parameter of the model.
- The API-key loader, `OpenAIAPI` (main.py:14-29), is left out. It reads the environment and sets a global in a foreign library.
- The portfolio file loader and its loop, `PortfolioManager` (main.py:159-195), are left out. They are file and JSON I/O.
- The class hierarchy plumbing is left out: `StockAPI`, `YFinanceAPI`, `run`, `main` and `YFActions.fetch_and_format_stock_info` (main.py:32-57, main.py:120-123, main.py:139-156, main.py:198-209). They only delegate and print.
- Display settings and warning filters (main.py:38-41, main.py:118) are left out.
- Dates are strings already formatted as YYYY-MM-DD. The `strftime` call (main.py:90) is a library formatting call and is not modelled.
- Values are reals, and truthy means non-zero. Python treats a NaN value as truthy. The model has no NaN.
- `row[col_name]` is modelled as the cell at the column's position. With duplicate column names the data frame would return a series, whose truth test raises an error. The model requires distinct column names (`Table.WellFormed`), so that error path is not modelled.
- The data frame's row index and the `ignore_index` renumbering in `pd.concat` (main.py:100) are not modelled. A frame is a sequence of records.
- Printing is modelled as the `Output` value a call produces, not as console text.
- `StockApi.YFActions.CreateStockRecords` requires `organizedActions` to be set. With the field still `None`, the source raises an AttributeError. Its only caller (main.py:131-132) calls it after organizing returned a non-empty dictionary.
- In-place mutation of the dictionary is modelled by reassigning the field to a new association list. Aliasing of the dictionary object is not modelled.
