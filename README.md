# Part-record reconciliation: a verified model of the core

The system reconciles part records from several uploaded spreadsheets:
unfulfilled orders, safety stock, forecasts and a table that maps old part
identities to new ones. The result is one summary workbook. This project
models the data-handling core of that pipeline in Dafny and proves
properties of it:

- **Identity mapping** (`preprocessing.py`, module `Preprocessing`). Every
  record's (wafer name, specification, product name) triple is rewritten
  through the old→new mapping table. The record gains the mapping's three
  descriptive fields (assembly house, PC, semi-finished flag). Then it is
  grouped by every non-numeric column, with the numeric columns summed. The
  generic "group and sum" is in module `Grouping`.
- **Date buckets and pivot** (`pivot_processor.py`, modules `Dates` and
  `Pivot`).
  - A date column becomes real dates; a numeric one is read as spreadsheet
    day offsets from 1899-12-30.
  - Each date gets a `YYYY-MM` month bucket.
  - The pivot creates one column per value field and bucket, sums into it,
    and fills empty combinations with 0.
- **History fold** (`pivot_processor.py`, module `History`). Month columns
  before the cutoff month are folded into two totals: "historical order
  quantity" and "historical unfulfilled quantity". The totals are placed
  right after the index fields.
- **Writing sections into the summary sheet** (`merge_sections.py`, module
  `Merge` over the worksheet model in `Sheets`):
  - the safety-stock left join and its per-record "matched" flags;
  - the unfulfilled-order totals and their two-row section header;
  - the forecast section, looked up row by row from the sheet's own cells;
  - the red fill of every unmatched row.

**Tables.** A table (`Tables.Table`) is a sequence of column names plus
rows of `Value`s. A value is text, an integer, a calendar date, a boolean,
or missing (pandas' NaN/NaT/None).

**Frames.** A pandas frame that a function changes in place is a
`Tables.Frame` object. Its methods reassign its content, and the function
that specifies each change is stated beside it.

**The worksheet.** `Sheets.Sheet` is a class holding the cells, fills,
merged ranges and extent. As in the spreadsheet library, reading a cell
creates it.

## Model

| member | source | states |
|---|---|---|
| Preprocessing.LoadRules | preprocessing.py:13-23 | Fails exactly when the mapping table has fewer than 9 columns, reporting the column count. Otherwise the rules are exactly the rows whose three old fields are all present, each read by position. |
| Preprocessing.KeptRules | preprocessing.py:23 | The kept rules are exactly the rows with all three old fields, each with its three carried fields. |
| Preprocessing.MatchingMembers | preprocessing.py:26-31 | A rule joins a record if and only if the rule's old triple equals the record's (wafer, spec, product). |
| Preprocessing.Substituted | preprocessing.py:34-36 | Each of the three identity cells takes the rule's new value when that value is present and keeps the old one otherwise; every other cell is unchanged. |
| Preprocessing.JoinRowFacts | preprocessing.py:26-39 | A record with no matching rule yields one row with three missing carried fields. A record with matching rules yields one row per rule: identity substituted, carried fields appended, other cells kept. |
| Preprocessing.MatchingAtMostOne | preprocessing.py:26-31 | When no two rules share an old triple, a record joins at most one rule. |
| Preprocessing.JoinRowsConserves | preprocessing.py:26-36 | When no two rules share an old triple, the join keeps every numeric column's total. |
| Preprocessing.GroupAndSum | preprocessing.py:42-44 | The output columns are the non-numeric columns in order, then the numeric ones in order. |
| Preprocessing.GroupedKeysDistinct | preprocessing.py:44 | No two output rows share a group key. |
| Preprocessing.GroupedKeysSound | preprocessing.py:44 | Every output key is the key of some input row and has no missing field. |
| Preprocessing.GroupedKeysComplete | preprocessing.py:44 | Every input row whose key has no missing field has its key in the output. |
| Preprocessing.GroupedCells | preprocessing.py:44 | Each summed cell is the sum of that column over the input rows with the group's key. |
| Preprocessing.GroupAndSumConserves | preprocessing.py:42-44 | When no key has a missing field, grouping keeps each numeric column's total. |
| Preprocessing.ApplyFullMapping | preprocessing.py:3-46 | Covers the shape error, and fails if and only if one of the three identity columns is missing. On success the mapping's helper columns are gone, and the columns are the record's columns plus the carried ones, non-numeric first. |
| Preprocessing.HelperColumnsAbsent | preprocessing.py:39 | None of the six old/new helper columns is left in the output. |
| Preprocessing.ApplyFullMappingConserves | preprocessing.py:3-46 | The call succeeds and keeps the total of every numeric column other than the identity columns. This holds when old triples are unique and no group field of a joined row is missing. |
| Preprocessing.SplitRecordsLoseQuantity | preprocessing.py:26-44 | As written: two records of one part (quantities 3 and 5), one under its old identity and one under its new, give a single row of quantity 3. |
| Preprocessing.DuplicateRuleDoubleCounts | preprocessing.py:26-44 | As written: a record of quantity 3 whose old triple appears in two identical mapping rows is summed to 6. |
| Preprocessing.ResolveIdentities | preprocessing.py:3-46 | Corrected mapping (last matching rule only, no carried fields, group keys never dropped). It has the same error cases as the original, and its columns are the record's columns, non-numeric first. |
| Preprocessing.ResolveIdentitiesConserves | preprocessing.py:3-46 | The corrected mapping keeps every numeric column's total, with no condition on the mapping table. |
| Preprocessing.SplitRecordsResolved | preprocessing.py:26-44 | Corrected: the split-records scenario gives one row of quantity 8. |
| Grouping.GroupSum | preprocessing.py:44 | The grouped keys are distinct, and every group has the input's width. |
| Grouping.GroupSumKeys | preprocessing.py:44 | The output keys are exactly the input keys. |
| Grouping.GroupSumIsKeySum | preprocessing.py:44 | Each group's sum is the sum of that column over the input entries with its key. |
| Grouping.GroupSumTotal | preprocessing.py:44 | Grouping keeps each column's total. |
| Dates.FromOffset | pivot_processor.py:10-11 | A day offset from 1899-12-30 gives a valid calendar date. |
| Dates.FromOffsetOrdinal | pivot_processor.py:10-11 | The date is exactly `n` days after 1899-12-30. |
| Dates.OffsetRoundTrip | pivot_processor.py:10-11 | The offset of the date of offset `n` is `n`. |
| Dates.DateRoundTrip | pivot_processor.py:10-11 | The date of the offset of a valid date is that date. |
| Dates.OrdinalInjective | pivot_processor.py:10-11 | Two valid dates with the same day number are equal. |
| Dates.NextDayOrdinal | pivot_processor.py:10-11 | The next calendar day is one day later. |
| Dates.DayTwo | pivot_processor.py:10-11 | Offset 2 is 1900-01-01. |
| Dates.OffsetBounds | pivot_processor.py:10-11 | The day counts pandas can convert run from 1677-09-22 to 2192-04-08. |
| Dates.Padded | pivot_processor.py:14 | A zero-padded field has at least its width and consists of digits. |
| Dates.ParseLabel | pivot_processor.py:14 | A label that parses has a dash three characters from its end. |
| Dates.LabelRoundTrip | pivot_processor.py:14 | The `YYYY-MM` label of a valid date parses back to its year and month. |
| Dates.DayTwoLabel | pivot_processor.py:10-14 | Offset 2 is labelled "1900-01". |
| Pivot.ProcessDateColumn | pivot_processor.py:7-15 | Fails if and only if the date column is missing, or is numeric and holds a day count outside pandas' range. The two failures are reported as a missing column and an out-of-bounds date. Otherwise the row count is kept, and the bucket column is appended, or overwritten in place when it already exists. |
| Pivot.ProcessDateColumnCells | pivot_processor.py:10-14 | Each row's date cell is its converted value and its bucket is that date's label; every other cell is unchanged. |
| Pivot.NumericBucket | pivot_processor.py:10-14 | In a numeric column that converts, each number `n` lies within pandas' range. It becomes the date `n` days after 1899-12-30, and its bucket is that date's month. |
| Pivot.NumericOutOfBounds | pivot_processor.py:10-11 | A number in a numeric date column outside pandas' range, such as 20240115, makes the whole call fail with an out-of-bounds date. |
| Pivot.DayTwoBucket | pivot_processor.py:10-14 | The number 2 lands in bucket "1900-01". |
| Pivot.BucketsAreMonths | pivot_processor.py:12-14 | A bucket is missing if and only if the date is missing. Otherwise the bucket is the valid date's `YYYY-MM` label, which parses back to its year and month. |
| Pivot.CreatePivot | pivot_processor.py:17-44 | The result is the empty table if and only if a configured field is missing. |
| Pivot.PivotBucketsExact | pivot_processor.py:27-34 | The buckets are distinct and never missing, and are exactly those of the rows that are counted. |
| Pivot.PivotColumns | pivot_processor.py:39-43 | The columns are the index fields, then one column per value field and bucket. |
| Pivot.PivotColumnName | pivot_processor.py:39-42 | The column of value field `k` and bucket `b` is named `<field>_<bucket>`. |
| Pivot.PivotRowKeysDistinct | pivot_processor.py:27-34 | No two pivot rows share an index key. |
| Pivot.PivotRowKeysSound | pivot_processor.py:27-34 | Every pivot row's key is the index key of some counted input row. |
| Pivot.PivotRowKeysComplete | pivot_processor.py:27-34 | Every counted input row's index key is a pivot row. |
| Pivot.PivotCell | pivot_processor.py:27-34 | Each cell is the sum of the value field over the input rows with that key and bucket. |
| Pivot.PivotZeroFill | pivot_processor.py:33 | A key and bucket with no input row give 0. |
| Pivot.ProcessedPivotBuckets | pivot_processor.py:7-44 | After date processing, every pivot bucket is a month label. `create_pivot` does not call `process_date_column` itself: this is the composition a caller has to perform, and without it a configured `_年月` bucket column is absent and the pivot is empty. |
| History.HistoryOf | pivot_processor.py:50-53 | Every folded column is a column of the table and a month before the cutoff. |
| History.OrdersOf | pivot_processor.py:55-57 | Every folded order column is a folded column that holds order quantities and not unfulfilled ones. |
| History.PendingOf | pivot_processor.py:58-60 | Every folded unfulfilled column is a folded column that holds unfulfilled quantities. |
| History.HistoryMembers | pivot_processor.py:50-60 | The three lists are exactly the columns meeting their tests, in both directions. |
| History.TotalsNotMonths | pivot_processor.py:52 | Neither total column is ever a month column. |
| History.AddHistoricalOrderColumns | pivot_processor.py:46-76 | Returns `Fold` of the caller's table. The caller's frame is left with the totals set and the folded columns dropped, or unchanged on failure. |
| History.FoldFails | pivot_processor.py:52 | Fails if and only if no cutoff is set and some column is a month column. |
| History.FoldColumns | pivot_processor.py:50-75 | A column is in the result if and only if it is an unfolded column of the input, or a total with something to add up. No month before the cutoff remains, and distinct columns stay distinct. |
| History.FoldLayout | pivot_processor.py:69-75 | The other columns keep their order; the order total sits at the index width and the unfulfilled total right after it, both clamped to the end. |
| History.FixedOrderPositions | pivot_processor.py:69-73 | The same placement for the column list alone. |
| History.FixedOrderIdempotent | pivot_processor.py:69-73 | Reordering a reordered list changes nothing. |
| History.SummedOrderTotal | pivot_processor.py:62-63 | The order total of each row is the sum of its folded order columns. |
| History.SummedPendingTotal | pivot_processor.py:64-65 | The unfulfilled total of each row is the sum of its folded unfulfilled columns. |
| History.MutatedColumns | pivot_processor.py:67 | The caller's frame keeps exactly the summed columns that are not folded. |
| History.MutatedKeeps | pivot_processor.py:67 | Every kept column of the caller's frame keeps its values. |
| History.FoldOrderTotal | pivot_processor.py:62-75 | In the returned table, each row's order total is the sum of its folded order columns. |
| History.FoldPendingTotal | pivot_processor.py:62-75 | In the returned table, each row's unfulfilled total is the sum of its folded unfulfilled columns. |
| History.FoldKeeps | pivot_processor.py:67-75 | Every column that is neither folded nor a total keeps its values. |
| History.FoldIdempotent | pivot_processor.py:46-76 | Folding a folded table again returns it unchanged. |
| Tables.WithColumn | pivot_processor.py:14 | Setting a column appends it, or replaces it where it stands. The new column holds the given values, and every other cell is unchanged. |
| Tables.Select | pivot_processor.py:75 | Selecting columns gives exactly those columns, each with its original values. |
| Tables.DropColumns | pivot_processor.py:67 | Dropping columns keeps the other columns in order. |
| Tables.Frame.Assign | merge_sections.py:12-17 | An in-place change leaves the frame holding the new table. |
| Sheets.Sheet.Cell | merge_sections.py:81-83 | Reading a cell returns its value (empty if absent) and creates it; the extent grows to include it. |
| Sheets.Sheet.Write | merge_sections.py:92-93 | Writing a cell sets exactly that cell and grows the extent. |
| Sheets.Sheet.Fill | merge_sections.py:107 | Filling a cell sets exactly its fill and creates the cell. |
| Sheets.Sheet.MergeCells | merge_sections.py:29 | Merging records the range. The top-left cell keeps its value, the other covered cells become empty placeholders, and the extent grows. |
| Sheets.MergedCellsGet | merge_sections.py:74 | After a merge, each covered cell other than the top-left one is empty; every cell outside the range is unchanged. |
| Sheets.TouchGet | merge_sections.py:81-83 | Reading a cell changes no cell's value. |
| Merge.FirstMissing | merge_sections.py:20 | Reports nothing if and only if every needed column is present; otherwise it names a needed column that is absent. |
| Merge.WriteSectionHeader | merge_sections.py:50-56 | Writes a section header: the title merged over row 1 and the labels on row 2; fills are untouched. |
| Merge.SectionHeaderCells | merge_sections.py:29-35 | The header's cells: the title at the top-left, empty placeholders across the rest of row 1, a label per column on row 2, and every other cell unchanged. |
| Merge.Renamed | merge_sections.py:12-16 | The safety table's columns are renamed one for one; the rows are kept. |
| Merge.SafetyMerge | merge_sections.py:8-37 | Fails if and only if a joined column is missing, or the summary already has the stock columns. On success the joined table is the summary's columns plus the two stock columns. |
| Merge.MergeSafetyInventory | merge_sections.py:8-37 | The caller's safety table is renamed and flagged in place. On failure the sheet is untouched. On success the join is returned and the "safety stock" header is written over columns D-E. |
| Merge.LeftJoinKeepsRows | merge_sections.py:19-22 | With unique safety keys every summary row is kept in place, extended by its record's stock or by two missing values. |
| Merge.JoinedToSound | merge_sections.py:19-22 | Every joined row extends a summary row, and carries stock only for a key with a stocked record. |
| Merge.JoinedToComplete | merge_sections.py:19-22 | Every summary row with a stocked record appears extended by that record's stock. |
| Merge.MergedRow | merge_sections.py:23-24 | A joined row's key and stock columns read back as the summary key and the appended values. |
| Merge.MatchedKeyIff | merge_sections.py:23-25 | A key is matched if and only if it is a summary key with a record whose stock is present. |
| Merge.UnflaggedUnmatched | merge_sections.py:17 | Every safety record starts unmatched. |
| Merge.SafetyMergeFlags | merge_sections.py:17-26 | Each safety record is flagged exactly when its key is in the summary with stock present. Its other cells are unchanged. |
| Merge.MergeUnfulfilledOrders | merge_sections.py:40-58 | Sets the overall unfulfilled total on the caller's table. A start column below 1 is then an error and leaves the sheet untouched. Otherwise it writes the header from the start column and returns the columns shown. |
| Merge.ColumnsToWriteOrder | merge_sections.py:44-48 | The shown columns are the overall total, then the history column if present, then the per-month columns in table order. |
| Merge.ColumnsToWriteMembers | merge_sections.py:44-48 | A column is shown after the total if and only if it is the history column or a per-month column of the table. |
| Merge.PendingTotalCell | merge_sections.py:46 | Each row's overall total is its history amount (if any) plus its month amounts. |
| Merge.Relabelled | merge_sections.py:65 | The caller's forecast table's columns become its first row's cells as text; its rows are kept. |
| Merge.Forecasts | merge_sections.py:65-67 | The local forecast table is labelled by the first row, which is dropped. Every other row keeps its cells, and every row gains the match flag set to false. |
| Merge.FirstMatchFirst | merge_sections.py:85-91 | The row found for a key is the first forecast row with that key, and none is found exactly when no row has it. |
| Merge.MergePredictionData | merge_sections.py:61-96 | Handles an empty table as an error. The caller's table is relabelled. When a needed column is missing the sheet is untouched. Otherwise the header is written after the last used column, every summary row is looked up, and the flagged forecast table is returned. |
| Merge.LookUpForecasts | merge_sections.py:79-94 | The loop over rows 3 to the last leaves the cells as the row-by-row lookup gives them. Its flags mark the forecast rows whose key some summary row has. |
| Merge.LookupRowsCells | merge_sections.py:79-93 | After the lookup, a row in range shows its first match's quantity and amount in the section columns. Every other cell keeps its value. |
| Merge.ForecastSectionColumns | merge_sections.py:73-93 | The forecast step changes only cells in the section's two columns, on rows 1 to the last. |
| Merge.SeenKeysIff | merge_sections.py:79-84 | A key is seen if and only if some summary row from 3 on has it. |
| Merge.SeenKeysHeader | merge_sections.py:73-84 | Writing the forecast header changes no summary row's key. |
| Merge.ForecastFlag | merge_sections.py:94 | A forecast row is flagged if and only if some summary row has its key. |
| Merge.MarkUnmatchedRows | merge_sections.py:99-107 | Fails without the flag column, leaving the sheet unchanged. Otherwise every row whose flag is not truthy is painted across the table's width. |
| Merge.MarkRows | merge_sections.py:104-107 | The loop over the flags gives the painted fills and the touched cells. |
| Merge.PaintRow | merge_sections.py:106-107 | Paints one row from column 1 to the width. |
| Merge.MarkedFillsCell | merge_sections.py:104-107 | A cell is red if it lies in an unmatched row within the width; every other cell's fill is unchanged. |
| Merge.MarkedCellsCell | merge_sections.py:104-107 | Marking creates exactly the cells of unmatched rows and changes no cell's value. |

## Left out

- Reading uploads, the web interface, GitHub storage and the workbook's I/O (`main.py`, `ui.py`, `github_utils.py`, `excel_utils.py`) are not part of this model. Of `config.py` only the constants the core uses are kept; the cutoff month is a parameter.
- Styling is not modelled: alignment, fonts, borders and column widths.
- Writing into a merged placeholder cell, which raises in the spreadsheet library, is not modelled; no modelled call does so on a sheet it set up itself.
- pandas sorts:
  - `groupby` at preprocessing.py:44 returns the groups sorted by key.
  - `pivot_table` at pivot_processor.py:27-34 sorts its rows by index key and its columns by (value field, bucket). With the value fields 订单数量 and 未交订单数量, the 未交订单数量_* columns therefore come first.
  - The model keeps groups, pivot rows and buckets in first-appearance order, and value fields in configured order. Membership, uniqueness and sums do not depend on this order.
- Pivot.PivotColumnName, Pivot.PivotColumns, Pivot.PivotCell and Pivot.PivotZeroFill: positions are given in the model's order, not in pandas' sorted order. The pairing they state does not depend on order: each column is named by its value field and bucket, and each cell of a row (its key) and a column holds that combination's sum.
- Preprocessing.ApplyFullMapping: requires that the record table has none of the nine mapping-column names. The source accepts such tables:
  - the merge renames each shared name to `<name>_x` and `<name>_y`;
  - a shared 新规格, 新品名 or 新晶圆品名 then raises KeyError at lines 34-36;
  - a shared 旧* name or carried name is grouped under its suffixed names;
  - an identity column named like a mapping column behaves in pandas' own ways.
  None of this is modelled. Preprocessing.HelperColumnsAbsent and Preprocessing.ApplyFullMappingConserves carry the same requirement.
- Preprocessing.ApplyFullMapping: the three identity columns are always treated as text and grouped by, whatever `dfNumeric` says (`Preprocessing.JoinedNumeric` removes them from the numeric tags). In pandas they keep their inferred dtype, with two consequences the model does not capture:
  - a numeric identity column merged against a text old column in the mapping makes the merge at lines 26-31 raise a dtype `ValueError`;
  - when both are numeric, lines 42-44 put the identity column among the summed columns, so its codes are added up rather than grouped by, and `groupby` raises when no column is left to group by.
  Preprocessing.ApplyFullMappingConserves and Preprocessing.ResolveIdentities treat the identity columns the same way.
- Preprocessing.GroupAndSum: numeric-ness of a column is a parameter (pandas infers dtypes). Floating-point sums are modelled as integer sums.
- Pivot.CreatePivot: only `aggfunc='sum'`, a list of index fields (non-empty) and a list of value fields are modelled. Scalar `values` and other aggregations are left out.
- Pivot.CreatePivot: only the `'%Y-%m'` date format is modelled. The config key's presence is a boolean.
- Pivot.CreatePivot: measure cells are assumed to be numbers or NaN. `Tables.NumOf` counts any other cell as 0, so `Pivot.PivotCell` and `Pivot.PivotZeroFill` sum text, boolean and date cells as nothing. With `aggfunc='sum'` at pivot_processor.py:27-34 pandas instead counts True as 1, concatenates a measure column that holds only text, and raises TypeError on a column that mixes text and numbers (an order quantity with one "N/A" cell, say); `create_pivot` catches only KeyError (line 35), so that call fails. Under this assumption the later row sums over pivot output (`History.Fold`, `Merge.MergeUnfulfilledOrders`) see only numbers.
- Merge.MergeSafetyInventory: the key columns 晶圆品名, 规格 and 品名 are assumed to hold the same kind of value in the summary and in the safety table. pandas' `merge` at merge_sections.py:19-22 raises ValueError when a key column is numeric on one side and text on the other (a safety `ProductionNO.` read as integers against a text 品名, say); the model compares the values, finds no match, and succeeds with every record unflagged. This dtype error is not modelled.
- Merge.SafetyMerge: the same dtype ValueError of the merge at merge_sections.py:19-22 is not modelled; `Value`s carry no column dtype, and key columns are assumed to have one dtype on both sides.
- Merge.Relabelled: `Merge.HeaderNames` renders the first row's values as text through `Pivot.Text`, while line 65 installs them unchanged, so a number or NaN label stays a number or NaN in pandas. This makes no difference to the five names the lookup needs, which are text.
- Pivot.ToDate: free-form date parsing (`to_datetime(..., errors='coerce')`) is an abstract `parse` parameter, whose own range limits are its concern. Fractional day offsets are not modelled; offsets are whole days. Whole-day offsets outside pandas' range are modelled as an error (`Pivot.Convertible`).
- Pivot.Text: rendering of values as text covers integers, dates at midnight, booleans and NaN. Float formatting is not modelled.
- Missing is modelled as NaN, which is what reading a spreadsheet gives for an empty cell. An empty sheet cell, which reads as None, is modelled separately: its `str` is "None" (`Merge.CellText`). None or NaT held inside a table cell is not modelled:
  - `astype(str)` at merge_sections.py:86-88 renders them as "None" and "NaT", where `Pivot.Text(Missing)` gives "nan", so a forecast key held as None would match an empty sheet cell in the source and not in the model;
  - `not matched` at merge_sections.py:105 is true for None and false for NaN, where `Merge.Truthy(Missing)` is true, so a None flag is painted by the source and left alone by the model.
- History.IsMonthColumn: `str.isdigit` is modelled on ASCII digits only. Other Unicode digits are not.
- Tables.WellFormed: column names are not required to be distinct. Lemmas that need distinct names say so.
- Merge.MarkUnmatchedRows: requires a start row of at least 1, since the spreadsheet library rejects lower rows. The default of 2 is `DefaultStartRow`.
- Sheets.Sheet: row and column indices have no upper limit in the model. The spreadsheet library's largest column and row are not modelled.
- `mark_unmatched_rows` is not called by `main.py`; it is modelled as the library function it is.

## Findings

| source | as written | input that shows it | evidently intended | confidence | as-written member | corrected member |
|---|---|---|---|---|---|---|
| preprocessing.py:26-44 | A record already under its new identity finds no rule. It gets missing carried fields, and the grouping (which drops keys with a missing field) then discards it. | Records (W1,A1,P1) qty 3 and (W1,A2,P1) qty 5, with the rule A1→A2: the output has one row of qty 3. | Both records of the part merge into one row of qty 8. | not executed | Preprocessing.SplitRecordsLoseQuantity | Preprocessing.ResolveIdentities, Preprocessing.SplitRecordsResolved |
| preprocessing.py:26-44 | The left merge repeats a record once per mapping row with its old triple, so duplicate rules multiply its quantities. | Record (W1,A1,P1) qty 3 with the rule A1→A2 listed twice: the output qty is 6. | Quantities are conserved whatever the mapping table holds. | not executed | Preprocessing.DuplicateRuleDoubleCounts | Preprocessing.ResolveIdentities, Preprocessing.ResolveIdentitiesConserves |
