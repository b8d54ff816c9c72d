/**
 * pivot_processor.py, the two pure steps: `process_date_column` turns a
 * date column into month buckets, and `create_pivot` cross-tabulates a
 * table into one row per index tuple and one zero-filled column per
 * (measure, bucket) pair.
 */
module Pivot {
  import opened Tables
  import opened Dates
  import opened Grouping
  import Preprocessing

  // ---------------------------------------------------------------------
  // process_date_column (lines 7-15)

  /** The name of the month-bucket column derived from `dateCol`. */
  function LabelColumn(dateCol: string): string {
    dateCol + "_年月"
  }

  /**
   * Lines 10-13 for one cell. In a numeric column a number is a day count
   * from 1899-12-30 (within the range `Convertible` checks) and anything
   * else is NaN; otherwise dates stay, missing
   * stays missing, and any other value goes through the coercing parser,
   * a failed parse giving NaT.
   */
  function ToDate(v: Value, numericColumn: bool, parse: Value -> Option<CivilDate>): Value {
    if numericColumn then (if v.Num? then Date(FromOffset(v.n)) else Missing)
    else match v
      case Date(_) => v
      case Missing => Missing
      case _ => (match parse(v) case Some(d) => Date(d) case None => Missing)
  }

  /** Line 14 for one cell: `strftime('%Y-%m')`, NaT giving NaN. */
  function LabelOf(v: Value): Value {
    if v.Date? then Str(MonthLabel(v.date)) else Missing
  }

  /** A cell of a numeric date column that pandas can convert: a day count within its range, or anything else (which becomes NaT). */
  predicate InBounds(v: Value) {
    v.Num? ==> MinOffset <= v.n <= MaxOffset
  }

  /**
   * Lines 10-11 succeed: the date column exists and, when it is numeric,
   * every day count in it lies within pandas' range (one count outside
   * makes the conversion of the whole column raise).
   */
  predicate Convertible(df: Table, numeric: set<string>, dateCol: string)
    requires WellFormed(df)
  {
    && dateCol in df.cols
    && (dateCol in numeric ==> forall i :: 0 <= i < |df.rows| ==> InBounds(df.rows[i][IndexOf(df.cols, dateCol)]))
  }

  /**
   * `process_date_column(df, date_col, '%Y-%m')`: the date column is
   * converted where it stands and the bucket column is set (appended, or
   * overwritten where it already exists). A missing date column is the
   * KeyError of line 10; a day count outside pandas' range is the overflow
   * error of line 11.
   */
  function ProcessDateColumn(df: Table, numeric: set<string>, dateCol: string,
                             parse: Value -> Option<CivilDate>): (r: Result<Table, Error>)
    requires WellFormed(df)
    ensures r.Failure? <==> !Convertible(df, numeric, dateCol)
    ensures dateCol !in df.cols ==> r == Failure(MissingColumn(dateCol))
    ensures dateCol in df.cols && !Convertible(df, numeric, dateCol) ==> r == Failure(DateOutOfBounds)
    ensures r.Success? ==>
              && WellFormed(r.value) && |r.value.rows| == |df.rows|
              && r.value.cols == (if LabelColumn(dateCol) in df.cols then df.cols else df.cols + [LabelColumn(dateCol)])
  {
    if dateCol !in df.cols then Failure(MissingColumn(dateCol))
    else if !Convertible(df, numeric, dateCol) then Failure(DateOutOfBounds)
    else
      var j := IndexOf(df.cols, dateCol);
      var dates := seq(|df.rows|, i requires 0 <= i < |df.rows| => ToDate(df.rows[i][j], dateCol in numeric, parse));
      var t := WithColumn(df, dateCol, dates);
      var labels := seq(|t.rows|, i requires 0 <= i < |t.rows| => LabelOf(dates[i]));
      LabelColumnFresh(dateCol);
      Success(WithColumn(t, LabelColumn(dateCol), labels))
  }

  lemma LabelColumnFresh(dateCol: string)
    ensures LabelColumn(dateCol) != dateCol
  {
    assert |LabelColumn(dateCol)| == |dateCol| + 3;
  }

  /**
   * The processed table, cell by cell: the date column holds the converted
   * date, the bucket column that date's bucket, and every other column is
   * untouched.
   */
  lemma ProcessDateColumnCells(df: Table, numeric: set<string>, dateCol: string,
                               parse: Value -> Option<CivilDate>, i: nat)
    requires WellFormed(df) && Convertible(df, numeric, dateCol) && i < |df.rows|
    ensures var r := ProcessDateColumn(df, numeric, dateCol, parse).value;
            var d := ToDate(df.rows[i][IndexOf(df.cols, dateCol)], dateCol in numeric, parse);
            && r.rows[i][IndexOf(r.cols, dateCol)] == d
            && r.rows[i][IndexOf(r.cols, LabelColumn(dateCol))] == LabelOf(d)
            && forall c :: 0 <= c < |df.cols| && df.cols[c] != dateCol && df.cols[c] != LabelColumn(dateCol) ==>
                 r.rows[i][c] == df.rows[i][c]
  {
    var j := IndexOf(df.cols, dateCol);
    var dates := seq(|df.rows|, i requires 0 <= i < |df.rows| => ToDate(df.rows[i][j], dateCol in numeric, parse));
    var t := WithColumn(df, dateCol, dates);
    LabelColumnFresh(dateCol);
    var r := ProcessDateColumn(df, numeric, dateCol, parse).value;
    assert t.cols == df.cols;
    assert IndexOf(r.cols, dateCol) == j by {
      if LabelColumn(dateCol) !in df.cols {
        IndexOfPrefix(df.cols, [LabelColumn(dateCol)], dateCol);
      }
    }
  }

  /** A day count in a numeric date column lands in the bucket of its calendar month. */
  lemma NumericBucket(df: Table, numeric: set<string>, dateCol: string,
                      parse: Value -> Option<CivilDate>, i: nat)
    requires WellFormed(df) && Convertible(df, numeric, dateCol) && dateCol in numeric && i < |df.rows|
    requires df.rows[i][IndexOf(df.cols, dateCol)].Num?
    ensures var n := df.rows[i][IndexOf(df.cols, dateCol)].n;
            var r := ProcessDateColumn(df, numeric, dateCol, parse).value;
            && MinOffset <= n <= MaxOffset
            && r.rows[i][IndexOf(r.cols, dateCol)] == Date(FromOffset(n))
            && ToOffset(FromOffset(n)) == n
            && r.rows[i][IndexOf(r.cols, LabelColumn(dateCol))] == Str(MonthLabel(FromOffset(n)))
  {
    ProcessDateColumnCells(df, numeric, dateCol, parse, i);
    OffsetRoundTrip(df.rows[i][IndexOf(df.cols, dateCol)].n);
  }

  /** A day count outside pandas' range, such as a date typed as the number 20240115, makes the whole call fail. */
  lemma NumericOutOfBounds(df: Table, numeric: set<string>, dateCol: string,
                           parse: Value -> Option<CivilDate>, i: nat)
    requires WellFormed(df) && dateCol in df.cols && dateCol in numeric && i < |df.rows|
    requires var v := df.rows[i][IndexOf(df.cols, dateCol)]; v.Num? && (v.n < MinOffset || MaxOffset < v.n)
    ensures ProcessDateColumn(df, numeric, dateCol, parse) == Failure(DateOutOfBounds)
  {
  }

  /** Day 2 of a numeric date column is bucketed as 1900-01. */
  lemma DayTwoBucket(df: Table, numeric: set<string>, dateCol: string,
                     parse: Value -> Option<CivilDate>, i: nat)
    requires WellFormed(df) && Convertible(df, numeric, dateCol) && dateCol in numeric && i < |df.rows|
    requires df.rows[i][IndexOf(df.cols, dateCol)] == Num(2)
    ensures var r := ProcessDateColumn(df, numeric, dateCol, parse).value;
            r.rows[i][IndexOf(r.cols, LabelColumn(dateCol))] == Str("1900-01")
  {
    NumericBucket(df, numeric, dateCol, parse, i);
    DayTwoLabel();
  }

  /**
   * No catch-all bucket: a bucket cell is either missing (an unreadable
   * date) or the `%Y-%m` text of the converted date, which reads back as
   * that date's year and month when the parser yields calendar dates.
   */
  lemma BucketsAreMonths(df: Table, numeric: set<string>, dateCol: string,
                         parse: Value -> Option<CivilDate>, i: nat)
    requires WellFormed(df) && Convertible(df, numeric, dateCol) && i < |df.rows|
    requires forall v :: parse(v).Some? ==> Valid(parse(v).value)
    requires var v := df.rows[i][IndexOf(df.cols, dateCol)]; v.Date? ==> Valid(v.date)
    ensures var r := ProcessDateColumn(df, numeric, dateCol, parse).value;
            var b := r.rows[i][IndexOf(r.cols, LabelColumn(dateCol))];
            var d := r.rows[i][IndexOf(r.cols, dateCol)];
            && (b == Missing <==> d == Missing)
            && (b != Missing ==> d.Date? && Valid(d.date) && b == Str(MonthLabel(d.date)))
            && (b != Missing && d.date.year >= 0 ==> ParseLabel(b.s) == Some((d.date.year as nat, d.date.month as nat)))
  {
    ProcessDateColumnCells(df, numeric, dateCol, parse, i);
    var v := df.rows[i][IndexOf(df.cols, dateCol)];
    var d := ToDate(v, dateCol in numeric, parse);
    if d.Date? {
      assert Valid(d.date);
      if d.date.year >= 0 {
        LabelRoundTrip(d.date);
      }
    }
  }

  // ---------------------------------------------------------------------
  // create_pivot (lines 17-44)

  /**
   * The pivot settings of one report: the row index fields, the field
   * whose values become column buckets, the measures, and whether the
   * bucket field is a date bucketed by month (`'date_format' in config`).
   * The aggregation is always `sum` with zero fill.
   */
  datatype PivotConfig = PivotConfig(index: seq<string>, columns: string, values: seq<string>, dateFormat: bool)

  /** Lines 22-24: with a date format the buckets are read from the month column. */
  function BucketColumn(cfg: PivotConfig): string {
    if cfg.dateFormat then LabelColumn(cfg.columns) else cfg.columns
  }

  /** Every field the pivot names is a column of the table (otherwise `pivot_table` raises KeyError). */
  predicate HasFields(cols: seq<string>, cfg: PivotConfig) {
    && (forall k :: 0 <= k < |cfg.index| ==> cfg.index[k] in cols)
    && BucketColumn(cfg) in cols
    && (forall k :: 0 <= k < |cfg.values| ==> cfg.values[k] in cols)
  }

  /** Column positions of the index fields, the bucket field and the measures. */
  datatype Layout = Layout(ii: seq<nat>, bi: nat, vi: seq<nat>)

  /** Rows of one width, and a layout whose every position lies inside it. */
  predicate Laid(rows: seq<seq<Value>>, width: nat, lay: Layout) {
    && (forall i :: 0 <= i < |rows| ==> |rows[i]| == width)
    && (forall k :: 0 <= k < |lay.ii| ==> lay.ii[k] < width)
    && lay.bi < width
    && (forall k :: 0 <= k < |lay.vi| ==> lay.vi[k] < width)
  }

  function LayoutOf(cols: seq<string>, cfg: PivotConfig): (lay: Layout)
    requires HasFields(cols, cfg)
    ensures |lay.ii| == |cfg.index| && |lay.vi| == |cfg.values|
    ensures forall k :: 0 <= k < |cfg.index| ==> lay.ii[k] < |cols| && cols[lay.ii[k]] == cfg.index[k]
    ensures lay.bi < |cols| && cols[lay.bi] == BucketColumn(cfg)
    ensures forall k :: 0 <= k < |cfg.values| ==> lay.vi[k] < |cols| && cols[lay.vi[k]] == cfg.values[k]
  {
    Layout(seq(|cfg.index|, k requires 0 <= k < |cfg.index| => IndexOf(cols, cfg.index[k])),
           IndexOf(cols, BucketColumn(cfg)),
           seq(|cfg.values|, k requires 0 <= k < |cfg.values| => IndexOf(cols, cfg.values[k])))
  }

  /** Whether a row takes part in the pivot: its index fields and its bucket are all present. */
  predicate Counted(row: seq<Value>, lay: Layout)
    requires (forall k :: 0 <= k < |lay.ii| ==> lay.ii[k] < |row|) && lay.bi < |row|
  {
    Missing !in Project(row, lay.ii) && row[lay.bi] != Missing
  }

  /** The distinct buckets among the first `len` counted rows, in order of first appearance. */
  function BucketsTo(rows: seq<seq<Value>>, len: nat, width: nat, lay: Layout): seq<Value>
    requires Laid(rows, width, lay) && len <= |rows|
    decreases len
  {
    if len == 0 then []
    else
      var bs := BucketsTo(rows, len - 1, width, lay);
      var row := rows[len - 1];
      if Counted(row, lay) && row[lay.bi] !in bs then bs + [row[lay.bi]] else bs
  }

  function Buckets(rows: seq<seq<Value>>, width: nat, lay: Layout): seq<Value>
    requires Laid(rows, width, lay)
  {
    BucketsTo(rows, |rows|, width, lay)
  }

  /** Flat position `p` of a (measure, bucket) pair among `n` measures and `b` buckets. */
  lemma SplitPosition(p: nat, n: nat, b: nat)
    requires p < n * b
    ensures b > 0 && p / b < n && p % b < b
  {
  }

  /** Measure `k` and bucket `c` sit at flat position `k * b + c`. */
  lemma JoinPosition(k: nat, c: nat, n: nat, b: nat)
    requires k < n && c < b
    ensures k * b + c < n * b && (k * b + c) / b == k && (k * b + c) % b == c
  {
    var x := k * b + c;
    var q, r := x / b, x % b;
    assert q * b + r == x;
    assert (k + 1) * b <= n * b by { MulMono(k + 1, n, b); }
    if q > k {
      MulMono(k + 1, q, b);
      assert false;
    } else if q < k {
      MulMono(q + 1, k, b);
      assert false;
    }
  }

  lemma MulMono(a: int, a': int, b: nat)
    requires a <= a'
    ensures a * b <= a' * b
  {
  }

  /**
   * One row's contribution to the pivot, flattened measure-major: its
   * measure `p / |buckets|` under its own bucket, zero under the others.
   */
  function Spread(row: seq<Value>, lay: Layout, buckets: seq<Value>): (v: seq<int>)
    requires forall k :: 0 <= k < |lay.vi| ==> lay.vi[k] < |row|
    requires lay.bi < |row|
    ensures |v| == |lay.vi| * |buckets|
  {
    var n := |buckets|;
    seq(|lay.vi| * n, p requires 0 <= p < |lay.vi| * n =>
      SplitPosition(p, |lay.vi|, n);
      if row[lay.bi] == buckets[p % n] then NumOf(row[lay.vi[p / n]]) else 0)
  }

  /** The grouping entries of the first `len` counted rows: the index tuple and the spread measures. */
  function PivotEntriesTo(rows: seq<seq<Value>>, len: nat, width: nat, lay: Layout, buckets: seq<Value>)
    : (es: seq<Group<seq<Value>>>)
    requires Laid(rows, width, lay) && len <= |rows|
    ensures Width(es, |lay.vi| * |buckets|)
    decreases len
  {
    if len == 0 then []
    else
      var es := PivotEntriesTo(rows, len - 1, width, lay, buckets);
      var row := rows[len - 1];
      if Counted(row, lay) then es + [Group(Project(row, lay.ii), Spread(row, lay, buckets))] else es
  }

  /** Column names of the flattened pivot (lines 39-42): `measure_bucket`, measure-major. */
  function PairNames(values: seq<string>, buckets: seq<Value>): (names: seq<string>)
    ensures |names| == |values| * |buckets|
  {
    var n := |buckets|;
    seq(|values| * n, p requires 0 <= p < |values| * n =>
      SplitPosition(p, |values|, n);
      values[p / n] + "_" + Text(buckets[p % n]))
  }

  /** `str` of a bucket value. */
  function Text(v: Value): string {
    match v
    case Str(s) => s
    case Num(n) => IntText(n)
    case Date(d) => Field(d.year, 4) + "-" + Field(d.month, 2) + "-" + Field(d.day, 2) + " 00:00:00"
    case Bool(b) => if b then "True" else "False"
    case Missing => "nan"
  }

  /**
   * `create_pivot`: one row per index tuple of the counted rows, the index
   * fields first, then one summed, zero-filled column per (measure, bucket)
   * pair; an empty table when a configured field is missing.
   */
  function CreatePivot(df: Table, cfg: PivotConfig): (r: Table)
    requires WellFormed(df) && |cfg.index| > 0
    ensures r == Table([], []) <==> !HasFields(df.cols, cfg)
    ensures WellFormed(r)
  {
    if !HasFields(df.cols, cfg) then Table([], [])
    else
      var lay := LayoutOf(df.cols, cfg);
      var buckets := PivotBuckets(df, cfg);
      var es := PivotEntriesTo(df.rows, |df.rows|, |df.cols|, lay, buckets);
      PivotEntriesShape(df.rows, |df.rows|, |df.cols|, lay, buckets);
      Preprocessing.GroupKeyLengths(es, |lay.ii|, |lay.vi| * |buckets|);
      Table(cfg.index + PairNames(cfg.values, buckets), Preprocessing.GroupRows(GroupSum(es, |lay.vi| * |buckets|)))
  }

  /** Every entry is keyed by a complete index tuple. */
  lemma {:induction false} PivotEntriesShape(rows: seq<seq<Value>>, len: nat, width: nat, lay: Layout, buckets: seq<Value>)
    requires Laid(rows, width, lay) && len <= |rows|
    ensures forall e :: e in PivotEntriesTo(rows, len, width, lay, buckets) ==> |e.key| == |lay.ii| && Missing !in e.key
    decreases len
  {
    if len > 0 {
      PivotEntriesShape(rows, len - 1, width, lay, buckets);
    }
  }

  /** Every bucket is the bucket of a counted row, and no bucket is listed twice. */
  lemma {:induction false} BucketsSound(rows: seq<seq<Value>>, len: nat, width: nat, lay: Layout)
    requires Laid(rows, width, lay) && len <= |rows|
    ensures var bs := BucketsTo(rows, len, width, lay);
            && Distinct(bs) && Missing !in bs
            && forall b :: b in bs ==> exists i :: 0 <= i < len && Counted(rows[i], lay) && rows[i][lay.bi] == b
    decreases len
  {
    if len > 0 {
      BucketsSound(rows, len - 1, width, lay);
    }
  }

  /** The bucket of every counted row is listed. */
  lemma {:induction false} BucketsComplete(rows: seq<seq<Value>>, len: nat, width: nat, lay: Layout)
    requires Laid(rows, width, lay) && len <= |rows|
    ensures forall i :: 0 <= i < len && Counted(rows[i], lay) ==> rows[i][lay.bi] in BucketsTo(rows, len, width, lay)
    decreases len
  {
    if len > 0 {
      BucketsComplete(rows, len - 1, width, lay);
    }
  }

  /**
   * Reference definition: measure column `v` summed over the first `len`
   * rows whose index tuple is `key` and whose bucket is `bucket`.
   */
  function PivotSumTo(rows: seq<seq<Value>>, len: nat, width: nat, lay: Layout, key: seq<Value>, bucket: Value, v: nat): int
    requires Laid(rows, width, lay) && len <= |rows| && v < width
    decreases len
  {
    if len == 0 then 0
    else
      var row := rows[len - 1];
      PivotSumTo(rows, len - 1, width, lay, key, bucket, v)
        + (if Project(row, lay.ii) == key && row[lay.bi] == bucket then NumOf(row[v]) else 0)
  }

  function PivotSum(rows: seq<seq<Value>>, width: nat, lay: Layout, key: seq<Value>, bucket: Value, v: nat): int
    requires Laid(rows, width, lay) && v < width
  {
    PivotSumTo(rows, |rows|, width, lay, key, bucket, v)
  }

  /** A (tuple, bucket) pair no row has sums to zero: the zero fill of line 33. */
  lemma {:induction false} PivotSumAbsent(rows: seq<seq<Value>>, len: nat, width: nat, lay: Layout, key: seq<Value>,
                                          bucket: Value, v: nat)
    requires Laid(rows, width, lay) && len <= |rows| && v < width
    requires forall i :: 0 <= i < len ==> Project(rows[i], lay.ii) != key || rows[i][lay.bi] != bucket
    ensures PivotSumTo(rows, len, width, lay, key, bucket, v) == 0
    decreases len
  {
    if len > 0 {
      PivotSumAbsent(rows, len - 1, width, lay, key, bucket, v);
    }
  }

  /** The spread entries of a tuple add up, position by position, to the reference sums. */
  lemma {:induction false} PivotEntriesKeySum(rows: seq<seq<Value>>, len: nat, width: nat, lay: Layout,
                                              buckets: seq<Value>, key: seq<Value>, p: nat)
    requires Laid(rows, width, lay) && len <= |rows| && p < |lay.vi| * |buckets|
    requires Missing !in key && Missing !in buckets
    ensures SplitPositionHolds(p, |lay.vi|, |buckets|)
    ensures KeySum(PivotEntriesTo(rows, len, width, lay, buckets), key, p)
         == PivotSumTo(rows, len, width, lay, key, buckets[p % |buckets|], lay.vi[p / |buckets|])
    decreases len
  {
    SplitPosition(p, |lay.vi|, |buckets|);
    if len > 0 {
      var n := |buckets|;
      assert KeySum(PivotEntriesTo(rows, len - 1, width, lay, buckets), key, p)
          == PivotSumTo(rows, len - 1, width, lay, key, buckets[p % n], lay.vi[p / n]) by {
        PivotEntriesKeySum(rows, len - 1, width, lay, buckets, key, p);
      }
      PivotEntriesKeySumStep(rows, len, width, lay, buckets, key, p);
    }
  }

  predicate SplitPositionHolds(p: nat, n: nat, b: nat) {
    b > 0 && p / b < n && p % b < b
  }

  lemma PivotEntriesKeySumStep(rows: seq<seq<Value>>, len: nat, width: nat, lay: Layout,
                               buckets: seq<Value>, key: seq<Value>, p: nat)
    requires Laid(rows, width, lay) && 0 < len <= |rows| && p < |lay.vi| * |buckets|
    requires Missing !in key && Missing !in buckets
    requires SplitPositionHolds(p, |lay.vi|, |buckets|)
    requires KeySum(PivotEntriesTo(rows, len - 1, width, lay, buckets), key, p)
          == PivotSumTo(rows, len - 1, width, lay, key, buckets[p % |buckets|], lay.vi[p / |buckets|])
    ensures KeySum(PivotEntriesTo(rows, len, width, lay, buckets), key, p)
         == PivotSumTo(rows, len, width, lay, key, buckets[p % |buckets|], lay.vi[p / |buckets|])
  {
    var es := PivotEntriesTo(rows, len - 1, width, lay, buckets);
    var row := rows[len - 1];
    if Counted(row, lay) {
      KeySumSnoc(es, Group(Project(row, lay.ii), Spread(row, lay, buckets)), key, p);
    } else if Project(row, lay.ii) == key {
      assert row[lay.bi] == Missing;
    }
  }

  /** Every entry key is the index tuple of a counted row. */
  lemma {:induction false} PivotEntriesKeysSound(rows: seq<seq<Value>>, len: nat, width: nat, lay: Layout, buckets: seq<Value>)
    requires Laid(rows, width, lay) && len <= |rows|
    ensures forall k :: k in Keys(PivotEntriesTo(rows, len, width, lay, buckets)) ==>
              exists i :: 0 <= i < len && Counted(rows[i], lay) && Project(rows[i], lay.ii) == k
    decreases len
  {
    if len > 0 {
      PivotEntriesKeysSound(rows, len - 1, width, lay, buckets);
      var es := PivotEntriesTo(rows, len - 1, width, lay, buckets);
      var row := rows[len - 1];
      if Counted(row, lay) {
        assert Keys(PivotEntriesTo(rows, len, width, lay, buckets)) == Keys(es) + [Project(row, lay.ii)];
      }
    }
  }

  /** The index tuple of every counted row is an entry key. */
  lemma {:induction false} PivotEntriesKeysComplete(rows: seq<seq<Value>>, len: nat, width: nat, lay: Layout,
                                                    buckets: seq<Value>)
    requires Laid(rows, width, lay) && len <= |rows|
    ensures forall i :: 0 <= i < len && Counted(rows[i], lay) ==>
              Project(rows[i], lay.ii) in Keys(PivotEntriesTo(rows, len, width, lay, buckets))
    decreases len
  {
    if len > 0 {
      PivotEntriesKeysComplete(rows, len - 1, width, lay, buckets);
      var es := PivotEntriesTo(rows, len - 1, width, lay, buckets);
      var row := rows[len - 1];
      if Counted(row, lay) {
        assert Keys(PivotEntriesTo(rows, len, width, lay, buckets)) == Keys(es) + [Project(row, lay.ii)];
      }
    }
  }

  /** The buckets of a pivot, in column order. */
  function PivotBuckets(df: Table, cfg: PivotConfig): seq<Value>
    requires WellFormed(df) && HasFields(df.cols, cfg)
  {
    Buckets(df.rows, |df.cols|, LayoutOf(df.cols, cfg))
  }

  /** The groups a pivot's rows are made of. */
  function PivotGroups(df: Table, cfg: PivotConfig): seq<Group<seq<Value>>>
    requires WellFormed(df) && HasFields(df.cols, cfg)
  {
    var lay := LayoutOf(df.cols, cfg);
    var buckets := PivotBuckets(df, cfg);
    GroupSum(PivotEntriesTo(df.rows, |df.rows|, |df.cols|, lay, buckets), |lay.vi| * |buckets|)
  }

  /**
   * The buckets are exactly the bucket values of the counted rows (those
   * whose index fields and bucket are all present), each once.
   */
  lemma PivotBucketsExact(df: Table, cfg: PivotConfig)
    requires WellFormed(df) && HasFields(df.cols, cfg)
    ensures var lay := LayoutOf(df.cols, cfg);
            var bs := PivotBuckets(df, cfg);
            && Distinct(bs) && Missing !in bs
            && forall b :: b in bs <==> exists i :: 0 <= i < |df.rows| && Counted(df.rows[i], lay) && df.rows[i][lay.bi] == b
  {
    var lay := LayoutOf(df.cols, cfg);
    BucketsSound(df.rows, |df.rows|, |df.cols|, lay);
    BucketsComplete(df.rows, |df.rows|, |df.cols|, lay);
  }

  /**
   * The pivot's columns (lines 39-43): the index fields, then one
   * `measure_bucket` column for every measure and, within it, every bucket.
   */
  lemma PivotColumns(df: Table, cfg: PivotConfig)
    requires WellFormed(df) && |cfg.index| > 0 && HasFields(df.cols, cfg)
    ensures var r := CreatePivot(df, cfg);
            && |r.cols| == |cfg.index| + |cfg.values| * |PivotBuckets(df, cfg)|
            && r.cols[..|cfg.index|] == cfg.index
  {
  }

  /** The column of measure `k` under bucket `b` is named `measure_bucket`. */
  lemma PivotColumnName(df: Table, cfg: PivotConfig, k: nat, b: nat)
    requires WellFormed(df) && |cfg.index| > 0 && HasFields(df.cols, cfg)
    requires k < |cfg.values| && b < |PivotBuckets(df, cfg)|
    ensures var r := CreatePivot(df, cfg);
            var bs := PivotBuckets(df, cfg);
            && |cfg.index| + k * |bs| + b < |r.cols|
            && r.cols[|cfg.index| + k * |bs| + b] == cfg.values[k] + "_" + Text(bs[b])
  {
    var bs := PivotBuckets(df, cfg);
    var names := PairNames(cfg.values, bs);
    PairNameAt(cfg.values, bs, k, b);
    assert CreatePivot(df, cfg).cols == cfg.index + names;
    assert (cfg.index + names)[|cfg.index| + k * |bs| + b] == names[k * |bs| + b];
  }

  lemma PairNameAt(values: seq<string>, buckets: seq<Value>, k: nat, b: nat)
    requires k < |values| && b < |buckets|
    ensures k * |buckets| + b < |values| * |buckets|
    ensures PairNames(values, buckets)[k * |buckets| + b] == values[k] + "_" + Text(buckets[b])
  {
    JoinPosition(k, b, |values|, |buckets|);
  }

  /** One output row per group, its index tuple followed by its sums. */
  lemma PivotRowsAreGroups(df: Table, cfg: PivotConfig)
    requires WellFormed(df) && |cfg.index| > 0 && HasFields(df.cols, cfg)
    ensures var r := CreatePivot(df, cfg);
            var groups := PivotGroups(df, cfg);
            && |r.rows| == |groups|
            && forall g :: 0 <= g < |groups| ==>
                 |groups[g].key| == |cfg.index| && r.rows[g] == groups[g].key + Preprocessing.Nums(groups[g].sums)
  {
    var lay := LayoutOf(df.cols, cfg);
    var buckets := PivotBuckets(df, cfg);
    var es := PivotEntriesTo(df.rows, |df.rows|, |df.cols|, lay, buckets);
    PivotEntriesShape(df.rows, |df.rows|, |df.cols|, lay, buckets);
    Preprocessing.GroupKeyLengths(es, |lay.ii|, |lay.vi| * |buckets|);
  }

  /** One row per index tuple (lines 27-34, 43): no two rows share a tuple. */
  lemma PivotRowKeysDistinct(df: Table, cfg: PivotConfig)
    requires WellFormed(df) && |cfg.index| > 0 && HasFields(df.cols, cfg)
    ensures var r := CreatePivot(df, cfg);
            forall g, h :: 0 <= g < h < |r.rows| ==> r.rows[g][..|cfg.index|] != r.rows[h][..|cfg.index|]
  {
    var r := CreatePivot(df, cfg);
    var groups := PivotGroups(df, cfg);
    PivotRowsAreGroups(df, cfg);
    forall g, h | 0 <= g < h < |r.rows| ensures r.rows[g][..|cfg.index|] != r.rows[h][..|cfg.index|] {
      assert r.rows[g][..|cfg.index|] == groups[g].key && r.rows[h][..|cfg.index|] == groups[h].key;
      assert Keys(groups)[g] != Keys(groups)[h];
    }
  }

  /** Every row's tuple is the complete index tuple of a counted input row. */
  lemma PivotRowKeysSound(df: Table, cfg: PivotConfig, g: nat)
    requires WellFormed(df) && |cfg.index| > 0 && HasFields(df.cols, cfg) && g < |CreatePivot(df, cfg).rows|
    ensures var r := CreatePivot(df, cfg);
            var lay := LayoutOf(df.cols, cfg);
            && |cfg.index| <= |r.rows[g]|
            && exists i :: 0 <= i < |df.rows| && Counted(df.rows[i], lay) && Project(df.rows[i], lay.ii) == r.rows[g][..|cfg.index|]
  {
    var r := CreatePivot(df, cfg);
    var lay := LayoutOf(df.cols, cfg);
    var buckets := PivotBuckets(df, cfg);
    var es := PivotEntriesTo(df.rows, |df.rows|, |df.cols|, lay, buckets);
    var groups := PivotGroups(df, cfg);
    PivotRowsAreGroups(df, cfg);
    assert r.rows[g][..|cfg.index|] == groups[g].key;
    GroupSumKeys(es, |lay.vi| * |buckets|);
    assert groups[g].key in Keys(es);
    PivotEntriesKeysSound(df.rows, |df.rows|, |df.cols|, lay, buckets);
  }

  /** Every counted input row's index tuple has a row. */
  lemma PivotRowKeysComplete(df: Table, cfg: PivotConfig, i: nat)
    requires WellFormed(df) && |cfg.index| > 0 && HasFields(df.cols, cfg) && i < |df.rows|
    requires Counted(df.rows[i], LayoutOf(df.cols, cfg))
    ensures var r := CreatePivot(df, cfg);
            var lay := LayoutOf(df.cols, cfg);
            exists g :: 0 <= g < |r.rows| && |cfg.index| <= |r.rows[g]| && r.rows[g][..|cfg.index|] == Project(df.rows[i], lay.ii)
  {
    var r := CreatePivot(df, cfg);
    var lay := LayoutOf(df.cols, cfg);
    var buckets := PivotBuckets(df, cfg);
    var es := PivotEntriesTo(df.rows, |df.rows|, |df.cols|, lay, buckets);
    var groups := PivotGroups(df, cfg);
    PivotRowsAreGroups(df, cfg);
    PivotEntriesKeysComplete(df.rows, |df.rows|, |df.cols|, lay, buckets);
    var k := Project(df.rows[i], lay.ii);
    assert k in Keys(es);
    GroupSumKeys(es, |lay.vi| * |buckets|);
    var g := IndexOf(Keys(groups), k);
    assert r.rows[g][..|cfg.index|] == k;
  }

  /**
   * Each cell of the pivot (lines 27-34): the measure summed over the input
   * rows carrying that row's index tuple and that column's bucket.
   */
  lemma PivotCell(df: Table, cfg: PivotConfig, g: nat, k: nat, b: nat)
    requires WellFormed(df) && |cfg.index| > 0 && HasFields(df.cols, cfg)
    requires g < |CreatePivot(df, cfg).rows| && k < |cfg.values| && b < |PivotBuckets(df, cfg)|
    ensures var r := CreatePivot(df, cfg);
            var bs := PivotBuckets(df, cfg);
            var lay := LayoutOf(df.cols, cfg);
            && |cfg.index| + k * |bs| + b < |r.rows[g]|
            && r.rows[g][|cfg.index| + k * |bs| + b]
               == Num(PivotSum(df.rows, |df.cols|, lay, r.rows[g][..|cfg.index|], bs[b], lay.vi[k]))
  {
    var r := CreatePivot(df, cfg);
    var lay := LayoutOf(df.cols, cfg);
    var bs := PivotBuckets(df, cfg);
    var es := PivotEntriesTo(df.rows, |df.rows|, |df.cols|, lay, bs);
    var groups := PivotGroups(df, cfg);
    var n := |lay.vi| * |bs|;
    var p := k * |bs| + b;
    JoinPosition(k, b, |cfg.values|, |bs|);
    PivotRowsAreGroups(df, cfg);
    var key := groups[g].key;
    assert r.rows[g][..|cfg.index|] == key;
    assert r.rows[g][|cfg.index| + p] == Num(groups[g].sums[p]);
    GroupSumIsKeySum(es, n);
    assert groups[g].sums[p] == KeySum(es, key, p);
    GroupSumKeys(es, n);
    PivotEntriesShape(df.rows, |df.rows|, |df.cols|, lay, bs);
    assert key in Keys(es);
    assert Missing !in key;
    BucketsSound(df.rows, |df.rows|, |df.cols|, lay);
    PivotEntriesKeySum(df.rows, |df.rows|, |df.cols|, lay, bs, key, p);
  }

  /** Zero fill (line 33): a tuple and bucket no input row combines gives 0. */
  lemma PivotZeroFill(df: Table, cfg: PivotConfig, g: nat, k: nat, b: nat)
    requires WellFormed(df) && |cfg.index| > 0 && HasFields(df.cols, cfg)
    requires g < |CreatePivot(df, cfg).rows| && k < |cfg.values| && b < |PivotBuckets(df, cfg)|
    requires var lay := LayoutOf(df.cols, cfg);
             forall i :: 0 <= i < |df.rows| ==>
               Project(df.rows[i], lay.ii) != CreatePivot(df, cfg).rows[g][..|cfg.index|]
               || df.rows[i][lay.bi] != PivotBuckets(df, cfg)[b]
    ensures var bs := PivotBuckets(df, cfg);
            && |cfg.index| + k * |bs| + b < |CreatePivot(df, cfg).rows[g]|
            && CreatePivot(df, cfg).rows[g][|cfg.index| + k * |bs| + b] == Num(0)
  {
    var lay := LayoutOf(df.cols, cfg);
    PivotCell(df, cfg, g, k, b);
    PivotSumAbsent(df.rows, |df.rows|, |df.cols|, lay, CreatePivot(df, cfg).rows[g][..|cfg.index|],
                   PivotBuckets(df, cfg)[b], lay.vi[k]);
  }

  /**
   * `create_pivot` after `process_date_column` on the bucket field: every
   * bucket is a `%Y-%m` month label, so every measure column is named
   * `measure_YYYY-MM`.
   */
  lemma ProcessedPivotBuckets(d0: Table, numeric: set<string>, parse: Value -> Option<CivilDate>, cfg: PivotConfig)
    requires WellFormed(d0) && cfg.dateFormat && Convertible(d0, numeric, cfg.columns)
    requires HasFields(ProcessDateColumn(d0, numeric, cfg.columns, parse).value.cols, cfg)
    ensures var df := ProcessDateColumn(d0, numeric, cfg.columns, parse).value;
            forall b :: b in PivotBuckets(df, cfg) ==> exists d :: b == Str(MonthLabel(d))
  {
    var df := ProcessDateColumn(d0, numeric, cfg.columns, parse).value;
    var lay := LayoutOf(df.cols, cfg);
    PivotBucketsExact(df, cfg);
    forall b | b in PivotBuckets(df, cfg) ensures exists d :: b == Str(MonthLabel(d)) {
      var i :| 0 <= i < |df.rows| && Counted(df.rows[i], lay) && df.rows[i][lay.bi] == b;
      ProcessedBucketCell(d0, numeric, parse, cfg, i);
    }
  }

  /** A present bucket cell of a processed table is a month label. */
  lemma ProcessedBucketCell(d0: Table, numeric: set<string>, parse: Value -> Option<CivilDate>, cfg: PivotConfig, i: nat)
    requires WellFormed(d0) && cfg.dateFormat && Convertible(d0, numeric, cfg.columns) && i < |d0.rows|
    requires var df := ProcessDateColumn(d0, numeric, cfg.columns, parse).value;
             HasFields(df.cols, cfg) && df.rows[i][LayoutOf(df.cols, cfg).bi] != Missing
    ensures var df := ProcessDateColumn(d0, numeric, cfg.columns, parse).value;
            exists d :: df.rows[i][LayoutOf(df.cols, cfg).bi] == Str(MonthLabel(d))
  {
    ProcessDateColumnCells(d0, numeric, cfg.columns, parse, i);
    var v := ToDate(d0.rows[i][IndexOf(d0.cols, cfg.columns)], cfg.columns in numeric, parse);
    assert v.Date?;
  }
}
