/**
 * Writing the contributing sections into the summary sheet
 * (merge_sections.py): the safety-stock join and its match flags, the
 * pending-order totals and their two-row header, the forecast section
 * looked up row by row, and the red fill of unmatched rows. Cell styling
 * (alignment, borders) is not modelled; which cells get which values,
 * flags and fills is.
 */
module Merge {
  import opened Tables
  import opened Sheets
  import Pivot

  /** The match flag column every contributing table receives. */
  const Flag := "已匹配"

  const Wafer := "晶圆品名"
  const SpecCode := "规格"
  const Part := "品名"
  const InvWaf := " InvWaf"
  const InvPart := " InvPart"

  /** The identity triple the safety stock is joined on. */
  const Keys := [Wafer, SpecCode, Part]

  /** Lines 29-35: the safety section's title and labels, over columns D and E. */
  const SafetyTitle := "安全库存"
  const SafetyLabels := ["InvWaf（片）", "InvPart"]

  /** The safety-stock columns taken into the join (line 20). */
  const SafetyFields := [Wafer, SpecCode, Part, InvWaf, InvPart]

  /** The first of `names` that `cols` lacks, if any (pandas' KeyError). */
  function FirstMissing(names: seq<string>, cols: seq<string>): (r: Option<string>)
    ensures r.None? <==> forall k :: 0 <= k < |names| ==> names[k] in cols
    ensures r.Some? ==> r.value in names && r.value !in cols
  {
    if names == [] then None
    else if names[0] !in cols then Some(names[0])
    else
      var rest := FirstMissing(names[1..], cols);
      assert forall k :: 1 <= k < |names| ==> names[k] == names[1..][k - 1];
      rest
  }

  // ---------------------------------------------------------------------
  // Section headers (lines 29-35, 50-56 and 72-76): every section writes a
  // title merged over its columns in row 1 and one label per column in row 2.

  /** The title's range: row 1, one column per label. */
  function SectionRange(start: int, width: nat): Range {
    Range(1, start, 1, start + width - 1)
  }

  /** The labels `names[..len]` written left to right along `row` from `col`. */
  function Labels(cells: map<Coord, Value>, row: int, col: int, names: seq<string>, len: nat): map<Coord, Value>
    requires len <= |names|
  {
    if len == 0 then cells
    else Labels(cells, row, col, names, len - 1)[(row, col + len - 1) := Str(names[len - 1])]
  }

  /** The cells after a section header: the merged title, then one label per column beneath it. */
  function SectionHeader(cells: map<Coord, Value>, start: int, title: string, names: seq<string>): map<Coord, Value> {
    var titled := MergedCells(cells, SectionRange(start, |names|))[(1, start) := Str(title)];
    Labels(titled, 2, start, names, |names|)
  }

  method WriteSectionHeader(sheet: Sheet, start: int, title: string, names: seq<string>)
    requires sheet.Valid() && 1 <= start && |names| >= 1
    modifies sheet
    ensures sheet.Valid()
    ensures sheet.cells == SectionHeader(old(sheet.cells), start, title, names)
    ensures sheet.merged == old(sheet.merged) + [SectionRange(start, |names|)]
    ensures sheet.fills == old(sheet.fills)
    ensures sheet.maxRow == Max(old(sheet.maxRow), 2)
  {
    sheet.MergeCells(SectionRange(start, |names|));
    sheet.Write(1, start, Str(title));
    WriteLabels(sheet, 2, start, names);
  }

  /** One label per column along `row`, from `col` rightwards. */
  method WriteLabels(sheet: Sheet, row: int, col: int, names: seq<string>)
    requires sheet.Valid() && 1 <= row && 1 <= col
    modifies sheet
    ensures sheet.Valid()
    ensures sheet.cells == Labels(old(sheet.cells), row, col, names, |names|)
    ensures sheet.fills == old(sheet.fills) && sheet.merged == old(sheet.merged)
    ensures sheet.maxRow == if names == [] then old(sheet.maxRow) else Max(old(sheet.maxRow), row)
  {
    for k := 0 to |names|
      invariant sheet.Valid()
      invariant sheet.cells == Labels(old(sheet.cells), row, col, names, k)
      invariant sheet.fills == old(sheet.fills) && sheet.merged == old(sheet.merged)
      invariant sheet.maxRow == if k == 0 then old(sheet.maxRow) else Max(old(sheet.maxRow), row)
    {
      sheet.Write(row, col + k, Str(names[k]));
    }
  }

  /** The labels land one per column and leave every other cell as it was. */
  lemma {:induction false} LabelsCells(cells: map<Coord, Value>, row: int, col: int, names: seq<string>, len: nat, key: Coord)
    requires len <= |names|
    ensures key.0 == row && col <= key.1 < col + len ==>
              key in Labels(cells, row, col, names, len) && Labels(cells, row, col, names, len)[key] == Str(names[key.1 - col])
    ensures !(key.0 == row && col <= key.1 < col + len) ==>
              (key in Labels(cells, row, col, names, len) <==> key in cells) && Get(Labels(cells, row, col, names, len), key) == Get(cells, key)
  {
    if len > 0 {
      LabelsCells(cells, row, col, names, len - 1, key);
    }
  }

  /**
   * The title sits in the first column of a range exactly as wide as the
   * labels, each label sits under its column, the rest of the title row is
   * placeholder, and no other cell changes.
   */
  lemma SectionHeaderCells(cells: map<Coord, Value>, start: int, title: string, names: seq<string>, key: Coord)
    requires 1 <= start && |names| >= 1
    ensures var g := SectionRange(start, |names|);
            g.right - g.left + 1 == |names| && g.top == g.bottom == 1
    ensures Get(SectionHeader(cells, start, title, names), (1, start)) == Str(title)
    ensures key.0 == 2 && start <= key.1 < start + |names| ==>
              Get(SectionHeader(cells, start, title, names), key) == Str(names[key.1 - start])
    ensures key.0 == 1 && start < key.1 < start + |names| ==>
              Get(SectionHeader(cells, start, title, names), key) == Missing
    ensures !(1 <= key.0 <= 2 && start <= key.1 < start + |names|) ==>
              (key in SectionHeader(cells, start, title, names) <==> key in cells)
              && Get(SectionHeader(cells, start, title, names), key) == Get(cells, key)
  {
    var g := SectionRange(start, |names|);
    var titled := MergedCells(cells, g)[(1, start) := Str(title)];
    LabelsCells(titled, 2, start, names, |names|, key);
    LabelsCells(titled, 2, start, names, |names|, (1, start));
    MergedCellsGet(cells, g, key);
  }

  // ---------------------------------------------------------------------
  // merge_safety_inventory (lines 8-37)

  /** Line 12: the safety table's own names for the identity fields. */
  function SafetyName(c: string): string {
    if c == "WaferID" then Wafer
    else if c == "OrderInformation" then SpecCode
    else if c == "ProductionNO." then Part
    else c
  }

  function Renamed(t: Table): (r: Table)
    ensures |r.cols| == |t.cols| && r.rows == t.rows
    ensures forall k :: 0 <= k < |t.cols| ==> r.cols[k] == SafetyName(t.cols[k])
  {
    Table(seq(|t.cols|, k requires 0 <= k < |t.cols| => SafetyName(t.cols[k])), t.rows)
  }

  /** Lines 12-17: the caller's safety table renamed, every row flagged unmatched. */
  function Unflagged(t: Table): (r: Table)
    requires WellFormed(t)
    ensures WellFormed(r) && |r.rows| == |t.rows|
  {
    WithColumn(Renamed(t), Flag, seq(|t.rows|, _ => Bool(false)))
  }

  /** One safety-stock record as the join sees it. */
  datatype Entry = Entry(key: seq<Value>, waf: Value, part: Value)

  /** Line 20: the records of the five joined columns. */
  function EntriesOf(t: Table): (es: seq<Entry>)
    requires WellFormed(t) && forall k :: 0 <= k < 5 ==> SafetyFields[k] in t.cols
    ensures |es| == |t.rows|
  {
    var sel := Select(t, SafetyFields);
    seq(|t.rows|, j requires 0 <= j < |t.rows| => Entry(sel.rows[j][..3], sel.rows[j][3], sel.rows[j][4]))
  }

  /** Each row's identity triple. */
  function KeysOf(t: Table): (ks: seq<seq<Value>>)
    requires WellFormed(t) && forall k :: 0 <= k < 3 ==> Keys[k] in t.cols
    ensures |ks| == |t.rows| && forall i :: 0 <= i < |ks| ==> |ks[i]| == 3
  {
    Select(t, Keys).rows
  }

  /**
   * The row once for each record of its key, in table order, extended by
   * that record's stock values (missing keys equal missing keys, as pandas
   * joins them).
   */
  function Matching(row: seq<Value>, key: seq<Value>, es: seq<Entry>): (ms: seq<seq<Value>>)
    ensures |ms| <= |es|
    decreases |es|
  {
    if es == [] then []
    else
      var n := |es| - 1;
      Matching(row, key, es[..n]) + (if es[n].key == key then [row + [es[n].waf, es[n].part]] else [])
  }

  /** The output rows of one summary row in the left join. */
  function JoinRow(row: seq<Value>, key: seq<Value>, es: seq<Entry>): (out: seq<seq<Value>>)
    ensures |out| >= 1
  {
    var ms := Matching(row, key, es);
    if ms == [] then [row + [Missing, Missing]] else ms
  }

  function JoinedTo(rows: seq<seq<Value>>, keys: seq<seq<Value>>, es: seq<Entry>, len: nat): (out: seq<seq<Value>>)
    requires len <= |rows| && len <= |keys|
    ensures |out| >= len
  {
    if len == 0 then []
    else JoinedTo(rows, keys, es, len - 1) + JoinRow(rows[len - 1], keys[len - 1], es)
  }

  /** Lines 19-22: `summary.merge(safety[fields], on=keys, how='left')`. */
  function LeftJoin(summary: Table, es: seq<Entry>): (r: Table)
    requires WellFormed(summary) && forall k :: 0 <= k < 3 ==> Keys[k] in summary.cols
    ensures WellFormed(r) && r.cols == summary.cols + [InvWaf, InvPart]
  {
    JoinedWidth(summary.rows, KeysOf(summary), es, |summary.rows|, |summary.cols|);
    Table(summary.cols + [InvWaf, InvPart], JoinedTo(summary.rows, KeysOf(summary), es, |summary.rows|))
  }

  /** Lines 23-24: the keys of the joined rows whose two stock values are both present. */
  function MatchedKeys(merged: Table): set<seq<Value>>
    requires WellFormed(merged) && forall k :: 0 <= k < 5 ==> SafetyFields[k] in merged.cols
  {
    assert SafetyFields[0] == Keys[0] && SafetyFields[1] == Keys[1] && SafetyFields[2] == Keys[2];
    assert SafetyFields[3] == InvWaf && SafetyFields[4] == InvPart;
    var ks := Select(merged, Keys).rows;
    var vs := Select(merged, [InvWaf, InvPart]).rows;
    set i | 0 <= i < |merged.rows| && vs[i][0] != Missing && vs[i][1] != Missing :: ks[i]
  }

  /** Line 26: each safety record's flag. */
  function SafetyFlags(es: seq<Entry>, matched: set<seq<Value>>): (flags: seq<Value>)
    ensures |flags| == |es|
    ensures forall j :: 0 <= j < |es| ==> flags[j] == Bool(es[j].key in matched)
  {
    seq(|es|, j requires 0 <= j < |es| => Bool(es[j].key in matched))
  }

  /**
   * The value returned and the caller's safety table afterwards. A missing
   * column raises before anything is written to the sheet; the rename and
   * the unmatched flags have already happened by then.
   */
  function SafetyMerge(summary: Table, safety: Table): (r: Result<(Table, Table), Error>)
    requires WellFormed(summary) && WellFormed(safety)
    ensures r.Failure? <==> FirstMissing(SafetyFields, Renamed(safety).cols + [Flag]) != None
                            || FirstMissing(Keys, summary.cols) != None
                            || InvWaf in summary.cols || InvPart in summary.cols
    ensures r.Success? ==> r.value.0.cols == summary.cols + [InvWaf, InvPart]
  {
    var t := Unflagged(safety);
    var miss := FirstMissing(SafetyFields, t.cols);
    var missKey := FirstMissing(Keys, summary.cols);
    if miss.Some? then Failure(MissingColumn(miss.value))
    else if missKey.Some? then Failure(MissingColumn(missKey.value))
    else if InvWaf in summary.cols then Failure(MissingColumn(InvWaf))
    else if InvPart in summary.cols then Failure(MissingColumn(InvPart))
    else
      var es := EntriesOf(t);
      var merged := LeftJoin(summary, es);
      Success((merged, WithColumn(t, Flag, SafetyFlags(es, MatchedKeys(merged)))))
  }

  lemma {:induction false} JoinedWidth(rows: seq<seq<Value>>, keys: seq<seq<Value>>, es: seq<Entry>, len: nat, w: nat)
    requires len <= |rows| && len <= |keys| && forall i :: 0 <= i < len ==> |rows[i]| == w
    ensures forall q :: 0 <= q < |JoinedTo(rows, keys, es, len)| ==> |JoinedTo(rows, keys, es, len)[q]| == w + 2
  {
    if len > 0 {
      JoinedWidth(rows, keys, es, len - 1, w);
      var b := JoinRow(rows[len - 1], keys[len - 1], es);
      forall m | 0 <= m < |b| ensures |b[m]| == w + 2 {
        JoinRowSound(rows[len - 1], keys[len - 1], es, m);
      }
    }
  }

  /**
   * `merge_safety_inventory`: the caller's safety table is renamed and
   * flagged in place, the joined table is returned, and the section header
   * is written once the join has succeeded.
   */
  method MergeSafetyInventory(summary: Table, safety: Frame, sheet: Sheet) returns (r: Result<Table, Error>)
    requires WellFormed(summary) && WellFormed(safety.Snapshot()) && sheet.Valid()
    modifies safety, sheet
    ensures sheet.Valid()
    ensures var m := SafetyMerge(summary, old(safety.Snapshot()));
            m.Failure? ==> r == Failure(m.error) && safety.Snapshot() == Unflagged(old(safety.Snapshot()))
                           && sheet.cells == old(sheet.cells) && sheet.fills == old(sheet.fills) && sheet.merged == old(sheet.merged)
    ensures var m := SafetyMerge(summary, old(safety.Snapshot()));
            m.Success? ==> r == Success(m.value.0) && safety.Snapshot() == m.value.1
                           && sheet.cells == SectionHeader(old(sheet.cells), 4, SafetyTitle, SafetyLabels) && sheet.fills == old(sheet.fills)
                           && sheet.merged == old(sheet.merged) + [SectionRange(4, 2)]
  {
    var t := Unflagged(safety.Snapshot());
    safety.Assign(t);
    var miss := FirstMissing(SafetyFields, t.cols);
    if miss.Some? {
      return Failure(MissingColumn(miss.value));
    }
    var missKey := FirstMissing(Keys, summary.cols);
    if missKey.Some? {
      return Failure(MissingColumn(missKey.value));
    }
    if InvWaf in summary.cols {
      return Failure(MissingColumn(InvWaf));
    }
    if InvPart in summary.cols {
      return Failure(MissingColumn(InvPart));
    }
    var es := EntriesOf(t);
    var merged := LeftJoin(summary, es);
    safety.Assign(WithColumn(t, Flag, SafetyFlags(es, MatchedKeys(merged))));
    WriteSectionHeader(sheet, 4, SafetyTitle, SafetyLabels);
    r := Success(merged);
  }

  // ---------------------------------------------------------------------
  // The join keeps the summary rows

  predicate UniqueKeys(es: seq<Entry>) {
    forall j1, j2 :: 0 <= j1 < j2 < |es| ==> es[j1].key != es[j2].key
  }

  /** Each extended row comes from a record of the key. */
  lemma {:induction false} MatchingSound(row: seq<Value>, key: seq<Value>, es: seq<Entry>, m: nat) returns (j: nat)
    requires m < |Matching(row, key, es)|
    ensures j < |es| && es[j].key == key && Matching(row, key, es)[m] == row + [es[j].waf, es[j].part]
    decreases |es|
  {
    var n := |es| - 1;
    var a := Matching(row, key, es[..n]);
    if m < |a| {
      j := MatchingSound(row, key, es[..n], m);
    } else {
      j := n;
    }
  }

  /** Each record of the key extends the row. */
  lemma {:induction false} MatchingComplete(row: seq<Value>, key: seq<Value>, es: seq<Entry>, j: nat) returns (m: nat)
    requires j < |es| && es[j].key == key
    ensures m < |Matching(row, key, es)| && Matching(row, key, es)[m] == row + [es[j].waf, es[j].part]
    decreases |es|
  {
    var n := |es| - 1;
    var a := Matching(row, key, es[..n]);
    if j < n {
      m := MatchingComplete(row, key, es[..n], j);
    } else {
      m := |a|;
    }
  }

  /** With one record per key a row is extended at most once: by its record, or not at all. */
  lemma {:induction false} MatchingUnique(row: seq<Value>, key: seq<Value>, es: seq<Entry>)
    requires UniqueKeys(es)
    ensures |Matching(row, key, es)| <= 1
    ensures forall j :: 0 <= j < |es| && es[j].key == key ==> Matching(row, key, es) == [row + [es[j].waf, es[j].part]]
    ensures (forall j :: 0 <= j < |es| ==> es[j].key != key) ==> Matching(row, key, es) == []
    decreases |es|
  {
    if es != [] {
      var n := |es| - 1;
      MatchingUnique(row, key, es[..n]);
    }
  }

  /** The single joined row of a summary row when keys are unique. */
  function Extension(row: seq<Value>, key: seq<Value>, es: seq<Entry>): seq<Value> {
    JoinRow(row, key, es)[0]
  }

  lemma {:induction false} JoinedToUnique(rows: seq<seq<Value>>, keys: seq<seq<Value>>, es: seq<Entry>, len: nat)
    requires len <= |rows| && len <= |keys| && UniqueKeys(es)
    ensures |JoinedTo(rows, keys, es, len)| == len
    ensures forall i :: 0 <= i < len ==> JoinedTo(rows, keys, es, len)[i] == Extension(rows[i], keys[i], es)
  {
    if len > 0 {
      JoinedToUnique(rows, keys, es, len - 1);
      MatchingUnique(rows[len - 1], keys[len - 1], es);
      assert |JoinRow(rows[len - 1], keys[len - 1], es)| == 1;
      forall i | 0 <= i < len
        ensures JoinedTo(rows, keys, es, len)[i] == Extension(rows[i], keys[i], es)
      {
        if i < len - 1 {
          JoinedToPrefix(rows, keys, es, len, i);
        } else {
          JoinedToLast(rows, keys, es, len, 0);
        }
      }
    }
  }

  /**
   * Lines 19-22: with one safety record per key, the join has exactly one
   * row per summary row, in the summary's order, extended by that key's
   * stock values or by two missing values.
   */
  lemma LeftJoinKeepsRows(summary: Table, es: seq<Entry>, i: nat)
    requires WellFormed(summary) && (forall k :: 0 <= k < 3 ==> Keys[k] in summary.cols) && UniqueKeys(es)
    requires i < |summary.rows|
    ensures |LeftJoin(summary, es).rows| == |summary.rows|
    ensures (exists j :: 0 <= j < |es| && es[j].key == KeysOf(summary)[i])
            ==> exists j :: 0 <= j < |es| && es[j].key == KeysOf(summary)[i]
                            && LeftJoin(summary, es).rows[i] == summary.rows[i] + [es[j].waf, es[j].part]
    ensures (forall j :: 0 <= j < |es| ==> es[j].key != KeysOf(summary)[i])
            ==> LeftJoin(summary, es).rows[i] == summary.rows[i] + [Missing, Missing]
  {
    var ks := KeysOf(summary);
    JoinedToUnique(summary.rows, ks, es, |summary.rows|);
    MatchingUnique(summary.rows[i], ks[i], es);
  }

  // ---------------------------------------------------------------------
  // Which safety records are flagged

  /** A record of the key with both stock values present. */
  predicate Stocked(es: seq<Entry>, key: seq<Value>) {
    exists j :: 0 <= j < |es| && es[j].key == key && es[j].waf != Missing && es[j].part != Missing
  }

  /** Every joined row comes from one summary row; its stock values are present only when a record stocks that row's key. */
  lemma {:induction false} JoinedToSound(rows: seq<seq<Value>>, keys: seq<seq<Value>>, es: seq<Entry>, len: nat, n: nat, q: nat)
    returns (i: nat)
    requires len <= |rows| && len <= |keys| && (forall i :: 0 <= i < len ==> |rows[i]| == n)
    requires q < |JoinedTo(rows, keys, es, len)|
    ensures i < len && |JoinedTo(rows, keys, es, len)[q]| == n + 2
    ensures JoinedTo(rows, keys, es, len)[q][..n] == rows[i]
    ensures JoinedTo(rows, keys, es, len)[q][n] != Missing && JoinedTo(rows, keys, es, len)[q][n + 1] != Missing
            ==> Stocked(es, keys[i])
  {
    var a := JoinedTo(rows, keys, es, len - 1);
    var b := JoinRow(rows[len - 1], keys[len - 1], es);
    assert JoinedTo(rows, keys, es, len) == a + b;
    if q < |a| {
      i := JoinedToSound(rows, keys, es, len - 1, n, q);
      assert JoinedTo(rows, keys, es, len)[q] == a[q];
    } else {
      i := len - 1;
      JoinRowSound(rows[i], keys[i], es, q - |a|);
      assert JoinedTo(rows, keys, es, len)[q] == b[q - |a|];
    }
  }

  lemma JoinRowSound(row: seq<Value>, key: seq<Value>, es: seq<Entry>, m: nat)
    requires m < |JoinRow(row, key, es)|
    ensures |JoinRow(row, key, es)[m]| == |row| + 2
    ensures JoinRow(row, key, es)[m][..|row|] == row
    ensures JoinRow(row, key, es)[m][|row|] != Missing && JoinRow(row, key, es)[m][|row| + 1] != Missing
            ==> Stocked(es, key)
  {
    if Matching(row, key, es) != [] {
      var j := MatchingSound(row, key, es, m);
    }
  }

  /** A record stocking the key yields a joined row with both values present. */
  lemma JoinRowComplete(row: seq<Value>, key: seq<Value>, es: seq<Entry>, j: nat) returns (m: nat)
    requires j < |es| && es[j].key == key
    ensures m < |JoinRow(row, key, es)| && JoinRow(row, key, es)[m] == row + [es[j].waf, es[j].part]
  {
    m := MatchingComplete(row, key, es, j);
  }

  /** A summary row whose key a record stocks gets a joined row with both stock values present. */
  lemma {:induction false} JoinedToComplete(rows: seq<seq<Value>>, keys: seq<seq<Value>>, es: seq<Entry>, len: nat, i: nat, j: nat)
    returns (q: nat)
    requires len <= |rows| && len <= |keys|
    requires i < len && j < |es| && es[j].key == keys[i] && es[j].waf != Missing && es[j].part != Missing
    ensures q < |JoinedTo(rows, keys, es, len)|
    ensures JoinedTo(rows, keys, es, len)[q] == rows[i] + [es[j].waf, es[j].part]
  {
    if i < len - 1 {
      q := JoinedToComplete(rows, keys, es, len - 1, i, j);
      JoinedToPrefix(rows, keys, es, len, q);
    } else {
      var m := JoinRowComplete(rows[i], keys[i], es, j);
      q := |JoinedTo(rows, keys, es, len - 1)| + m;
      JoinedToLast(rows, keys, es, len, m);
    }
  }

  /** The joined rows of a shorter prefix stay where they are. */
  lemma JoinedToPrefix(rows: seq<seq<Value>>, keys: seq<seq<Value>>, es: seq<Entry>, len: nat, q: nat)
    requires 0 < len <= |rows| && len <= |keys| && q < |JoinedTo(rows, keys, es, len - 1)|
    ensures q < |JoinedTo(rows, keys, es, len)| && JoinedTo(rows, keys, es, len)[q] == JoinedTo(rows, keys, es, len - 1)[q]
  {
  }

  /** The last summary row's joined rows come last. */
  lemma JoinedToLast(rows: seq<seq<Value>>, keys: seq<seq<Value>>, es: seq<Entry>, len: nat, m: nat)
    requires 0 < len <= |rows| && len <= |keys| && m < |JoinRow(rows[len - 1], keys[len - 1], es)|
    ensures |JoinedTo(rows, keys, es, len - 1)| + m < |JoinedTo(rows, keys, es, len)|
    ensures JoinedTo(rows, keys, es, len)[|JoinedTo(rows, keys, es, len - 1)| + m] == JoinRow(rows[len - 1], keys[len - 1], es)[m]
  {
  }

  /** A joined row that begins with summary row `i` carries that row's key and, after it, the two stock values. */
  lemma MergedRow(summary: Table, es: seq<Entry>, q: nat, i: nat)
    requires WellFormed(summary) && (forall k :: 0 <= k < 3 ==> Keys[k] in summary.cols)
    requires InvWaf !in summary.cols && InvPart !in summary.cols
    requires i < |summary.rows| && q < |LeftJoin(summary, es).rows|
    requires LeftJoin(summary, es).rows[q][..|summary.cols|] == summary.rows[i]
    ensures Select(LeftJoin(summary, es), Keys).rows[q] == KeysOf(summary)[i]
    ensures var o := LeftJoin(summary, es).rows[q];
            Select(LeftJoin(summary, es), [InvWaf, InvPart]).rows[q] == [o[|summary.cols|], o[|summary.cols| + 1]]
  {
    var m := LeftJoin(summary, es);
    var n := |summary.cols|;
    var o := m.rows[q];
    forall k | 0 <= k < 3
      ensures Select(m, Keys).rows[q][k] == KeysOf(summary)[i][k]
    {
      IndexOfPrefix(summary.cols, [InvWaf, InvPart], Keys[k]);
      assert o[IndexOf(summary.cols, Keys[k])] == summary.rows[i][IndexOf(summary.cols, Keys[k])];
    }
    assert IndexOf(m.cols, InvWaf) == n;
    assert IndexOf(m.cols, InvPart) == n + 1;
  }

  /**
   * Lines 23-26: a key counts as matched exactly when some summary row has
   * it and some safety record of it has both stock values present.
   */
  lemma MatchedKeyIff(summary: Table, es: seq<Entry>, key: seq<Value>)
    requires WellFormed(summary) && (forall k :: 0 <= k < 3 ==> Keys[k] in summary.cols)
    requires InvWaf !in summary.cols && InvPart !in summary.cols
    ensures key in MatchedKeys(LeftJoin(summary, es)) <==> key in KeysOf(summary) && Stocked(es, key)
  {
    if key in MatchedKeys(LeftJoin(summary, es)) {
      MatchedKeySound(summary, es, key);
    }
    if key in KeysOf(summary) && Stocked(es, key) {
      MatchedKeyComplete(summary, es, key);
    }
  }

  lemma MatchedKeySound(summary: Table, es: seq<Entry>, key: seq<Value>)
    requires WellFormed(summary) && (forall k :: 0 <= k < 3 ==> Keys[k] in summary.cols)
    requires InvWaf !in summary.cols && InvPart !in summary.cols
    requires key in MatchedKeys(LeftJoin(summary, es))
    ensures key in KeysOf(summary) && Stocked(es, key)
  {
    var m := LeftJoin(summary, es);
    var ks := Select(m, Keys).rows;
    var vs := Select(m, [InvWaf, InvPart]).rows;
    var n := |summary.cols|;
    var q :| 0 <= q < |m.rows| && vs[q][0] != Missing && vs[q][1] != Missing && ks[q] == key;
    var i := JoinedToSound(summary.rows, KeysOf(summary), es, |summary.rows|, n, q);
    var o := m.rows[q];
    assert o[..n] == summary.rows[i];
    MergedRow(summary, es, q, i);
    assert o[n] != Missing && o[n + 1] != Missing;
    assert KeysOf(summary)[i] == key;
  }

  lemma MatchedKeyComplete(summary: Table, es: seq<Entry>, key: seq<Value>)
    requires WellFormed(summary) && (forall k :: 0 <= k < 3 ==> Keys[k] in summary.cols)
    requires InvWaf !in summary.cols && InvPart !in summary.cols
    requires key in KeysOf(summary) && Stocked(es, key)
    ensures key in MatchedKeys(LeftJoin(summary, es))
  {
    var m := LeftJoin(summary, es);
    var n := |summary.cols|;
    var sk := KeysOf(summary);
    var ks := Select(m, Keys).rows;
    var vs := Select(m, [InvWaf, InvPart]).rows;
    var i :| 0 <= i < |sk| && sk[i] == key;
    var j :| 0 <= j < |es| && es[j].key == key && es[j].waf != Missing && es[j].part != Missing;
    var q := JoinedToComplete(summary.rows, sk, es, |summary.rows|, i, j);
    assert m.rows[q][..n] == summary.rows[i];
    MergedRow(summary, es, q, i);
    assert vs[q][0] != Missing && vs[q][1] != Missing && ks[q] == key;
  }

  /** Line 17: before the join every safety record is unmatched. */
  lemma UnflaggedUnmatched(t: Table, j: nat)
    requires WellFormed(t) && j < |t.rows|
    ensures Flag in Unflagged(t).cols && Unflagged(t).rows[j][IndexOf(Unflagged(t).cols, Flag)] == Bool(false)
  {
  }

  /**
   * Lines 17-26: after a successful merge a safety record is flagged
   * matched exactly when its key is a summary key and some record of that
   * key has both stock values present; the flag is its only change.
   */
  lemma SafetyMergeFlags(summary: Table, safety: Table, j: nat)
    requires WellFormed(summary) && WellFormed(safety) && SafetyMerge(summary, safety).Success?
    requires j < |safety.rows|
    ensures var t := Unflagged(safety);
            forall k :: 0 <= k < 5 ==> SafetyFields[k] in t.cols
    ensures var t := Unflagged(safety);
            var es := EntriesOf(t);
            var out := SafetyMerge(summary, safety).value.1;
            out.cols == t.cols && |out.rows| == |t.rows|
            && out.rows[j][IndexOf(out.cols, Flag)] == Bool(es[j].key in KeysOf(summary) && Stocked(es, es[j].key))
            && forall k :: 0 <= k < |t.cols| && t.cols[k] != Flag ==> out.rows[j][k] == t.rows[j][k]
  {
    var t := Unflagged(safety);
    var es := EntriesOf(t);
    MatchedKeyIff(summary, es, es[j].key);
  }

  // ---------------------------------------------------------------------
  // merge_unfulfilled_orders (lines 40-58)

  const PendingHistory := "历史未交订单数量"
  const PendingSum := "总未交订单"
  const PendingMarker := "未交订单数量_"

  /** Line 44: a per-month pending-order column. */
  predicate IsPendingMonth(c: string) {
    Contains(c, PendingMarker)
  }

  function PendingMonthTest(): string -> bool {
    c => IsPendingMonth(c)
  }

  /** Lines 44-45: the history column when present, then the month columns in table order. */
  function AllPending(cols: seq<string>): (r: seq<string>)
    ensures forall k :: 0 <= k < |r| ==> r[k] in cols
  {
    var months := PendingMonths(cols);
    if PendingHistory in cols then [PendingHistory] + months else months
  }

  /** Line 44: the per-month columns, in table order. */
  function PendingMonths(cols: seq<string>): (r: seq<string>)
    ensures forall k :: 0 <= k < |r| ==> r[k] in cols
  {
    FilterMembers(cols, PendingMonthTest());
    Filter(cols, PendingMonthTest())
  }

  /** Line 48: the columns the section shows, the overall total first. */
  function ColumnsToWrite(cols: seq<string>): seq<string> {
    [PendingSum] + AllPending(cols)
  }

  /** Line 51. */
  const PendingTitle := "未交订单"

  /** Line 46: the caller's table gains the overall total, the row sum of the pending columns. */
  function PendingTotals(t: Table): (r: Table)
    requires WellFormed(t)
    ensures WellFormed(r) && |r.rows| == |t.rows|
  {
    WithColumn(t, PendingSum, RowSums(t, AllPending(t.cols)))
  }

  /**
   * `merge_unfulfilled_orders`: sets the overall total on the caller's
   * table, writes the section header from `startCol`, and returns the
   * columns the section shows. A start column below 1 makes the merge of
   * line 51 raise, after the total has been set and before anything is
   * written.
   */
  method MergeUnfulfilledOrders(sheet: Sheet, pending: Frame, startCol: int) returns (r: Result<seq<string>, Error>)
    requires sheet.Valid() && WellFormed(pending.Snapshot())
    modifies sheet, pending
    ensures pending.Snapshot() == PendingTotals(old(pending.Snapshot()))
    ensures sheet.Valid()
    ensures startCol < 1 ==>
              r == Failure(CellOutOfRange(startCol))
              && sheet.cells == old(sheet.cells) && sheet.merged == old(sheet.merged) && sheet.fills == old(sheet.fills)
    ensures 1 <= startCol ==>
              var written := ColumnsToWrite(old(pending.cols));
              && r == Success(written)
              && sheet.cells == SectionHeader(old(sheet.cells), startCol, PendingTitle, written)
              && sheet.merged == old(sheet.merged) + [SectionRange(startCol, |written|)]
              && sheet.fills == old(sheet.fills)
  {
    var t := pending.Snapshot();
    pending.Assign(PendingTotals(t));
    if startCol < 1 {
      return Failure(CellOutOfRange(startCol));
    }
    var written := ColumnsToWrite(t.cols);
    WriteSectionHeader(sheet, startCol, PendingTitle, written);
    r := Success(written);
  }

  /**
   * Lines 44-48: the shown columns are the overall total, then the history
   * column when the table has one, then every per-month column in table order.
   */
  lemma ColumnsToWriteOrder(cols: seq<string>)
    ensures var w := ColumnsToWrite(cols);
            w[0] == PendingSum
            && (PendingHistory in cols ==> w[1] == PendingHistory && w[2..] == PendingMonths(cols))
            && (PendingHistory !in cols ==> w[1..] == PendingMonths(cols))
  {
  }

  /** Lines 44-48: a column is shown after the total exactly when it is the history column or a per-month column of the table. */
  lemma ColumnsToWriteMembers(cols: seq<string>)
    ensures forall c :: c in ColumnsToWrite(cols)[1..] <==> c in cols && (c == PendingHistory || IsPendingMonth(c))
  {
    assert ColumnsToWrite(cols)[1..] == AllPending(cols);
    FilterMembers(cols, PendingMonthTest());
  }

  /** Line 46: each row's overall total is its history amount (if any) plus its month amounts. */
  lemma PendingTotalCell(t: Table, i: nat)
    requires WellFormed(t) && i < |t.rows|
    ensures PendingSum in PendingTotals(t).cols
    ensures var r := PendingTotals(t);
            r.rows[i][IndexOf(r.cols, PendingSum)]
              == Num((if PendingHistory in t.cols then NumOf(t.rows[i][IndexOf(t.cols, PendingHistory)]) else 0)
                     + RowSum(t, i, PendingMonths(t.cols)))
  {
    PendingSumSplit(t, i);
  }

  lemma PendingSumSplit(t: Table, i: nat)
    requires WellFormed(t) && i < |t.rows|
    ensures RowSum(t, i, AllPending(t.cols))
            == (if PendingHistory in t.cols then NumOf(t.rows[i][IndexOf(t.cols, PendingHistory)]) else 0)
               + RowSum(t, i, PendingMonths(t.cols))
  {
    var months := PendingMonths(t.cols);
    if PendingHistory in t.cols {
      RowSumAppend(t, i, [PendingHistory], months);
      assert [PendingHistory][..0] == [];
    }
  }

  // ---------------------------------------------------------------------
  // merge_prediction_data (lines 61-96)

  const Model := "产品型号"
  const ProductionNo := "ProductionNO."

  /** Lines 72-76: the forecast section's title and labels. */
  const ForecastTitle := "预测"
  const ForecastLabels := [Quantity, Amount]
  const Quantity := "合计数量"
  const Amount := "合计金额"

  /** Line 69: the forecast columns the lookup needs, its key first. */
  const ForecastFields := [Wafer, Model, ProductionNo, Quantity, Amount]

  /**
   * Line 65: the labels the first row supplies, each value as text. pandas
   * keeps a number or NaN label as it is; the five names the lookup needs
   * are text either way.
   */
  function HeaderNames(row: seq<Value>): (names: seq<string>)
    ensures |names| == |row|
  {
    seq(|row|, k requires 0 <= k < |row| => Pivot.Text(row[k]))
  }

  /** Line 65: the caller's table, relabelled by its own first row; the caller keeps seeing this. */
  function Relabelled(t: Table): (r: Table)
    requires WellFormed(t) && |t.rows| > 0
    ensures WellFormed(r) && r.rows == t.rows
    ensures r.cols == HeaderNames(t.rows[0])
    ensures forall k :: 0 <= k < |r.cols| ==> r.cols[k] == Pivot.Text(t.rows[0][k])
  {
    Table(HeaderNames(t.rows[0]), t.rows)
  }

  /** Lines 65-67: the local forecast table, the label row dropped and every row unmatched. */
  function Forecasts(t: Table): (r: Table)
    requires WellFormed(t) && |t.rows| > 0
    ensures WellFormed(r) && |r.rows| == |t.rows| - 1 && Flag in r.cols
    ensures var labels := HeaderNames(t.rows[0]);
            r.cols == if Flag in labels then labels else labels + [Flag]
    ensures forall i, k :: 0 <= i < |r.rows| && 0 <= k < |t.cols| && HeaderNames(t.rows[0])[k] != Flag ==>
              r.rows[i][k] == t.rows[i + 1][k]
    ensures forall i :: 0 <= i < |r.rows| ==> r.rows[i][IndexOf(r.cols, Flag)] == Bool(false)
  {
    var h := Relabelled(t);
    WithColumn(Table(h.cols, h.rows[1..]), Flag, seq(|t.rows| - 1, _ => Bool(false)))
  }

  /** A forecast row as the lookup sees it: its key as text, then its quantity and amount. */
  datatype Forecast = Forecast(key: seq<string>, qty: Value, amt: Value)

  function ForecastsOf(t: Table): (fs: seq<Forecast>)
    requires WellFormed(t) && forall k :: 0 <= k < 5 ==> ForecastFields[k] in t.cols
    ensures |fs| == |t.rows|
  {
    var s := Select(t, ForecastFields).rows;
    seq(|s|, i requires 0 <= i < |s| =>
      Forecast([Pivot.Text(s[i][0]), Pivot.Text(s[i][1]), Pivot.Text(s[i][2])], s[i][3], s[i][4]))
  }

  /** Lines 83-89: the forecast row whose values are written for a key, if any. */
  function FirstMatch(fs: seq<Forecast>, key: seq<string>): (r: Option<nat>)
    ensures r.Some? ==> r.value < |fs|
  {
    if fs == [] then None
    else if fs[0].key == key then Some(0)
    else match FirstMatch(fs[1..], key)
      case None => None
      case Some(j) => Some(j + 1)
  }

  /**
   * Lines 83-89: the row found is the first forecast row with the key, and
   * nothing is found exactly when no forecast row has it.
   */
  lemma {:induction false} FirstMatchFirst(fs: seq<Forecast>, key: seq<string>)
    ensures var r := FirstMatch(fs, key);
            (r.Some? ==> fs[r.value].key == key && forall j :: 0 <= j < r.value ==> fs[j].key != key)
            && (r.None? <==> forall j :: 0 <= j < |fs| ==> fs[j].key != key)
  {
    if fs != [] && fs[0].key != key {
      FirstMatchFirst(fs[1..], key);
      assert forall j :: 1 <= j < |fs| ==> fs[j] == fs[1..][j - 1];
    }
  }

  /** `str` of a sheet cell: an empty cell reads "None", unlike pandas' "nan". */
  function CellText(v: Value): string {
    if v == Missing then "None" else Pivot.Text(v)
  }

  /** Lines 78-82: the key of a summary row, its first three cells as text. */
  function KeyOf(a: Value, b: Value, c: Value): seq<string> {
    [CellText(a), CellText(b), CellText(c)]
  }

  function SheetKey(cells: map<Coord, Value>, row: int): seq<string> {
    KeyOf(Get(cells, (row, 1)), Get(cells, (row, 2)), Get(cells, (row, 3)))
  }

  /** Lines 79-83: reading a row's key creates its first three cells. */
  function KeyRead(cells: map<Coord, Value>, row: int): map<Coord, Value> {
    Touch(Touch(Touch(cells, (row, 1)), (row, 2)), (row, 3))
  }

  /** Reading the key cells changes no cell's value. */
  lemma KeyReadGet(cells: map<Coord, Value>, row: int, j: Coord)
    ensures Get(KeyRead(cells, row), j) == Get(cells, j)
  {
    TouchGet(cells, (row, 1), j);
    TouchGet(Touch(cells, (row, 1)), (row, 2), j);
    TouchGet(Touch(Touch(cells, (row, 1)), (row, 2)), (row, 3), j);
  }

  /** Lines 79-92 for one row: its key cells are read (and so created), then a match's values written. */
  function LookupRow(cells: map<Coord, Value>, row: int, start: int, fs: seq<Forecast>): map<Coord, Value> {
    Written(KeyRead(cells, row), row, start, fs, FirstMatch(fs, SheetKey(cells, row)))
  }

  /** Lines 90-92: a match's quantity and amount written into the section's two columns. */
  function Written(cells: map<Coord, Value>, row: int, start: int, fs: seq<Forecast>, m: Option<nat>): map<Coord, Value>
    requires m.Some? ==> m.value < |fs|
  {
    match m
    case None => cells
    case Some(j) => cells[(row, start) := fs[j].qty][(row, start + 1) := fs[j].amt]
  }

  /** The cells once rows 3 to `n` + 2 have been looked up. */
  function LookupRows(cells: map<Coord, Value>, start: int, fs: seq<Forecast>, n: nat): map<Coord, Value> {
    if n == 0 then cells else LookupRow(LookupRows(cells, start, fs, n - 1), n + 2, start, fs)
  }

  /** The keys of rows 3 to `n` + 2, in order. */
  function SeenKeys(cells: map<Coord, Value>, n: nat): (keys: seq<seq<string>>)
    ensures |keys| == n
  {
    if n == 0 then [] else SeenKeys(cells, n - 1) + [SheetKey(cells, n + 2)]
  }

  /** Line 92: a forecast row is flagged once some summary row has its key. */
  function MatchFlags(fs: seq<Forecast>, seen: seq<seq<string>>): (flags: seq<Value>)
    ensures |flags| == |fs|
  {
    seq(|fs|, j requires 0 <= j < |fs| => Bool(fs[j].key in seen))
  }

  /**
   * `merge_prediction_data`: relabels the caller's table by its first row,
   * and, when the forecast has every needed column, writes the section
   * after the last used column and looks up every summary row from row 3.
   * The returned table is the forecast without its label row, flagged.
   */
  method MergePredictionData(sheet: Sheet, pred: Frame) returns (r: Result<Table, Error>)
    requires sheet.Valid() && WellFormed(pred.Snapshot())
    modifies sheet, pred
    ensures sheet.Valid()
    ensures |old(pred.rows)| == 0 ==>
              r == Failure(NoHeaderRow) && pred.Snapshot() == old(pred.Snapshot())
              && sheet.cells == old(sheet.cells) && sheet.fills == old(sheet.fills) && sheet.merged == old(sheet.merged)
    ensures |old(pred.rows)| > 0 ==> pred.Snapshot() == Relabelled(old(pred.Snapshot()))
    ensures |old(pred.rows)| > 0 && FirstMissing(ForecastFields, Forecasts(old(pred.Snapshot())).cols).Some? ==>
              r == Success(Forecasts(old(pred.Snapshot())))
              && sheet.cells == old(sheet.cells) && sheet.fills == old(sheet.fills) && sheet.merged == old(sheet.merged)
    ensures |old(pred.rows)| > 0 && FirstMissing(ForecastFields, Forecasts(old(pred.Snapshot())).cols).None? ==>
              var t := Forecasts(old(pred.Snapshot()));
              var start := old(sheet.maxCol) + 1;
              var n := Max(old(sheet.maxRow), 2) - 2;
              r == Success(WithColumn(t, Flag, MatchFlags(ForecastsOf(t), SeenKeys(old(sheet.cells), n))))
              && sheet.cells == LookupRows(SectionHeader(old(sheet.cells), start, ForecastTitle, ForecastLabels), start, ForecastsOf(t), n)
              && sheet.fills == old(sheet.fills) && sheet.merged == old(sheet.merged) + [SectionRange(start, 2)]
  {
    if |pred.rows| == 0 {
      return Failure(NoHeaderRow);
    }
    var t0 := pred.Snapshot();
    var t := Forecasts(t0);
    if FirstMissing(ForecastFields, t.cols).Some? {
      r := Success(t);
    } else {
      var flags := WriteForecasts(sheet, ForecastsOf(t));
      r := Success(WithColumn(t, Flag, flags));
    }
    // The caller's table is relabelled last: nothing in between reads it.
    pred.Assign(Relabelled(t0));
  }

  /** Lines 72-92: the section after the last used column, then the lookup of every summary row. */
  method WriteForecasts(sheet: Sheet, fs: seq<Forecast>) returns (flags: seq<Value>)
    requires sheet.Valid()
    modifies sheet
    ensures sheet.Valid()
    ensures var start := old(sheet.maxCol) + 1;
            var n := Max(old(sheet.maxRow), 2) - 2;
            flags == MatchFlags(fs, SeenKeys(old(sheet.cells), n))
            && sheet.cells == LookupRows(SectionHeader(old(sheet.cells), start, ForecastTitle, ForecastLabels), start, fs, n)
            && sheet.fills == old(sheet.fills) && sheet.merged == old(sheet.merged) + [SectionRange(start, 2)]
  {
    var start := sheet.maxCol + 1;
    ghost var n := Max(sheet.maxRow, 2) - 2;
    ghost var c0 := sheet.cells;
    WriteSectionHeader(sheet, start, ForecastTitle, ForecastLabels);
    flags := LookUpForecasts(sheet, start, fs);
    SeenKeysHeader(c0, start, n);
  }

  /** Lines 78-92: every row from 3 to the last is looked up; the flags of the matched forecast rows are returned. */
  method LookUpForecasts(sheet: Sheet, start: int, fs: seq<Forecast>) returns (flags: seq<Value>)
    requires sheet.Valid() && 1 <= start && 2 <= sheet.maxRow
    modifies sheet
    ensures sheet.Valid()
    ensures sheet.cells == LookupRows(old(sheet.cells), start, fs, old(sheet.maxRow) - 2)
    ensures flags == MatchFlags(fs, SeenKeys(old(sheet.cells), old(sheet.maxRow) - 2))
    ensures sheet.fills == old(sheet.fills) && sheet.merged == old(sheet.merged)
  {
    flags := MatchFlags(fs, []);
    var last := sheet.maxRow;
    for row := 3 to last + 1
      invariant sheet.Valid()
      invariant sheet.cells == LookupRows(old(sheet.cells), start, fs, row - 3)
      invariant flags == MatchFlags(fs, SeenKeys(old(sheet.cells), row - 3))
      invariant sheet.fills == old(sheet.fills) && sheet.merged == old(sheet.merged)
    {
      ghost var before := sheet.cells;
      ghost var seen := SeenKeys(old(sheet.cells), row - 3);
      ghost var expected := SheetKey(old(sheet.cells), row);
      LookupRowsKey(old(sheet.cells), start, fs, row - 3, row);
      assert SheetKey(before, row) == expected;
      var key, m := LookUpRow(sheet, row, start, fs);
      assert key == expected;
      SeenKeysStep(old(sheet.cells), row - 3);
      MatchFlagsStep(fs, seen, key);
      if m.Some? {
        flags := Raised(flags, fs, key);
      }
    }
  }

  /** Lines 79-92 for one row: reads its key cells, and writes the first match's values. */
  method LookUpRow(sheet: Sheet, row: int, start: int, fs: seq<Forecast>) returns (key: seq<string>, m: Option<nat>)
    requires sheet.Valid() && 1 <= row && 1 <= start
    modifies sheet
    ensures sheet.Valid()
    ensures key == SheetKey(old(sheet.cells), row) && m == FirstMatch(fs, key)
    ensures sheet.cells == LookupRow(old(sheet.cells), row, start, fs)
    ensures sheet.fills == old(sheet.fills) && sheet.merged == old(sheet.merged)
  {
    key := ReadKey(sheet, row);
    m := FirstMatch(fs, key);
    WriteMatch(sheet, row, start, fs, m);
  }

  /** Lines 90-92. */
  method WriteMatch(sheet: Sheet, row: int, start: int, fs: seq<Forecast>, m: Option<nat>)
    requires sheet.Valid() && 1 <= row && 1 <= start && (m.Some? ==> m.value < |fs|)
    modifies sheet
    ensures sheet.Valid()
    ensures sheet.cells == Written(old(sheet.cells), row, start, fs, m)
    ensures sheet.fills == old(sheet.fills) && sheet.merged == old(sheet.merged)
  {
    if m.Some? {
      sheet.Write(row, start, fs[m.value].qty);
      sheet.Write(row, start + 1, fs[m.value].amt);
    }
  }

  /** Lines 79-83: the key of a summary row, read cell by cell. */
  method ReadKey(sheet: Sheet, row: int) returns (key: seq<string>)
    requires sheet.Valid() && 1 <= row
    modifies sheet
    ensures sheet.Valid()
    ensures key == SheetKey(old(sheet.cells), row)
    ensures sheet.cells == KeyRead(old(sheet.cells), row)
    ensures sheet.fills == old(sheet.fills) && sheet.merged == old(sheet.merged)
  {
    ghost var c0 := sheet.cells;
    var a := sheet.Cell(row, 1);
    var b := sheet.Cell(row, 2);
    var c := sheet.Cell(row, 3);
    key := KeyOf(a, b, c);
    TouchGet(c0, (row, 1), (row, 2));
    TouchGet(c0, (row, 1), (row, 3));
    TouchGet(Touch(c0, (row, 1)), (row, 2), (row, 3));
  }

  /** Line 92: the flags of the forecast rows of `key` set. */
  function Raised(flags: seq<Value>, fs: seq<Forecast>, key: seq<string>): seq<Value>
    requires |flags| == |fs|
  {
    seq(|fs|, i requires 0 <= i < |fs| => if fs[i].key == key then Bool(true) else flags[i])
  }

  /** One more row's key raises the flags of its forecast rows, and changes nothing when it has none. */
  lemma MatchFlagsStep(fs: seq<Forecast>, seen: seq<seq<string>>, key: seq<string>)
    ensures MatchFlags(fs, seen + [key]) == Raised(MatchFlags(fs, seen), fs, key)
    ensures FirstMatch(fs, key).None? ==> MatchFlags(fs, seen + [key]) == MatchFlags(fs, seen)
  {
    FirstMatchFirst(fs, key);
  }

  lemma SeenKeysStep(cells: map<Coord, Value>, n: nat)
    ensures SeenKeys(cells, n + 1) == SeenKeys(cells, n) + [SheetKey(cells, n + 3)]
  {
  }

  lemma LookupRowsKey(cells: map<Coord, Value>, start: int, fs: seq<Forecast>, n: nat, row: int)
    requires row >= n + 3
    ensures SheetKey(LookupRows(cells, start, fs, n), row) == SheetKey(cells, row)
  {
    LookupRowsBelow(cells, start, fs, n, row, 1);
    LookupRowsBelow(cells, start, fs, n, row, 2);
    LookupRowsBelow(cells, start, fs, n, row, 3);
  }

  /** The rows not yet looked up still hold their original key cells. */
  lemma {:induction false} LookupRowsBelow(cells: map<Coord, Value>, start: int, fs: seq<Forecast>, n: nat, row: int, col: int)
    requires row >= n + 3
    ensures Get(LookupRows(cells, start, fs, n), (row, col)) == Get(cells, (row, col))
  {
    if n > 0 {
      LookupRowsBelow(cells, start, fs, n - 1, row, col);
      LookupRowOther(LookupRows(cells, start, fs, n - 1), n + 2, start, fs, (row, col));
    }
  }

  /** One row's lookup: the matched values land in the section's two columns, and nothing else changes value. */
  lemma LookupRowCell(cells: map<Coord, Value>, row: int, start: int, fs: seq<Forecast>, key: Coord)
    ensures var m := FirstMatch(fs, SheetKey(cells, row));
            (m.Some? && key == (row, start) ==> Get(LookupRow(cells, row, start, fs), key) == fs[m.value].qty)
            && (m.Some? && key == (row, start + 1) ==> Get(LookupRow(cells, row, start, fs), key) == fs[m.value].amt)
            && (!(m.Some? && key.0 == row && (key.1 == start || key.1 == start + 1)) ==>
                Get(LookupRow(cells, row, start, fs), key) == Get(cells, key))
  {
    KeyReadGet(cells, row, key);
  }

  /** One row's lookup leaves the other rows' values alone. */
  lemma LookupRowOther(cells: map<Coord, Value>, row: int, start: int, fs: seq<Forecast>, key: Coord)
    requires key.0 != row
    ensures Get(LookupRow(cells, row, start, fs), key) == Get(cells, key)
  {
    KeyReadGet(cells, row, key);
  }

  /** The section header only writes rows 1 and 2, so the keys from row 3 on are as they were. */
  lemma {:induction false} SeenKeysHeader(cells: map<Coord, Value>, start: int, n: nat)
    requires 1 <= start
    ensures SeenKeys(SectionHeader(cells, start, ForecastTitle, ForecastLabels), n) == SeenKeys(cells, n)
  {
    if n > 0 {
      SeenKeysHeader(cells, start, n - 1);
      SectionHeaderCells(cells, start, ForecastTitle, ForecastLabels, (n + 2, 1));
      SectionHeaderCells(cells, start, ForecastTitle, ForecastLabels, (n + 2, 2));
      SectionHeaderCells(cells, start, ForecastTitle, ForecastLabels, (n + 2, 3));
    }
  }

  /**
   * The value a cell is meant to hold once rows 3 to `n` + 2 are looked up:
   * in a row whose key a forecast row has, the first such row's quantity
   * and amount in the section's two columns; elsewhere what it held.
   */
  function Expected(cells: map<Coord, Value>, start: int, fs: seq<Forecast>, n: nat, row: int, col: int): Value {
    var m := FirstMatch(fs, SheetKey(cells, row));
    if 3 <= row < n + 3 && m.Some? && col == start then fs[m.value].qty
    else if 3 <= row < n + 3 && m.Some? && col == start + 1 then fs[m.value].amt
    else Get(cells, (row, col))
  }

  /** Lines 78-92: every cell of the sheet holds its expected value after the lookup. */
  lemma LookupRowsCells(cells: map<Coord, Value>, start: int, fs: seq<Forecast>, n: nat, row: int, col: int)
    ensures Get(LookupRows(cells, start, fs, n), (row, col)) == Expected(cells, start, fs, n, row, col)
  {
    if row >= n + 3 {
      LookupRowsBelow(cells, start, fs, n, row, col);
    } else if row < 3 {
      LookupRowsAbove(cells, start, fs, n, 0, row, col);
    } else {
      var m := row - 2;
      LookupRowsAbove(cells, start, fs, n, m, row, col);
      LookupRowsLast(cells, start, fs, m, col);
      ExpectedLooked(cells, start, fs, n, m, row, col);
    }
  }

  /** Looking up one more row leaves the other rows' cells alone. */
  lemma LookupRowsEarlier(cells: map<Coord, Value>, start: int, fs: seq<Forecast>, n: nat, row: int, col: int)
    requires 0 < n && row != n + 2
    ensures Get(LookupRows(cells, start, fs, n), (row, col)) == Get(LookupRows(cells, start, fs, n - 1), (row, col))
  {
    LookupRowOther(LookupRows(cells, start, fs, n - 1), n + 2, start, fs, (row, col));
  }

  /** Once a row is looked up, later lookups leave it alone. */
  lemma LookupRowsAbove(cells: map<Coord, Value>, start: int, fs: seq<Forecast>, n: nat, m: nat, row: int, col: int)
    requires m <= n && row < m + 3
    ensures Get(LookupRows(cells, start, fs, n), (row, col)) == Get(LookupRows(cells, start, fs, m), (row, col))
  {
    var stages := (i: nat) => LookupRows(cells, start, fs, i);
    forall i: nat | m < i <= n
      ensures Get(stages(i), (row, col)) == Get(stages(i - 1), (row, col))
    {
      LookupRowsEarlier(cells, start, fs, i, row, col);
    }
    Settled(stages, n, m, (row, col));
  }

  /** A cell no step from stage `m` to stage `n` changes holds at stage `n` what it held at stage `m`. */
  lemma {:induction false} Settled(stages: nat -> map<Coord, Value>, n: nat, m: nat, k: Coord)
    requires m <= n
    requires forall i: nat :: m < i <= n ==> Get(stages(i), k) == Get(stages(i - 1), k)
    ensures Get(stages(n), k) == Get(stages(m), k)
    decreases n
  {
    if m < n {
      Settled(stages, n - 1, m, k);
    }
  }

  /** A row already looked up is expected to hold the same, however many rows follow it. */
  lemma ExpectedLooked(cells: map<Coord, Value>, start: int, fs: seq<Forecast>, n: nat, m: nat, row: int, col: int)
    requires 3 <= row < m + 3 && m <= n
    ensures Expected(cells, start, fs, n, row, col) == Expected(cells, start, fs, m, row, col)
  {
  }

  /** A row's cells just after it is looked up. */
  lemma LookupRowsLast(cells: map<Coord, Value>, start: int, fs: seq<Forecast>, n: nat, col: int)
    requires 0 < n
    ensures Get(LookupRows(cells, start, fs, n), (n + 2, col)) == Expected(cells, start, fs, n, n + 2, col)
  {
    var prev := LookupRows(cells, start, fs, n - 1);
    LookupRowCell(prev, n + 2, start, fs, (n + 2, col));
    LookupRowsKey(cells, start, fs, n - 1, n + 2);
    LookupRowsBelow(cells, start, fs, n - 1, n + 2, col);
  }

  /**
   * Lines 73-92: the forecast section occupies the two columns after the
   * sheet's last one; no cell outside them, nor below the rows looked up,
   * changes value.
   */
  lemma ForecastSectionColumns(cells: map<Coord, Value>, start: int, fs: seq<Forecast>, n: nat, k: Coord)
    requires 1 <= start
    ensures Get(LookupRows(SectionHeader(cells, start, ForecastTitle, ForecastLabels), start, fs, n), k) != Get(cells, k)
            ==> start <= k.1 <= start + 1 && 1 <= k.0 < n + 3
  {
    var header := SectionHeader(cells, start, ForecastTitle, ForecastLabels);
    LookupRowsCells(header, start, fs, n, k.0, k.1);
    SectionHeaderCells(cells, start, ForecastTitle, ForecastLabels, k);
  }

  /** The keys seen are exactly the keys of rows 3 to `n` + 2. */
  lemma {:induction false} SeenKeysIff(cells: map<Coord, Value>, n: nat, key: seq<string>)
    ensures key in SeenKeys(cells, n) <==> exists row :: 3 <= row < n + 3 && SheetKey(cells, row) == key
  {
    if n > 0 {
      SeenKeysIff(cells, n - 1, key);
      var prev := SeenKeys(cells, n - 1);
      var last := SheetKey(cells, n + 2);
      assert SeenKeys(cells, n) == prev + [last];
      assert key in prev + [last] <==> key in prev || key == last;
    }
  }

  /**
   * Lines 83-92: a forecast row ends up flagged exactly when some summary
   * row from row 3 on has its key.
   */
  lemma ForecastFlag(cells: map<Coord, Value>, fs: seq<Forecast>, n: nat, j: nat)
    requires j < |fs|
    ensures MatchFlags(fs, SeenKeys(cells, n))[j]
            == Bool(exists row :: 3 <= row < n + 3 && SheetKey(cells, row) == fs[j].key)
  {
    SeenKeysIff(cells, n, fs[j].key);
  }

  // ---------------------------------------------------------------------
  // Lines 99-107: colouring the rows of a table that found no match.
  // ---------------------------------------------------------------------

  /** The row the first table row is written to, and the colour, when the caller gives none. */
  const DefaultStartRow := 2
  const Red := "FF0000"

  /**
   * Python's truth value of a flag cell: a non-zero number, a non-empty
   * string and any date are true; an empty cell is pandas' NaN, which is
   * true as well (a None flag, which is false, is not modelled).
   */
  predicate Truthy(v: Value) {
    match v
    case Bool(b) => b
    case Num(n) => n != 0
    case Str(s) => s != ""
    case Date(_) => true
    case Missing => true
  }

  /** The fills once columns 1 to `width` of row `row` are coloured. */
  function PaintedFills(fills: map<Coord, string>, row: int, width: nat, color: string): map<Coord, string> {
    if width == 0 then fills else PaintedFills(fills, row, width - 1, color)[(row, width) := color]
  }

  /** The cells once columns 1 to `width` of row `row` are accessed. */
  function TouchedRow(cells: map<Coord, Value>, row: int, width: nat): map<Coord, Value> {
    if width == 0 then cells else Touch(TouchedRow(cells, row, width - 1), (row, width))
  }

  /** Lines 104-107: the fills once one table row is seen: coloured only when its flag is false. */
  function FlaggedFills(fills: map<Coord, string>, flag: Value, row: int, width: nat, color: string): map<Coord, string> {
    if Truthy(flag) then fills else PaintedFills(fills, row, width, color)
  }

  /** The cells once one table row is seen. */
  function FlaggedCells(cells: map<Coord, Value>, flag: Value, row: int, width: nat): map<Coord, Value> {
    if Truthy(flag) then cells else TouchedRow(cells, row, width)
  }

  /**
   * Lines 103-107: the fills once the rows of `flags`, written from row
   * `startRow` on, are coloured across `width` columns where their flag is false.
   */
  function MarkedFills(fills: map<Coord, string>, flags: seq<Value>, startRow: int, width: nat, color: string): map<Coord, string> {
    if flags == [] then fills
    else FlaggedFills(MarkedFills(fills, flags[..|flags| - 1], startRow, width, color), flags[|flags| - 1], startRow + |flags| - 1, width, color)
  }

  /** The cells once the same rows are coloured: every coloured cell exists. */
  function MarkedCells(cells: map<Coord, Value>, flags: seq<Value>, startRow: int, width: nat): map<Coord, Value> {
    if flags == [] then cells
    else FlaggedCells(MarkedCells(cells, flags[..|flags| - 1], startRow, width), flags[|flags| - 1], startRow + |flags| - 1, width)
  }

  /** Whether the cell at `k` belongs to an unmatched row of the table, within its width. */
  predicate Unmatched(flags: seq<Value>, startRow: int, width: nat, k: Coord) {
    startRow <= k.0 < startRow + |flags| && 1 <= k.1 <= width && !Truthy(flags[k.0 - startRow])
  }

  /**
   * Lines 99-107: `mark_unmatched_rows`. The table needs its match-flag
   * column (pandas raises otherwise, and nothing is coloured); then each
   * row whose flag is false is coloured `color` across as many columns as
   * the table has.
   */
  method MarkUnmatchedRows(sheet: Sheet, t: Table, startRow: int, color: string) returns (r: Result<(), Error>)
    requires sheet.Valid() && WellFormed(t) && 1 <= startRow
    modifies sheet
    ensures sheet.Valid() && sheet.merged == old(sheet.merged)
    ensures Flag !in t.cols ==> r == Failure(MissingColumn(Flag)) && sheet.cells == old(sheet.cells) && sheet.fills == old(sheet.fills)
    ensures Flag in t.cols ==>
              && r == Success(())
              && sheet.fills == MarkedFills(old(sheet.fills), Column(t, Flag), startRow, |t.cols|, color)
              && sheet.cells == MarkedCells(old(sheet.cells), Column(t, Flag), startRow, |t.cols|)
  {
    if Flag !in t.cols {
      return Failure(MissingColumn(Flag));
    }
    MarkRows(sheet, Column(t, Flag), startRow, |t.cols|, color);
    r := Success(());
  }

  /** One more table row: coloured when its flag is false, left alone otherwise. */
  lemma MarkedStep(cells: map<Coord, Value>, fills: map<Coord, string>, flags: seq<Value>, i: nat, startRow: int, width: nat, color: string)
    requires i < |flags|
    ensures MarkedFills(fills, flags[..i + 1], startRow, width, color)
            == FlaggedFills(MarkedFills(fills, flags[..i], startRow, width, color), flags[i], startRow + i, width, color)
    ensures MarkedCells(cells, flags[..i + 1], startRow, width)
            == FlaggedCells(MarkedCells(cells, flags[..i], startRow, width), flags[i], startRow + i, width)
  {
    assert flags[..i + 1][..i] == flags[..i];
  }

  /** Lines 103-107: the rows of `flags` from row `startRow` on, each coloured when its flag is false. */
  method MarkRows(sheet: Sheet, flags: seq<Value>, startRow: int, width: nat, color: string)
    requires sheet.Valid() && 1 <= startRow
    modifies sheet
    ensures sheet.Valid() && sheet.merged == old(sheet.merged)
    ensures sheet.fills == MarkedFills(old(sheet.fills), flags, startRow, width, color)
    ensures sheet.cells == MarkedCells(old(sheet.cells), flags, startRow, width)
  {
    for i := 0 to |flags|
      invariant sheet.Valid() && sheet.merged == old(sheet.merged)
      invariant sheet.fills == MarkedFills(old(sheet.fills), flags[..i], startRow, width, color)
      invariant sheet.cells == MarkedCells(old(sheet.cells), flags[..i], startRow, width)
    {
      MarkedStep(old(sheet.cells), old(sheet.fills), flags, i, startRow, width, color);
      MarkRow(sheet, flags[i], startRow + i, width, color);
    }
    assert flags[..|flags|] == flags;
  }

  /** Lines 104-107: one table row, coloured only when its flag is false. */
  method MarkRow(sheet: Sheet, flag: Value, row: int, width: nat, color: string)
    requires sheet.Valid() && 1 <= row
    modifies sheet
    ensures sheet.Valid() && sheet.merged == old(sheet.merged)
    ensures sheet.fills == FlaggedFills(old(sheet.fills), flag, row, width, color)
    ensures sheet.cells == FlaggedCells(old(sheet.cells), flag, row, width)
  {
    if !Truthy(flag) {
      PaintRow(sheet, row, width, color);
    }
  }

  /** Lines 106-107: one unmatched row coloured across columns 1 to `width`. */
  method PaintRow(sheet: Sheet, row: int, width: nat, color: string)
    requires sheet.Valid() && 1 <= row
    modifies sheet
    ensures sheet.Valid() && sheet.merged == old(sheet.merged)
    ensures sheet.fills == PaintedFills(old(sheet.fills), row, width, color)
    ensures sheet.cells == TouchedRow(old(sheet.cells), row, width)
  {
    for col := 1 to width + 1
      invariant sheet.Valid() && sheet.merged == old(sheet.merged)
      invariant sheet.fills == PaintedFills(old(sheet.fills), row, col - 1, color)
      invariant sheet.cells == TouchedRow(old(sheet.cells), row, col - 1)
    {
      sheet.Fill(row, col, color);
    }
  }

  /** Colouring one row sets exactly that row's first `width` fills. */
  lemma {:induction false} PaintedFillsCell(fills: map<Coord, string>, row: int, width: nat, color: string, k: Coord)
    ensures k.0 == row && 1 <= k.1 <= width ==> k in PaintedFills(fills, row, width, color) && PaintedFills(fills, row, width, color)[k] == color
    ensures !(k.0 == row && 1 <= k.1 <= width) ==>
      (k in PaintedFills(fills, row, width, color) <==> k in fills)
      && (k in fills ==> PaintedFills(fills, row, width, color)[k] == fills[k])
  {
    if width > 0 {
      PaintedFillsCell(fills, row, width - 1, color, k);
    }
  }

  /** Colouring one row creates exactly that row's first `width` cells and changes no value. */
  lemma {:induction false} TouchedRowCell(cells: map<Coord, Value>, row: int, width: nat, k: Coord)
    ensures k in TouchedRow(cells, row, width) <==> k in cells || (k.0 == row && 1 <= k.1 <= width)
    ensures Get(TouchedRow(cells, row, width), k) == Get(cells, k)
  {
    if width > 0 {
      var before := TouchedRow(cells, row, width - 1);
      TouchedRowCell(cells, row, width - 1, k);
      TouchKeys(before, (row, width));
      TouchGet(before, (row, width), k);
    }
  }

  /**
   * Lines 103-107: a cell is coloured exactly when it lies in an unmatched
   * row within the table's width; every other fill is as it was.
   */
  lemma {:induction false} MarkedFillsCell(fills: map<Coord, string>, flags: seq<Value>, startRow: int, width: nat, color: string, k: Coord)
    ensures Unmatched(flags, startRow, width, k) ==> k in MarkedFills(fills, flags, startRow, width, color) && MarkedFills(fills, flags, startRow, width, color)[k] == color
    ensures !Unmatched(flags, startRow, width, k) ==>
      (k in MarkedFills(fills, flags, startRow, width, color) <==> k in fills)
      && (k in fills ==> MarkedFills(fills, flags, startRow, width, color)[k] == fills[k])
  {
    if flags != [] {
      var init := flags[..|flags| - 1];
      var before := MarkedFills(fills, init, startRow, width, color);
      MarkedFillsCell(fills, init, startRow, width, color, k);
      PaintedFillsCell(before, startRow + |flags| - 1, width, color, k);
      assert Unmatched(flags, startRow, width, k) <==>
        Unmatched(init, startRow, width, k) || (k.0 == startRow + |init| && 1 <= k.1 <= width && !Truthy(flags[|init|]));
    }
  }

  /** Colouring creates exactly the coloured cells and changes no cell's value. */
  lemma {:induction false} MarkedCellsCell(cells: map<Coord, Value>, flags: seq<Value>, startRow: int, width: nat, k: Coord)
    ensures k in MarkedCells(cells, flags, startRow, width) <==> k in cells || Unmatched(flags, startRow, width, k)
    ensures Get(MarkedCells(cells, flags, startRow, width), k) == Get(cells, k)
  {
    if flags != [] {
      var init := flags[..|flags| - 1];
      var before := MarkedCells(cells, init, startRow, width);
      MarkedCellsCell(cells, init, startRow, width, k);
      TouchedRowCell(before, startRow + |flags| - 1, width, k);
      assert Unmatched(flags, startRow, width, k) <==>
        Unmatched(init, startRow, width, k) || (k.0 == startRow + |init| && 1 <= k.1 <= width && !Truthy(flags[|init|]));
    }
  }
}
