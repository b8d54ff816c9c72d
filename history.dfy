/**
 * pivot_processor.py, `add_historical_order_columns` (lines 46-76): the
 * month columns of a pivot that lie before the cutoff month are folded
 * into two running totals, "historical order quantity" and "historical
 * unfulfilled quantity", placed right after the index fields.
 *
 * The function changes its argument in place (the two totals are set and
 * the folded columns dropped on the caller's frame) and returns a
 * reordered copy, so it is a method on a `Frame`; `Summed`, `Mutated` and
 * `Fold` are the functions that specify it.
 */
module History {
  import opened Tables

  const OrderTotal := "历史订单数量"
  const PendingTotal := "历史未交订单数量"

  // ---------------------------------------------------------------------
  // `list.insert`

  /** `s.insert(i, x)` for `i >= 0`: past the end it appends. */
  function Insert(s: seq<string>, i: nat, x: string): (r: seq<string>)
    ensures |r| == |s| + 1
    ensures r[if i < |s| then i else |s|] == x
    ensures forall y :: y in r <==> y == x || y in s
  {
    if i >= |s| then s + [x] else s[..i] + [x] + s[i..]
  }

  // ---------------------------------------------------------------------
  // Which columns are folded (lines 50-60)

  /** `col.split('_')[-1]`: the text after the last underscore, or all of it. */
  function LastSegment(s: string): (seg: string)
    ensures '_' !in seg && |seg| <= |s| && seg == s[|s| - |seg|..]
    ensures |seg| < |s| ==> s[|s| - |seg| - 1] == '_'
  {
    if s == [] || s[|s| - 1] == '_' then []
    else LastSegment(s[..|s| - 1]) + [s[|s| - 1]]
  }

  /** `s[:4]`. */
  function Head4(s: string): string {
    if |s| <= 4 then s else s[..4]
  }

  /** `s.isdigit()` on ASCII digits: non-empty and all digits. */
  predicate AllDigitsText(s: string) {
    |s| > 0 && forall k :: 0 <= k < |s| ==> IsDigit(s[k])
  }

  /** The first two tests of line 52: an underscore, and a last segment opening with digits. */
  predicate IsMonthColumn(col: string) {
    '_' in col && AllDigitsText(Head4(LastSegment(col)))
  }

  /** Line 52: a month column whose month is before the cutoff. */
  predicate IsHistory(col: string, cutoff: string) {
    IsMonthColumn(col) && StrLess(LastSegment(col), cutoff)
  }

  /** Line 56: an order-quantity column that is not an unfulfilled-quantity one. */
  predicate IsOrderColumn(col: string) {
    Contains(col, "订单数量") && !Contains(col, "未交订单数量")
  }

  /** Line 59. */
  predicate IsPendingColumn(col: string) {
    Contains(col, "未交订单数量")
  }

  /** Lines 50-53: the folded columns, in column order. */
  function HistoryOf(cols: seq<string>, cutoff: string): (h: seq<string>)
    ensures forall c :: c in h ==> c in cols && IsHistory(c, cutoff)
  {
    FilterMembers(cols, c => IsHistory(c, cutoff));
    Filter(cols, c => IsHistory(c, cutoff))
  }

  /** Lines 55-57: the folded order columns. */
  function OrdersOf(cols: seq<string>, cutoff: string): (h: seq<string>)
    ensures forall c :: c in h ==> c in cols && IsHistory(c, cutoff) && IsOrderColumn(c)
  {
    FilterMembers(HistoryOf(cols, cutoff), IsOrderColumn);
    Filter(HistoryOf(cols, cutoff), IsOrderColumn)
  }

  /** Lines 58-60: the folded unfulfilled columns. */
  function PendingOf(cols: seq<string>, cutoff: string): (h: seq<string>)
    ensures forall c :: c in h ==> c in cols && IsHistory(c, cutoff) && IsPendingColumn(c)
  {
    FilterMembers(HistoryOf(cols, cutoff), IsPendingColumn);
    Filter(HistoryOf(cols, cutoff), IsPendingColumn)
  }

  /** The folded columns, their order, pending and both lists are columns of the table. */
  lemma HistoryMembers(cols: seq<string>, cutoff: string)
    ensures forall c :: c in HistoryOf(cols, cutoff) <==> c in cols && IsHistory(c, cutoff)
    ensures forall c :: c in OrdersOf(cols, cutoff) <==> c in cols && IsHistory(c, cutoff) && IsOrderColumn(c)
    ensures forall c :: c in PendingOf(cols, cutoff) <==> c in cols && IsHistory(c, cutoff) && IsPendingColumn(c)
  {
    FilterMembers(cols, c => IsHistory(c, cutoff));
    FilterMembers(HistoryOf(cols, cutoff), IsOrderColumn);
    FilterMembers(HistoryOf(cols, cutoff), IsPendingColumn);
  }

  /** Neither total is ever a month column, so it is never folded. */
  lemma TotalsNotMonths()
    ensures !IsMonthColumn(OrderTotal) && !IsMonthColumn(PendingTotal)
  {
    assert forall k :: 0 <= k < |OrderTotal| ==> OrderTotal[k] != '_';
    assert forall k :: 0 <= k < |PendingTotal| ==> PendingTotal[k] != '_';
  }

  /**
   * The cutoff compared with: the configured month, or, when none is set,
   * the empty text, below which no month lies (reached only when no column
   * is a month column, see `Fold`).
   */
  function Cutoff(cutoff: Option<string>): string {
    if cutoff.Some? then cutoff.value else ""
  }

  // ---------------------------------------------------------------------
  // The fold (lines 62-76)

  /** Lines 62-65: the two totals set on the caller's frame, each only when it has columns to add up. */
  function Summed(t: Table, cutoff: string): (s: Table)
    requires WellFormed(t)
    ensures WellFormed(s) && |s.rows| == |t.rows|
  {
    var ord := OrdersOf(t.cols, cutoff);
    var pend := PendingOf(t.cols, cutoff);
    var t1 := AddTotal(t, OrderTotal, ord);
    AddTotal(t1, PendingTotal, pend)
  }

  /** `df[name] = df[names].sum(axis=1)` when there are names to add up; nothing otherwise. */
  function AddTotal(t: Table, name: string, names: seq<string>): (r: Table)
    requires WellFormed(t) && forall c :: c in names ==> c in t.cols
    ensures WellFormed(r) && |r.rows| == |t.rows|
    ensures r.cols == if names != [] && name !in t.cols then t.cols + [name] else t.cols
  {
    if names != [] then WithColumn(t, name, RowSums(t, names)) else t
  }

  /** Line 67: the caller's frame after the call, the folded columns dropped. */
  function Mutated(t: Table, cutoff: string): (m: Table)
    requires WellFormed(t)
    ensures WellFormed(m) && |m.rows| == |t.rows|
  {
    DropColumns(Summed(t, cutoff), FoldedSet(t.cols, cutoff))
  }

  function FoldedSet(cols: seq<string>, cutoff: string): set<string> {
    set c | c in HistoryOf(cols, cutoff)
  }

  /** A column that is neither total (line 69). */
  predicate IsPlain(c: string) {
    c != OrderTotal && c != PendingTotal
  }

  /** A column that survives the fold where it stands: neither folded nor a total. */
  predicate Stays(c: string, cutoff: string) {
    !IsHistory(c, cutoff) && IsPlain(c)
  }

  /** `Stays` as a test to filter by. */
  function StaysTest(cutoff: string): string -> bool {
    c => Stays(c, cutoff)
  }

  /** Lines 69-73: the other columns in order, the totals inserted after the index fields. */
  function FixedOrder(cols: seq<string>, indexLen: nat): seq<string> {
    var fixed := Filter(cols, IsPlain);
    var a := if OrderTotal in cols then Insert(fixed, indexLen, OrderTotal) else fixed;
    if PendingTotal in cols then Insert(a, indexLen + 1, PendingTotal) else a
  }

  lemma FixedOrderMembers(cols: seq<string>, indexLen: nat)
    ensures forall c :: c in FixedOrder(cols, indexLen) <==> c in cols
  {
    FilterMembers(cols, IsPlain);
  }

  /**
   * `add_historical_order_columns(df, config)`: the reordered copy it
   * returns. Comparing a month with an unset cutoff raises, before anything
   * is changed.
   */
  function Fold(t: Table, indexLen: nat, cutoff: Option<string>): (r: Result<Table, Error>)
    requires WellFormed(t)
    ensures r.Success? ==> WellFormed(r.value) && |r.value.rows| == |t.rows|
  {
    if cutoff.None? && Filter(t.cols, IsMonthColumn) != [] then Failure(NoCutoff)
    else
      Success(Reordered(Mutated(t, Cutoff(cutoff)), indexLen))
  }

  /** Line 75: `df[fixed_cols]`, the reordered copy. */
  function Reordered(m: Table, indexLen: nat): (r: Table)
    requires WellFormed(m)
    ensures WellFormed(r) && |r.rows| == |m.rows|
  {
    FixedOrderMembers(m.cols, indexLen);
    Select(m, FixedOrder(m.cols, indexLen))
  }

  /**
   * The function as the program runs it: the totals are set and the folded
   * columns dropped on the caller's frame, then the reordered copy is
   * returned.
   */
  method AddHistoricalOrderColumns(f: Frame, indexLen: nat, cutoff: Option<string>) returns (r: Result<Table, Error>)
    requires WellFormed(f.Snapshot())
    modifies f
    ensures r == Fold(old(f.Snapshot()), indexLen, cutoff)
    ensures f.Snapshot() == if r.Success? then Mutated(old(f.Snapshot()), Cutoff(cutoff)) else old(f.Snapshot())
  {
    var t := f.Snapshot();
    if cutoff.None? && Filter(t.cols, IsMonthColumn) != [] {
      return Failure(NoCutoff);
    }
    var cut := Cutoff(cutoff);
    var hist := HistoryOf(t.cols, cut);
    var ord := OrdersOf(t.cols, cut);
    var pend := PendingOf(t.cols, cut);
    if ord != [] {
      f.Assign(WithColumn(f.Snapshot(), OrderTotal, RowSums(f.Snapshot(), ord)));
    }
    assert f.Snapshot() == AddTotal(t, OrderTotal, ord);
    if pend != [] {
      f.Assign(WithColumn(f.Snapshot(), PendingTotal, RowSums(f.Snapshot(), pend)));
    }
    assert f.Snapshot() == Summed(t, cut);
    f.Assign(DropColumns(f.Snapshot(), set c | c in hist));
    var m := f.Snapshot();
    assert m == Mutated(t, cut);
    r := Success(Reordered(m, indexLen));
  }

  // ---------------------------------------------------------------------
  // Properties

  lemma InsertDistinct(s: seq<string>, i: nat, x: string)
    requires Distinct(s) && x !in s
    ensures Distinct(Insert(s, i, x))
  {
    if i < |s| {
      var r := Insert(s, i, x);
      assert r == s[..i] + [x] + s[i..];
      forall a, b | 0 <= a < b < |r| ensures r[a] != r[b] {
        if a < i && b > i {
          assert r[b] == s[b - 1];
        } else if a > i {
          assert r[a] == s[a - 1] && r[b] == s[b - 1];
        }
      }
    }
  }

  /** Inserting a total leaves the plain columns as they were. */
  lemma FilterInsert(s: seq<string>, i: nat, x: string)
    requires !IsPlain(x)
    ensures Filter(Insert(s, i, x), IsPlain) == Filter(s, IsPlain)
  {
    assert Filter([x], IsPlain) == [] by {
      assert [x][..0] == [];
    }
    if i >= |s| {
      FilterAppend(s, [x], IsPlain);
    } else {
      assert s == s[..i] + s[i..];
      FilterAppend(s[..i] + [x], s[i..], IsPlain);
      FilterAppend(s[..i], [x], IsPlain);
      FilterAppend(s[..i], s[i..], IsPlain);
    }
  }

  /** Lines 69-73 keep the plain columns in their order. */
  lemma FixedOrderPlain(cols: seq<string>, indexLen: nat)
    ensures Filter(FixedOrder(cols, indexLen), IsPlain) == Filter(cols, IsPlain)
  {
    var fixed := Filter(cols, IsPlain);
    var a := if OrderTotal in cols then Insert(fixed, indexLen, OrderTotal) else fixed;
    FilterMembers(cols, IsPlain);
    FilterAll(fixed, IsPlain);
    if OrderTotal in cols {
      FilterInsert(fixed, indexLen, OrderTotal);
    }
    if PendingTotal in cols {
      FilterInsert(a, indexLen + 1, PendingTotal);
    }
  }

  /**
   * The layout of lines 70-73: the order total sits at the index length
   * (or last, when there are fewer plain columns) and the unfulfilled
   * total one place after that.
   */
  lemma FixedOrderPositions(cols: seq<string>, indexLen: nat)
    ensures var fixed := Filter(cols, IsPlain);
            var r := FixedOrder(cols, indexLen);
            var before := |fixed| + (if OrderTotal in cols then 1 else 0);
            && |r| == before + (if PendingTotal in cols then 1 else 0)
            && (OrderTotal in cols ==> r[if indexLen < |fixed| then indexLen else |fixed|] == OrderTotal)
            && (PendingTotal in cols ==> r[if indexLen + 1 < before then indexLen + 1 else before] == PendingTotal)
  {
    var fixed := Filter(cols, IsPlain);
    var a := if OrderTotal in cols then Insert(fixed, indexLen, OrderTotal) else fixed;
    var r := FixedOrder(cols, indexLen);
    if OrderTotal in cols && PendingTotal in cols {
      var p := if indexLen < |fixed| then indexLen else |fixed|;
      assert a[p] == OrderTotal;
      if indexLen + 1 < |a| {
        assert r == a[..indexLen + 1] + [PendingTotal] + a[indexLen + 1..];
        assert r[p] == a[p];
      } else {
        assert r == a + [PendingTotal];
      }
    }
  }

  lemma FixedOrderDistinct(cols: seq<string>, indexLen: nat)
    requires Distinct(cols)
    ensures Distinct(FixedOrder(cols, indexLen))
  {
    var fixed := Filter(cols, IsPlain);
    var a := if OrderTotal in cols then Insert(fixed, indexLen, OrderTotal) else fixed;
    FilterMembers(cols, IsPlain);
    FilterDistinct(cols, IsPlain);
    if OrderTotal in cols {
      InsertDistinct(fixed, indexLen, OrderTotal);
    }
    if PendingTotal in cols {
      InsertDistinct(a, indexLen + 1, PendingTotal);
    }
  }

  /** Laying out an already laid-out column list changes nothing. */
  lemma FixedOrderIdempotent(cols: seq<string>, indexLen: nat)
    ensures FixedOrder(FixedOrder(cols, indexLen), indexLen) == FixedOrder(cols, indexLen)
  {
    FixedOrderPlain(cols, indexLen);
    FixedOrderMembers(cols, indexLen);
  }

  /** Lines 62-65, the columns: the input's, followed by the totals that were not there. */
  lemma SummedColumns(t: Table, cutoff: string)
    requires WellFormed(t)
    ensures var s := Summed(t, cutoff);
            && |t.cols| <= |s.cols| && s.cols[..|t.cols|] == t.cols
            && (forall k :: |t.cols| <= k < |s.cols| ==> !IsPlain(s.cols[k]))
  {
    var t1 := AddTotal(t, OrderTotal, OrdersOf(t.cols, cutoff));
    var s := Summed(t, cutoff);
    assert t1.cols[..|t.cols|] == t.cols;
  }

  /** A total is a column after lines 62-65 exactly when it was one already or has columns to add up. */
  lemma SummedMembers(t: Table, cutoff: string)
    requires WellFormed(t)
    ensures var s := Summed(t, cutoff);
            forall c :: c in s.cols <==>
              c in t.cols || (c == OrderTotal && OrdersOf(t.cols, cutoff) != [])
              || (c == PendingTotal && PendingOf(t.cols, cutoff) != [])
  {
  }

  lemma SummedDistinct(t: Table, cutoff: string)
    requires WellFormed(t) && Distinct(t.cols)
    ensures Distinct(Summed(t, cutoff).cols)
  {
    var t1 := AddTotal(t, OrderTotal, OrdersOf(t.cols, cutoff));
    assert Distinct(t1.cols);
  }

  /** Line 63: the order total is each row's sum over the folded order columns. */
  lemma SummedOrderTotal(t: Table, cutoff: string, i: nat)
    requires WellFormed(t) && i < |t.rows| && OrdersOf(t.cols, cutoff) != []
    ensures var s := Summed(t, cutoff);
            OrderTotal in s.cols && s.rows[i][IndexOf(s.cols, OrderTotal)] == Num(RowSum(t, i, OrdersOf(t.cols, cutoff)))
  {
    var ord := OrdersOf(t.cols, cutoff);
    var pend := PendingOf(t.cols, cutoff);
    var t1 := AddTotal(t, OrderTotal, ord);
    if pend != [] {
      WithColumnKeeps(t1, PendingTotal, RowSums(t1, pend), OrderTotal, i);
    }
  }

  /** Line 65: the unfulfilled total is each row's sum over the folded unfulfilled columns. */
  lemma SummedPendingTotal(t: Table, cutoff: string, i: nat)
    requires WellFormed(t) && i < |t.rows| && PendingOf(t.cols, cutoff) != []
    ensures var s := Summed(t, cutoff);
            PendingTotal in s.cols && s.rows[i][IndexOf(s.cols, PendingTotal)] == Num(RowSum(t, i, PendingOf(t.cols, cutoff)))
  {
    var ord := OrdersOf(t.cols, cutoff);
    var pend := PendingOf(t.cols, cutoff);
    TotalsNotMonths();
    if ord != [] {
      var t1 := AddTotal(t, OrderTotal, ord);
      forall k | 0 <= k < |pend|
        ensures pend[k] in t1.cols && t1.rows[i][IndexOf(t1.cols, pend[k])] == t.rows[i][IndexOf(t.cols, pend[k])]
      {
        assert pend[k] in pend;
        WithColumnKeeps(t, OrderTotal, RowSums(t, ord), pend[k], i);
      }
      RowSumAgree(t1, t, i, pend);
    }
  }

  /** A plain input column keeps its cells through lines 62-65. */
  lemma SummedKeeps(t: Table, cutoff: string, i: nat, c: string)
    requires WellFormed(t) && i < |t.rows| && c in t.cols && IsPlain(c)
    ensures var s := Summed(t, cutoff);
            c in s.cols && s.rows[i][IndexOf(s.cols, c)] == t.rows[i][IndexOf(t.cols, c)]
  {
    var t1 := AddTotal(t, OrderTotal, OrdersOf(t.cols, cutoff));
    AddTotalKeeps(t, OrderTotal, OrdersOf(t.cols, cutoff), c, i);
    AddTotalKeeps(t1, PendingTotal, PendingOf(t.cols, cutoff), c, i);
  }

  lemma AddTotalKeeps(t: Table, name: string, names: seq<string>, c: string, i: nat)
    requires WellFormed(t) && (forall c :: c in names ==> c in t.cols) && c in t.cols && c != name && i < |t.rows|
    ensures var r := AddTotal(t, name, names);
            c in r.cols && IndexOf(r.cols, c) == IndexOf(t.cols, c)
            && r.rows[i][IndexOf(r.cols, c)] == t.rows[i][IndexOf(t.cols, c)]
  {
    if names != [] {
      WithColumnKeeps(t, name, RowSums(t, names), c, i);
    }
  }

  /** The caller's frame after the call, column by column: the folded columns are gone, everything else is as summed. */
  lemma MutatedKeeps(t: Table, cutoff: string, i: nat, c: string)
    requires WellFormed(t) && Distinct(t.cols) && i < |t.rows|
    requires c in Summed(t, cutoff).cols && !IsHistory(c, cutoff)
    ensures var s := Summed(t, cutoff);
            var m := Mutated(t, cutoff);
            c in m.cols && m.rows[i][IndexOf(m.cols, c)] == s.rows[i][IndexOf(s.cols, c)]
  {
    SummedDistinct(t, cutoff);
    HistoryMembers(t.cols, cutoff);
    DropColumnsCell(Summed(t, cutoff), FoldedSet(t.cols, cutoff), c, i);
  }

  lemma MutatedColumns(t: Table, cutoff: string)
    requires WellFormed(t)
    ensures var m := Mutated(t, cutoff);
            && (forall c :: c in m.cols <==> c in Summed(t, cutoff).cols && !(c in t.cols && IsHistory(c, cutoff)))
            && (Distinct(t.cols) ==> Distinct(m.cols))
  {
    var s := Summed(t, cutoff);
    var hs := FoldedSet(t.cols, cutoff);
    HistoryMembers(t.cols, cutoff);
    WithoutMembers(s.cols, hs);
    if Distinct(t.cols) {
      SummedDistinct(t, cutoff);
      WithoutDistinct(s.cols, hs);
    }
  }

  /** Reordering moves each column, cells and all. */
  lemma ReorderedCell(m: Table, indexLen: nat, i: nat, c: string)
    requires WellFormed(m) && Distinct(m.cols) && i < |m.rows| && c in m.cols
    ensures var r := Reordered(m, indexLen);
            c in r.cols && r.rows[i][IndexOf(r.cols, c)] == m.rows[i][IndexOf(m.cols, c)]
  {
    var names := FixedOrder(m.cols, indexLen);
    FixedOrderMembers(m.cols, indexLen);
    FixedOrderDistinct(m.cols, indexLen);
    var k := IndexOf(names, c);
    IndexOfDistinct(names, k);
  }

  /** An unset cutoff fails exactly when some column is a month column (the comparison of line 52 raises). */
  lemma FoldFails(t: Table, indexLen: nat, cutoff: Option<string>)
    requires WellFormed(t)
    ensures Fold(t, indexLen, cutoff).Failure? <==> cutoff.None? && exists c :: c in t.cols && IsMonthColumn(c)
  {
    FilterMembers(t.cols, IsMonthColumn);
    if cutoff.None? && Filter(t.cols, IsMonthColumn) != [] {
      assert Filter(t.cols, IsMonthColumn)[0] in Filter(t.cols, IsMonthColumn);
    }
  }

  /**
   * The columns of the result (lines 50-75): the input's columns that are
   * not folded, plus each total that has columns to add up or was already
   * there; no folded column survives, and no name appears twice.
   */
  lemma FoldColumns(t: Table, indexLen: nat, cutoff: Option<string>)
    requires WellFormed(t) && Fold(t, indexLen, cutoff).Success?
    ensures var r := Fold(t, indexLen, cutoff).value;
            var cut := Cutoff(cutoff);
            && (forall c :: c in r.cols <==>
                  (c in t.cols && !IsHistory(c, cut))
                  || (c == OrderTotal && OrdersOf(t.cols, cut) != [])
                  || (c == PendingTotal && PendingOf(t.cols, cut) != []))
            && (forall c :: c in r.cols ==> !IsHistory(c, cut))
            && (Distinct(t.cols) ==> Distinct(r.cols))
  {
    var cut := Cutoff(cutoff);
    var m := Mutated(t, cut);
    MutatedColumns(t, cut);
    SummedMembers(t, cut);
    FixedOrderMembers(m.cols, indexLen);
    TotalsNotMonths();
    if Distinct(t.cols) {
      FixedOrderDistinct(m.cols, indexLen);
    }
  }

  /**
   * The order of the result (lines 69-75): the surviving plain columns in
   * their input order, the order total at the index length (or last, when
   * there are fewer plain columns) and the unfulfilled total one place
   * after that.
   */
  lemma FoldLayout(t: Table, indexLen: nat, cutoff: Option<string>)
    requires WellFormed(t) && Fold(t, indexLen, cutoff).Success?
    ensures var r := Fold(t, indexLen, cutoff).value;
            var plain := Filter(t.cols, StaysTest(Cutoff(cutoff)));
            var before := |plain| + (if OrderTotal in r.cols then 1 else 0);
            && |r.cols| == before + (if PendingTotal in r.cols then 1 else 0)
            && Filter(r.cols, IsPlain) == plain
            && (OrderTotal in r.cols ==> r.cols[if indexLen < |plain| then indexLen else |plain|] == OrderTotal)
            && (PendingTotal in r.cols ==> r.cols[if indexLen + 1 < before then indexLen + 1 else before] == PendingTotal)
  {
    var cut := Cutoff(cutoff);
    var m := Mutated(t, cut);
    FixedOrderPlain(m.cols, indexLen);
    FixedOrderPositions(m.cols, indexLen);
    FixedOrderMembers(m.cols, indexLen);
    MutatedPlain(t, cut);
  }

  /** The plain columns left on the caller's frame are the staying input columns, in order. */
  lemma MutatedPlain(t: Table, cutoff: string)
    requires WellFormed(t)
    ensures Filter(Mutated(t, cutoff).cols, IsPlain) == Filter(t.cols, StaysTest(cutoff))
  {
    MutatedPlainSummed(t, cutoff);
    SummedStays(t, cutoff);
  }

  lemma MutatedPlainSummed(t: Table, cutoff: string)
    requires WellFormed(t)
    ensures Filter(Mutated(t, cutoff).cols, IsPlain) == Filter(Summed(t, cutoff).cols, StaysTest(cutoff))
  {
    var s := Summed(t, cutoff);
    var hs := FoldedSet(t.cols, cutoff);
    var outside := c => c !in hs;
    WithoutIsFilter(s.cols, hs, outside);
    SummedStaysPointwise(t, cutoff, outside);
    FilterTwice(s.cols, outside, IsPlain, StaysTest(cutoff));
  }

  lemma SummedStaysPointwise(t: Table, cutoff: string, outside: string -> bool)
    requires WellFormed(t) && forall c :: outside(c) == (c !in FoldedSet(t.cols, cutoff))
    ensures var s := Summed(t, cutoff);
            forall k :: 0 <= k < |s.cols| ==> StaysTest(cutoff)(s.cols[k]) == (outside(s.cols[k]) && IsPlain(s.cols[k]))
  {
    var s := Summed(t, cutoff);
    HistoryMembers(t.cols, cutoff);
    SummedColumns(t, cutoff);
    forall k | 0 <= k < |s.cols| ensures StaysTest(cutoff)(s.cols[k]) == (outside(s.cols[k]) && IsPlain(s.cols[k])) {
      if k < |t.cols| {
        assert s.cols[k] == t.cols[k];
      }
    }
  }

  lemma SummedStays(t: Table, cutoff: string)
    requires WellFormed(t)
    ensures Filter(Summed(t, cutoff).cols, StaysTest(cutoff)) == Filter(t.cols, StaysTest(cutoff))
  {
    var t1 := AddTotal(t, OrderTotal, OrdersOf(t.cols, cutoff));
    AddTotalStays(t, OrderTotal, OrdersOf(t.cols, cutoff), cutoff);
    AddTotalStays(t1, PendingTotal, PendingOf(t.cols, cutoff), cutoff);
  }

  /** A total is not a staying column, so adding one leaves the staying columns as they were. */
  lemma AddTotalStays(t: Table, name: string, names: seq<string>, cutoff: string)
    requires WellFormed(t) && forall c :: c in names ==> c in t.cols
    requires !IsPlain(name)
    ensures Filter(AddTotal(t, name, names).cols, StaysTest(cutoff)) == Filter(t.cols, StaysTest(cutoff))
  {
    var r := AddTotal(t, name, names);
    if r.cols != t.cols {
      assert r.cols[..|t.cols|] == t.cols;
      assert !StaysTest(cutoff)(r.cols[|t.cols|]);
    }
  }

  /** Lines 63 and 71: the order total holds each row's sum over the folded order columns. */
  lemma FoldOrderTotal(t: Table, indexLen: nat, cutoff: Option<string>, i: nat)
    requires WellFormed(t) && Distinct(t.cols) && Fold(t, indexLen, cutoff).Success? && i < |t.rows|
    requires OrdersOf(t.cols, Cutoff(cutoff)) != []
    ensures var r := Fold(t, indexLen, cutoff).value;
            OrderTotal in r.cols && r.rows[i][IndexOf(r.cols, OrderTotal)] == Num(RowSum(t, i, OrdersOf(t.cols, Cutoff(cutoff))))
  {
    var cut := Cutoff(cutoff);
    SummedOrderTotal(t, cut, i);
    TotalsNotMonths();
    MutatedKeeps(t, cut, i, OrderTotal);
    MutatedColumns(t, cut);
    ReorderedCell(Mutated(t, cut), indexLen, i, OrderTotal);
  }

  /** Lines 65 and 73: the unfulfilled total holds each row's sum over the folded unfulfilled columns. */
  lemma FoldPendingTotal(t: Table, indexLen: nat, cutoff: Option<string>, i: nat)
    requires WellFormed(t) && Distinct(t.cols) && Fold(t, indexLen, cutoff).Success? && i < |t.rows|
    requires PendingOf(t.cols, Cutoff(cutoff)) != []
    ensures var r := Fold(t, indexLen, cutoff).value;
            PendingTotal in r.cols && r.rows[i][IndexOf(r.cols, PendingTotal)] == Num(RowSum(t, i, PendingOf(t.cols, Cutoff(cutoff))))
  {
    var cut := Cutoff(cutoff);
    SummedPendingTotal(t, cut, i);
    TotalsNotMonths();
    MutatedKeeps(t, cut, i, PendingTotal);
    MutatedColumns(t, cut);
    ReorderedCell(Mutated(t, cut), indexLen, i, PendingTotal);
  }

  /** Every column that is neither folded nor a total comes through with its cells unchanged. */
  lemma FoldKeeps(t: Table, indexLen: nat, cutoff: Option<string>, i: nat, c: string)
    requires WellFormed(t) && Distinct(t.cols) && Fold(t, indexLen, cutoff).Success? && i < |t.rows|
    requires c in t.cols && Stays(c, Cutoff(cutoff))
    ensures var r := Fold(t, indexLen, cutoff).value;
            c in r.cols && r.rows[i][IndexOf(r.cols, c)] == t.rows[i][IndexOf(t.cols, c)]
  {
    var cut := Cutoff(cutoff);
    SummedKeeps(t, cut, i, c);
    MutatedKeeps(t, cut, i, c);
    MutatedColumns(t, cut);
    ReorderedCell(Mutated(t, cut), indexLen, i, c);
  }

  /** Folding a folded table changes nothing: nothing is left to fold and the layout is already in place. */
  lemma FoldIdempotent(t: Table, indexLen: nat, cutoff: Option<string>)
    requires WellFormed(t) && Distinct(t.cols) && Fold(t, indexLen, cutoff).Success?
    ensures var r := Fold(t, indexLen, cutoff).value;
            Fold(r, indexLen, cutoff) == Success(r)
  {
    var cut := Cutoff(cutoff);
    var r := Fold(t, indexLen, cutoff).value;
    var m := Mutated(t, cut);
    FoldColumns(t, indexLen, cutoff);
    TotalsNotMonths();
    assert Filter(r.cols, IsMonthColumn) == [] || cutoff.Some? by {
      if cutoff.None? {
        FilterMembers(t.cols, IsMonthColumn);
        FoldFails(t, indexLen, cutoff);
        FilterNone(r.cols, IsMonthColumn);
      }
    }
    assert HistoryOf(r.cols, cut) == [] by {
      FilterNone(r.cols, c => IsHistory(c, cut));
    }
    assert OrdersOf(r.cols, cut) == [] && PendingOf(r.cols, cut) == [];
    assert Summed(r, cut) == r;
    assert FoldedSet(r.cols, cut) == {};
    DropNothing(r);
    assert Mutated(r, cut) == r;
    FixedOrderIdempotent(m.cols, indexLen);
    SelectAll(r);
  }
}
