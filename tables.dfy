/**
 * The shared data model: cell values, tables held column list plus
 * positional rows, a mutable frame for the functions that change a table
 * in place, and the few string operations the engine relies on.
 */
module Tables {

  datatype Option<T> = None | Some(value: T)

  datatype Result<T, E> = Success(value: T) | Failure(error: E)

  /** The errors the engine can raise. */
  datatype Error =
    | MappingShape(found: nat)     // the mapping table has fewer than nine columns
    | MissingColumn(name: string)  // a column looked up by name is absent
    | NoHeaderRow                  // the first row was asked of an empty table
    | NoCutoff                     // a month column was compared with an unset cutoff month
    | DateOutOfBounds              // a day count beyond the dates pandas' nanosecond timestamps hold
    | CellOutOfRange(index: int)   // a sheet row or column index below 1

  datatype CivilDate = CivilDate(year: int, month: int, day: int)

  /** One cell. `Missing` stands for pandas' NaN / None / NaT. */
  datatype Value =
    | Str(s: string)
    | Num(n: int)
    | Date(date: CivilDate)
    | Bool(b: bool)
    | Missing

  /** A data frame: column names and rows, each row aligned with `cols`. */
  datatype Table = Table(cols: seq<string>, rows: seq<seq<Value>>)

  predicate WellFormed(t: Table) {
    forall i :: 0 <= i < |t.rows| ==> |t.rows[i]| == |t.cols|
  }

  predicate Distinct<T(==)>(s: seq<T>) {
    forall i, j :: 0 <= i < j < |s| ==> s[i] != s[j]
  }

  /**
   * What a cell adds to a sum: a number its value, NaN nothing (pandas'
   * `sum` skips it). Summed cells are assumed to be numbers or NaN; text,
   * boolean and date cells also add nothing here.
   */
  function NumOf(v: Value): int {
    if v.Num? then v.n else 0
  }

  function Sum(s: seq<int>): int {
    if s == [] then 0 else Sum(s[..|s| - 1]) + s[|s| - 1]
  }

  lemma {:induction false} SumAppend(a: seq<int>, b: seq<int>)
    ensures Sum(a + b) == Sum(a) + Sum(b)
    decreases |b|
  {
    if b == [] {
      assert a + b == a;
    } else {
      var n := |b| - 1;
      assert (a + b)[..|a + b| - 1] == a + b[..n];
      SumAppend(a, b[..n]);
    }
  }

  /** First position of `x` in `s`. */
  function IndexOf<T(==)>(s: seq<T>, x: T): (i: nat)
    requires x in s
    ensures i < |s| && s[i] == x
    ensures forall k :: 0 <= k < i ==> s[k] != x
  {
    var n := |s| - 1;
    if x in s[..n] then IndexOf(s[..n], x) else n
  }

  /** Appending leaves the first position of a listed element where it was. */
  lemma IndexOfPrefix<T>(s: seq<T>, u: seq<T>, x: T)
    requires x in s
    ensures x in s + u && IndexOf(s + u, x) == IndexOf(s, x)
  {
    var k := IndexOf(s, x);
    assert (s + u)[..k + 1] == s[..k + 1];
  }

  lemma IndexOfDistinct<T>(s: seq<T>, i: nat)
    requires Distinct(s) && i < |s|
    ensures IndexOf(s, s[i]) == i
  {
  }

  /** The cells of `row` at the positions `ix`, in that order. */
  function Project<T>(row: seq<T>, ix: seq<nat>): (r: seq<T>)
    requires forall k :: 0 <= k < |ix| ==> ix[k] < |row|
    ensures |r| == |ix|
    ensures forall k :: 0 <= k < |ix| ==> r[k] == row[ix[k]]
  {
    seq(|ix|, k requires 0 <= k < |ix| => row[ix[k]])
  }

  /** Positions among the first `len` names of `cols` that are not in `s`, in increasing order. */
  function PositionsOutsideTo(cols: seq<string>, len: nat, s: set<string>): (ix: seq<nat>)
    requires len <= |cols|
    ensures forall k :: 0 <= k < |ix| ==> ix[k] < len && cols[ix[k]] !in s
    decreases len
  {
    if len == 0 then []
    else PositionsOutsideTo(cols, len - 1, s) + (if cols[len - 1] in s then [] else [len - 1])
  }

  /** Positions among the first `len` names of `cols` that are in `s`, in increasing order. */
  function PositionsInsideTo(cols: seq<string>, len: nat, s: set<string>): (ix: seq<nat>)
    requires len <= |cols|
    ensures forall k :: 0 <= k < |ix| ==> ix[k] < len && cols[ix[k]] in s
    decreases len
  {
    if len == 0 then []
    else PositionsInsideTo(cols, len - 1, s) + (if cols[len - 1] in s then [len - 1] else [])
  }

  /** Positions of the names in `cols` that are not in `s`, in increasing order. */
  function PositionsOutside(cols: seq<string>, s: set<string>): (ix: seq<nat>)
    ensures forall k :: 0 <= k < |ix| ==> ix[k] < |cols| && cols[ix[k]] !in s
  {
    PositionsOutsideTo(cols, |cols|, s)
  }

  /** Positions of the names in `cols` that are in `s`, in increasing order. */
  function PositionsInside(cols: seq<string>, s: set<string>): (ix: seq<nat>)
    ensures forall k :: 0 <= k < |ix| ==> ix[k] < |cols| && cols[ix[k]] in s
  {
    PositionsInsideTo(cols, |cols|, s)
  }

  /** Every position below `len` outside `s` is listed, and the list is increasing. */
  lemma {:induction false} PositionsOutsideToFacts(cols: seq<string>, len: nat, s: set<string>)
    requires len <= |cols|
    ensures var ix := PositionsOutsideTo(cols, len, s);
            (forall i :: 0 <= i < len && cols[i] !in s ==> i in ix) &&
            (forall k, l :: 0 <= k < l < |ix| ==> ix[k] < ix[l])
    decreases len
  {
    if len > 0 {
      PositionsOutsideToFacts(cols, len - 1, s);
    }
  }

  /** Every position below `len` inside `s` is listed, and the list is increasing. */
  lemma {:induction false} PositionsInsideToFacts(cols: seq<string>, len: nat, s: set<string>)
    requires len <= |cols|
    ensures var ix := PositionsInsideTo(cols, len, s);
            (forall i :: 0 <= i < len && cols[i] in s ==> i in ix) &&
            (forall k, l :: 0 <= k < l < |ix| ==> ix[k] < ix[l])
    decreases len
  {
    if len > 0 {
      PositionsInsideToFacts(cols, len - 1, s);
    }
  }

  /** Every position outside `s` is listed, and the list is increasing. */
  lemma PositionsOutsideFacts(cols: seq<string>, s: set<string>)
    ensures var ix := PositionsOutside(cols, s);
            (forall i :: 0 <= i < |cols| && cols[i] !in s ==> i in ix) &&
            (forall k, l :: 0 <= k < l < |ix| ==> ix[k] < ix[l])
  {
    PositionsOutsideToFacts(cols, |cols|, s);
  }

  /** Every position inside `s` is listed, and the list is increasing. */
  lemma PositionsInsideFacts(cols: seq<string>, s: set<string>)
    ensures var ix := PositionsInside(cols, s);
            (forall i :: 0 <= i < |cols| && cols[i] in s ==> i in ix) &&
            (forall k, l :: 0 <= k < l < |ix| ==> ix[k] < ix[l])
  {
    PositionsInsideToFacts(cols, |cols|, s);
  }

  /** `cols` without the names in `s`, order kept (a list comprehension with `not in`). */
  function Without(cols: seq<string>, s: set<string>): seq<string> {
    Project(cols, PositionsOutside(cols, s))
  }

  /** `cols` restricted to the names in `s`, order kept. */
  function Within(cols: seq<string>, s: set<string>): seq<string> {
    Project(cols, PositionsInside(cols, s))
  }

  /** A name is kept by `Without` exactly when it is listed and not excluded. */
  lemma WithoutMembers(cols: seq<string>, s: set<string>)
    ensures forall c :: c in Without(cols, s) <==> c in cols && c !in s
  {
    var ix := PositionsOutside(cols, s);
    PositionsOutsideFacts(cols, s);
    forall c | c in cols && c !in s ensures c in Without(cols, s) {
      var i := IndexOf(cols, c);
      assert i in ix;
      var k :| 0 <= k < |ix| && ix[k] == i;
      assert Without(cols, s)[k] == c;
    }
  }

  /** A name is kept by `Within` exactly when it is listed and selected. */
  lemma WithinMembers(cols: seq<string>, s: set<string>)
    ensures forall c :: c in Within(cols, s) <==> c in cols && c in s
  {
    var ix := PositionsInside(cols, s);
    PositionsInsideFacts(cols, s);
    forall c | c in cols && c in s ensures c in Within(cols, s) {
      var i := IndexOf(cols, c);
      assert i in ix;
      var k :| 0 <= k < |ix| && ix[k] == i;
      assert Within(cols, s)[k] == c;
    }
  }

  /** Distinct names picked at increasing positions stay distinct. */
  lemma ProjectDistinct<T>(row: seq<T>, ix: seq<nat>)
    requires Distinct(row)
    requires forall k :: 0 <= k < |ix| ==> ix[k] < |row|
    requires forall k, l :: 0 <= k < l < |ix| ==> ix[k] < ix[l]
    ensures Distinct(Project(row, ix))
  {
    var r := Project(row, ix);
    forall k, l | 0 <= k < l < |ix| ensures r[k] != r[l] {
      assert ix[k] != ix[l];
    }
  }

  lemma WithoutDistinct(cols: seq<string>, s: set<string>)
    requires Distinct(cols)
    ensures Distinct(Without(cols, s))
  {
    PositionsOutsideFacts(cols, s);
    ProjectDistinct(cols, PositionsOutside(cols, s));
  }

  lemma WithinDistinct(cols: seq<string>, s: set<string>)
    requires Distinct(cols)
    ensures Distinct(Within(cols, s))
  {
    PositionsInsideFacts(cols, s);
    ProjectDistinct(cols, PositionsInside(cols, s));
  }

  /** The column named `name`, read from every row. */
  function Column(t: Table, name: string): (col: seq<Value>)
    requires WellFormed(t) && name in t.cols
    ensures |col| == |t.rows|
    ensures forall i :: 0 <= i < |t.rows| ==> col[i] == t.rows[i][IndexOf(t.cols, name)]
  {
    var j := IndexOf(t.cols, name);
    seq(|t.rows|, i requires 0 <= i < |t.rows| => t.rows[i][j])
  }

  /**
   * `df[name] = values`: an existing column is overwritten where it stands,
   * a new one is appended at the right.
   */
  function WithColumn(t: Table, name: string, values: seq<Value>): (r: Table)
    requires WellFormed(t) && |values| == |t.rows|
    ensures WellFormed(r) && |r.rows| == |t.rows|
    ensures r.cols == if name in t.cols then t.cols else t.cols + [name]
    ensures name in r.cols && forall i :: 0 <= i < |r.rows| ==> r.rows[i][IndexOf(r.cols, name)] == values[i]
    ensures forall i, j :: 0 <= i < |r.rows| && 0 <= j < |t.cols| && t.cols[j] != name ==> r.rows[i][j] == t.rows[i][j]
  {
    if name in t.cols then
      var j := IndexOf(t.cols, name);
      Table(t.cols, seq(|t.rows|, i requires 0 <= i < |t.rows| => t.rows[i][j := values[i]]))
    else
      Table(t.cols + [name], seq(|t.rows|, i requires 0 <= i < |t.rows| => t.rows[i] + [values[i]]))
  }

  /** `df[names]`: the named columns, in the order given. */
  function Select(t: Table, names: seq<string>): (r: Table)
    requires WellFormed(t) && forall k :: 0 <= k < |names| ==> names[k] in t.cols
    ensures WellFormed(r) && r.cols == names && |r.rows| == |t.rows|
    ensures forall i, k :: 0 <= i < |t.rows| && 0 <= k < |names| ==> r.rows[i][k] == t.rows[i][IndexOf(t.cols, names[k])]
  {
    var ix := seq(|names|, k requires 0 <= k < |names| => IndexOf(t.cols, names[k]));
    Table(names, seq(|t.rows|, i requires 0 <= i < |t.rows| => Project(t.rows[i], ix)))
  }

  /** `df.drop(columns=names)`: every column whose name is in `names` is removed. */
  function DropColumns(t: Table, names: set<string>): (r: Table)
    requires WellFormed(t)
    ensures WellFormed(r) && r.cols == Without(t.cols, names) && |r.rows| == |t.rows|
  {
    var ix := PositionsOutside(t.cols, names);
    Table(Project(t.cols, ix), seq(|t.rows|, i requires 0 <= i < |t.rows| => Project(t.rows[i], ix)))
  }

  /** The row sum of the named columns (`df[names].sum(axis=1)`). */
  function RowSum(t: Table, i: nat, names: seq<string>): int
    requires WellFormed(t) && i < |t.rows| && forall k :: 0 <= k < |names| ==> names[k] in t.cols
  {
    if names == [] then 0
    else
      var n := |names| - 1;
      RowSum(t, i, names[..n]) + NumOf(t.rows[i][IndexOf(t.cols, names[n])])
  }

  /** The same row sum taken for every row, as a column of numbers. */
  function RowSums(t: Table, names: seq<string>): (col: seq<Value>)
    requires WellFormed(t) && forall k :: 0 <= k < |names| ==> names[k] in t.cols
    ensures |col| == |t.rows|
    ensures forall i :: 0 <= i < |t.rows| ==> col[i] == Num(RowSum(t, i, names))
  {
    seq(|t.rows|, i requires 0 <= i < |t.rows| => Num(RowSum(t, i, names)))
  }

  /** Dropping columns leaves every other column, and its cells, in place under its name. */
  lemma DropColumnsCell(t: Table, names: set<string>, c: string, i: nat)
    requires WellFormed(t) && Distinct(t.cols) && c in t.cols && c !in names && i < |t.rows|
    ensures var r := DropColumns(t, names);
            c in r.cols && r.rows[i][IndexOf(r.cols, c)] == t.rows[i][IndexOf(t.cols, c)]
  {
    var r := DropColumns(t, names);
    var ix := PositionsOutside(t.cols, names);
    PositionsOutsideFacts(t.cols, names);
    var j := IndexOf(t.cols, c);
    assert j in ix;
    var k :| 0 <= k < |ix| && ix[k] == j;
    WithoutDistinct(t.cols, names);
    assert r.cols[k] == c;
    IndexOfDistinct(r.cols, k);
  }

  /** Dropping no column changes nothing. */
  lemma DropNothing(t: Table)
    requires WellFormed(t)
    ensures DropColumns(t, {}) == t
  {
    var ix := PositionsOutside(t.cols, {});
    assert ix == seq(|t.cols|, k => k) by {
      PositionsNone(t.cols, |t.cols|);
    }
    assert Project(t.cols, ix) == t.cols;
    forall i | 0 <= i < |t.rows| ensures Project(t.rows[i], ix) == t.rows[i] {
    }
  }

  lemma {:induction false} PositionsNone(cols: seq<string>, len: nat)
    requires len <= |cols|
    ensures PositionsOutsideTo(cols, len, {}) == seq(len, k => k)
    decreases len
  {
    if len > 0 {
      PositionsNone(cols, len - 1);
    }
  }

  /** Selecting every column in its own order changes nothing. */
  lemma SelectAll(t: Table)
    requires WellFormed(t) && Distinct(t.cols)
    ensures Select(t, t.cols) == t
  {
    var r := Select(t, t.cols);
    forall i | 0 <= i < |t.rows| ensures r.rows[i] == t.rows[i] {
      forall k | 0 <= k < |t.cols| ensures r.rows[i][k] == t.rows[i][k] {
        IndexOfDistinct(t.cols, k);
      }
    }
  }

  /** Setting one column leaves every other column, and its cells, in place. */
  lemma WithColumnKeeps(t: Table, name: string, values: seq<Value>, c: string, i: nat)
    requires WellFormed(t) && |values| == |t.rows| && c in t.cols && c != name && i < |t.rows|
    ensures var r := WithColumn(t, name, values);
            c in r.cols && IndexOf(r.cols, c) == IndexOf(t.cols, c)
            && r.rows[i][IndexOf(r.cols, c)] == t.rows[i][IndexOf(t.cols, c)]
  {
    if name !in t.cols {
      IndexOfPrefix(t.cols, [name], c);
    }
  }

  /** Row sums over columns whose cells agree are equal. */
  lemma {:induction false} RowSumAgree(t: Table, u: Table, i: nat, names: seq<string>)
    requires WellFormed(t) && WellFormed(u) && i < |t.rows| && i < |u.rows|
    requires forall k :: 0 <= k < |names| ==> names[k] in t.cols && names[k] in u.cols
    requires forall k :: 0 <= k < |names| ==>
               t.rows[i][IndexOf(t.cols, names[k])] == u.rows[i][IndexOf(u.cols, names[k])]
    ensures RowSum(t, i, names) == RowSum(u, i, names)
    decreases |names|
  {
    if names != [] {
      RowSumAgree(t, u, i, names[..|names| - 1]);
    }
  }

  /** A row sum over two lists of names is the sum over each. */
  lemma {:induction false} RowSumAppend(t: Table, i: nat, a: seq<string>, b: seq<string>)
    requires WellFormed(t) && i < |t.rows|
    requires forall k :: 0 <= k < |a| ==> a[k] in t.cols
    requires forall k :: 0 <= k < |b| ==> b[k] in t.cols
    ensures RowSum(t, i, a + b) == RowSum(t, i, a) + RowSum(t, i, b)
    decreases |b|
  {
    if b == [] {
      assert a + b == a;
    } else {
      var n := |b| - 1;
      assert (a + b)[..|a + b| - 1] == a + b[..n];
      RowSumAppend(t, i, a, b[..n]);
    }
  }

  // ---------------------------------------------------------------------
  // List comprehensions

  /** `[x for x in s if p(x)]`. */
  function Filter<T>(s: seq<T>, p: T -> bool): (r: seq<T>)
    ensures |r| <= |s|
    decreases |s|
  {
    if s == [] then []
    else
      var n := |s| - 1;
      Filter(s[..n], p) + (if p(s[n]) then [s[n]] else [])
  }

  lemma {:induction false} FilterMembers<T>(s: seq<T>, p: T -> bool)
    ensures forall x :: x in Filter(s, p) <==> x in s && p(x)
    decreases |s|
  {
    if s != [] {
      var n := |s| - 1;
      FilterMembers(s[..n], p);
      assert s == s[..n] + [s[n]];
    }
  }

  lemma {:induction false} FilterAppend<T>(a: seq<T>, b: seq<T>, p: T -> bool)
    ensures Filter(a + b, p) == Filter(a, p) + Filter(b, p)
    decreases |b|
  {
    if b == [] {
      assert a + b == a;
    } else {
      var n := |b| - 1;
      assert (a + b)[..|a + b| - 1] == a + b[..n];
      FilterAppend(a, b[..n], p);
    }
  }

  /** A list whose every element passes is kept whole. */
  lemma {:induction false} FilterAll<T>(s: seq<T>, p: T -> bool)
    requires forall k :: 0 <= k < |s| ==> p(s[k])
    ensures Filter(s, p) == s
    decreases |s|
  {
    if s != [] {
      FilterAll(s[..|s| - 1], p);
    }
  }

  /** Filtering keeps distinct elements distinct. */
  lemma {:induction false} FilterDistinct<T>(s: seq<T>, p: T -> bool)
    requires Distinct(s)
    ensures Distinct(Filter(s, p))
    decreases |s|
  {
    if s != [] {
      var n := |s| - 1;
      FilterDistinct(s[..n], p);
      FilterMembers(s[..n], p);
    }
  }

  /** A list none of whose elements passes filters to nothing. */
  lemma {:induction false} FilterNone<T>(s: seq<T>, p: T -> bool)
    requires forall k :: 0 <= k < |s| ==> !p(s[k])
    ensures Filter(s, p) == []
    decreases |s|
  {
    if s != [] {
      FilterNone(s[..|s| - 1], p);
    }
  }

  /** Two tests that agree on every element filter alike. */
  lemma {:induction false} FilterCongruent<T>(s: seq<T>, p: T -> bool, q: T -> bool)
    requires forall k :: 0 <= k < |s| ==> p(s[k]) == q(s[k])
    ensures Filter(s, p) == Filter(s, q)
    decreases |s|
  {
    if s != [] {
      FilterCongruent(s[..|s| - 1], p, q);
    }
  }

  /** Filtering twice is filtering once by both tests. */
  lemma {:induction false} FilterTwice<T>(s: seq<T>, p: T -> bool, q: T -> bool, both: T -> bool)
    requires forall k :: 0 <= k < |s| ==> both(s[k]) == (p(s[k]) && q(s[k]))
    ensures Filter(Filter(s, p), q) == Filter(s, both)
    decreases |s|
  {
    if s != [] {
      var n := |s| - 1;
      FilterTwice(s[..n], p, q, both);
      FilterAppend(Filter(s[..n], p), if p(s[n]) then [s[n]] else [], q);
      assert Filter([s[n]], q) == (if q(s[n]) then [s[n]] else []) by {
        assert [s[n]][..0] == [];
      }
      assert Filter([], q) == [];
    }
  }

  /** `Without` is the comprehension `[c for c in cols if c not in s]`. */
  lemma {:induction false} WithoutToFilter(cols: seq<string>, len: nat, s: set<string>)
    requires len <= |cols|
    ensures Project(cols, PositionsOutsideTo(cols, len, s)) == Filter(cols[..len], c => c !in s)
    decreases len
  {
    if len > 0 {
      WithoutToFilter(cols, len - 1, s);
      assert cols[..len][..len - 1] == cols[..len - 1];
      var ix := PositionsOutsideTo(cols, len - 1, s);
      if cols[len - 1] !in s {
        assert Project(cols, ix + [len - 1]) == Project(cols, ix) + [cols[len - 1]];
      }
    }
  }

  lemma WithoutIsFilter(cols: seq<string>, s: set<string>, p: string -> bool)
    requires forall c :: p(c) == (c !in s)
    ensures Without(cols, s) == Filter(cols, p)
  {
    WithoutToFilter(cols, |cols|, s);
    assert cols[..|cols|] == cols;
    FilterCongruent(cols, c => c !in s, p);
  }

  // ---------------------------------------------------------------------
  // Strings

  /** Python's `sub in s`. */
  predicate Contains(s: string, sub: string)
    decreases |s|
  {
    (|sub| <= |s| && s[..|sub|] == sub) || (s != [] && Contains(s[1..], sub))
  }

  /** Python's `a < b` on strings: lexicographic by code point. */
  predicate StrLess(a: string, b: string) {
    if a == [] then b != []
    else if b == [] then false
    else if a[0] != b[0] then a[0] < b[0]
    else StrLess(a[1..], b[1..])
  }

  predicate IsDigit(c: char) {
    '0' <= c <= '9'
  }

  /** Decimal text of a natural number, no leading zeros. */
  function NatText(n: nat): (s: string)
    ensures |s| >= 1 && forall k :: 0 <= k < |s| ==> IsDigit(s[k])
  {
    var d := ['0' + (n % 10) as char];
    if n < 10 then d else NatText(n / 10) + d
  }

  /** Python's `str(n)` for an integer. */
  function IntText(n: int): string {
    if n < 0 then "-" + NatText(-n) else NatText(n)
  }

  /**
   * A mutable data frame, for the functions that change the caller's table
   * in place (`rename(..., inplace=True)`, `df[c] = ...`, `drop(..., inplace=True)`).
   */
  class Frame {
    var cols: seq<string>
    var rows: seq<seq<Value>>

    constructor (t: Table)
      ensures cols == t.cols && rows == t.rows
    {
      cols := t.cols;
      rows := t.rows;
    }

    function Snapshot(): Table
      reads this
    {
      Table(cols, rows)
    }

    /** Replace the whole content; every in-place pandas operation ends here. */
    method Assign(t: Table)
      modifies this
      ensures Snapshot() == t
    {
      cols := t.cols;
      rows := t.rows;
    }
  }
}
