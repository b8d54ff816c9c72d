/**
 * Identity resolution (`apply_full_mapping`): legacy (wafer, spec, product)
 * triples are replaced by current ones through a nine-column mapping
 * table, then rows that now coincide are re-aggregated by summing every
 * numeric column.
 *
 * `ApplyFullMapping` is the function as the repository writes it;
 * `ResolveIdentities` is the corrected resolver (see the findings in the
 * README), and the scenario lemmas at the end show where the two differ.
 */
module Preprocessing {
  import opened Tables
  import opened Grouping

  /** The fixed names given to the first nine columns of the mapping table. */
  const MappingColumns: seq<string> :=
    ["旧规格", "旧品名", "旧晶圆品名", "新规格", "新品名", "新晶圆品名", "封装厂", "PC", "半成品"]

  /** The six old/new columns removed after the substitution. */
  const HelperColumns: set<string> := {"旧规格", "旧品名", "旧晶圆品名", "新规格", "新品名", "新晶圆品名"}

  /** The three metadata columns the join brings along and nothing removes. */
  const CarriedColumns: seq<string> := ["封装厂", "PC", "半成品"]

  /** One mapping row under the fixed names; `carried` holds 封装厂, PC, 半成品. */
  datatype Rule = Rule(oldSpec: Value, oldProd: Value, oldWafer: Value,
                       newSpec: Value, newProd: Value, newWafer: Value,
                       carried: seq<Value>)

  /** The first nine cells of a mapping row, read positionally. */
  function RuleOf(row: seq<Value>): (r: Rule)
    requires |row| >= 9
    ensures |r.carried| == 3
  {
    Rule(row[0], row[1], row[2], row[3], row[4], row[5], row[6..9])
  }

  /** A rule can anchor a lookup only when its three old fields are present. */
  predicate Keyed(r: Rule) {
    r.oldSpec != Missing && r.oldProd != Missing && r.oldWafer != Missing
  }

  /** The keyed rules among the first `len` mapping rows, in mapping order. */
  function KeptRulesTo(rows: seq<seq<Value>>, len: nat): (rules: seq<Rule>)
    requires len <= |rows| && forall i :: 0 <= i < |rows| ==> |rows[i]| >= 9
    ensures forall k :: 0 <= k < |rules| ==> Keyed(rules[k]) && |rules[k].carried| == 3
    ensures forall i :: 0 <= i < len && Keyed(RuleOf(rows[i])) ==> RuleOf(rows[i]) in rules
    ensures forall m :: m in rules ==> exists i :: 0 <= i < len && m == RuleOf(rows[i])
    decreases len
  {
    if len == 0 then []
    else
      var m := RuleOf(rows[len - 1]);
      KeptRulesTo(rows, len - 1) + (if Keyed(m) then [m] else [])
  }

  /** Line 23: the mapping rows whose three old fields are all present, as rules. */
  function KeptRules(rows: seq<seq<Value>>): (rules: seq<Rule>)
    requires forall i :: 0 <= i < |rows| ==> |rows[i]| >= 9
    ensures forall k :: 0 <= k < |rules| ==> Keyed(rules[k]) && |rules[k].carried| == 3
    ensures forall i :: 0 <= i < |rows| && Keyed(RuleOf(rows[i])) ==> RuleOf(rows[i]) in rules
    ensures forall m :: m in rules ==> exists i :: 0 <= i < |rows| && m == RuleOf(rows[i])
  {
    KeptRulesTo(rows, |rows|)
  }

  /**
   * Lines 13-23: fewer than nine columns is an error; otherwise the first
   * nine columns are read under the fixed names and every row with a
   * missing old field is discarded.
   */
  function LoadRules(mapping: Table): (r: Result<seq<Rule>, Error>)
    requires WellFormed(mapping)
    ensures r.Failure? <==> |mapping.cols| < 9
    ensures r.Failure? ==> r.error == MappingShape(|mapping.cols|)
    ensures r.Success? ==> forall k :: 0 <= k < |r.value| ==> Keyed(r.value[k])
    ensures r.Success? ==> forall i :: 0 <= i < |mapping.rows| && Keyed(RuleOf(mapping.rows[i])) ==>
                             RuleOf(mapping.rows[i]) in r.value
    ensures r.Success? ==> forall m :: m in r.value ==>
                             exists i :: 0 <= i < |mapping.rows| && m == RuleOf(mapping.rows[i])
  {
    if |mapping.cols| < 9 then Failure(MappingShape(|mapping.cols|))
    else Success(KeptRules(mapping.rows))
  }

  /** Whether a rule's old triple is the record's triple, compared as a whole. */
  predicate Matches(m: Rule, wafer: Value, spec: Value, prod: Value) {
    m.oldWafer == wafer && m.oldSpec == spec && m.oldProd == prod
  }

  /** The rules among the first `len` whose old triple is the record's, in mapping order. */
  function MatchingTo(rules: seq<Rule>, len: nat, wafer: Value, spec: Value, prod: Value): (ms: seq<Rule>)
    requires len <= |rules|
    ensures |ms| <= len
    decreases len
  {
    if len == 0 then []
    else
      var m := rules[len - 1];
      MatchingTo(rules, len - 1, wafer, spec, prod) + (if Matches(m, wafer, spec, prod) then [m] else [])
  }

  /** The rules whose old triple equals the record's triple as a whole, in mapping order. */
  function Matching(rules: seq<Rule>, wafer: Value, spec: Value, prod: Value): (ms: seq<Rule>)
    ensures |ms| <= |rules|
  {
    MatchingTo(rules, |rules|, wafer, spec, prod)
  }

  lemma {:induction false} MatchingToMembers(rules: seq<Rule>, len: nat, wafer: Value, spec: Value, prod: Value)
    requires len <= |rules|
    ensures forall m :: m in MatchingTo(rules, len, wafer, spec, prod) <==>
              Matches(m, wafer, spec, prod) && exists i :: 0 <= i < len && rules[i] == m
    decreases len
  {
    if len > 0 {
      MatchingToMembers(rules, len - 1, wafer, spec, prod);
    }
  }

  /** The matching rules are exactly the rules whose old triple is the record's. */
  lemma MatchingMembers(rules: seq<Rule>, wafer: Value, spec: Value, prod: Value)
    ensures forall m :: m in Matching(rules, wafer, spec, prod) <==> m in rules && Matches(m, wafer, spec, prod)
  {
    MatchingToMembers(rules, |rules|, wafer, spec, prod);
  }

  /** `new.combine_first(old)`: the new value where present, the old one otherwise. */
  function PreferNew(newValue: Value, oldValue: Value): Value {
    if newValue != Missing then newValue else oldValue
  }

  /**
   * Lines 34-36 for one row: wafer, then spec, then product take the
   * rule's new value where it has one and keep the old value otherwise.
   */
  function Substituted(row: seq<Value>, w: nat, s: nat, p: nat, rule: Rule): (r: seq<Value>)
    requires w < |row| && s < |row| && p < |row|
    ensures |r| == |row|
    ensures w != s && s != p && w != p ==>
              r[w] == PreferNew(rule.newWafer, row[w]) && r[s] == PreferNew(rule.newSpec, row[s])
              && r[p] == PreferNew(rule.newProd, row[p])
    ensures forall j :: 0 <= j < |row| && j != w && j != s && j != p ==> r[j] == row[j]
  {
    var r1 := row[w := PreferNew(rule.newWafer, row[w])];
    var r2 := r1[s := PreferNew(rule.newSpec, r1[s])];
    r2[p := PreferNew(rule.newProd, r2[p])]
  }

  /**
   * The rows the first `len` rules give one record in the left join: one
   * per matching rule, in mapping order, each the substituted record
   * followed by that rule's metadata.
   */
  function MatchedRowsTo(row: seq<Value>, w: nat, s: nat, p: nat, rules: seq<Rule>, len: nat): seq<seq<Value>>
    requires w < |row| && s < |row| && p < |row| && len <= |rules|
    decreases len
  {
    if len == 0 then []
    else
      var m := rules[len - 1];
      MatchedRowsTo(row, w, s, p, rules, len - 1)
        + (if Matches(m, row[w], row[s], row[p]) then [Substituted(row, w, s, p, m) + m.carried] else [])
  }

  /** The matched rows follow the matching rules one for one. */
  lemma {:induction false} MatchedRowsToFacts(row: seq<Value>, w: nat, s: nat, p: nat, rules: seq<Rule>, len: nat)
    requires w < |row| && s < |row| && p < |row| && len <= |rules|
    requires forall k :: 0 <= k < |rules| ==> |rules[k].carried| == 3
    ensures var out := MatchedRowsTo(row, w, s, p, rules, len);
            var ms := MatchingTo(rules, len, row[w], row[s], row[p]);
            |out| == |ms| && forall k :: 0 <= k < |ms| ==> out[k] == Substituted(row, w, s, p, ms[k]) + ms[k].carried
    ensures var out := MatchedRowsTo(row, w, s, p, rules, len);
            forall k :: 0 <= k < |out| ==> |out[k]| == |row| + 3
    decreases len
  {
    if len > 0 {
      MatchedRowsToFacts(row, w, s, p, rules, len - 1);
    }
  }

  /**
   * Lines 26-39 for one record: one row per matching rule (a left join),
   * or the record itself with missing metadata when no rule matches.
   */
  function JoinRow(row: seq<Value>, w: nat, s: nat, p: nat, rules: seq<Rule>): (out: seq<seq<Value>>)
    requires w < |row| && s < |row| && p < |row|
    requires forall k :: 0 <= k < |rules| ==> |rules[k].carried| == 3
    ensures forall k :: 0 <= k < |out| ==> |out[k]| == |row| + 3
  {
    var matched := MatchedRowsTo(row, w, s, p, rules, |rules|);
    MatchedRowsToFacts(row, w, s, p, rules, |rules|);
    if matched == [] then [row + [Missing, Missing, Missing]] else matched
  }

  /**
   * The joined rows of one record: the record with missing metadata when
   * no rule matches, otherwise one row per matching rule, in mapping
   * order, each the substituted record followed by that rule's metadata;
   * no cell outside the identity columns changes.
   */
  lemma JoinRowFacts(row: seq<Value>, w: nat, s: nat, p: nat, rules: seq<Rule>)
    requires w < |row| && s < |row| && p < |row|
    requires forall k :: 0 <= k < |rules| ==> |rules[k].carried| == 3
    ensures var out := JoinRow(row, w, s, p, rules);
            var ms := Matching(rules, row[w], row[s], row[p]);
            && (ms == [] ==> out == [row + [Missing, Missing, Missing]])
            && |out| == (if ms == [] then 1 else |ms|)
            && (forall k :: 0 <= k < |ms| ==> out[k] == Substituted(row, w, s, p, ms[k]) + ms[k].carried)
            && (forall k, j :: 0 <= k < |out| && 0 <= j < |row| && j != w && j != s && j != p ==> out[k][j] == row[j])
  {
    var out := JoinRow(row, w, s, p, rules);
    var ms := Matching(rules, row[w], row[s], row[p]);
    MatchedRowsToFacts(row, w, s, p, rules, |rules|);
    if ms != [] {
      forall k, j | 0 <= k < |out| && 0 <= j < |row| && j != w && j != s && j != p ensures out[k][j] == row[j] {
        assert out[k] == Substituted(row, w, s, p, ms[k]) + ms[k].carried;
      }
    }
  }

  /** The left join of the first `len` records, in record order. */
  function JoinRowsTo(rows: seq<seq<Value>>, len: nat, width: nat, w: nat, s: nat, p: nat, rules: seq<Rule>)
    : (out: seq<seq<Value>>)
    requires len <= |rows| && forall i :: 0 <= i < |rows| ==> |rows[i]| == width
    requires w < width && s < width && p < width
    requires forall k :: 0 <= k < |rules| ==> |rules[k].carried| == 3
    ensures forall k :: 0 <= k < |out| ==> |out[k]| == width + 3
    decreases len
  {
    if len == 0 then []
    else JoinRowsTo(rows, len - 1, width, w, s, p, rules) + JoinRow(rows[len - 1], w, s, p, rules)
  }

  function JoinRows(rows: seq<seq<Value>>, width: nat, w: nat, s: nat, p: nat, rules: seq<Rule>): (out: seq<seq<Value>>)
    requires forall i :: 0 <= i < |rows| ==> |rows[i]| == width
    requires w < width && s < width && p < width
    requires forall k :: 0 <= k < |rules| ==> |rules[k].carried| == 3
    ensures forall k :: 0 <= k < |out| ==> |out[k]| == width + 3
  {
    JoinRowsTo(rows, |rows|, width, w, s, p, rules)
  }

  /** The joined table after line 39: the record's columns, then 封装厂, PC, 半成品. */
  function Joined(df: Table, rules: seq<Rule>, w: nat, s: nat, p: nat): (t: Table)
    requires WellFormed(df) && w < |df.cols| && s < |df.cols| && p < |df.cols|
    requires forall k :: 0 <= k < |rules| ==> |rules[k].carried| == 3
    ensures WellFormed(t) && t.cols == df.cols + CarriedColumns
  {
    Table(df.cols + CarriedColumns, JoinRows(df.rows, |df.cols|, w, s, p, rules))
  }

  /**
   * The explicit dtype tags of the joined table: the record's numeric
   * columns other than the three identity columns, and those carried
   * columns the mapping table holds as numbers.
   */
  function JoinedNumeric(dfNumeric: set<string>, mapping: Table, mappingNumeric: set<string>,
                         specCol: string, prodCol: string, waferCol: string): set<string>
    requires |mapping.cols| >= 9
  {
    (dfNumeric - {specCol, prodCol, waferCol})
      + (set k | 0 <= k < 3 && mapping.cols[6 + k] in mappingNumeric :: CarriedColumns[k])
  }

  // ---------------------------------------------------------------------
  // Group by the non-numeric columns, sum the numeric ones (lines 42-44)

  /** The numeric cells of `row` at positions `ai`, as pandas sums them. */
  function Amounts(row: seq<Value>, ai: seq<nat>): (a: seq<int>)
    requires forall k :: 0 <= k < |ai| ==> ai[k] < |row|
    ensures |a| == |ai| && forall k :: 0 <= k < |ai| ==> a[k] == NumOf(row[ai[k]])
  {
    seq(|ai|, k requires 0 <= k < |ai| => NumOf(row[ai[k]]))
  }

  /** Whether grouping keeps a row: with `dropMissing` (pandas' default) a missing key drops it. */
  predicate KeepsRow(key: seq<Value>, dropMissing: bool) {
    !dropMissing || Missing !in key
  }

  /** Rows that can be grouped: all the same width, every position in range. */
  predicate Shaped(rows: seq<seq<Value>>, width: nat, gi: seq<nat>, ai: seq<nat>) {
    && (forall i :: 0 <= i < |rows| ==> |rows[i]| == width)
    && (forall k :: 0 <= k < |gi| ==> gi[k] < width)
    && (forall k :: 0 <= k < |ai| ==> ai[k] < width)
  }

  /** The grouping entry of one row: its key and amounts, or nothing when the row is dropped. */
  function EntryOf(row: seq<Value>, gi: seq<nat>, ai: seq<nat>, dropMissing: bool): (e: seq<Group<seq<Value>>>)
    requires forall k :: 0 <= k < |gi| ==> gi[k] < |row|
    requires forall k :: 0 <= k < |ai| ==> ai[k] < |row|
    ensures Width(e, |ai|)
  {
    var key := Project(row, gi);
    if KeepsRow(key, dropMissing) then [Group(key, Amounts(row, ai))] else []
  }

  /** The grouping entries of the first `len` rows, in row order. */
  function EntriesTo(rows: seq<seq<Value>>, len: nat, width: nat, gi: seq<nat>, ai: seq<nat>, dropMissing: bool)
    : (es: seq<Group<seq<Value>>>)
    requires Shaped(rows, width, gi, ai) && len <= |rows|
    ensures Width(es, |ai|)
    decreases len
  {
    if len == 0 then []
    else EntriesTo(rows, len - 1, width, gi, ai, dropMissing) + EntryOf(rows[len - 1], gi, ai, dropMissing)
  }

  function Entries(rows: seq<seq<Value>>, width: nat, gi: seq<nat>, ai: seq<nat>, dropMissing: bool)
    : (es: seq<Group<seq<Value>>>)
    requires Shaped(rows, width, gi, ai)
    ensures Width(es, |ai|)
  {
    EntriesTo(rows, |rows|, width, gi, ai, dropMissing)
  }

  /** The entries of two rows, in order. */
  lemma EntriesOfTwo(r0: seq<Value>, r1: seq<Value>, width: nat, gi: seq<nat>, ai: seq<nat>, dropMissing: bool)
    requires |r0| == width && |r1| == width && Shaped([r0, r1], width, gi, ai)
    ensures Entries([r0, r1], width, gi, ai, dropMissing)
         == EntryOf(r0, gi, ai, dropMissing) + EntryOf(r1, gi, ai, dropMissing)
  {
    assert EntriesTo([r0, r1], 1, width, gi, ai, dropMissing) == [] + EntryOf(r0, gi, ai, dropMissing);
  }

  /** Every entry's key has one cell per grouping column and is one that grouping keeps. */
  lemma {:induction false} EntriesShape(rows: seq<seq<Value>>, len: nat, width: nat, gi: seq<nat>, ai: seq<nat>,
                                        dropMissing: bool)
    requires Shaped(rows, width, gi, ai) && len <= |rows|
    ensures forall e :: e in EntriesTo(rows, len, width, gi, ai, dropMissing) ==>
              |e.key| == |gi| && KeepsRow(e.key, dropMissing)
    decreases len
  {
    if len > 0 {
      EntriesShape(rows, len - 1, width, gi, ai, dropMissing);
    }
  }

  function Nums(s: seq<int>): (r: seq<Value>)
    ensures |r| == |s| && forall k :: 0 <= k < |s| ==> r[k] == Num(s[k])
  {
    seq(|s|, k requires 0 <= k < |s| => Num(s[k]))
  }

  /** The output rows of the grouping: each group's key followed by its sums. */
  function GroupRows(groups: seq<Group<seq<Value>>>): (rows: seq<seq<Value>>)
    ensures |rows| == |groups|
    ensures forall g :: 0 <= g < |groups| ==> rows[g] == groups[g].key + Nums(groups[g].sums)
  {
    seq(|groups|, g requires 0 <= g < |groups| => groups[g].key + Nums(groups[g].sums))
  }

  /**
   * `df.groupby(group_cols, as_index=False)[agg_cols].sum()`: the
   * non-numeric columns are the key, the numeric ones are summed; key
   * columns come first, then the summed ones.
   */
  function GroupAndSum(t: Table, numeric: set<string>, dropMissing: bool): (r: Table)
    requires WellFormed(t)
    ensures WellFormed(r)
    ensures r.cols == Without(t.cols, numeric) + Within(t.cols, numeric)
    ensures |r.cols| == |PositionsOutside(t.cols, numeric)| + |PositionsInside(t.cols, numeric)|
  {
    var gi := PositionsOutside(t.cols, numeric);
    var ai := PositionsInside(t.cols, numeric);
    Table(Project(t.cols, gi) + Project(t.cols, ai), Grouped(t.rows, |t.cols|, gi, ai, dropMissing))
  }

  /** The grouped rows: one per distinct kept key, the key's cells followed by the sums. */
  function Grouped(rows: seq<seq<Value>>, width: nat, gi: seq<nat>, ai: seq<nat>, dropMissing: bool)
    : (out: seq<seq<Value>>)
    requires Shaped(rows, width, gi, ai)
    ensures forall g :: 0 <= g < |out| ==> |out[g]| == |gi| + |ai|
  {
    var es := Entries(rows, width, gi, ai, dropMissing);
    EntriesShape(rows, |rows|, width, gi, ai, dropMissing);
    GroupKeyLengths(es, |gi|, |ai|);
    GroupRows(GroupSum(es, |ai|))
  }

  /** Reference definition: column `c` summed over the first `len` rows whose key is `key`. */
  function KeyedSumTo(rows: seq<seq<Value>>, len: nat, gi: seq<nat>, key: seq<Value>, c: nat): int
    requires len <= |rows|
    requires forall i :: 0 <= i < |rows| ==> c < |rows[i]| && forall k :: 0 <= k < |gi| ==> gi[k] < |rows[i]|
    decreases len
  {
    if len == 0 then 0
    else KeyedSumTo(rows, len - 1, gi, key, c) + (if Project(rows[len - 1], gi) == key then NumOf(rows[len - 1][c]) else 0)
  }

  /** Column `c` summed over the rows whose key is `key`. */
  function KeyedSum(rows: seq<seq<Value>>, gi: seq<nat>, key: seq<Value>, c: nat): int
    requires forall i :: 0 <= i < |rows| ==> c < |rows[i]| && forall k :: 0 <= k < |gi| ==> gi[k] < |rows[i]|
  {
    KeyedSumTo(rows, |rows|, gi, key, c)
  }

  /** Column `c` summed over the first `len` rows. */
  function ColumnTotalTo(rows: seq<seq<Value>>, len: nat, c: nat): int
    requires len <= |rows|
    decreases len
  {
    if len == 0 then 0 else ColumnTotalTo(rows, len - 1, c) + CellNum(rows[len - 1], c)
  }

  /** The amount a row holds in column `c`; a row too short for `c` holds none. */
  function CellNum(row: seq<Value>, c: nat): int {
    if c < |row| then NumOf(row[c]) else 0
  }

  /** Column `c` summed over every row. */
  function ColumnTotal(rows: seq<seq<Value>>, c: nat): int {
    ColumnTotalTo(rows, |rows|, c)
  }

  lemma {:induction false} EntriesKeySum(rows: seq<seq<Value>>, len: nat, width: nat, gi: seq<nat>, ai: seq<nat>,
                                         dropMissing: bool, key: seq<Value>, j: nat)
    requires Shaped(rows, width, gi, ai) && len <= |rows| && j < |ai| && KeepsRow(key, dropMissing)
    ensures KeySum(EntriesTo(rows, len, width, gi, ai, dropMissing), key, j) == KeyedSumTo(rows, len, gi, key, ai[j])
    decreases len
  {
    if len > 0 {
      EntriesKeySum(rows, len - 1, width, gi, ai, dropMissing, key, j);
      var es := EntriesTo(rows, len - 1, width, gi, ai, dropMissing);
      var row := rows[len - 1];
      var k := Project(row, gi);
      if KeepsRow(k, dropMissing) {
        KeySumSnoc(es, Group(k, Amounts(row, ai)), key, j);
      } else {
        assert es + [] == es;
      }
    }
  }

  lemma {:induction false} EntriesTotal(rows: seq<seq<Value>>, len: nat, width: nat, gi: seq<nat>, ai: seq<nat>,
                                        dropMissing: bool, j: nat)
    requires Shaped(rows, width, gi, ai) && len <= |rows| && j < |ai|
    requires forall i :: 0 <= i < |rows| ==> KeepsRow(Project(rows[i], gi), dropMissing)
    ensures Total(EntriesTo(rows, len, width, gi, ai, dropMissing), j) == ColumnTotalTo(rows, len, ai[j])
    decreases len
  {
    if len > 0 {
      EntriesTotal(rows, len - 1, width, gi, ai, dropMissing, j);
      var es := EntriesTo(rows, len - 1, width, gi, ai, dropMissing);
      var row := rows[len - 1];
      var e := Group(Project(row, gi), Amounts(row, ai));
      assert KeepsRow(e.key, dropMissing);
      TotalSnoc(es, e, j);
    }
  }

  /** Every row that grouping keeps has its key among the entries. */
  lemma {:induction false} EntriesKeysComplete(rows: seq<seq<Value>>, len: nat, width: nat, gi: seq<nat>, ai: seq<nat>,
                                               dropMissing: bool)
    requires Shaped(rows, width, gi, ai) && len <= |rows|
    ensures forall i :: 0 <= i < len && KeepsRow(Project(rows[i], gi), dropMissing) ==>
              Project(rows[i], gi) in Keys(EntriesTo(rows, len, width, gi, ai, dropMissing))
    decreases len
  {
    if len > 0 {
      EntriesKeysComplete(rows, len - 1, width, gi, ai, dropMissing);
      var es := EntriesTo(rows, len - 1, width, gi, ai, dropMissing);
      var k := Project(rows[len - 1], gi);
      if KeepsRow(k, dropMissing) {
        assert Keys(EntriesTo(rows, len, width, gi, ai, dropMissing)) == Keys(es) + [k];
      } else {
        assert EntriesTo(rows, len, width, gi, ai, dropMissing) == es;
      }
    }
  }

  /** Every entry's key is the key of some row. */
  lemma {:induction false} EntriesKeysSound(rows: seq<seq<Value>>, len: nat, width: nat, gi: seq<nat>, ai: seq<nat>,
                                            dropMissing: bool)
    requires Shaped(rows, width, gi, ai) && len <= |rows|
    ensures forall k :: k in Keys(EntriesTo(rows, len, width, gi, ai, dropMissing)) ==>
              exists i :: 0 <= i < len && Project(rows[i], gi) == k
    decreases len
  {
    if len > 0 {
      EntriesKeysSound(rows, len - 1, width, gi, ai, dropMissing);
      var es := EntriesTo(rows, len - 1, width, gi, ai, dropMissing);
      var k := Project(rows[len - 1], gi);
      if KeepsRow(k, dropMissing) {
        assert Keys(EntriesTo(rows, len, width, gi, ai, dropMissing)) == Keys(es) + [k];
      } else {
        assert EntriesTo(rows, len, width, gi, ai, dropMissing) == es;
      }
    }
  }

  /** The rows of `GroupAndSum` are the grouped rows of its input at the key and summed positions. */
  lemma GroupAndSumRows(t: Table, numeric: set<string>, dropMissing: bool)
    requires WellFormed(t)
    ensures GroupAndSum(t, numeric, dropMissing).rows
         == Grouped(t.rows, |t.cols|, PositionsOutside(t.cols, numeric), PositionsInside(t.cols, numeric), dropMissing)
  {
  }

  /** The grouped rows, group by group. */
  lemma GroupedGroups(rows: seq<seq<Value>>, width: nat, gi: seq<nat>, ai: seq<nat>, dropMissing: bool)
    requires Shaped(rows, width, gi, ai)
    ensures var groups := GroupSum(Entries(rows, width, gi, ai, dropMissing), |ai|);
            var out := Grouped(rows, width, gi, ai, dropMissing);
            && |out| == |groups|
            && (forall g :: 0 <= g < |groups| ==> |groups[g].key| == |gi|)
            && (forall g :: 0 <= g < |groups| ==> out[g] == groups[g].key + Nums(groups[g].sums))
  {
    EntriesShape(rows, |rows|, width, gi, ai, dropMissing);
    GroupKeyLengths(Entries(rows, width, gi, ai, dropMissing), |gi|, |ai|);
  }

  /** No two grouped rows share a key. */
  lemma GroupedKeysDistinct(rows: seq<seq<Value>>, width: nat, gi: seq<nat>, ai: seq<nat>, dropMissing: bool)
    requires Shaped(rows, width, gi, ai)
    ensures var out := Grouped(rows, width, gi, ai, dropMissing);
            forall g, h :: 0 <= g < h < |out| ==> out[g][..|gi|] != out[h][..|gi|]
  {
    var groups := GroupSum(Entries(rows, width, gi, ai, dropMissing), |ai|);
    var out := Grouped(rows, width, gi, ai, dropMissing);
    GroupedGroups(rows, width, gi, ai, dropMissing);
    forall g, h | 0 <= g < h < |out| ensures out[g][..|gi|] != out[h][..|gi|] {
      assert out[g][..|gi|] == groups[g].key && out[h][..|gi|] == groups[h].key;
      assert Keys(groups)[g] != Keys(groups)[h];
    }
  }

  /** Each grouped key is the key of some row that grouping keeps. */
  lemma GroupedKeysSound(rows: seq<seq<Value>>, width: nat, gi: seq<nat>, ai: seq<nat>, dropMissing: bool)
    requires Shaped(rows, width, gi, ai)
    ensures var out := Grouped(rows, width, gi, ai, dropMissing);
            forall g :: 0 <= g < |out| ==>
              KeepsRow(out[g][..|gi|], dropMissing)
              && exists i :: 0 <= i < |rows| && Project(rows[i], gi) == out[g][..|gi|]
  {
    var out := Grouped(rows, width, gi, ai, dropMissing);
    forall g | 0 <= g < |out|
      ensures KeepsRow(out[g][..|gi|], dropMissing)
      ensures exists i :: 0 <= i < |rows| && Project(rows[i], gi) == out[g][..|gi|]
    {
      GroupedKeySound(rows, width, gi, ai, dropMissing, g);
    }
  }

  lemma GroupedKeySound(rows: seq<seq<Value>>, width: nat, gi: seq<nat>, ai: seq<nat>, dropMissing: bool, g: nat)
    requires Shaped(rows, width, gi, ai) && g < |Grouped(rows, width, gi, ai, dropMissing)|
    ensures var out := Grouped(rows, width, gi, ai, dropMissing);
            KeepsRow(out[g][..|gi|], dropMissing)
            && exists i :: 0 <= i < |rows| && Project(rows[i], gi) == out[g][..|gi|]
  {
    var es := Entries(rows, width, gi, ai, dropMissing);
    var groups := GroupSum(es, |ai|);
    var out := Grouped(rows, width, gi, ai, dropMissing);
    GroupedGroups(rows, width, gi, ai, dropMissing);
    assert out[g][..|gi|] == groups[g].key;
    GroupSumKeys(es, |ai|);
    assert groups[g].key in Keys(es);
    EntriesKeysSound(rows, |rows|, width, gi, ai, dropMissing);
    EntriesShape(rows, |rows|, width, gi, ai, dropMissing);
    var p :| 0 <= p < |es| && Keys(es)[p] == groups[g].key;
    assert es[p] in es;
  }

  /** The key of every row that grouping keeps has a grouped row. */
  lemma GroupedKeysComplete(rows: seq<seq<Value>>, width: nat, gi: seq<nat>, ai: seq<nat>, dropMissing: bool)
    requires Shaped(rows, width, gi, ai)
    ensures var out := Grouped(rows, width, gi, ai, dropMissing);
            forall i :: 0 <= i < |rows| && KeepsRow(Project(rows[i], gi), dropMissing) ==>
              exists g :: 0 <= g < |out| && out[g][..|gi|] == Project(rows[i], gi)
  {
    var es := Entries(rows, width, gi, ai, dropMissing);
    var groups := GroupSum(es, |ai|);
    var out := Grouped(rows, width, gi, ai, dropMissing);
    GroupedGroups(rows, width, gi, ai, dropMissing);
    GroupSumKeys(es, |ai|);
    EntriesKeysComplete(rows, |rows|, width, gi, ai, dropMissing);
    forall i | 0 <= i < |rows| && KeepsRow(Project(rows[i], gi), dropMissing)
      ensures exists g :: 0 <= g < |out| && out[g][..|gi|] == Project(rows[i], gi)
    {
      var k := Project(rows[i], gi);
      var p :| 0 <= p < |es| && Keys(es)[p] == k;
      assert k in Keys(groups);
      var g :| 0 <= g < |groups| && Keys(groups)[g] == k;
      assert out[g][..|gi|] == k;
    }
  }

  /** Every summed cell is its column's total over the rows with that row's key. */
  lemma GroupedCells(rows: seq<seq<Value>>, width: nat, gi: seq<nat>, ai: seq<nat>, dropMissing: bool)
    requires Shaped(rows, width, gi, ai)
    ensures var out := Grouped(rows, width, gi, ai, dropMissing);
            forall g, j :: 0 <= g < |out| && 0 <= j < |ai| ==>
              out[g][|gi| + j] == Num(KeyedSum(rows, gi, out[g][..|gi|], ai[j]))
  {
    var out := Grouped(rows, width, gi, ai, dropMissing);
    forall g, j | 0 <= g < |out| && 0 <= j < |ai|
      ensures out[g][|gi| + j] == Num(KeyedSum(rows, gi, out[g][..|gi|], ai[j]))
    {
      GroupedCell(rows, width, gi, ai, dropMissing, g, j);
    }
  }

  lemma GroupedCell(rows: seq<seq<Value>>, width: nat, gi: seq<nat>, ai: seq<nat>, dropMissing: bool, g: nat, j: nat)
    requires Shaped(rows, width, gi, ai)
    requires g < |Grouped(rows, width, gi, ai, dropMissing)| && j < |ai|
    ensures var out := Grouped(rows, width, gi, ai, dropMissing);
            out[g][|gi| + j] == Num(KeyedSum(rows, gi, out[g][..|gi|], ai[j]))
  {
    var es := Entries(rows, width, gi, ai, dropMissing);
    var groups := GroupSum(es, |ai|);
    var out := Grouped(rows, width, gi, ai, dropMissing);
    GroupedGroups(rows, width, gi, ai, dropMissing);
    var key := groups[g].key;
    assert out[g] == key + Nums(groups[g].sums);
    assert out[g][..|gi|] == key;
    assert out[g][|gi| + j] == Num(groups[g].sums[j]);
    GroupSumToCell(es, |es|, |ai|, g, j);
    assert groups[g].sums[j] == KeySum(es, key, j);
    GroupedKeySound(rows, width, gi, ai, dropMissing, g);
    assert KeepsRow(key, dropMissing);
    EntriesKeySum(rows, |rows|, width, gi, ai, dropMissing, key, j);
  }

  /** When no row is dropped, every summed column keeps its total. */
  lemma GroupedConserves(rows: seq<seq<Value>>, width: nat, gi: seq<nat>, ai: seq<nat>, dropMissing: bool, j: nat)
    requires Shaped(rows, width, gi, ai) && j < |ai|
    requires forall i :: 0 <= i < |rows| ==> KeepsRow(Project(rows[i], gi), dropMissing)
    ensures ColumnTotal(Grouped(rows, width, gi, ai, dropMissing), |gi| + j) == ColumnTotal(rows, ai[j])
  {
    var es := Entries(rows, width, gi, ai, dropMissing);
    GroupedTotal(rows, width, gi, ai, dropMissing, j);
    GroupSumTotal(es, |ai|, j);
    EntriesTotal(rows, |rows|, width, gi, ai, dropMissing, j);
  }

  /** Each summed column of the grouped rows adds up to the groups' total. */
  lemma GroupedTotal(rows: seq<seq<Value>>, width: nat, gi: seq<nat>, ai: seq<nat>, dropMissing: bool, j: nat)
    requires Shaped(rows, width, gi, ai) && j < |ai|
    ensures ColumnTotal(Grouped(rows, width, gi, ai, dropMissing), |gi| + j)
         == Total(GroupSum(Entries(rows, width, gi, ai, dropMissing), |ai|), j)
  {
    var es := Entries(rows, width, gi, ai, dropMissing);
    EntriesShape(rows, |rows|, width, gi, ai, dropMissing);
    var groups := GroupSum(es, |ai|);
    GroupKeyLengths(es, |gi|, |ai|);
    OutputTotal(groups, |groups|, |gi|, |ai|, j);
  }

  /** When no row is dropped, every summed column keeps its total. */
  lemma GroupAndSumConserves(t: Table, numeric: set<string>, dropMissing: bool, j: nat)
    requires WellFormed(t)
    requires forall i :: 0 <= i < |t.rows| ==> KeepsRow(Project(t.rows[i], PositionsOutside(t.cols, numeric)), dropMissing)
    requires j < |PositionsInside(t.cols, numeric)|
    ensures ColumnTotal(GroupAndSum(t, numeric, dropMissing).rows, |PositionsOutside(t.cols, numeric)| + j)
         == ColumnTotal(t.rows, PositionsInside(t.cols, numeric)[j])
  {
    var gi, ai := PositionsOutside(t.cols, numeric), PositionsInside(t.cols, numeric);
    GroupAndSumRows(t, numeric, dropMissing);
    GroupedConserves(t.rows, |t.cols|, gi, ai, dropMissing, j);
    assert GroupAndSum(t, numeric, dropMissing).rows == Grouped(t.rows, |t.cols|, gi, ai, dropMissing);
  }

  lemma GroupKeyLengths(es: seq<Group<seq<Value>>>, m: nat, n: nat)
    requires Width(es, n) && forall e :: e in es ==> |e.key| == m
    ensures forall g :: 0 <= g < |GroupSum(es, n)| ==> |GroupSum(es, n)[g].key| == m
  {
    var groups := GroupSum(es, n);
    GroupSumKeys(es, n);
    forall g | 0 <= g < |groups| ensures |groups[g].key| == m {
      assert groups[g].key in Keys(es);
      var p :| 0 <= p < |es| && Keys(es)[p] == groups[g].key;
      assert es[p] in es;
    }
  }

  /** The summed column of the first `len` output rows adds up to the first `len` groups' total. */
  lemma {:induction false} OutputTotal(groups: seq<Group<seq<Value>>>, len: nat, m: nat, n: nat, j: nat)
    requires Width(groups, n) && j < n && len <= |groups|
    requires forall g :: 0 <= g < |groups| ==> |groups[g].key| == m
    ensures ColumnTotalTo(GroupRows(groups), len, m + j) == TotalTo(groups, len, j)
    decreases len
  {
    if len > 0 {
      OutputTotal(groups, len - 1, m, n, j);
      var g := groups[len - 1];
      assert GroupRows(groups)[len - 1][m + j] == Num(g.sums[j]);
    }
  }

  // ---------------------------------------------------------------------
  // The function as written (lines 3-46)

  /**
   * `apply_full_mapping(df, mapping_df, spec_col, prod_col, wafer_col)`.
   * `dfNumeric` and `mappingNumeric` are the dtype tags pandas would infer.
   */
  function ApplyFullMapping(df: Table, dfNumeric: set<string>, mapping: Table, mappingNumeric: set<string>,
                            specCol: string, prodCol: string, waferCol: string): (r: Result<Table, Error>)
    requires WellFormed(df) && WellFormed(mapping)
    requires forall c :: c in MappingColumns ==> c !in df.cols
    ensures |mapping.cols| < 9 ==> r == Failure(MappingShape(|mapping.cols|))
    ensures |mapping.cols| >= 9 ==>
              (r.Failure? <==> !(waferCol in df.cols && specCol in df.cols && prodCol in df.cols))
    ensures r.Success? ==> WellFormed(r.value)
    ensures r.Success? ==> forall c :: c in HelperColumns ==> c !in r.value.cols
    ensures r.Success? ==>
              var numeric := JoinedNumeric(dfNumeric, mapping, mappingNumeric, specCol, prodCol, waferCol);
              r.value.cols == Without(df.cols + CarriedColumns, numeric) + Within(df.cols + CarriedColumns, numeric)
  {
    match LoadRules(mapping)
    case Failure(e) => Failure(e)
    case Success(rules) =>
      if waferCol !in df.cols then Failure(MissingColumn(waferCol))
      else if specCol !in df.cols then Failure(MissingColumn(specCol))
      else if prodCol !in df.cols then Failure(MissingColumn(prodCol))
      else
        var t := Joined(df, rules, IndexOf(df.cols, waferCol), IndexOf(df.cols, specCol), IndexOf(df.cols, prodCol));
        var numeric := JoinedNumeric(dfNumeric, mapping, mappingNumeric, specCol, prodCol, waferCol);
        HelperColumnsAbsent(df.cols, numeric);
        Success(GroupAndSum(t, numeric, true))
  }

  lemma HelperColumnsAbsent(cols: seq<string>, numeric: set<string>)
    requires forall c :: c in MappingColumns ==> c !in cols
    ensures forall c :: c in HelperColumns ==>
              c !in Without(cols + CarriedColumns, numeric) + Within(cols + CarriedColumns, numeric)
  {
    WithoutMembers(cols + CarriedColumns, numeric);
    WithinMembers(cols + CarriedColumns, numeric);
    HelperColumnsNotCarried();
    forall c | c in HelperColumns ensures c !in cols {
      assert c in MappingColumns;
    }
  }

  /** The old/new columns are not among the carried metadata columns. */
  lemma HelperColumnsNotCarried()
    ensures forall c :: c in HelperColumns ==> c !in CarriedColumns
  {
    forall c | c in HelperColumns ensures c !in CarriedColumns {
      assert c[0] in {'旧', '新'};
    }
  }

  /** No two rules share an old triple. */
  predicate UniqueOldTriples(rules: seq<Rule>) {
    forall a, b :: 0 <= a < b < |rules| ==>
      (rules[a].oldWafer, rules[a].oldSpec, rules[a].oldProd) != (rules[b].oldWafer, rules[b].oldSpec, rules[b].oldProd)
  }

  lemma {:induction false} MatchingToAtMostOne(rules: seq<Rule>, len: nat, wafer: Value, spec: Value, prod: Value)
    requires len <= |rules| && UniqueOldTriples(rules)
    ensures |MatchingTo(rules, len, wafer, spec, prod)| <= 1
    decreases len
  {
    if len > 0 {
      MatchingToAtMostOne(rules, len - 1, wafer, spec, prod);
      var front := MatchingTo(rules, len - 1, wafer, spec, prod);
      if Matches(rules[len - 1], wafer, spec, prod) && front != [] {
        var a := MatchingToWitness(rules, len - 1, wafer, spec, prod);
        assert false;
      }
    }
  }

  /** A rule among the first `len` that the record matches, when there is one. */
  lemma MatchingToWitness(rules: seq<Rule>, len: nat, wafer: Value, spec: Value, prod: Value) returns (a: nat)
    requires len <= |rules| && MatchingTo(rules, len, wafer, spec, prod) != []
    ensures a < len && Matches(rules[a], wafer, spec, prod)
    decreases len
  {
    var ms := MatchingTo(rules, len, wafer, spec, prod);
    MatchingToMembers(rules, len, wafer, spec, prod);
    assert ms[0] in ms;
    a :| 0 <= a < len && rules[a] == ms[0];
  }

  /** With unique old triples a record matches at most one rule. */
  lemma MatchingAtMostOne(rules: seq<Rule>, wafer: Value, spec: Value, prod: Value)
    requires UniqueOldTriples(rules)
    ensures |Matching(rules, wafer, spec, prod)| <= 1
  {
    MatchingToAtMostOne(rules, |rules|, wafer, spec, prod);
  }

  lemma {:induction false} ColumnTotalToAgree(a: seq<seq<Value>>, b: seq<seq<Value>>, len: nat, c: nat)
    requires len <= |a| && len <= |b|
    requires forall i :: 0 <= i < |a| ==> c < |a[i]|
    requires forall i :: 0 <= i < |b| ==> c < |b[i]|
    requires forall i :: 0 <= i < len ==> a[i][c] == b[i][c]
    ensures ColumnTotalTo(a, len, c) == ColumnTotalTo(b, len, c)
    decreases len
  {
    if len > 0 {
      ColumnTotalToAgree(a, b, len - 1, c);
    }
  }

  lemma {:induction false} ColumnTotalToAppend(a: seq<seq<Value>>, b: seq<seq<Value>>, len: nat, c: nat)
    requires len <= |b|
    requires forall i :: 0 <= i < |a| ==> c < |a[i]|
    requires forall i :: 0 <= i < |b| ==> c < |b[i]|
    ensures ColumnTotalTo(a + b, |a| + len, c) == ColumnTotal(a, c) + ColumnTotalTo(b, len, c)
    decreases len
  {
    if len > 0 {
      ColumnTotalToAppend(a, b, len - 1, c);
      assert (a + b)[|a| + len - 1] == b[len - 1];
    } else {
      ColumnTotalToAgree(a + b, a, |a|, c);
    }
  }

  lemma ColumnTotalAppend(a: seq<seq<Value>>, b: seq<seq<Value>>, c: nat)
    requires forall i :: 0 <= i < |a| ==> c < |a[i]|
    requires forall i :: 0 <= i < |b| ==> c < |b[i]|
    ensures ColumnTotal(a + b, c) == ColumnTotal(a, c) + ColumnTotal(b, c)
  {
    ColumnTotalToAppend(a, b, |b|, c);
  }

  /**
   * What the left join asks of its inputs: records of one width, the
   * identity positions inside it, and three metadata cells per rule.
   */
  predicate JoinInputs(rows: seq<seq<Value>>, width: nat, w: nat, s: nat, p: nat, rules: seq<Rule>) {
    && (forall i :: 0 <= i < |rows| ==> |rows[i]| == width)
    && w < width && s < width && p < width
    && (forall k :: 0 <= k < |rules| ==> |rules[k].carried| == 3)
  }

  /** With unique old triples the left join keeps one row per record, so no quantity is duplicated. */
  lemma {:induction false} JoinRowsConserves(rows: seq<seq<Value>>, len: nat, width: nat, w: nat, s: nat, p: nat,
                                             rules: seq<Rule>, c: nat)
    requires len <= |rows| && JoinInputs(rows, width, w, s, p, rules) && UniqueOldTriples(rules)
    requires c < width && c != w && c != s && c != p
    ensures ColumnTotal(JoinRowsTo(rows, len, width, w, s, p, rules), c) == ColumnTotalTo(rows, len, c)
    decreases len
  {
    if len > 0 {
      assert ColumnTotal(JoinRowsTo(rows, len - 1, width, w, s, p, rules), c) == ColumnTotalTo(rows, len - 1, c) by {
        JoinRowsConserves(rows, len - 1, width, w, s, p, rules, c);
      }
      JoinRowsStep(rows, len, width, w, s, p, rules, c);
    }
  }

  /** One more record adds its own quantity to the joined total, so conservation extends to it. */
  lemma JoinRowsStep(rows: seq<seq<Value>>, len: nat, width: nat, w: nat, s: nat, p: nat, rules: seq<Rule>, c: nat)
    requires 0 < len <= |rows| && JoinInputs(rows, width, w, s, p, rules) && UniqueOldTriples(rules)
    requires c < width && c != w && c != s && c != p
    requires ColumnTotal(JoinRowsTo(rows, len - 1, width, w, s, p, rules), c) == ColumnTotalTo(rows, len - 1, c)
    ensures ColumnTotal(JoinRowsTo(rows, len, width, w, s, p, rules), c) == ColumnTotalTo(rows, len, c)
  {
    var row := rows[len - 1];
    var prev := JoinRowsTo(rows, len - 1, width, w, s, p, rules);
    var out := JoinRow(row, w, s, p, rules);
    JoinRowTotal(row, w, s, p, rules, c);
    ColumnTotalAppend(prev, out, c);
  }

  /** With unique old triples one record joins to exactly one row with the same quantity. */
  lemma JoinRowTotal(row: seq<Value>, w: nat, s: nat, p: nat, rules: seq<Rule>, c: nat)
    requires w < |row| && s < |row| && p < |row|
    requires forall k :: 0 <= k < |rules| ==> |rules[k].carried| == 3
    requires UniqueOldTriples(rules)
    requires c < |row| && c != w && c != s && c != p
    ensures var out := JoinRow(row, w, s, p, rules);
            (forall k :: 0 <= k < |out| ==> c < |out[k]|) && ColumnTotal(out, c) == NumOf(row[c])
  {
    var out := JoinRow(row, w, s, p, rules);
    JoinRowFacts(row, w, s, p, rules);
    MatchingAtMostOne(rules, row[w], row[s], row[p]);
    assert |out| == 1 && out[0][c] == row[c];
    assert ColumnTotalTo(out, 0, c) == 0;
  }


  /**
   * A numeric column `c` of the records lands in the grouped output at
   * position |group columns| + j, where j is its rank among the numeric columns.
   */
  lemma SummedColumnPosition(cols: seq<string>, numeric: set<string>, c: string) returns (j: nat)
    requires Distinct(cols) && c in cols && c in numeric
    ensures var ai := PositionsInside(cols, numeric);
            j < |ai| && ai[j] == IndexOf(cols, c)
    ensures var out := Without(cols, numeric) + Within(cols, numeric);
            c in out && IndexOf(out, c) == |PositionsOutside(cols, numeric)| + j
  {
    var gi := PositionsOutside(cols, numeric);
    var ai := PositionsInside(cols, numeric);
    WithoutDistinct(cols, numeric);
    WithinDistinct(cols, numeric);
    var out := Without(cols, numeric) + Within(cols, numeric);
    var pc := IndexOf(cols, c);
    PositionsInsideFacts(cols, numeric);
    WithoutMembers(cols, numeric);
    WithinMembers(cols, numeric);
    assert pc in ai;
    j :| 0 <= j < |ai| && ai[j] == pc;
    assert out[|gi| + j] == c;
    assert Distinct(out) by {
      forall a, b | 0 <= a < b < |out| ensures out[a] != out[b] {
        if a < |gi| && b >= |gi| {
          assert out[a] in Without(cols, numeric) && out[b] in Within(cols, numeric);
        }
      }
    }
    IndexOfDistinct(out, |gi| + j);
  }

  lemma JoinedNumericKeeps(dfNumeric: set<string>, mapping: Table, mappingNumeric: set<string>,
                           specCol: string, prodCol: string, waferCol: string, c: string)
    requires |mapping.cols| >= 9
    requires c in dfNumeric && c != specCol && c != prodCol && c != waferCol
    ensures c in JoinedNumeric(dfNumeric, mapping, mappingNumeric, specCol, prodCol, waferCol)
  {
  }

  /** Column `c` of `out` adds up to the same total as column `c` of `t`. */
  predicate SameTotal(out: Table, t: Table, c: string)
    requires WellFormed(out) && WellFormed(t)
  {
    c in out.cols && c in t.cols && ColumnTotal(out.rows, IndexOf(out.cols, c)) == ColumnTotal(t.rows, IndexOf(t.cols, c))
  }

  /** Every row has a value in every grouping (non-summed) column. */
  predicate GroupValuesPresent(t: Table, numeric: set<string>)
    requires WellFormed(t)
  {
    forall i :: 0 <= i < |t.rows| ==> Missing !in Project(t.rows[i], PositionsOutside(t.cols, numeric))
  }

  lemma GroupValuesPresentKeeps(t: Table, numeric: set<string>)
    requires WellFormed(t) && GroupValuesPresent(t, numeric)
    ensures forall i :: 0 <= i < |t.rows| ==> KeepsRow(Project(t.rows[i], PositionsOutside(t.cols, numeric)), true)
  {
  }

  /** The joined table keeps distinct names and every record column where it was. */
  lemma JoinedColumn(df: Table, rules: seq<Rule>, w: nat, s: nat, p: nat, c: string)
    requires WellFormed(df) && Distinct(df.cols) && w < |df.cols| && s < |df.cols| && p < |df.cols|
    requires forall k :: 0 <= k < |rules| ==> |rules[k].carried| == 3
    requires forall x :: x in MappingColumns ==> x !in df.cols
    requires c in df.cols
    ensures var t := Joined(df, rules, w, s, p);
            Distinct(t.cols) && c in t.cols && IndexOf(t.cols, c) == IndexOf(df.cols, c)
  {
    var t := Joined(df, rules, w, s, p);
    var pc := IndexOf(df.cols, c);
    assert t.cols[pc] == c;
    assert Distinct(t.cols) by {
      forall a, b | 0 <= a < b < |t.cols| ensures t.cols[a] != t.cols[b] {
        if b >= |df.cols| && a < |df.cols| {
          assert t.cols[b] in MappingColumns;
          assert df.cols[a] in df.cols;
        }
      }
    }
    IndexOfDistinct(t.cols, pc);
  }

  /** Grouping keeps the total of every summed column when no row is dropped. */
  lemma GroupAndSumColumnTotal(t: Table, numeric: set<string>, dropMissing: bool, c: string)
    requires WellFormed(t) && Distinct(t.cols) && c in t.cols && c in numeric
    requires forall i :: 0 <= i < |t.rows| ==> KeepsRow(Project(t.rows[i], PositionsOutside(t.cols, numeric)), dropMissing)
    ensures SameTotal(GroupAndSum(t, numeric, dropMissing), t, c)
  {
    var r := GroupAndSum(t, numeric, dropMissing);
    var j := SummedColumnPosition(t.cols, numeric, c);
    assert c in r.cols && IndexOf(r.cols, c) == |PositionsOutside(t.cols, numeric)| + j;
    GroupAndSumConserves(t, numeric, dropMissing, j);
    assert ColumnTotal(r.rows, IndexOf(r.cols, c)) == ColumnTotal(t.rows, IndexOf(t.cols, c));
  }

  /**
   * Conservation as written: when each old triple occurs at most once among
   * the kept rules and no grouping value of the joined table is missing,
   * every numeric column of the records keeps its total.
   */
  lemma ApplyFullMappingConserves(df: Table, dfNumeric: set<string>, mapping: Table, mappingNumeric: set<string>,
                                  specCol: string, prodCol: string, waferCol: string, c: string)
    requires WellFormed(df) && WellFormed(mapping) && Distinct(df.cols)
    requires forall x :: x in MappingColumns ==> x !in df.cols
    requires |mapping.cols| >= 9 && waferCol in df.cols && specCol in df.cols && prodCol in df.cols
    requires UniqueOldTriples(KeptRules(mapping.rows))
    requires c in df.cols && c in dfNumeric && c != waferCol && c != specCol && c != prodCol
    requires GroupValuesPresent(Joined(df, KeptRules(mapping.rows), IndexOf(df.cols, waferCol), IndexOf(df.cols, specCol),
                                       IndexOf(df.cols, prodCol)),
                                JoinedNumeric(dfNumeric, mapping, mappingNumeric, specCol, prodCol, waferCol))
    ensures ApplyFullMapping(df, dfNumeric, mapping, mappingNumeric, specCol, prodCol, waferCol).Success?
    ensures SameTotal(ApplyFullMapping(df, dfNumeric, mapping, mappingNumeric, specCol, prodCol, waferCol).value, df, c)
  {
    var rules := KeptRules(mapping.rows);
    var w, s, p := IndexOf(df.cols, waferCol), IndexOf(df.cols, specCol), IndexOf(df.cols, prodCol);
    var t := Joined(df, rules, w, s, p);
    var numeric := JoinedNumeric(dfNumeric, mapping, mappingNumeric, specCol, prodCol, waferCol);
    assert ApplyFullMapping(df, dfNumeric, mapping, mappingNumeric, specCol, prodCol, waferCol)
        == Success(GroupAndSum(t, numeric, true));
    JoinedColumn(df, rules, w, s, p, c);
    JoinedNumericKeeps(dfNumeric, mapping, mappingNumeric, specCol, prodCol, waferCol, c);
    GroupValuesPresentKeeps(t, numeric);
    GroupAndSumColumnTotal(t, numeric, true, c);
    JoinRowsConserves(df.rows, |df.rows|, |df.cols|, w, s, p, rules, IndexOf(df.cols, c));
  }

  // ---------------------------------------------------------------------
  // Scenario A as written, and the duplicate-rule double count

  /** One record of 3 pieces under the old spec. */
  const OneRecord: Table := Table(["规格", "品名", "晶圆品名", "数量"], [[Str("A1"), Str("P1"), Str("W1"), Num(3)]])

  /** The columns of a scenario record after the left join. */
  const ScenarioJoinedColumns: seq<string> := ["规格", "品名", "晶圆品名", "数量", "封装厂", "PC", "半成品"]

  /** The split-records scenario after the join: only the old-spec record found a rule. */
  const SplitJoined: Table :=
    Table(ScenarioJoinedColumns,
          [[Str("A2"), Str("P1"), Str("W1"), Num(5), Missing, Missing, Missing],
           [Str("A2"), Str("P1"), Str("W1"), Num(3), Str("H1"), Str("PC1"), Str("Y")]])

  /** The duplicate-rule scenario after the join: the record once per copy of the rule. */
  const DuplicateJoined: Table :=
    Table(ScenarioJoinedColumns,
          [[Str("A2"), Str("P1"), Str("W1"), Num(3), Str("H1"), Str("PC1"), Str("Y")],
           [Str("A2"), Str("P1"), Str("W1"), Num(3), Str("H1"), Str("PC1"), Str("Y")]])

  /** A rule renaming spec A1 to A2 on product P1 and wafer W1, with text metadata. */
  const RenameRule: seq<Value> :=
    [Str("A1"), Str("P1"), Str("W1"), Str("A2"), Str("P1"), Str("W1"), Str("H1"), Str("PC1"), Str("Y")]

  /** A mapping table holding the renaming rule once. */
  const RenameMapping: Table := Table(MappingColumns, [RenameRule])

  /** A mapping table holding the renaming rule twice. */
  const DoubleRenameMapping: Table := Table(MappingColumns, [RenameRule, RenameRule])

  /** Two records of one part: 5 pieces under the new spec, 3 under the old one. */
  const SplitRecords: Table :=
    Table(["规格", "品名", "晶圆品名", "数量"],
          [[Str("A2"), Str("P1"), Str("W1"), Num(5)], [Str("A1"), Str("P1"), Str("W1"), Num(3)]])

  /**
   * As written, the record already under the new spec finds no rule, gets
   * missing metadata, and the grouping drops it: 3 pieces remain of 8.
   */
  lemma SplitRecordsLoseQuantity()
    ensures ApplyFullMapping(SplitRecords, {"数量"}, RenameMapping, {},
                             "规格", "品名", "晶圆品名")
         == Success(Table(["规格", "品名", "晶圆品名", "封装厂", "PC", "半成品", "数量"],
                          [[Str("A2"), Str("P1"), Str("W1"), Str("H1"), Str("PC1"), Str("Y"), Num(3)]]))
  {
    SplitRecordsStages();
    SplitRecordsGrouped();
  }

  lemma SplitRecordsStages()
    ensures ApplyFullMapping(SplitRecords, {"数量"}, RenameMapping, {},
                             "规格", "品名", "晶圆品名")
         == Success(GroupAndSum(Joined(SplitRecords, [RuleOf(RenameRule)], 2, 0, 1), {"数量"}, true))
  {
    var mapping := RenameMapping;
    ScenarioKeyPositions();
    RenameRuleKept();
    ScenarioNumeric(mapping);
    RecordColumnsFresh();
    ApplyFullMappingAs(SplitRecords, {"数量"}, mapping, {}, "规格", "品名", "晶圆品名",
                       [RuleOf(RenameRule)], 2, 0, 1, {"数量"});
  }

  /** Only the quantity is summed in the scenarios: the mapping holds no numeric column. */
  lemma ScenarioNumeric(mapping: Table)
    requires mapping.cols == MappingColumns
    ensures JoinedNumeric({"数量"}, mapping, {}, "规格", "品名", "晶圆品名") == {"数量"}
  {
    JoinedNumericTextCarried({"数量"}, mapping, {}, "规格", "品名", "晶圆品名");
    ScenarioNames();
    assert {"数量"} - {"规格", "品名", "晶圆品名"} == {"数量"};
  }

  /** A successful call once its rules, key positions and summed columns are known. */
  lemma ApplyFullMappingAs(df: Table, dfNumeric: set<string>, mapping: Table, mappingNumeric: set<string>,
                           specCol: string, prodCol: string, waferCol: string,
                           rules: seq<Rule>, w: nat, s: nat, p: nat, numeric: set<string>)
    requires WellFormed(df) && WellFormed(mapping)
    requires forall c :: c in MappingColumns ==> c !in df.cols
    requires |mapping.cols| >= 9 && waferCol in df.cols && specCol in df.cols && prodCol in df.cols
    requires KeptRules(mapping.rows) == rules
    requires IndexOf(df.cols, waferCol) == w && IndexOf(df.cols, specCol) == s && IndexOf(df.cols, prodCol) == p
    requires JoinedNumeric(dfNumeric, mapping, mappingNumeric, specCol, prodCol, waferCol) == numeric
    ensures ApplyFullMapping(df, dfNumeric, mapping, mappingNumeric, specCol, prodCol, waferCol)
         == Success(GroupAndSum(Joined(df, rules, w, s, p), numeric, true))
  {
  }

  lemma SplitRecordsGrouped()
    ensures GroupAndSum(Joined(SplitRecords, [RuleOf(RenameRule)], 2, 0, 1), {"数量"}, true)
         == Table(["规格", "品名", "晶圆品名", "封装厂", "PC", "半成品", "数量"],
                  [[Str("A2"), Str("P1"), Str("W1"), Str("H1"), Str("PC1"), Str("Y"), Num(3)]])
  {
    SplitRecordsJoined();
    SplitRecordsGroups();
    ScenarioGrouped(SplitJoined, 3);
  }

  /** The joined table of the split-records scenario. */
  lemma SplitRecordsJoined()
    ensures Joined(SplitRecords, [RuleOf(RenameRule)], 2, 0, 1) == SplitJoined
  {
    SplitRecordsJoin();
  }

  /**
   * A joined scenario table whose entries sum to `n` under the one key
   * A2/P1/W1/H1/PC1/Y groups into a single row holding `n`.
   */
  lemma ScenarioGrouped(t: Table, n: int)
    requires WellFormed(t) && t.cols == ScenarioJoinedColumns
    requires GroupSum(Entries(t.rows, 7, [0, 1, 2, 4, 5, 6], [3], true), 1)
          == [Group([Str("A2"), Str("P1"), Str("W1"), Str("H1"), Str("PC1"), Str("Y")], [n])]
    ensures GroupAndSum(t, {"数量"}, true)
         == Table(["规格", "品名", "晶圆品名", "封装厂", "PC", "半成品", "数量"],
                  [[Str("A2"), Str("P1"), Str("W1"), Str("H1"), Str("PC1"), Str("Y"), Num(n)]])
  {
    var key := [Str("A2"), Str("P1"), Str("W1"), Str("H1"), Str("PC1"), Str("Y")];
    ScenarioPositions({"数量"});
    ScenarioOutputColumns();
    OneGroupRows(n);
    GroupedAs(t, {"数量"}, true, [0, 1, 2, 4, 5, 6], [3], [Group(key, [n])],
              ["规格", "品名", "晶圆品名", "封装厂", "PC", "半成品", "数量"],
              [[Str("A2"), Str("P1"), Str("W1"), Str("H1"), Str("PC1"), Str("Y"), Num(n)]]);
  }

  /** The grouped scenario columns: keys first, then the summed quantity. */
  lemma ScenarioOutputColumns()
    ensures var cols := ["规格", "品名", "晶圆品名", "数量", "封装厂", "PC", "半成品"];
            Project(cols, [0, 1, 2, 4, 5, 6]) + Project(cols, [3])
              == ["规格", "品名", "晶圆品名", "封装厂", "PC", "半成品", "数量"]
  {
  }

  /** The scenario's single group becomes a single output row: its key, then its sum. */
  lemma OneGroupRows(n: int)
    ensures var key := [Str("A2"), Str("P1"), Str("W1"), Str("H1"), Str("PC1"), Str("Y")];
            var groups := [Group(key, [n])];
            GroupRows(groups)
              == [[Str("A2"), Str("P1"), Str("W1"), Str("H1"), Str("PC1"), Str("Y"), Num(n)]]
  {
    var key := [Str("A2"), Str("P1"), Str("W1"), Str("H1"), Str("PC1"), Str("Y")];
    assert Nums([n]) == [Num(n)];
    assert key + [Num(n)] == [Str("A2"), Str("P1"), Str("W1"), Str("H1"), Str("PC1"), Str("Y"), Num(n)];
  }

  /** The scenario's record columns share no name with the mapping columns. */
  lemma RecordColumnsFresh()
    ensures forall c :: c in MappingColumns ==> c !in ["规格", "品名", "晶圆品名", "数量"]
  {
    forall c | c in MappingColumns ensures c !in ["规格", "品名", "晶圆品名", "数量"] {
      assert c[0] in {'旧', '新', '封', 'P', '半'};
    }
  }

  /** The grouped table once its positions, groups, columns and rows are known. */
  lemma GroupedAs(t: Table, numeric: set<string>, dropMissing: bool, gi: seq<nat>, ai: seq<nat>,
                  groups: seq<Group<seq<Value>>>, cols: seq<string>, rows: seq<seq<Value>>)
    requires WellFormed(t)
    requires PositionsOutside(t.cols, numeric) == gi && PositionsInside(t.cols, numeric) == ai
    requires GroupSum(Entries(t.rows, |t.cols|, gi, ai, dropMissing), |ai|) == groups
    requires Project(t.cols, gi) + Project(t.cols, ai) == cols
    requires GroupRows(groups) == rows
    ensures GroupAndSum(t, numeric, dropMissing) == Table(cols, rows)
  {
  }

  /** The joined rows of the split records: the A2 record gets no metadata. */
  lemma SplitRecordsJoin()
    ensures JoinRows(SplitRecords.rows, 4, 2, 0, 1, [RuleOf(RenameRule)])
         == [[Str("A2"), Str("P1"), Str("W1"), Num(5), Missing, Missing, Missing],
             [Str("A2"), Str("P1"), Str("W1"), Num(3), Str("H1"), Str("PC1"), Str("Y")]]
  {
    var row0 := [Str("A2"), Str("P1"), Str("W1"), Num(5)];
    var row1 := [Str("A1"), Str("P1"), Str("W1"), Num(3)];
    assert SplitRecords.rows == [row0, row1];
    JoinRowsOfTwo(row0, row1, 4, 2, 0, 1, [RuleOf(RenameRule)]);
    NewSpecRecordUnmatched();
    OldSpecRecordRenamed();
  }

  /** The joined rows of two records, in order. */
  lemma JoinRowsOfTwo(r0: seq<Value>, r1: seq<Value>, width: nat, w: nat, s: nat, p: nat, rules: seq<Rule>)
    requires |r0| == width && |r1| == width && w < width && s < width && p < width
    requires forall k :: 0 <= k < |rules| ==> |rules[k].carried| == 3
    ensures JoinRows([r0, r1], width, w, s, p, rules) == JoinRow(r0, w, s, p, rules) + JoinRow(r1, w, s, p, rules)
  {
    assert JoinRowsTo([r0, r1], 1, width, w, s, p, rules) == [] + JoinRow(r0, w, s, p, rules);
  }

  /** The record already under spec A2 matches no rule and gets missing metadata. */
  lemma NewSpecRecordUnmatched()
    ensures JoinRow([Str("A2"), Str("P1"), Str("W1"), Num(5)], 2, 0, 1, [RuleOf(RenameRule)])
         == [[Str("A2"), Str("P1"), Str("W1"), Num(5), Missing, Missing, Missing]]
  {
    RenameRuleFields();
    RecordUnderNewSpec(Str("A1"), Str("A2"), Str("P1"), Str("W1"), Num(5), [Str("H1"), Str("PC1"), Str("Y")]);
    assert [RuleOf(RenameRule)] == Renaming(Str("A1"), Str("A2"), Str("P1"), Str("W1"), [Str("H1"), Str("PC1"), Str("Y")], 1);
  }

  /** The record under spec A1 is renamed to A2 and gets the rule's metadata. */
  lemma OldSpecRecordRenamed()
    ensures JoinRow([Str("A1"), Str("P1"), Str("W1"), Num(3)], 2, 0, 1, [RuleOf(RenameRule)])
         == [[Str("A2"), Str("P1"), Str("W1"), Num(3), Str("H1"), Str("PC1"), Str("Y")]]
  {
    RenameRuleFields();
    RecordUnderOldSpec(Str("A1"), Str("A2"), Str("P1"), Str("W1"), Num(3), Str("H1"), Str("PC1"), Str("Y"), 1);
    assert [RuleOf(RenameRule)] == Renaming(Str("A1"), Str("A2"), Str("P1"), Str("W1"), [Str("H1"), Str("PC1"), Str("Y")], 1);
  }

  /** The scenario rule, field by field. */
  lemma RenameRuleFields()
    ensures RuleOf(RenameRule)
         == Rule(Str("A1"), Str("P1"), Str("W1"), Str("A2"), Str("P1"), Str("W1"), [Str("H1"), Str("PC1"), Str("Y")])
  {
  }

  /** A spec-renaming rule, `copies` times over. */
  function Renaming(oldSpec: Value, newSpec: Value, prod: Value, wafer: Value, carried: seq<Value>, copies: nat)
    : (rules: seq<Rule>)
    ensures |rules| == copies
    ensures forall k :: 0 <= k < copies ==> rules[k] == Rule(oldSpec, prod, wafer, newSpec, prod, wafer, carried)
  {
    seq(copies, k => Rule(oldSpec, prod, wafer, newSpec, prod, wafer, carried))
  }

  /** A record already under the new spec matches no renaming rule and gets missing metadata. */
  lemma RecordUnderNewSpec(oldSpec: Value, newSpec: Value, prod: Value, wafer: Value, q: Value, carried: seq<Value>)
    requires oldSpec != newSpec && |carried| == 3
    ensures JoinRow([newSpec, prod, wafer, q], 2, 0, 1, Renaming(oldSpec, newSpec, prod, wafer, carried, 1))
         == [[newSpec, prod, wafer, q, Missing, Missing, Missing]]
  {
    var rules := Renaming(oldSpec, newSpec, prod, wafer, carried, 1);
    assert rules[..0] == [];
    assert Matching(rules, wafer, newSpec, prod) == [];
    JoinRowFacts([newSpec, prod, wafer, q], 2, 0, 1, rules);
    assert [newSpec, prod, wafer, q] + [Missing, Missing, Missing] == [newSpec, prod, wafer, q, Missing, Missing, Missing];
  }

  /** A record under the old spec is renamed once per copy of the rule, each copy bringing the metadata. */
  lemma RecordUnderOldSpec(oldSpec: Value, newSpec: Value, prod: Value, wafer: Value, q: Value,
                           h: Value, c: Value, y: Value, copies: nat)
    requires newSpec != Missing && prod != Missing && wafer != Missing && 1 <= copies
    ensures var joined := JoinRow([oldSpec, prod, wafer, q], 2, 0, 1, Renaming(oldSpec, newSpec, prod, wafer, [h, c, y], copies));
            |joined| == copies && forall k :: 0 <= k < copies ==> joined[k] == [newSpec, prod, wafer, q, h, c, y]
  {
    var row := [oldSpec, prod, wafer, q];
    var rules := Renaming(oldSpec, newSpec, prod, wafer, [h, c, y], copies);
    RenamingMatches(oldSpec, newSpec, prod, wafer, [h, c, y], copies);
    JoinRowFacts(row, 2, 0, 1, rules);
    RenamingSubstitutes(oldSpec, newSpec, prod, wafer, q, [h, c, y]);
    assert [newSpec, prod, wafer, q] + [h, c, y] == [newSpec, prod, wafer, q, h, c, y];
  }

  /** A renaming rule moves a record under its old spec to the new one and leaves the quantity alone. */
  lemma RenamingSubstitutes(oldSpec: Value, newSpec: Value, prod: Value, wafer: Value, q: Value, carried: seq<Value>)
    requires newSpec != Missing && prod != Missing && wafer != Missing
    ensures Substituted([oldSpec, prod, wafer, q], 2, 0, 1, Rule(oldSpec, prod, wafer, newSpec, prod, wafer, carried))
         == [newSpec, prod, wafer, q]
  {
  }

  /** Every copy of a renaming rule matches a record under its old triple. */
  lemma RenamingMatches(oldSpec: Value, newSpec: Value, prod: Value, wafer: Value, carried: seq<Value>, copies: nat)
    ensures Matching(Renaming(oldSpec, newSpec, prod, wafer, carried, copies), wafer, oldSpec, prod)
         == Renaming(oldSpec, newSpec, prod, wafer, carried, copies)
  {
    var rules := Renaming(oldSpec, newSpec, prod, wafer, carried, copies);
    AllMatch(rules, copies, wafer, oldSpec, prod);
  }

  /** When each of the first `len` rules matches, all of them are matching, in order. */
  lemma {:induction false} AllMatch(rules: seq<Rule>, len: nat, wafer: Value, spec: Value, prod: Value)
    requires len <= |rules| && forall i :: 0 <= i < len ==> Matches(rules[i], wafer, spec, prod)
    ensures var ms := MatchingTo(rules, len, wafer, spec, prod);
            |ms| == len && forall k :: 0 <= k < len ==> ms[k] == rules[k]
    decreases len
  {
    if len > 0 {
      AllMatch(rules, len - 1, wafer, spec, prod);
    }
  }

  /** Where the key columns of the scenario records stand. */
  lemma ScenarioKeyPositions()
    ensures IndexOf(SplitRecords.cols, "晶圆品名") == 2 && IndexOf(SplitRecords.cols, "规格") == 0
            && IndexOf(SplitRecords.cols, "品名") == 1
    ensures OneRecord.cols == SplitRecords.cols
  {
  }

  /** The single scenario rule is kept. */
  lemma RenameRuleKept()
    ensures KeptRules([RenameRule]) == [RuleOf(RenameRule)]
  {
    assert KeptRulesTo([RenameRule], 0) == [];
  }

  /** When no carried column is numeric in the mapping, only the records' own numeric columns are summed. */
  lemma JoinedNumericTextCarried(dfNumeric: set<string>, mapping: Table, mappingNumeric: set<string>,
                                 specCol: string, prodCol: string, waferCol: string)
    requires |mapping.cols| >= 9
    requires forall k :: 6 <= k < 9 ==> mapping.cols[k] !in mappingNumeric
    ensures JoinedNumeric(dfNumeric, mapping, mappingNumeric, specCol, prodCol, waferCol)
         == dfNumeric - {specCol, prodCol, waferCol}
  {
  }

  /** The quantity column is the only summed one among the scenario's names. */
  lemma ScenarioNames()
    ensures "规格" != "数量" && "品名" != "数量" && "晶圆品名" != "数量"
    ensures "封装厂" != "数量" && "PC" != "数量" && "半成品" != "数量"
  {
    assert "规格"[0] != "数量"[0] && "品名"[0] != "数量"[0];
    assert |"晶圆品名"| != |"数量"| && |"封装厂"| != |"数量"| && "PC"[0] != "数量"[0] && |"半成品"| != |"数量"|;
  }

  /** Grouping and summed positions of the joined scenario columns. */
  lemma ScenarioPositions(numeric: set<string>)
    requires numeric == {"数量"}
    ensures PositionsOutside(["规格", "品名", "晶圆品名", "数量", "封装厂", "PC", "半成品"], numeric)
         == [0, 1, 2, 4, 5, 6]
    ensures PositionsInside(["规格", "品名", "晶圆品名", "数量", "封装厂", "PC", "半成品"], numeric) == [3]
  {
    ScenarioNames();
    FourthSummed("规格", "品名", "晶圆品名", "数量", "封装厂", "PC", "半成品", numeric);
  }

  /** Positions in a seven-column list whose fourth column alone is summed. */
  lemma FourthSummed(c0: string, c1: string, c2: string, c3: string, c4: string, c5: string, c6: string,
                     s: set<string>)
    requires c0 !in s && c1 !in s && c2 !in s && c3 in s && c4 !in s && c5 !in s && c6 !in s
    ensures PositionsOutside([c0, c1, c2, c3, c4, c5, c6], s) == [0, 1, 2, 4, 5, 6]
    ensures PositionsInside([c0, c1, c2, c3, c4, c5, c6], s) == [3]
  {
    FourthKept(c0, c1, c2, c3, c4, c5, c6, s);
    FourthAlone(c0, c1, c2, c3, c4, c5, c6, s);
  }

  lemma FourthKept(c0: string, c1: string, c2: string, c3: string, c4: string, c5: string, c6: string,
                   s: set<string>)
    requires c0 !in s && c1 !in s && c2 !in s && c3 in s && c4 !in s && c5 !in s && c6 !in s
    ensures PositionsOutside([c0, c1, c2, c3, c4, c5, c6], s) == [0, 1, 2, 4, 5, 6]
  {
    var cols := [c0, c1, c2, c3, c4, c5, c6];
    assert PositionsOutsideTo(cols, 1, s) == [0];
    assert PositionsOutsideTo(cols, 2, s) == [0, 1];
    assert PositionsOutsideTo(cols, 3, s) == [0, 1, 2];
    assert PositionsOutsideTo(cols, 4, s) == [0, 1, 2];
    assert PositionsOutsideTo(cols, 5, s) == [0, 1, 2, 4];
    assert PositionsOutsideTo(cols, 6, s) == [0, 1, 2, 4, 5];
  }

  lemma FourthAlone(c0: string, c1: string, c2: string, c3: string, c4: string, c5: string, c6: string,
                    s: set<string>)
    requires c0 !in s && c1 !in s && c2 !in s && c3 in s && c4 !in s && c5 !in s && c6 !in s
    ensures PositionsInside([c0, c1, c2, c3, c4, c5, c6], s) == [3]
  {
    var cols := [c0, c1, c2, c3, c4, c5, c6];
    assert PositionsInsideTo(cols, 3, s) == [] by {
      assert PositionsInsideTo(cols, 1, s) == [];
      assert PositionsInsideTo(cols, 2, s) == [];
    }
    assert PositionsInsideTo(cols, 4, s) == [3];
    assert PositionsInsideTo(cols, 5, s) == [3];
    assert PositionsInsideTo(cols, 6, s) == [3];
  }

  /** Positions in a four-column list whose last column alone is summed. */
  lemma LastOfFourSummed(c0: string, c1: string, c2: string, c3: string, s: set<string>)
    requires c0 !in s && c1 !in s && c2 !in s && c3 in s
    ensures PositionsOutside([c0, c1, c2, c3], s) == [0, 1, 2]
    ensures PositionsInside([c0, c1, c2, c3], s) == [3]
  {
    var cols := [c0, c1, c2, c3];
    assert PositionsOutsideTo(cols, 1, s) == [0] && PositionsInsideTo(cols, 1, s) == [];
    assert PositionsOutsideTo(cols, 2, s) == [0, 1] && PositionsInsideTo(cols, 2, s) == [];
    assert PositionsOutsideTo(cols, 3, s) == [0, 1, 2] && PositionsInsideTo(cols, 3, s) == [];
  }

  lemma SplitRecordsGroups()
    ensures var r0 := [Str("A2"), Str("P1"), Str("W1"), Num(5), Missing, Missing, Missing];
            var r1 := [Str("A2"), Str("P1"), Str("W1"), Num(3), Str("H1"), Str("PC1"), Str("Y")];
            var key := [Str("A2"), Str("P1"), Str("W1"), Str("H1"), Str("PC1"), Str("Y")];
            GroupSum(Entries([r0, r1], 7, [0, 1, 2, 4, 5, 6], [3], true), 1) == [Group(key, [3])]
  {
    var r0 := [Str("A2"), Str("P1"), Str("W1"), Num(5), Missing, Missing, Missing];
    var r1 := [Str("A2"), Str("P1"), Str("W1"), Num(3), Str("H1"), Str("PC1"), Str("Y")];
    var key := [Str("A2"), Str("P1"), Str("W1"), Str("H1"), Str("PC1"), Str("Y")];
    EntriesOfTwo(r0, r1, 7, [0, 1, 2, 4, 5, 6], [3], true);
    SevenCellEntry(Str("A2"), Str("P1"), Str("W1"), Num(5), Missing, Missing, Missing, true);
    assert !KeepsRow([Str("A2"), Str("P1"), Str("W1"), Missing, Missing, Missing], true);
    assert EntryOf(r0, [0, 1, 2, 4, 5, 6], [3], true) == [];
    SevenCellEntry(Str("A2"), Str("P1"), Str("W1"), Num(3), Str("H1"), Str("PC1"), Str("Y"), true);
    assert KeepsRow(key, true);
    assert EntryOf(r1, [0, 1, 2, 4, 5, 6], [3], true) == [Group(key, [3])];
    assert Entries([r0, r1], 7, [0, 1, 2, 4, 5, 6], [3], true) == [] + [Group(key, [3])];
    GroupSumOne(key, [3]);
  }

  /**
   * A joined scenario row: three identity cells, the quantity, then the
   * three metadata cells; the quantity is the only amount.
   */
  lemma SevenCellEntry(a: Value, b: Value, c: Value, q: Value, d: Value, e: Value, f: Value, dropMissing: bool)
    ensures EntryOf([a, b, c, q, d, e, f], [0, 1, 2, 4, 5, 6], [3], dropMissing)
         == if KeepsRow([a, b, c, d, e, f], dropMissing) then [Group([a, b, c, d, e, f], [NumOf(q)])] else []
  {
    assert Project([a, b, c, q, d, e, f], [0, 1, 2, 4, 5, 6]) == [a, b, c, d, e, f];
    assert Amounts([a, b, c, q, d, e, f], [3]) == [NumOf(q)];
  }

  /** A single entry is a single group. */
  lemma GroupSumOne(key: seq<Value>, v: seq<int>)
    ensures GroupSum([Group(key, v)], |v|) == [Group(key, v)]
  {
    assert GroupSumTo([Group(key, v)], 0, |v|) == [];
  }

  /** One record of 3 pieces and a rule listed twice: as written it comes out as 6. */
  lemma DuplicateRuleDoubleCounts()
    ensures ApplyFullMapping(OneRecord, {"数量"}, DoubleRenameMapping, {},
                             "规格", "品名", "晶圆品名")
         == Success(Table(["规格", "品名", "晶圆品名", "封装厂", "PC", "半成品", "数量"],
                          [[Str("A2"), Str("P1"), Str("W1"), Str("H1"), Str("PC1"), Str("Y"), Num(6)]]))
  {
    DuplicateRuleStages();
    DuplicateRuleGrouped();
  }

  lemma DuplicateRuleStages()
    ensures ApplyFullMapping(OneRecord, {"数量"}, DoubleRenameMapping, {},
                             "规格", "品名", "晶圆品名")
         == Success(GroupAndSum(Joined(OneRecord, [RuleOf(RenameRule), RuleOf(RenameRule)], 2, 0, 1), {"数量"}, true))
  {
    var mapping := DoubleRenameMapping;
    ScenarioKeyPositions();
    DuplicateRuleKept();
    ScenarioNumeric(mapping);
    RecordColumnsFresh();
    ApplyFullMappingAs(OneRecord, {"数量"}, mapping, {}, "规格", "品名", "晶圆品名",
                       [RuleOf(RenameRule), RuleOf(RenameRule)], 2, 0, 1, {"数量"});
  }

  lemma DuplicateRuleGrouped()
    ensures GroupAndSum(Joined(OneRecord, [RuleOf(RenameRule), RuleOf(RenameRule)], 2, 0, 1), {"数量"}, true)
         == Table(["规格", "品名", "晶圆品名", "封装厂", "PC", "半成品", "数量"],
                  [[Str("A2"), Str("P1"), Str("W1"), Str("H1"), Str("PC1"), Str("Y"), Num(6)]])
  {
    DuplicateRuleJoined();
    DuplicateRuleGroups();
    ScenarioGrouped(DuplicateJoined, 6);
  }

  /** The joined table of the duplicate-rule scenario. */
  lemma DuplicateRuleJoined()
    ensures Joined(OneRecord, [RuleOf(RenameRule), RuleOf(RenameRule)], 2, 0, 1) == DuplicateJoined
  {
    DuplicateRuleJoin();
  }

  lemma DuplicateRuleGroups()
    ensures var joined := [Str("A2"), Str("P1"), Str("W1"), Num(3), Str("H1"), Str("PC1"), Str("Y")];
            var key := [Str("A2"), Str("P1"), Str("W1"), Str("H1"), Str("PC1"), Str("Y")];
            GroupSum(Entries([joined, joined], 7, [0, 1, 2, 4, 5, 6], [3], true), 1) == [Group(key, [6])]
  {
    var joined := [Str("A2"), Str("P1"), Str("W1"), Num(3), Str("H1"), Str("PC1"), Str("Y")];
    var key := [Str("A2"), Str("P1"), Str("W1"), Str("H1"), Str("PC1"), Str("Y")];
    EntriesOfTwo(joined, joined, 7, [0, 1, 2, 4, 5, 6], [3], true);
    SevenCellEntry(Str("A2"), Str("P1"), Str("W1"), Num(3), Str("H1"), Str("PC1"), Str("Y"), true);
    assert KeepsRow(key, true);
    assert EntryOf(joined, [0, 1, 2, 4, 5, 6], [3], true) == [Group(key, [3])];
    assert Entries([joined, joined], 7, [0, 1, 2, 4, 5, 6], [3], true) == [Group(key, [3]), Group(key, [3])];
    GroupSumTwice(key, [3], [3]);
    assert AddVec([3], [3]) == [6];
  }

  /** The left join repeats the record once per copy of the rule. */
  lemma DuplicateRuleJoin()
    ensures IndexOf(OneRecord.cols, "晶圆品名") == 2 && IndexOf(OneRecord.cols, "规格") == 0
            && IndexOf(OneRecord.cols, "品名") == 1
    ensures JoinRows(OneRecord.rows, 4, 2, 0, 1, [RuleOf(RenameRule), RuleOf(RenameRule)])
         == [[Str("A2"), Str("P1"), Str("W1"), Num(3), Str("H1"), Str("PC1"), Str("Y")],
             [Str("A2"), Str("P1"), Str("W1"), Num(3), Str("H1"), Str("PC1"), Str("Y")]]
  {
    var rule := RuleOf(RenameRule);
    var row := [Str("A1"), Str("P1"), Str("W1"), Num(3)];
    assert OneRecord.rows == [row];
    DuplicateRuleJoinRow();
    assert JoinRowsTo([row], 1, 4, 2, 0, 1, [rule, rule]) == [] + JoinRow(row, 2, 0, 1, [rule, rule]);
  }

  /** Both copies of the rule are kept. */
  lemma DuplicateRuleKept()
    ensures KeptRules([RenameRule, RenameRule]) == [RuleOf(RenameRule), RuleOf(RenameRule)]
  {
    RenameRuleKept();
    assert KeptRulesTo([RenameRule, RenameRule], 1) == [RuleOf(RenameRule)];
  }

  lemma DuplicateRuleJoinRow()
    ensures JoinRow([Str("A1"), Str("P1"), Str("W1"), Num(3)], 2, 0, 1, [RuleOf(RenameRule), RuleOf(RenameRule)])
         == [[Str("A2"), Str("P1"), Str("W1"), Num(3), Str("H1"), Str("PC1"), Str("Y")],
             [Str("A2"), Str("P1"), Str("W1"), Num(3), Str("H1"), Str("PC1"), Str("Y")]]
  {
    RenameRuleFields();
    var rules := Renaming(Str("A1"), Str("A2"), Str("P1"), Str("W1"), [Str("H1"), Str("PC1"), Str("Y")], 2);
    assert [RuleOf(RenameRule), RuleOf(RenameRule)] == rules;
    RecordUnderOldSpec(Str("A1"), Str("A2"), Str("P1"), Str("W1"), Num(3), Str("H1"), Str("PC1"), Str("Y"), 2);
  }

  /** Two entries under one key collapse into one group holding their sum. */
  lemma GroupSumTwice(key: seq<Value>, v: seq<int>, u: seq<int>)
    requires |u| == |v|
    ensures GroupSum([Group(key, v), Group(key, u)], |v|) == [Group(key, AddVec(v, u))]
  {
    var e, f := Group(key, v), Group(key, u);
    assert GroupSumTo([e, f], 1, |v|) == [e];
    assert Keys([e]) == [key];
    assert Find([e], key) == Some(0);
  }

  // ---------------------------------------------------------------------
  // The corrected identity resolution

  /** The last of the first `len` rules that matches the record. */
  function LastMatchTo(rules: seq<Rule>, len: nat, wafer: Value, spec: Value, prod: Value): (m: Option<Rule>)
    requires len <= |rules|
    ensures m.None? <==> MatchingTo(rules, len, wafer, spec, prod) == []
    ensures m.Some? ==> var ms := MatchingTo(rules, len, wafer, spec, prod); m.value == ms[|ms| - 1]
    decreases len
  {
    if len == 0 then None
    else if Matches(rules[len - 1], wafer, spec, prod) then Some(rules[len - 1])
    else LastMatchTo(rules, len - 1, wafer, spec, prod)
  }

  /** The rule a dictionary keyed by the old triple would keep: the last matching one. */
  function LastMatch(rules: seq<Rule>, wafer: Value, spec: Value, prod: Value): (m: Option<Rule>)
    ensures m.None? <==> Matching(rules, wafer, spec, prod) == []
    ensures m.Some? ==> var ms := Matching(rules, wafer, spec, prod); m.value == ms[|ms| - 1]
  {
    LastMatchTo(rules, |rules|, wafer, spec, prod)
  }

  /** One record with its identity resolved; no row is added and no column appended. */
  function ResolveRow(row: seq<Value>, w: nat, s: nat, p: nat, rules: seq<Rule>): (r: seq<Value>)
    requires w < |row| && s < |row| && p < |row|
    ensures |r| == |row|
    ensures forall j :: 0 <= j < |row| && j != w && j != s && j != p ==> r[j] == row[j]
    ensures Matching(rules, row[w], row[s], row[p]) == [] ==> r == row
  {
    match LastMatch(rules, row[w], row[s], row[p])
    case None => row
    case Some(m) => Substituted(row, w, s, p, m)
  }

  function ResolveRows(rows: seq<seq<Value>>, width: nat, w: nat, s: nat, p: nat, rules: seq<Rule>)
    : (out: seq<seq<Value>>)
    requires forall i :: 0 <= i < |rows| ==> |rows[i]| == width
    requires w < width && s < width && p < width
    ensures |out| == |rows|
    ensures forall i :: 0 <= i < |out| ==> out[i] == ResolveRow(rows[i], w, s, p, rules)
  {
    seq(|rows|, i requires 0 <= i < |rows| => ResolveRow(rows[i], w, s, p, rules))
  }

  /**
   * The evidently intended reconciliation: each record is resolved through
   * the last rule for its old triple, every mapping column is left out, and
   * grouping keeps records with missing values, so no record is lost.
   */
  function ResolveIdentities(df: Table, dfNumeric: set<string>, mapping: Table,
                             specCol: string, prodCol: string, waferCol: string): (r: Result<Table, Error>)
    requires WellFormed(df) && WellFormed(mapping)
    ensures |mapping.cols| < 9 ==> r == Failure(MappingShape(|mapping.cols|))
    ensures |mapping.cols| >= 9 ==>
              (r.Failure? <==> !(waferCol in df.cols && specCol in df.cols && prodCol in df.cols))
    ensures r.Success? ==> WellFormed(r.value)
    ensures r.Success? ==>
              var numeric := dfNumeric - {specCol, prodCol, waferCol};
              r.value.cols == Without(df.cols, numeric) + Within(df.cols, numeric)
  {
    match LoadRules(mapping)
    case Failure(e) => Failure(e)
    case Success(rules) =>
      if waferCol !in df.cols then Failure(MissingColumn(waferCol))
      else if specCol !in df.cols then Failure(MissingColumn(specCol))
      else if prodCol !in df.cols then Failure(MissingColumn(prodCol))
      else
        var rows := ResolveRows(df.rows, |df.cols|, IndexOf(df.cols, waferCol), IndexOf(df.cols, specCol),
                                IndexOf(df.cols, prodCol), rules);
        Success(GroupAndSum(Table(df.cols, rows), dfNumeric - {specCol, prodCol, waferCol}, false))
  }

  /** Corrected conservation: every numeric column keeps its total, whatever the rules and values. */
  lemma ResolveIdentitiesConserves(df: Table, dfNumeric: set<string>, mapping: Table,
                                   specCol: string, prodCol: string, waferCol: string, c: string)
    requires WellFormed(df) && WellFormed(mapping) && Distinct(df.cols)
    requires |mapping.cols| >= 9 && waferCol in df.cols && specCol in df.cols && prodCol in df.cols
    requires c in df.cols && c in dfNumeric && c != waferCol && c != specCol && c != prodCol
    ensures ResolveIdentities(df, dfNumeric, mapping, specCol, prodCol, waferCol).Success?
    ensures SameTotal(ResolveIdentities(df, dfNumeric, mapping, specCol, prodCol, waferCol).value, df, c)
  {
    var rules := KeptRules(mapping.rows);
    var w, s, p := IndexOf(df.cols, waferCol), IndexOf(df.cols, specCol), IndexOf(df.cols, prodCol);
    var t := Table(df.cols, ResolveRows(df.rows, |df.cols|, w, s, p, rules));
    var numeric := dfNumeric - {specCol, prodCol, waferCol};
    assert ResolveIdentities(df, dfNumeric, mapping, specCol, prodCol, waferCol)
        == Success(GroupAndSum(t, numeric, false));
    GroupAndSumColumnTotal(t, numeric, false, c);
    var pc := IndexOf(df.cols, c);
    assert pc != w && pc != s && pc != p;
    ResolveRowsConserves(df.rows, |df.cols|, w, s, p, rules, pc);
  }

  lemma ResolveRowsConserves(rows: seq<seq<Value>>, width: nat, w: nat, s: nat, p: nat, rules: seq<Rule>, c: nat)
    requires forall i :: 0 <= i < |rows| ==> |rows[i]| == width
    requires w < width && s < width && p < width
    requires c < width && c != w && c != s && c != p
    ensures ColumnTotal(ResolveRows(rows, width, w, s, p, rules), c) == ColumnTotal(rows, c)
  {
    ColumnTotalToAgree(ResolveRows(rows, width, w, s, p, rules), rows, |rows|, c);
  }

  /** Scenario A through the corrected resolution: both records meet under A2 with all 8 pieces. */
  lemma SplitRecordsResolved()
    ensures ResolveIdentities(SplitRecords, {"数量"}, RenameMapping, "规格", "品名", "晶圆品名")
         == Success(Table(["规格", "品名", "晶圆品名", "数量"], [[Str("A2"), Str("P1"), Str("W1"), Num(8)]]))
  {
    SplitRecordsResolvedStages();
    SplitRecordsResolvedGrouped();
  }

  lemma SplitRecordsResolvedStages()
    ensures ResolveIdentities(SplitRecords, {"数量"}, RenameMapping, "规格", "品名", "晶圆品名")
         == Success(GroupAndSum(Table(SplitRecords.cols, ResolveRows(SplitRecords.rows, 4, 2, 0, 1, [RuleOf(RenameRule)])),
                                {"数量"}, false))
  {
    ScenarioKeyPositions();
    RenameRuleKept();
    var mapping := RenameMapping;
    assert LoadRules(mapping) == Success([RuleOf(RenameRule)]);
    assert {"数量"} - {"规格", "品名", "晶圆品名"} == {"数量"};
  }

  lemma SplitRecordsResolvedGrouped()
    ensures GroupAndSum(Table(SplitRecords.cols, ResolveRows(SplitRecords.rows, 4, 2, 0, 1, [RuleOf(RenameRule)])),
                        {"数量"}, false)
         == Table(["规格", "品名", "晶圆品名", "数量"], [[Str("A2"), Str("P1"), Str("W1"), Num(8)]])
  {
    SplitRecordsResolvedRows();
    ScenarioNames();
    TwoRecordsGrouped("规格", "品名", "晶圆品名", "数量", {"数量"}, Str("A2"), Str("P1"), Str("W1"), 5, 3);
  }

  /** Two records with one key, grouped without dropping: one row holding both quantities. */
  lemma TwoRecordsGrouped(c0: string, c1: string, c2: string, c3: string, num: set<string>,
                          k0: Value, k1: Value, k2: Value, x: int, y: int)
    requires c0 !in num && c1 !in num && c2 !in num && c3 in num
    ensures GroupAndSum(Table([c0, c1, c2, c3], [[k0, k1, k2, Num(x)], [k0, k1, k2, Num(y)]]), num, false)
         == Table([c0, c1, c2, c3], [[k0, k1, k2, Num(x + y)]])
  {
    LastOfFourSummed(c0, c1, c2, c3, num);
    KeysThenLast(c0, c1, c2, c3);
    TwoRecordsRows(k0, k1, k2, x, y);
  }

  /** The grouped rows of two records under one key: one row holding both quantities. */
  lemma TwoRecordsRows(k0: Value, k1: Value, k2: Value, x: int, y: int)
    ensures Grouped([[k0, k1, k2, Num(x)], [k0, k1, k2, Num(y)]], 4, [0, 1, 2], [3], false) == [[k0, k1, k2, Num(x + y)]]
  {
    var key := [k0, k1, k2];
    TwoRecordsOneKey(k0, k1, k2, x, y);
    OneGroupRow(key, x + y);
    FourCells(k0, k1, k2, Num(x + y));
  }

  lemma FourCells<T>(a: T, b: T, c: T, d: T)
    ensures [a, b, c] + [d] == [a, b, c, d]
  {
  }

  /** Three key columns followed by the summed one keep their order. */
  lemma KeysThenLast<T>(c0: T, c1: T, c2: T, c3: T)
    ensures Project([c0, c1, c2, c3], [0, 1, 2]) + Project([c0, c1, c2, c3], [3]) == [c0, c1, c2, c3]
  {
  }

  /** A single group becomes a single row: its key, then its sum. */
  lemma OneGroupRow(key: seq<Value>, n: int)
    ensures var groups := [Group(key, [n])];
            GroupRows(groups) == [key + [Num(n)]]
  {
    assert Nums([n]) == [Num(n)];
  }

  /** Both records resolve to spec A2; quantities stay where they were. */
  lemma SplitRecordsResolvedRows()
    ensures ResolveRows(SplitRecords.rows, 4, 2, 0, 1, [RuleOf(RenameRule)])
         == [[Str("A2"), Str("P1"), Str("W1"), Num(5)], [Str("A2"), Str("P1"), Str("W1"), Num(3)]]
  {
    var row0 := [Str("A2"), Str("P1"), Str("W1"), Num(5)];
    var row1 := [Str("A1"), Str("P1"), Str("W1"), Num(3)];
    assert SplitRecords.rows == [row0, row1];
    var rules := Renaming(Str("A1"), Str("A2"), Str("P1"), Str("W1"), [Str("H1"), Str("PC1"), Str("Y")], 1);
    RenameRuleFields();
    assert [RuleOf(RenameRule)] == rules;
    assert rules[..0] == [];
    assert Matching(rules, Str("W1"), Str("A2"), Str("P1")) == [];
    assert ResolveRow(row0, 2, 0, 1, rules) == row0;
    assert LastMatch(rules, Str("W1"), Str("A1"), Str("P1")) == Some(rules[0]);
    RenamingSubstitutes(Str("A1"), Str("A2"), Str("P1"), Str("W1"), Num(3), [Str("H1"), Str("PC1"), Str("Y")]);
    assert ResolveRow(row1, 2, 0, 1, rules) == [Str("A2"), Str("P1"), Str("W1"), Num(3)];
  }

  /** Without dropping, two records under one key meet in one group holding both quantities. */
  lemma TwoRecordsOneKey(k0: Value, k1: Value, k2: Value, x: int, y: int)
    ensures GroupSum(Entries([[k0, k1, k2, Num(x)], [k0, k1, k2, Num(y)]], 4, [0, 1, 2], [3], false), 1)
         == [Group([k0, k1, k2], [x + y])]
  {
    var r0, r1 := [k0, k1, k2, Num(x)], [k0, k1, k2, Num(y)];
    var key := [k0, k1, k2];
    EntriesOfTwo(r0, r1, 4, [0, 1, 2], [3], false);
    FourCellEntry(k0, k1, k2, x);
    FourCellEntry(k0, k1, k2, y);
    assert Entries([r0, r1], 4, [0, 1, 2], [3], false) == [Group(key, [x])] + [Group(key, [y])];
    assert [Group(key, [x])] + [Group(key, [y])] == [Group(key, [x]), Group(key, [y])];
    GroupSumTwice(key, [x], [y]);
    assert AddVec([x], [y]) == [x + y];
  }

  /** Without dropping, a row of three key cells and a quantity is one entry. */
  lemma FourCellEntry(k0: Value, k1: Value, k2: Value, x: int)
    ensures EntryOf([k0, k1, k2, Num(x)], [0, 1, 2], [3], false) == [Group([k0, k1, k2], [x])]
  {
    assert Project([k0, k1, k2, Num(x)], [0, 1, 2]) == [k0, k1, k2];
    assert Amounts([k0, k1, k2, Num(x)], [3]) == [x];
  }
}
