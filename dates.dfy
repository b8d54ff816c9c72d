/**
 * Calendar arithmetic behind `process_date_column`: a spreadsheet day
 * number counts days from 1899-12-30 in the proleptic Gregorian calendar,
 * and the month bucket is the date printed as `%Y-%m`.
 */
module Dates {
  import opened Tables

  predicate Leap(y: int) {
    y % 4 == 0 && (y % 100 != 0 || y % 400 == 0)
  }

  function DaysInMonth(y: int, m: int): (n: int)
    ensures 28 <= n <= 31
  {
    if m == 2 then (if Leap(y) then 29 else 28)
    else if m == 4 || m == 6 || m == 9 || m == 11 then 30
    else 31
  }

  function DaysInYear(y: int): int {
    if Leap(y) then 366 else 365
  }

  /** A date that exists on the calendar. */
  predicate Valid(d: CivilDate) {
    1 <= d.month <= 12 && 1 <= d.day <= DaysInMonth(d.year, d.month)
  }

  /** The day after `d`. */
  function NextDay(d: CivilDate): (e: CivilDate)
    requires Valid(d)
    ensures Valid(e)
  {
    if d.day < DaysInMonth(d.year, d.month) then CivilDate(d.year, d.month, d.day + 1)
    else if d.month < 12 then CivilDate(d.year, d.month + 1, 1)
    else CivilDate(d.year + 1, 1, 1)
  }

  /** The day before `d`. */
  function PrevDay(d: CivilDate): (e: CivilDate)
    requires Valid(d)
    ensures Valid(e)
  {
    if d.day > 1 then CivilDate(d.year, d.month, d.day - 1)
    else if d.month > 1 then CivilDate(d.year, d.month - 1, DaysInMonth(d.year, d.month - 1))
    else CivilDate(d.year - 1, 12, 31)
  }

  /** 1899-12-30, day 0 of the spreadsheet day count. */
  const Epoch: CivilDate := CivilDate(1899, 12, 30)

  /**
   * `pd.to_datetime('1899-12-30') + pd.to_timedelta(n, unit='D')` for a
   * whole day count `n`, negative counts going back in time.
   */
  function FromOffset(n: int): (d: CivilDate)
    ensures Valid(d)
    decreases if n < 0 then -n else n
  {
    if n == 0 then Epoch
    else if n > 0 then NextDay(FromOffset(n - 1))
    else PrevDay(FromOffset(n + 1))
  }

  // ---------------------------------------------------------------------
  // The day number of a date, as an independent closed form

  /** Days in the years before `y`, counting from year 1. */
  function DaysBeforeYear(y: int): int {
    365 * (y - 1) + (y - 1) / 4 - (y - 1) / 100 + (y - 1) / 400
  }

  /** Days in the months of year `y` before month `m`. */
  function DaysBeforeMonth(y: int, m: int): int
    requires 1 <= m <= 12
  {
    [0, 31, 59, 90, 120, 151, 181, 212, 243, 273, 304, 334][m - 1] + (if m > 2 && Leap(y) then 1 else 0)
  }

  /** The position of a date on the proleptic Gregorian day line. */
  function Ordinal(d: CivilDate): int
    requires 1 <= d.month <= 12
  {
    DaysBeforeYear(d.year) + DaysBeforeMonth(d.year, d.month) + d.day
  }

  /** The spreadsheet day number of a date: its distance from 1899-12-30. */
  function ToOffset(d: CivilDate): int
    requires 1 <= d.month <= 12
  {
    Ordinal(d) - Ordinal(Epoch)
  }

  lemma YearLength(y: int)
    ensures DaysBeforeYear(y + 1) == DaysBeforeYear(y) + DaysInYear(y)
  {
    var a := y - 1;
    var four, hundred, quad := y % 4 == 0, y % 100 == 0, y % 400 == 0;
    assert y / 4 == a / 4 + (if four then 1 else 0);
    assert y / 100 == a / 100 + (if hundred then 1 else 0);
    assert y / 400 == a / 400 + (if quad then 1 else 0);
    assert hundred ==> four by {
      if hundred {
        assert y == 4 * (25 * (y / 100));
      }
    }
    assert quad ==> hundred by {
      if quad {
        assert y == 100 * (4 * (y / 400));
      }
    }
    assert DaysInYear(y) == 365 + (if four then 1 else 0) - (if hundred then 1 else 0) + (if quad then 1 else 0);
  }

  lemma YearOfMonths(y: int)
    ensures DaysBeforeMonth(y, 12) + DaysInMonth(y, 12) == DaysInYear(y)
  {
  }

  lemma MonthsBefore(y: int, m: int)
    requires 1 <= m <= 12
    ensures DaysBeforeMonth(y, m) + DaysInMonth(y, m) <= DaysInYear(y)
    ensures m < 12 ==> DaysBeforeMonth(y, m) + DaysInMonth(y, m) == DaysBeforeMonth(y, m + 1)
  {
  }

  /** The day after is one further along the day line. */
  lemma NextDayOrdinal(d: CivilDate)
    requires Valid(d)
    ensures Ordinal(NextDay(d)) == Ordinal(d) + 1
  {
    if d.day == DaysInMonth(d.year, d.month) && d.month == 12 {
      YearLength(d.year);
      YearOfMonths(d.year);
    }
  }

  /** The day before is one step back along the day line. */
  lemma PrevDayOrdinal(d: CivilDate)
    requires Valid(d)
    ensures Ordinal(PrevDay(d)) == Ordinal(d) - 1
  {
    if d.day == 1 && d.month == 1 {
      YearLength(d.year - 1);
      YearOfMonths(d.year - 1);
    }
  }

  /** Day `n` of the spreadsheet count lies `n` days after the epoch. */
  lemma {:induction false} FromOffsetOrdinal(n: int)
    ensures Ordinal(FromOffset(n)) == Ordinal(Epoch) + n
    decreases if n < 0 then -n else n
  {
    if n > 0 {
      FromOffsetOrdinal(n - 1);
      NextDayOrdinal(FromOffset(n - 1));
    } else if n < 0 {
      FromOffsetOrdinal(n + 1);
      PrevDayOrdinal(FromOffset(n + 1));
    }
  }

  /** Reading a day number and counting it back gives the same number. */
  lemma OffsetRoundTrip(n: int)
    ensures ToOffset(FromOffset(n)) == n
  {
    FromOffsetOrdinal(n);
  }

  /** Within one year, later months and days lie further along the day line. */
  lemma OrdinalWithinYear(d: CivilDate)
    requires Valid(d)
    ensures DaysBeforeYear(d.year) < Ordinal(d) <= DaysBeforeYear(d.year) + DaysInYear(d.year)
  {
    MonthsBefore(d.year, d.month);
  }

  lemma {:induction false} MonthsIncrease(y: int, m1: int, m2: int)
    requires 1 <= m1 < m2 <= 12
    ensures DaysBeforeMonth(y, m1) + DaysInMonth(y, m1) <= DaysBeforeMonth(y, m2)
    decreases m2 - m1
  {
    if m1 + 1 < m2 {
      MonthsIncrease(y, m1 + 1, m2);
    }
  }

  lemma {:induction false} YearsIncrease(y1: int, y2: int)
    requires y1 < y2
    ensures DaysBeforeYear(y1) + DaysInYear(y1) <= DaysBeforeYear(y2)
    decreases y2 - y1
  {
    YearLength(y1);
    if y1 + 1 < y2 {
      YearsIncrease(y1 + 1, y2);
      assert DaysInYear(y1 + 1) > 0;
    }
  }

  /** Two valid dates with the same day number are the same date. */
  lemma OrdinalInjective(d1: CivilDate, d2: CivilDate)
    requires Valid(d1) && Valid(d2) && Ordinal(d1) == Ordinal(d2)
    ensures d1 == d2
  {
    OrdinalWithinYear(d1);
    OrdinalWithinYear(d2);
    if d1.year < d2.year {
      YearsIncrease(d1.year, d2.year);
    } else if d2.year < d1.year {
      YearsIncrease(d2.year, d1.year);
    } else if d1.month < d2.month {
      MonthsIncrease(d1.year, d1.month, d2.month);
    } else if d2.month < d1.month {
      MonthsIncrease(d1.year, d2.month, d1.month);
    }
  }

  /** Every calendar date is the reading of its own day number. */
  lemma DateRoundTrip(d: CivilDate)
    requires Valid(d)
    ensures FromOffset(ToOffset(d)) == d
  {
    FromOffsetOrdinal(ToOffset(d));
    OrdinalInjective(FromOffset(ToOffset(d)), d);
  }

  /** Day 2 of the spreadsheet count is New Year's Day 1900. */
  lemma DayTwo()
    ensures FromOffset(2) == CivilDate(1900, 1, 1)
  {
    assert FromOffset(1) == CivilDate(1899, 12, 31);
  }

  /**
   * The whole day counts pandas can turn into a date from 1899-12-30. A
   * nanosecond timedelta holds at most 106751 whole days either way, and a
   * nanosecond timestamp starts at 1677-09-21 00:12:43, so its first whole
   * day is 1677-09-22; the latest timestamp, in 2262, lies beyond the
   * timedelta's reach.
   */
  const MinOffset := -81182
  const MaxOffset := 106751

  /** The bounds as calendar dates: 1677-09-22 and 2192-04-08, and 1970-01-01 for scale. */
  lemma OffsetBounds()
    ensures ToOffset(CivilDate(1677, 9, 22)) == MinOffset
    ensures ToOffset(CivilDate(2192, 4, 8)) == MaxOffset
    ensures ToOffset(CivilDate(1970, 1, 1)) == 25569
    ensures ToOffset(CivilDate(1970, 1, 1)) - MinOffset == 106751
  {
  }

  // ---------------------------------------------------------------------
  // `strftime('%Y-%m')`

  /** `n` in decimal, left-padded with zeros to at least `w` digits. */
  function Padded(n: nat, w: nat): (s: string)
    ensures |s| >= w && |s| >= 1 && forall k :: 0 <= k < |s| ==> IsDigit(s[k])
  {
    var t := NatText(n);
    if |t| >= w then t else seq(w - |t|, _ => '0') + t
  }

  /** A `%Y` or `%m` field: the number zero-padded to `w` digits, signed if negative. */
  function Field(n: int, w: nat): string {
    if n < 0 then "-" + Padded(-n, w) else Padded(n, w)
  }

  /** The month bucket `strftime('%Y-%m')` of a date. */
  function MonthLabel(d: CivilDate): string {
    Field(d.year, 4) + "-" + Field(d.month, 2)
  }

  /** The number a run of decimal digits spells, leading zeros allowed. */
  function DigitsValue(s: string): nat
    requires forall k :: 0 <= k < |s| ==> IsDigit(s[k])
  {
    if s == [] then 0
    else
      assert IsDigit(s[|s| - 1]);
      DigitsValue(s[..|s| - 1]) * 10 + (s[|s| - 1] as int - '0' as int)
  }

  predicate AllDigits(s: string) {
    forall k :: 0 <= k < |s| ==> IsDigit(s[k])
  }

  /**
   * Reading a month bucket back: four or more year digits, a dash and two
   * month digits.
   */
  function ParseLabel(s: string): (r: Option<(nat, nat)>)
    ensures r.Some? ==> |s| >= 7 && s[|s| - 3] == '-'
  {
    if |s| >= 7 && s[|s| - 3] == '-' && AllDigits(s[..|s| - 3]) && AllDigits(s[|s| - 2..]) then
      Some((DigitsValue(s[..|s| - 3]), DigitsValue(s[|s| - 2..])))
    else None
  }

  lemma {:induction false} NatTextValue(n: nat)
    ensures DigitsValue(NatText(n)) == n
    decreases n
  {
    var t := NatText(n);
    if n >= 10 {
      NatTextValue(n / 10);
      assert t[..|t| - 1] == NatText(n / 10);
    }
  }

  lemma {:induction false} LeadingZeros(k: nat, t: string)
    requires AllDigits(t)
    ensures AllDigits(seq(k, _ => '0') + t)
    ensures DigitsValue(seq(k, _ => '0') + t) == DigitsValue(t)
    decreases |t|
  {
    var z: string := seq(k, _ => '0');
    if t == [] {
      assert z + t == z;
      ZerosValue(k);
    } else {
      var u := t[..|t| - 1];
      LeadingZeros(k, u);
      assert (z + t)[..|z + t| - 1] == z + u;
    }
  }

  lemma {:induction false} ZerosValue(k: nat)
    ensures DigitsValue(seq(k, _ => '0')) == 0
    decreases k
  {
    if k > 0 {
      ZerosValue(k - 1);
      assert seq(k, _ => '0')[..k - 1] == seq(k - 1, _ => '0');
    }
  }

  /** A padded field reads back as its number. */
  lemma PaddedValue(n: nat, w: nat)
    ensures DigitsValue(Padded(n, w)) == n
  {
    var t := NatText(n);
    NatTextValue(n);
    if |t| < w {
      LeadingZeros(w - |t|, t);
    }
  }

  /** Months 1 to 12 print as exactly two digits. */
  lemma MonthWidth(m: int)
    requires 1 <= m <= 12
    ensures |Padded(m, 2)| == 2
  {
    if m >= 10 {
      assert NatText(m) == NatText(m / 10) + ['0' + (m % 10) as char];
    }
  }

  /** The month bucket of a date in year 0 or later reads back as its year and month. */
  lemma LabelRoundTrip(d: CivilDate)
    requires Valid(d) && d.year >= 0
    ensures ParseLabel(MonthLabel(d)) == Some((d.year as nat, d.month as nat))
  {
    var y := Padded(d.year, 4);
    var m := Padded(d.month, 2);
    var s := MonthLabel(d);
    MonthWidth(d.month);
    assert s == y + "-" + m;
    assert s[..|s| - 3] == y;
    assert s[|s| - 2..] == m;
    PaddedValue(d.year, 4);
    PaddedValue(d.month, 2);
  }

  /** The bucket of day 2 is January 1900. */
  lemma DayTwoLabel()
    ensures MonthLabel(FromOffset(2)) == "1900-01"
  {
    DayTwo();
    assert NatText(1900) == "1900" by {
      assert NatText(1) == "1";
      assert NatText(19) == "19";
      assert NatText(190) == "190";
    }
    assert NatText(1) == "1";
  }
}
