/** Python's `datetime.date` as the integration uses it: construction with its
    validity check (raising ValueError is `None` here), comparison, the day after a
    date (raising OverflowError past `date.max` is `None`), `toordinal()` and the
    day difference `(a - b).days`, and the two `strftime` layouts the code prints. */
module Dates {
  import opened PyRuntime

  /** A (year, month, day) triple, not necessarily a date that exists. */
  datatype Date = Date(year: int, month: int, day: int)

  const MinYear := 1
  const MaxYear := 9999

  predicate IsLeapYear(y: int) {
    y % 4 == 0 && (y % 100 != 0 || y % 400 == 0)
  }

  function DaysInMonth(y: int, m: int): (n: int)
    requires 1 <= m <= 12
    ensures 28 <= n <= 31
    ensures n == 29 <==> m == 2 && IsLeapYear(y)
  {
    if m == 2 then (if IsLeapYear(y) then 29 else 28)
    else if m == 4 || m == 6 || m == 9 || m == 11 then 30
    else 31
  }

  /** What `date(y, m, d)` accepts. */
  predicate ValidDate(y: int, m: int, d: int) {
    MinYear <= y <= MaxYear && 1 <= m <= 12 && 1 <= d <= DaysInMonth(y, m)
  }

  /** A Python `date` object: always a date that exists. */
  type PyDate = d: Date | ValidDate(d.year, d.month, d.day) witness Date(1, 1, 1)

  /** `date.max` */
  const MaxDate: PyDate := Date(9999, 12, 31)

  /** `date(y, m, d)`, with `None` where Python raises ValueError. */
  function MakeDate(y: int, m: int, d: int): (r: Option<PyDate>)
    ensures r.Some? <==> ValidDate(y, m, d)
    ensures r.Some? ==> r.value == Date(y, m, d)
  {
    if ValidDate(y, m, d) then Some(Date(y, m, d)) else None
  }

  /** `a < b` on dates: lexicographic on (year, month, day). */
  predicate Before(a: Date, b: Date) {
    a.year < b.year
    || (a.year == b.year && (a.month < b.month || (a.month == b.month && a.day < b.day)))
  }

  /** `month += 1; if month > 12: month = 1; year += 1`, as both files advance a month. */
  function NextMonth(year: int, month: int): (r: (int, int))
    ensures month < 12 ==> r == (year, month + 1)
    ensures month >= 12 ==> r == (year + 1, 1)
  {
    if month + 1 > 12 then (year + 1, 1) else (year, month + 1)
  }

  /** `d + timedelta(days=1)`, with `None` where Python raises OverflowError. */
  function NextDay(d: PyDate): (r: Option<PyDate>)
    ensures r.None? <==> d == MaxDate
    ensures r.Some? ==> Before(d, r.value)
  {
    if d.day < DaysInMonth(d.year, d.month) then Some(Date(d.year, d.month, d.day + 1))
    else if d.month < 12 then Some(Date(d.year, d.month + 1, 1))
    else if d.year < MaxYear then Some(Date(d.year + 1, 1, 1))
    else None
  }

  lemma MaxDateIsLatest(d: PyDate)
    ensures !Before(MaxDate, d)
  {
  }

  function YearLength(y: int): int {
    if IsLeapYear(y) then 366 else 365
  }

  function DaysBeforeYear(y: int): nat
    requires y >= 1
  {
    if y == 1 then 0 else DaysBeforeYear(y - 1) + YearLength(y - 1)
  }

  function DaysBeforeMonth(y: int, m: int): nat
    requires 1 <= m <= 12
  {
    [0, 31, 59, 90, 120, 151, 181, 212, 243, 273, 304, 334][m - 1]
      + (if m > 2 && IsLeapYear(y) then 1 else 0)
  }

  /** `d.toordinal()`: 1 for 0001-01-01, one more for every following day. */
  function Ordinal(d: PyDate): int {
    DaysBeforeYear(d.year) + DaysBeforeMonth(d.year, d.month) + d.day
  }

  /** `(a - b).days` */
  function DaysBetween(a: PyDate, b: PyDate): int {
    Ordinal(a) - Ordinal(b)
  }

  lemma MonthEnd(y: int, m: int)
    requires 1 <= m <= 12
    ensures m < 12 ==> DaysBeforeMonth(y, m) + DaysInMonth(y, m) == DaysBeforeMonth(y, m + 1)
    ensures m == 12 ==> DaysBeforeMonth(y, m) + DaysInMonth(y, m) == YearLength(y)
  {
  }

  lemma {:induction false} DaysBeforeMonthMonotone(y: int, m: int, n: int)
    requires 1 <= m < n <= 12
    ensures DaysBeforeMonth(y, m) + DaysInMonth(y, m) <= DaysBeforeMonth(y, n)
    decreases n - m
  {
    MonthEnd(y, m);
    if m + 1 < n {
      DaysBeforeMonthMonotone(y, m + 1, n);
    }
  }

  lemma {:induction false} DaysBeforeYearMonotone(a: int, b: int)
    requires 1 <= a < b
    ensures DaysBeforeYear(a) + YearLength(a) <= DaysBeforeYear(b)
    decreases b - a
  {
    if a + 1 < b {
      DaysBeforeYearMonotone(a + 1, b);
    }
  }

  lemma DayOfYearBound(d: PyDate)
    ensures DaysBeforeMonth(d.year, d.month) + d.day <= YearLength(d.year)
  {
    if d.month < 12 {
      DaysBeforeMonthMonotone(d.year, d.month, 12);
    }
    MonthEnd(d.year, 12);
  }

  /** Ordinals order dates exactly as Python compares them. */
  lemma OrdinalOrder(a: PyDate, b: PyDate)
    ensures Before(a, b) <==> Ordinal(a) < Ordinal(b)
    ensures a == b <==> Ordinal(a) == Ordinal(b)
  {
    if Before(a, b) {
      OrdinalBeforeStrict(a, b);
    } else if Before(b, a) {
      OrdinalBeforeStrict(b, a);
    }
  }

  lemma OrdinalBeforeStrict(a: PyDate, b: PyDate)
    requires Before(a, b)
    ensures Ordinal(a) < Ordinal(b)
  {
    if a.year < b.year {
      DayOfYearBound(a);
      DaysBeforeYearMonotone(a.year, b.year);
    } else if a.month < b.month {
      DaysBeforeMonthMonotone(a.year, a.month, b.month);
    }
  }

  /** The day after `d` is one ordinal later. */
  lemma NextDayOrdinal(d: PyDate)
    requires d != MaxDate
    ensures Ordinal(NextDay(d).value) == Ordinal(d) + 1
  {
    MonthEnd(d.year, d.month);
  }

  /** No date lies strictly between a date and the day after it. */
  lemma NextDayAdjacent(d: PyDate, e: PyDate)
    requires d != MaxDate && Before(d, e)
    ensures !Before(e, NextDay(d).value)
  {
    NextDayOrdinal(d);
    OrdinalOrder(d, e);
    OrdinalOrder(e, NextDay(d).value);
  }

  /** `d.strftime('%d/%m/%Y')` (years below 1000 are padded to four digits). */
  function FormatDate(d: PyDate): (s: string)
    ensures |s| == 10 && s[2] == '/' && s[5] == '/'
  {
    assert Pow10(2) == 100 && Pow10(4) == 10000;
    ZeroPad(d.day, 2) + "/" + ZeroPad(d.month, 2) + "/" + ZeroPad(d.year, 4)
  }

  /** `d.strftime('%Y%m%d')` */
  function FormatCompact(d: PyDate): (s: string)
    ensures |s| == 8 && AllDigits(s)
  {
    assert Pow10(2) == 100 && Pow10(4) == 10000;
    ZeroPad(d.year, 4) + ZeroPad(d.month, 2) + ZeroPad(d.day, 2)
  }

  predicate DigitsAt(s: string, i: int, j: int)
    requires 0 <= i <= j <= |s|
  {
    AllDigits(s[i..j])
  }

  /** Reads back a "DD/MM/YYYY" string: the partner of FormatDate. */
  function ParseDate(s: string): Date
    requires |s| == 10 && DigitsAt(s, 0, 2) && DigitsAt(s, 3, 5) && DigitsAt(s, 6, 10)
  {
    Date(DigitsValue(s[6..10]), DigitsValue(s[3..5]), DigitsValue(s[0..2]))
  }

  /** Reads back a "YYYYMMDD" string: the partner of FormatCompact. */
  function ParseCompact(s: string): Date
    requires |s| == 8 && AllDigits(s)
  {
    assert DigitsAt(s, 0, 4) && DigitsAt(s, 4, 6) && DigitsAt(s, 6, 8);
    Date(DigitsValue(s[0..4]), DigitsValue(s[4..6]), DigitsValue(s[6..8]))
  }

  /** The displayed date determines the date: "DD/MM/YYYY" loses nothing. */
  lemma FormatDateRoundTrip(d: PyDate)
    ensures var s := FormatDate(d);
      DigitsAt(s, 0, 2) && DigitsAt(s, 3, 5) && DigitsAt(s, 6, 10) && ParseDate(s) == d
  {
    var s := FormatDate(d);
    assert Pow10(2) == 100 && Pow10(4) == 10000;
    assert s[0..2] == ZeroPad(d.day, 2);
    assert s[3..5] == ZeroPad(d.month, 2);
    assert s[6..10] == ZeroPad(d.year, 4);
  }

  /** The uid's date part determines the date: "YYYYMMDD" loses nothing. */
  lemma FormatCompactRoundTrip(d: PyDate)
    ensures ParseCompact(FormatCompact(d)) == d
  {
    var s := FormatCompact(d);
    assert Pow10(2) == 100 && Pow10(4) == 10000;
    assert s[0..4] == ZeroPad(d.year, 4);
    assert s[4..6] == ZeroPad(d.month, 2);
    assert s[6..8] == ZeroPad(d.day, 2);
  }
}
