/** sensor.py: `AmLichEventSensor`, one Home Assistant sensor per stored event. Its
    fields are set once from a row (`parse_float_or_none` on the six date cells) and
    only `async_update` changes them, so the members here are functions of the row.
    `_get_nearest_solar` finds the next solar date of the event, `state` shows the
    countdown to it, and `_build_attrs` renders the attributes. */
module Sensor {
  import opened PyRuntime
  import opened Dates
  import opened Lunar
  import opened Events
  import opened Recurrence

  /** `STATE_UNKNOWN` */
  const StateUnknown := "unknown"

  /** "Sắp tới " */
  const UpcomingPrefix := "S\U{1EAF}p t\U{1EDB}i "

  /** " - còn " */
  const RemainingInfix := " - c\U{F2}n "

  /** " ngày" */
  const DaysSuffix := " ng\U{E0}y"

  /** `parse_float_or_none(val)`: None and "" give None, a number gives its float,
      text `float()` rejects gives None. */
  function ParseFloatOrNone(v: PyValue): (r: Option<real>)
    ensures v.PyNone? || v.PyStr? ==> r.None?
    ensures v.PyInt? ==> r == Some(v.i as real)
    ensures v.PyFloat? ==> r == Some(v.x)
  {
    match v
    case PyNone => None
    case PyStr(_) => None
    case PyInt(i) => Some(i as real)
    case PyFloat(x) => Some(x)
  }

  /** The sensor's fields equal the row's cells: parsing a REAL cell gives it back. */
  lemma ParseFloatOrNoneOfCell(c: Option<real>)
    ensures ParseFloatOrNone(RealCell(c)) == c
  {
  }

  /** Lunar/yearly in `_get_nearest_solar`: the `ref.year` conversion when it is not
      before `today`, otherwise the `ref.year + 1` conversion, before `today` or not. */
  function YearlyWithFallback(today: PyDate, first: Option<PyDate>, second: Option<PyDate>): (r: Option<PyDate>)
    ensures first.None? ==> r.None?
    ensures first.Some? && !Before(first.value, today) ==> r == first
    ensures first.Some? && Before(first.value, today) ==> r == second
  {
    match first
    case None => None
    case Some(e0) => if !Before(e0, today) then first else second
  }

  /** `_get_nearest_solar()`, with `date.today()` passed in as `today`. */
  function NearestSolar(row: Row, today: PyDate, conv: Converter): Option<PyDate> {
    if IsSolar(row) then
      if !Truthy(row.solarDay) then None
      else
        var sd := Trunc(row.solarDay.value);
        if IsMonthly(row) then
          var (year, month) := if today.day > sd then NextMonth(today.year, today.month)
                               else (today.year, today.month);
          MakeDate(year, month, sd)
        else if IsYearly(row) then
          if !Truthy(row.solarMonth) then None
          else ThisOrNextYear(today, Trunc(row.solarMonth.value), sd)
        else
          if !Truthy(row.solarYear) || !Truthy(row.solarMonth) then None
          else MakeDate(Trunc(row.solarYear.value), Trunc(row.solarMonth.value), sd)
    else if !conv.installed then None
    else if !Truthy(row.lunarDay) then None
    else
      var lunarDay := Trunc(row.lunarDay.value);
      var lunarMonth := IntField(row.lunarMonth);
      var lunarYear := if Truthy(row.lunarYear) then Trunc(row.lunarYear.value) else today.year;
      if IsMonthly(row) then LunarMonthly(conv, today, lunarDay)
      else if IsYearly(row) then
        if lunarMonth == 0 then None
        else YearlyWithFallback(today, LunarToDate(conv, today.year, lunarMonth, lunarDay),
                                LunarToDate(conv, today.year + 1, lunarMonth, lunarDay))
      else if lunarMonth == 0 then None
      else LunarToDate(conv, lunarYear, lunarMonth, lunarDay)
  }

  /** `_get_nearest_solar` step by step: the reassigned month and year, the
      `for offset in [0, 1]` search with its early returns, and the conversion after
      the loop. */
  method GetNearestSolar(row: Row, today: PyDate, conv: Converter) returns (r: Option<PyDate>)
    ensures r == NearestSolar(row, today, conv)
  {
    if IsSolar(row) {
      if !Truthy(row.solarDay) {
        return None;
      }
      var sd := Trunc(row.solarDay.value);
      if IsMonthly(row) {
        var month := today.month;
        var year := today.year;
        if today.day > sd {
          month := month + 1;
          if month > 12 {
            month := 1;
            year := year + 1;
          }
        }
        return MakeDate(year, month, sd);
      } else if IsYearly(row) {
        if !Truthy(row.solarMonth) {
          return None;
        }
        var month := Trunc(row.solarMonth.value);
        var day := Trunc(row.solarDay.value);
        var year := today.year;
        var eventDate := MakeDate(year, month, day);
        if eventDate.None? {
          return None;
        }
        if Before(eventDate.value, today) {
          eventDate := MakeDate(year + 1, month, day);
        }
        return eventDate;
      } else {
        if !Truthy(row.solarYear) || !Truthy(row.solarMonth) {
          return None;
        }
        var year := Trunc(row.solarYear.value);
        var month := Trunc(row.solarMonth.value);
        var day := Trunc(row.solarDay.value);
        return MakeDate(year, month, day);
      }
    } else {
      if !conv.installed {
        return None;
      }
      if !Truthy(row.lunarDay) {
        return None;
      }
      var lunarDay := Trunc(row.lunarDay.value);
      var lunarMonth := IntField(row.lunarMonth);
      var lunarYear := if Truthy(row.lunarYear) then Trunc(row.lunarYear.value) else today.year;
      if IsMonthly(row) {
        var lunarToday := conv.solarToLunar(today);
        if lunarToday.None? {
          return None;
        }
        var lunarMonthNow := lunarToday.value.month;
        var lunarYearNow := lunarToday.value.year;
        if lunarToday.value.day > lunarDay {
          lunarMonthNow := lunarMonthNow + 1;
          if lunarMonthNow > 12 {
            lunarMonthNow := 1;
            lunarYearNow := lunarYearNow + 1;
          }
        }
        return LunarToDate(conv, lunarYearNow, lunarMonthNow, lunarDay);
      } else if IsYearly(row) {
        if lunarMonth == 0 {
          return None;
        }
        var offset := 0;
        while offset < 2
          invariant 0 <= offset <= 2
          invariant offset >= 1 ==> var c := LunarToDate(conv, today.year, lunarMonth, lunarDay);
            c.Some? && Before(c.value, today)
          invariant offset >= 2 ==> var c := LunarToDate(conv, today.year + 1, lunarMonth, lunarDay);
            c.Some? && Before(c.value, today)
        {
          var eventDate := LunarToDate(conv, today.year + offset, lunarMonth, lunarDay);
          if eventDate.None? {
            return None;
          }
          if !Before(eventDate.value, today) {
            return eventDate;
          }
          offset := offset + 1;
        }
        return LunarToDate(conv, today.year + 1, lunarMonth, lunarDay);
      } else {
        if lunarMonth == 0 {
          return None;
        }
        return LunarToDate(conv, lunarYear, lunarMonth, lunarDay);
      }
    }
  }

  /** `_get_nearest_solar_str()`: the date as "DD/MM/YYYY", or "" when there is none;
      the text gives the date back. */
  function NearestSolarStr(row: Row, today: PyDate, conv: Converter): (s: string)
    ensures NearestSolar(row, today, conv).None? <==> s == ""
    ensures NearestSolar(row, today, conv).Some? ==>
      |s| == 10 && DigitsAt(s, 0, 2) && DigitsAt(s, 3, 5) && DigitsAt(s, 6, 10)
      && ParseDate(s) == NearestSolar(row, today, conv).value
  {
    match NearestSolar(row, today, conv)
    case None => ""
    case Some(e) => FormatDateRoundTrip(e); FormatDate(e)
  }

  /** The countdown text "Sắp tới DD/MM/YYYY - còn N ngày". */
  function Countdown(e: PyDate, daysLeft: int): string {
    UpcomingPrefix + FormatDate(e) + RemainingInfix + IntToString(daysLeft) + DaysSuffix
  }

  /** The `state` property: the countdown to the nearest date, `unknown` without one.
      The source reads `date.today()` here and again inside `_get_nearest_solar`; both
      reads are the one `today`. */
  function State(row: Row, today: PyDate, conv: Converter): (s: string)
    ensures NearestSolar(row, today, conv).None? ==> s == StateUnknown
    ensures NearestSolar(row, today, conv).Some? ==> var e := NearestSolar(row, today, conv).value;
      s == Countdown(e, DaysBetween(e, today))
  {
    match NearestSolar(row, today, conv)
    case None => StateUnknown
    case Some(e) => Countdown(e, DaysBetween(e, today))
  }

  /** The countdown reads back as the date and the day count, and the count is
      non-negative exactly when the date is not past, zero exactly on the day itself. */
  lemma CountdownDecodes(e: PyDate, today: PyDate)
    ensures var s := Countdown(e, DaysBetween(e, today));
      |s| >= 30 && s[..8] == UpcomingPrefix && s[18..25] == RemainingInfix && s[|s| - 5..] == DaysSuffix
      && (var date := s[8..18];
        DigitsAt(date, 0, 2) && DigitsAt(date, 3, 5) && DigitsAt(date, 6, 10) && ParseDate(date) == e)
      && IntText(s[25..|s| - 5]) && ParseInt(s[25..|s| - 5]) == DaysBetween(e, today)
    ensures DaysBetween(e, today) >= 0 <==> !Before(e, today)
    ensures DaysBetween(e, today) == 0 <==> e == today
  {
    var n := DaysBetween(e, today);
    var s := Countdown(e, n);
    FormatDateRoundTrip(e);
    IntToStringRoundTrip(n);
    OrdinalOrder(e, today);
    var date := FormatDate(e);
    var count := IntToString(n);
    assert s == UpcomingPrefix + date + RemainingInfix + count + DaysSuffix;
    assert s[8..18] == date;
    assert s[25..|s| - 5] == count;
  }

  /** The state of a monthly or yearly solar event never counts down a negative number
      of days. */
  lemma SolarRepeatingStateNotNegative(row: Row, today: PyDate, conv: Converter)
    requires IsSolar(row) && !IsOnce(row) && NearestSolar(row, today, conv).Some?
    ensures !Before(NearestSolar(row, today, conv).value, today)
    ensures var e := NearestSolar(row, today, conv).value;
      State(row, today, conv) == Countdown(e, DaysBetween(e, today)) && DaysBetween(e, today) >= 0
  {
    var e := NearestSolar(row, today, conv).value;
    if IsMonthly(row) {
      SolarMonthlyNearest(row, today, conv);
    } else {
      SolarYearlyNearest(row, today, conv);
    }
    CountdownDecodes(e, today);
  }

  // ---------------------------------------------------------------------------
  // _get_nearest_solar branch by branch

  /** Solar/monthly: day `sd` of `today`'s month when `today`'s day is not past `sd`,
      otherwise of the next month (December rolling over to January). When that day
      does not exist the result is None: no later month is tried. */
  lemma SolarMonthlyNearest(row: Row, today: PyDate, conv: Converter)
    requires IsSolar(row) && IsMonthly(row) && Truthy(row.solarDay)
    ensures var sd := Trunc(row.solarDay.value);
      var r := NearestSolar(row, today, conv);
      var (y, m) := if today.day <= sd then (today.year, today.month) else NextMonth(today.year, today.month);
      && (r.Some? <==> ValidDate(y, m, sd))
      && (r.Some? ==> r.value == Date(y, m, sd) && !Before(r.value, today))
  {
  }

  /** Solar/yearly: (today's year, m, d) when that is not before today, else the same
      day of the next year; a missing month gives None. */
  lemma SolarYearlyNearest(row: Row, today: PyDate, conv: Converter)
    requires IsSolar(row) && IsYearly(row)
    ensures !Truthy(row.solarMonth) ==> NearestSolar(row, today, conv).None?
    ensures Truthy(row.solarDay) && Truthy(row.solarMonth) && NearestSolar(row, today, conv).Some? ==>
      var e := NearestSolar(row, today, conv).value;
      var m := Trunc(row.solarMonth.value);
      var d := Trunc(row.solarDay.value);
      && !Before(e, today) && e.month == m && e.day == d
      && (e.year == today.year <==> !Before(Date(today.year, m, d), today))
      && (e.year == today.year || e.year == today.year + 1)
  {
  }

  /** Solar/once: the stored date whatever `today` is; there is a date exactly when day,
      month and year are set and name a valid date. */
  lemma SolarOnceNearest(row: Row, today: PyDate, other: PyDate, conv: Converter)
    requires IsSolar(row) && IsOnce(row)
    ensures NearestSolar(row, today, conv) == NearestSolar(row, other, conv)
    ensures NearestSolar(row, today, conv).Some? <==>
      (Truthy(row.solarDay) && Truthy(row.solarMonth) && Truthy(row.solarYear)
       && ValidDate(Trunc(row.solarYear.value), Trunc(row.solarMonth.value), Trunc(row.solarDay.value)))
    ensures NearestSolar(row, today, conv).Some? ==> (NearestSolar(row, today, conv).value
      == Date(Trunc(row.solarYear.value), Trunc(row.solarMonth.value), Trunc(row.solarDay.value)))
  {
  }

  /** A one-off solar event in the past is still shown: 1 January 2020 seen from 2025. */
  lemma SolarOnceMayBePast(conv: Converter)
    ensures var row := Row(1, None, Some("solar"), None, None, None,
                           Some(1.0), Some(1.0), Some(2020.0), None, None);
      NearestSolar(row, Date(2025, 6, 1), conv) == Some(Date(2020, 1, 1))
  {
  }

  /** Lunar/monthly needs no lunar month: the month field does not change the result,
      and under the round-trip assumption the result is lunar day `day` of the current
      or next lunar month. */
  lemma LunarMonthlyNearest(row: Row, today: PyDate, conv: Converter, otherMonth: Option<real>)
    requires !IsSolar(row) && IsMonthly(row) && conv.installed && Truthy(row.lunarDay)
    ensures NearestSolar(row, today, conv) == NearestSolar(row.(lunarMonth := otherMonth), today, conv)
    ensures NearestSolar(row, today, conv) == LunarMonthly(conv, today, Trunc(row.lunarDay.value))
  {
  }

  /** Lunar/yearly: the first of the two conversions not before `today`; when the first
      is before `today`, the second whether or not it is; None without a month. */
  lemma LunarYearlyNearest(row: Row, today: PyDate, conv: Converter)
    requires !IsSolar(row) && IsYearly(row) && conv.installed && Truthy(row.lunarDay)
    ensures IntField(row.lunarMonth) == 0 ==> NearestSolar(row, today, conv).None?
    ensures IntField(row.lunarMonth) != 0 ==>
      var d := Trunc(row.lunarDay.value);
      var m := IntField(row.lunarMonth);
      var c0 := LunarToDate(conv, today.year, m, d);
      var c1 := LunarToDate(conv, today.year + 1, m, d);
      var r := NearestSolar(row, today, conv);
      && (c0.Some? && !Before(c0.value, today) ==> r == c0)
      && (c0.Some? && Before(c0.value, today) ==> r == c1)
      && (r.Some? && Before(r.value, today) ==> r == c1 && c0.Some? && Before(c0.value, today))
  {
  }

  // ---------------------------------------------------------------------------
  // Attributes

  /** `format_int_if_possible(val)` for the sensor's fields (None or a float):
      "" for None, an integral float without ".0", any other float as `str()` gives it
      (`floatRepr`, since float formatting is not modelled). */
  function FormatIntIfPossible(v: Option<real>, floatRepr: real -> string): (s: string)
    ensures v.None? ==> s == ""
    ensures v.Some? && IsIntegral(v.value) ==> IntText(s) && ParseInt(s) as real == v.value
    ensures v.Some? && !IsIntegral(v.value) ==> s == floatRepr(v.value)
  {
    match v
    case None => ""
    case Some(x) =>
      if IsIntegral(x) then
        IntToStringRoundTrip(Trunc(x));
        IntToString(Trunc(x))
      else floatRepr(x)
  }

  /** `_build_attrs()`: `ngay_su_kien`, `loai_su_kien`, `mo_ta`, `laplai`. */
  datatype Attributes = Attributes(eventDate: string, calendarKind: string,
                                   description: Option<string>, repeat: Option<string>)

  /** "d/m/y", or "d/m" when the year renders empty. */
  function DayMonthYear(day: string, month: string, year: string): string {
    if year != "" then day + "/" + month + "/" + year else day + "/" + month
  }

  function BuildAttrs(row: Row, floatRepr: real -> string): (a: Attributes)
    ensures a.calendarKind == if IsSolar(row) then "Duong Lich" else "Am Lich"
    ensures a.description == row.description && a.repeat == row.repeat
  {
    var (d, m, y) := if IsSolar(row) then (row.solarDay, row.solarMonth, row.solarYear)
                     else (row.lunarDay, row.lunarMonth, row.lunarYear);
    Attributes(
      DayMonthYear(FormatIntIfPossible(d, floatRepr), FormatIntIfPossible(m, floatRepr),
                   FormatIntIfPossible(y, floatRepr)),
      if IsSolar(row) then "Duong Lich" else "Am Lich",
      row.description,
      row.repeat)
  }

  /** The shown date comes from the triple that matches the calendar tag; with integral
      fields it is "d/m/y" without ".0", or "d/m" when there is no year. */
  lemma BuildAttrsDate(row: Row, floatRepr: real -> string)
    ensures var (d, m, y) := if IsSolar(row) then (row.solarDay, row.solarMonth, row.solarYear)
                             else (row.lunarDay, row.lunarMonth, row.lunarYear);
      var text := BuildAttrs(row, floatRepr).eventDate;
      && (y.None? ==> text == FormatIntIfPossible(d, floatRepr) + "/" + FormatIntIfPossible(m, floatRepr))
      && (y.Some? && IsIntegral(y.value) ==>
        text == FormatIntIfPossible(d, floatRepr) + "/" + FormatIntIfPossible(m, floatRepr) + "/"
          + IntToString(Trunc(y.value)))
  {
  }
}
