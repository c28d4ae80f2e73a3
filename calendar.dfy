/** calendar.py: `AmLichVNCalendar`, which shows the stored events on the Home
    Assistant calendar. `_get_event_date` resolves the occurrence of an event on or
    after a reference date, `_get_event_date_for_range` decides whether an event
    falls on one given date, `async_get_events` probes every day of a range, and the
    `event` property looks for an event due today. The rows are passed in (loading
    them is storage I/O) and so are today's date and the lunar converter. */
module Calendar {
  import opened PyRuntime
  import opened Dates
  import opened Lunar
  import opened Events
  import opened Recurrence

  /** What a call returns, or the OverflowError that `date + timedelta(days=1)` raises
      past `date.max`, which these two entry points do not catch. */
  datatype Outcome<T> = Returned(value: T) | OverflowError

  /** `CalendarEvent(summary, start, end, description, uid)` */
  datatype CalendarEvent = CalendarEvent(
    summary: Option<string>, start: PyDate, end: PyDate, description: string, uid: string)

  /** Solar/monthly in `_get_event_date`: `date(year, month, day)` in `ref`'s month,
      moved to the next month (December rolling to January) when it is before `ref`. */
  function ThisOrNextMonth(ref: PyDate, day: int): (r: Option<PyDate>)
    ensures r.Some? ==> r.value.day == day && !Before(r.value, ref)
    ensures r.Some? ==> ((r.value.year, r.value.month) == (ref.year, ref.month)
      || (r.value.year, r.value.month) == NextMonth(ref.year, ref.month))
    ensures r.Some? ==> ((r.value.year, r.value.month) == (ref.year, ref.month) <==> ref.day <= day)
    ensures var (y, m) := if ref.day <= day then (ref.year, ref.month) else NextMonth(ref.year, ref.month);
      r.Some? <==> ValidDate(y, m, day)
  {
    match MakeDate(ref.year, ref.month, day)
    case None => None
    case Some(e) =>
      if Before(e, ref) then
        var (y, m) := NextMonth(ref.year, ref.month);
        MakeDate(y, m, day)
      else Some(e)
  }

  /** Lunar/yearly in `_get_event_date`: the first of the conversions for lunar years
      `ref.year` and `ref.year + 1` that is not before `ref`, or nothing. A conversion
      that raises ends the search with nothing. */
  function FirstNotBefore(ref: PyDate, first: Option<PyDate>, second: Option<PyDate>): (r: Option<PyDate>)
    ensures r.Some? ==> !Before(r.value, ref)
    ensures first.None? ==> r.None?
    ensures first.Some? && !Before(first.value, ref) ==> r == first
    ensures first.Some? && Before(first.value, ref) ==>
      (r.Some? <==> second.Some? && !Before(second.value, ref)) && (r.Some? ==> r == second)
  {
    match first
    case None => None
    case Some(e0) =>
      if !Before(e0, ref) then first
      else
        match second
        case None => None
        case Some(e1) => if !Before(e1, ref) then second else None
  }

  /** `_get_event_date(row, ref_date)`: the occurrence of the event the calendar uses. */
  function EventDate(row: Row, ref: PyDate, conv: Converter): Option<PyDate> {
    if IsSolar(row) then
      if IsYearly(row) then
        var month := IntField(row.solarMonth);
        var day := IntField(row.solarDay);
        if month == 0 || day == 0 then None else ThisOrNextYear(ref, month, day)
      else if IsMonthly(row) then
        var day := IntField(row.solarDay);
        if day == 0 then None else ThisOrNextMonth(ref, day)
      else
        var year := IntField(row.solarYear);
        var month := IntField(row.solarMonth);
        var day := IntField(row.solarDay);
        if year == 0 || month == 0 || day == 0 then None else MakeDate(year, month, day)
    else if !conv.installed then None
    else
      var lunarDay := IntField(row.lunarDay);
      var lunarMonth := IntField(row.lunarMonth);
      var lunarYear := if Truthy(row.lunarYear) then Trunc(row.lunarYear.value) else ref.year;
      if lunarDay == 0 || lunarMonth == 0 then None
      else if IsYearly(row) then
        FirstNotBefore(ref, LunarToDate(conv, ref.year, lunarMonth, lunarDay),
                       LunarToDate(conv, ref.year + 1, lunarMonth, lunarDay))
      else if IsMonthly(row) then LunarMonthly(conv, ref, lunarDay)
      else LunarToDate(conv, lunarYear, lunarMonth, lunarDay)
  }

  /** `_get_event_date`, step by step as the source runs it: reassigned month and year,
      and the `for offset in [0, 1]` search with its early returns. */
  method GetEventDate(row: Row, ref: PyDate, conv: Converter) returns (r: Option<PyDate>)
    ensures r == EventDate(row, ref, conv)
  {
    if IsSolar(row) {
      if IsYearly(row) {
        var month := IntField(row.solarMonth);
        var day := IntField(row.solarDay);
        var year := ref.year;
        if month == 0 || day == 0 {
          return None;
        }
        var eventDate := MakeDate(year, month, day);
        if eventDate.None? {
          return None;
        }
        if Before(eventDate.value, ref) {
          eventDate := MakeDate(year + 1, month, day);
        }
        return eventDate;
      } else if IsMonthly(row) {
        var day := IntField(row.solarDay);
        var month := ref.month;
        var year := ref.year;
        if day == 0 {
          return None;
        }
        var eventDate := MakeDate(year, month, day);
        if eventDate.None? {
          return None;
        }
        if Before(eventDate.value, ref) {
          month := month + 1;
          if month > 12 {
            month := 1;
            year := year + 1;
          }
          eventDate := MakeDate(year, month, day);
        }
        return eventDate;
      } else {
        var year := IntField(row.solarYear);
        var month := IntField(row.solarMonth);
        var day := IntField(row.solarDay);
        if year == 0 || month == 0 || day == 0 {
          return None;
        }
        return MakeDate(year, month, day);
      }
    } else {
      if !conv.installed {
        return None;
      }
      var lunarDay := IntField(row.lunarDay);
      var lunarMonth := IntField(row.lunarMonth);
      var lunarYear := if Truthy(row.lunarYear) then Trunc(row.lunarYear.value) else ref.year;
      if lunarDay == 0 || lunarMonth == 0 {
        return None;
      }
      if IsYearly(row) {
        var offset := 0;
        while offset < 2
          invariant 0 <= offset <= 2
          invariant offset >= 1 ==> var c := LunarToDate(conv, ref.year, lunarMonth, lunarDay);
            c.Some? && Before(c.value, ref)
          invariant offset >= 2 ==> var c := LunarToDate(conv, ref.year + 1, lunarMonth, lunarDay);
            c.Some? && Before(c.value, ref)
        {
          var eventDate := LunarToDate(conv, ref.year + offset, lunarMonth, lunarDay);
          if eventDate.None? {
            return None;
          }
          if !Before(eventDate.value, ref) {
            return eventDate;
          }
          offset := offset + 1;
        }
        return None;
      } else if IsMonthly(row) {
        var lunarToday := conv.solarToLunar(ref);
        if lunarToday.None? {
          return None;
        }
        var lunarMonthNow := lunarToday.value.month;
        var lunarYearNow := lunarToday.value.year;
        if lunarToday.value.day > lunarDay {
          lunarMonthNow := lunarMonthNow + 1;
          if lunarMonthNow > 12 {
            lunarMonthNow := 1;
            lunarYearNow := lunarYearNow + 1;
          }
        }
        return LunarToDate(conv, lunarYearNow, lunarMonthNow, lunarDay);
      } else {
        return LunarToDate(conv, lunarYear, lunarMonth, lunarDay);
      }
    }
  }

  /** `_get_event_date_for_range(row, d)`: `d` itself when the event falls on `d`,
      otherwise nothing. */
  function EventDateForRange(row: Row, d: PyDate, conv: Converter): (r: Option<PyDate>)
    ensures r == None || r == Some(d)
  {
    if IsSolar(row) then
      var day := IntField(row.solarDay);
      var month := IntField(row.solarMonth);
      var year := IntField(row.solarYear);
      if IsMonthly(row) then
        if day != 0 && d.day == day && ValidDate(d.year, d.month, day) && (month == 0 || d.month == month)
        then Some(d) else None
      else if IsYearly(row) then
        if day != 0 && month != 0 && d.day == day && d.month == month && ValidDate(d.year, month, day)
        then Some(d) else None
      else
        if day != 0 && month != 0 && year != 0 && d.day == day && d.month == month && d.year == year
          && ValidDate(year, month, day)
        then Some(d) else None
    else if !conv.installed then None
    else
      var lunarDay := IntField(row.lunarDay);
      var lunarMonth := IntField(row.lunarMonth);
      var lunarYear := IntField(row.lunarYear);
      match conv.solarToLunar(d)
      case None => None
      case Some(lt) =>
        if IsMonthly(row) then
          if lunarDay != 0 && lt.day == lunarDay then Some(d) else None
        else if IsYearly(row) then
          if lunarDay != 0 && lunarMonth != 0 && lt.day == lunarDay && lt.month == lunarMonth
          then Some(d) else None
        else
          if lunarDay != 0 && lunarMonth != 0 && lunarYear != 0
            && lt.day == lunarDay && lt.month == lunarMonth && lt.year == lunarYear
          then Some(d) else None
  }

  /** `event_date == current` in `async_get_events`. */
  predicate OccursOn(row: Row, d: PyDate, conv: Converter) {
    EventDateForRange(row, d, conv) == Some(d)
  }

  /** The event `async_get_events` appends for `row` on `d`: one day long, with uid
      "<id>_YYYYMMDD". */
  function RangeEvent(row: Row, d: PyDate): (e: CalendarEvent)
    requires d != MaxDate
    ensures e.start == d && Ordinal(e.end) == Ordinal(d) + 1
    ensures e.uid == IntToString(row.id) + "_" + FormatCompact(d)
  {
    NextDayOrdinal(d);
    CalendarEvent(row.name, d, NextDay(d).value, DescriptionOrEmpty(row),
                  IntToString(row.id) + "_" + FormatCompact(d))
  }

  /** The event of `row` on `d`, if it occurs then: `if event_date == current: append`. */
  function DayEvents(row: Row, d: PyDate, conv: Converter): (s: seq<CalendarEvent>)
    requires d != MaxDate
    ensures OccursOn(row, d, conv) ==> s == [RangeEvent(row, d)]
    ensures !OccursOn(row, d, conv) ==> s == []
  {
    if OccursOn(row, d, conv) then [RangeEvent(row, d)] else []
  }

  /** The events of one row for the days from `cur` to `end`, as the inner loop of
      `async_get_events` appends them. */
  function RowEvents(row: Row, cur: PyDate, end: PyDate, conv: Converter): seq<CalendarEvent>
    decreases Ordinal(end) - Ordinal(cur)
  {
    if Before(end, cur) || cur == MaxDate then []
    else
      NextDayOrdinal(cur);
      OrdinalOrder(end, cur);
      DayEvents(row, cur, conv)
        + RowEvents(row, NextDay(cur).value, end, conv)
  }

  /** The events of all rows, row by row. */
  function RangeEvents(rows: seq<Row>, start: PyDate, end: PyDate, conv: Converter): seq<CalendarEvent> {
    if rows == [] then []
    else RangeEvents(rows[..|rows| - 1], start, end, conv) + RowEvents(rows[|rows| - 1], start, end, conv)
  }

  /** What `async_get_events(start, end)` returns: the range's events, unless the scan
      reaches `date.max`, where stepping a day raises. */
  function RangeOutcome(rows: seq<Row>, start: PyDate, end: PyDate, conv: Converter): Outcome<seq<CalendarEvent>> {
    if rows != [] && !Before(end, start) && end == MaxDate then OverflowError
    else Returned(RangeEvents(rows, start, end, conv))
  }

  /** One unfolding of RowEvents. */
  lemma RowEventsStep(row: Row, cur: PyDate, end: PyDate, conv: Converter)
    requires !Before(end, cur) && cur != MaxDate
    ensures NextDay(cur).Some?
    ensures RowEvents(row, cur, end, conv)
      == DayEvents(row, cur, conv)
         + RowEvents(row, NextDay(cur).value, end, conv)
  {
  }

  /** One day of the inner loop keeps ScanRow's invariant. */
  lemma ScanStep(row: Row, start: PyDate, end: PyDate, cur: PyDate, events: seq<CalendarEvent>, conv: Converter)
    requires !Before(end, cur) && cur != MaxDate && !Before(cur, start)
    requires events + RowEvents(row, cur, end, conv) == RowEvents(row, start, end, conv)
    ensures NextDay(cur).Some?
    ensures var next := NextDay(cur).value;
      !Before(next, start) && Ordinal(cur) <= Ordinal(end) && Ordinal(next) == Ordinal(cur) + 1
      && (events + DayEvents(row, cur, conv))
         + RowEvents(row, next, end, conv) == RowEvents(row, start, end, conv)
  {
    OrdinalOrder(end, cur);
    RowEventsStep(row, cur, end, conv);
    NextDayOrdinal(cur);
    AppendAssociative(events, DayEvents(row, cur, conv), RowEvents(row, NextDay(cur).value, end, conv));
  }

  lemma AppendAssociative<T>(a: seq<T>, b: seq<T>, c: seq<T>)
    ensures (a + b) + c == a + (b + c)
  {
  }

  /** The inner loop of `async_get_events` for one row: every day from `start` to
      `end` inclusive, raising when it steps past `date.max`. */
  method ScanRow(row: Row, start: PyDate, end: PyDate, conv: Converter)
    returns (out: Outcome<seq<CalendarEvent>>)
    ensures out == if !Before(end, start) && end == MaxDate then OverflowError
                   else Returned(RowEvents(row, start, end, conv))
  {
    var events: seq<CalendarEvent> := [];
    var current := start;
    while !Before(end, current)
      invariant !Before(current, start) && !Before(MaxDate, current)
      invariant events + RowEvents(row, current, end, conv) == RowEvents(row, start, end, conv)
      decreases Ordinal(end) - Ordinal(current)
    {
      if current == MaxDate {
        MaxDateIsLatest(end);
        return OverflowError;
      }
      ScanStep(row, start, end, current, events, conv);
      var next := NextDay(current).value;
      events := events + DayEvents(row, current, conv);
      current := next;
    }
    assert RowEvents(row, current, end, conv) == [];
    assert events + [] == events;
    return Returned(events);
  }

  /** `async_get_events`: for every row, every day from start to end inclusive. */
  method GetEvents(rows: seq<Row>, start: PyDate, end: PyDate, conv: Converter)
    returns (out: Outcome<seq<CalendarEvent>>)
    ensures out == RangeOutcome(rows, start, end, conv)
  {
    var result: seq<CalendarEvent> := [];
    var i := 0;
    while i < |rows|
      invariant 0 <= i <= |rows|
      invariant result == RangeEvents(rows[..i], start, end, conv)
      invariant i > 0 ==> !(!Before(end, start) && end == MaxDate)
    {
      var rowOut := ScanRow(rows[i], start, end, conv);
      if rowOut.OverflowError? {
        return OverflowError;
      }
      assert rows[..i + 1][..i] == rows[..i];
      result := result + rowOut.value;
      i := i + 1;
    }
    assert rows[..i] == rows;
    return Returned(result);
  }

  /** `_get_event_date(row, today) == today` */
  predicate DueOn(row: Row, today: PyDate, conv: Converter) {
    EventDate(row, today, conv) == Some(today)
  }

  /** The index of the first row due today, or `|rows|` when there is none. */
  function FirstDue(rows: seq<Row>, today: PyDate, conv: Converter): (k: nat)
    ensures k <= |rows|
    ensures forall j :: 0 <= j < k ==> !DueOn(rows[j], today, conv)
    ensures k < |rows| ==> DueOn(rows[k], today, conv)
  {
    if rows == [] then 0
    else if DueOn(rows[0], today, conv) then 0
    else 1 + FirstDue(rows[1..], today, conv)
  }

  /** The event the `event` property builds for a row due today; its uid is the id. */
  function TodayEventOf(row: Row, today: PyDate): (e: CalendarEvent)
    requires today != MaxDate
    ensures e.start == today && Ordinal(e.end) == Ordinal(today) + 1 && e.uid == IntToString(row.id)
  {
    NextDayOrdinal(today);
    CalendarEvent(row.name, today, NextDay(today).value, DescriptionOrEmpty(row), IntToString(row.id))
  }

  /** The `event` property: the first row whose `_get_event_date(row, today)` is today. */
  method TodayEvent(rows: seq<Row>, today: PyDate, conv: Converter)
    returns (out: Outcome<Option<CalendarEvent>>)
    ensures var k := FirstDue(rows, today, conv);
      out == if k == |rows| then Returned(None)
             else if today == MaxDate then OverflowError
             else Returned(Some(TodayEventOf(rows[k], today)))
  {
    var i := 0;
    while i < |rows|
      invariant 0 <= i <= |rows|
      invariant forall j :: 0 <= j < i ==> !DueOn(rows[j], today, conv)
    {
      var eventDate := GetEventDate(rows[i], today, conv);
      if eventDate == Some(today) {
        assert FirstDue(rows, today, conv) == i;
        var next := NextDay(today);
        if next.None? {
          return OverflowError;
        }
        return Returned(Some(CalendarEvent(rows[i].name, today, next.value, DescriptionOrEmpty(rows[i]),
                                           IntToString(rows[i].id))));
      }
      i := i + 1;
    }
    return Returned(None);
  }

  // ---------------------------------------------------------------------------
  // What `_get_event_date_for_range` accepts

  /** Solar/yearly: day and month set and equal to `d`'s; the row's year is ignored,
      and the validity test adds nothing for a date that exists. */
  lemma SolarYearlyMembership(row: Row, d: PyDate, conv: Converter, otherYear: Option<real>)
    requires IsSolar(row) && IsYearly(row)
    ensures OccursOn(row, d, conv) <==> (IntField(row.solarDay) != 0 && IntField(row.solarMonth) != 0
      && d.day == IntField(row.solarDay) && d.month == IntField(row.solarMonth))
    ensures OccursOn(row, d, conv) == OccursOn(row.(solarYear := otherYear), d, conv)
  {
  }

  /** Solar/monthly: the day is set and equal to `d`'s, and the month is absent or `d`'s. */
  lemma SolarMonthlyMembership(row: Row, d: PyDate, conv: Converter)
    requires IsSolar(row) && IsMonthly(row)
    ensures OccursOn(row, d, conv) <==> (IntField(row.solarDay) != 0 && d.day == IntField(row.solarDay)
      && (IntField(row.solarMonth) == 0 || d.month == IntField(row.solarMonth)))
  {
  }

  /** Solar/once: the single date the three fields name. */
  lemma SolarOnceMembership(row: Row, d: PyDate, conv: Converter)
    requires IsSolar(row) && IsOnce(row)
    ensures OccursOn(row, d, conv) <==> (IntField(row.solarDay) != 0 && IntField(row.solarMonth) != 0
      && IntField(row.solarYear) != 0
      && d == Date(IntField(row.solarYear), IntField(row.solarMonth), IntField(row.solarDay)))
  {
  }

  /** Lunar rows: membership compares fields of `Solar2Lunar(d)` with fields of the row,
      each of which must be present: the day (monthly), day and month (yearly), day, month
      and year (once). */
  lemma LunarMembership(row: Row, d: PyDate, conv: Converter)
    requires !IsSolar(row)
    ensures OccursOn(row, d, conv) <==> (conv.installed && conv.solarToLunar(d).Some? &&
      var lt := conv.solarToLunar(d).value;
      IntField(row.lunarDay) != 0 && lt.day == IntField(row.lunarDay)
      && (IsMonthly(row) || (IntField(row.lunarMonth) != 0 && lt.month == IntField(row.lunarMonth)
        && (IsYearly(row) || (IntField(row.lunarYear) != 0 && lt.year == IntField(row.lunarYear))))))
  {
  }

  /** Lunar membership depends on `d` only through `Solar2Lunar(d)`. */
  lemma LunarMembershipThroughConversion(row: Row, d1: PyDate, d2: PyDate, conv: Converter)
    requires !IsSolar(row) && conv.solarToLunar(d1) == conv.solarToLunar(d2)
    ensures OccursOn(row, d1, conv) <==> OccursOn(row, d2, conv)
  {
    LunarMembership(row, d1, conv);
    LunarMembership(row, d2, conv);
  }

  // ---------------------------------------------------------------------------
  // `_get_event_date` against `_get_event_date_for_range`

  /** Solar rows: the resolved date is an occurrence, except for a monthly row whose
      month field names another month (the resolver ignores that field). */
  lemma SolarEventDateOccurs(row: Row, ref: PyDate, conv: Converter)
    requires IsSolar(row) && EventDate(row, ref, conv).Some?
    ensures var e := EventDate(row, ref, conv).value;
      OccursOn(row, e, conv) <==> (!IsMonthly(row) || IntField(row.solarMonth) == 0
        || e.month == IntField(row.solarMonth))
  {
  }

  /** Lunar rows, when conversions round-trip: the resolved date is an occurrence,
      except for a one-off row without a lunar year (the resolver uses `ref`'s year,
      the membership test demands the field). */
  lemma LunarEventDateOccurs(row: Row, ref: PyDate, conv: Converter)
    requires !IsSolar(row) && RoundTrips(conv) && EventDate(row, ref, conv).Some?
    ensures OccursOn(row, EventDate(row, ref, conv).value, conv)
      <==> (!IsOnce(row) || IntField(row.lunarYear) != 0)
  {
    var e := EventDate(row, ref, conv).value;
    var lunarDay := IntField(row.lunarDay);
    var lunarMonth := IntField(row.lunarMonth);
    LunarMembership(row, e, conv);
    if IsYearly(row) {
      var c0 := LunarToDate(conv, ref.year, lunarMonth, lunarDay);
      var c1 := LunarToDate(conv, ref.year + 1, lunarMonth, lunarDay);
      assert c0.Some? ==> conv.solarToLunar(c0.value) == Some(LunarDate(ref.year, lunarMonth, lunarDay));
      assert c1.Some? ==> conv.solarToLunar(c1.value) == Some(LunarDate(ref.year + 1, lunarMonth, lunarDay));
    } else if IsMonthly(row) {
      LunarMonthlyLandsOnTarget(conv, ref, lunarDay);
    } else {
      var lunarYear := if Truthy(row.lunarYear) then Trunc(row.lunarYear.value) else ref.year;
      assert conv.solarToLunar(e) == Some(LunarDate(lunarYear, lunarMonth, lunarDay)) by {
        assert LunarToDate(conv, lunarYear, lunarMonth, lunarDay) == Some(e);
      }
    }
  }

  /** Solar/yearly, and Solar/monthly without a month field: the resolved date is the
      FIRST occurrence on or after `ref`. */
  lemma SolarEventDateIsFirst(row: Row, ref: PyDate, conv: Converter)
    requires IsSolar(row) && (IsYearly(row) || (IsMonthly(row) && IntField(row.solarMonth) == 0))
    requires EventDate(row, ref, conv).Some?
    ensures var e := EventDate(row, ref, conv).value;
      !Before(e, ref) && OccursOn(row, e, conv)
      && forall d: PyDate :: !Before(d, ref) && Before(d, e) ==> !OccursOn(row, d, conv)
  {
    var e := EventDate(row, ref, conv).value;
    SolarEventDateOccurs(row, ref, conv);
    forall d: PyDate | !Before(d, ref) && Before(d, e) ensures !OccursOn(row, d, conv) {
      if IsYearly(row) {
        SolarYearlyMembership(row, d, conv, None);
      } else {
        SolarMonthlyMembership(row, d, conv);
      }
    }
  }

  /** Solar repeating rows: the result is not before `ref`, and lies in `ref`'s year
      or the next (yearly), or in `ref`'s month or the next, December rolling over to
      January (monthly). */
  lemma SolarEventDateWindow(row: Row, ref: PyDate, conv: Converter)
    requires IsSolar(row) && !IsOnce(row) && EventDate(row, ref, conv).Some?
    ensures var e := EventDate(row, ref, conv).value;
      !Before(e, ref)
      && (IsYearly(row) ==> ((e.year == ref.year || e.year == ref.year + 1)
        && e.month == IntField(row.solarMonth) && e.day == IntField(row.solarDay)))
      && (IsMonthly(row) ==> (((e.year, e.month) == (ref.year, ref.month)
        || (e.year, e.month) == NextMonth(ref.year, ref.month)) && e.day == IntField(row.solarDay)))
  {
  }

  /** Every lunar recurrence needs both the lunar day and the lunar month. */
  lemma LunarNeedsDayAndMonth(row: Row, ref: PyDate, conv: Converter)
    requires !IsSolar(row) && (IntField(row.lunarDay) == 0 || IntField(row.lunarMonth) == 0)
    ensures EventDate(row, ref, conv).None?
  {
  }

  /** Lunar/yearly: the first of the `ref.year` and `ref.year + 1` conversions that is
      not before `ref`, and nothing when both are before it. */
  lemma LunarYearlyFirstNotBefore(row: Row, ref: PyDate, conv: Converter)
    requires !IsSolar(row) && IsYearly(row) && conv.installed
    requires IntField(row.lunarDay) != 0 && IntField(row.lunarMonth) != 0
    ensures var c0 := LunarToDate(conv, ref.year, IntField(row.lunarMonth), IntField(row.lunarDay));
      var c1 := LunarToDate(conv, ref.year + 1, IntField(row.lunarMonth), IntField(row.lunarDay));
      var r := EventDate(row, ref, conv);
      (c0.Some? && !Before(c0.value, ref) ==> r == c0)
      && (c0.Some? && Before(c0.value, ref) && c1.Some? && !Before(c1.value, ref) ==> r == c1)
      && (c0.Some? && Before(c0.value, ref) && c1.Some? && Before(c1.value, ref) ==> r.None?)
      && (r.Some? ==> !Before(r.value, ref))
  {
  }

  /** A leap-day yearly event resolves only from a day of a leap year up to its 29
      February: from every day of any other year, and from 1 March of a leap year on,
      there is no date, since the next year's 29 February never exists. */
  lemma LeapDayYearlyResolution(ref: PyDate, conv: Converter)
    ensures var row := Row(1, None, Some("solar"), None, None, None,
                           Some(29.0), Some(2.0), None, None, Some("yearly"));
      EventDate(row, ref, conv).Some? <==> IsLeapYear(ref.year) && !Before(Date(ref.year, 2, 29), ref)
  {
    if IsLeapYear(ref.year) {
      assert !IsLeapYear(ref.year + 1);
    }
  }

  /** Seen from 1 March 2025 a leap-day yearly event resolves to nothing, although it
      occurs on 29 February 2028, three years later. */
  lemma LeapDayYearlyUnresolved(conv: Converter)
    ensures var row := Row(1, None, Some("solar"), None, None, None,
                           Some(29.0), Some(2.0), None, None, Some("yearly"));
      EventDate(row, Date(2025, 3, 1), conv).None? && OccursOn(row, Date(2028, 2, 29), conv)
  {
  }

  /** A monthly event on day 31 is not resolved from 20 April, although it occurs on
      31 May. */
  lemma Day31MonthlyUnresolved(conv: Converter)
    ensures var row := Row(1, None, Some("solar"), None, None, None,
                           Some(31.0), None, None, None, Some("monthly"));
      EventDate(row, Date(2025, 4, 20), conv).None? && OccursOn(row, Date(2025, 5, 31), conv)
  {
  }

  /** From 20 December a monthly event on day 31 resolves to 31 December of the same
      year: the December candidate exists, so nothing rolls over. */
  lemma Day31MonthlyInDecember(conv: Converter)
    ensures var row := Row(1, None, Some("solar"), None, None, None,
                           Some(31.0), None, None, None, Some("monthly"));
      EventDate(row, Date(2025, 12, 20), conv) == Some(Date(2025, 12, 31))
  {
  }

  // ---------------------------------------------------------------------------
  // The range scan

  /** `e` is the event of `row` for a day from `start` to `end` on which the row occurs. */
  predicate EmittedFor(row: Row, e: CalendarEvent, start: PyDate, end: PyDate, conv: Converter) {
    !Before(e.start, start) && !Before(end, e.start) && e.start != MaxDate
    && OccursOn(row, e.start, conv) && e == RangeEvent(row, e.start)
  }

  /** Every event of a row's scan is the row's event for a day in the range on which
      the row occurs. */
  lemma {:induction false} RowEventsSound(row: Row, cur: PyDate, end: PyDate, conv: Converter)
    ensures forall e :: e in RowEvents(row, cur, end, conv) ==> EmittedFor(row, e, cur, end, conv)
    decreases Ordinal(end) - Ordinal(cur)
  {
    if !(Before(end, cur) || cur == MaxDate) {
      var next := NextDay(cur).value;
      NextDayOrdinal(cur);
      OrdinalOrder(end, cur);
      RowEventsStep(row, cur, end, conv);
      RowEventsSound(row, next, end, conv);
      var head := DayEvents(row, cur, conv);
      var tail := RowEvents(row, next, end, conv);
      var s := RowEvents(row, cur, end, conv);
      forall e | e in s ensures EmittedFor(row, e, cur, end, conv) {
        if e !in head {
          assert e in tail;
        }
      }
    }
  }

  /** A row's events come in strictly ascending order of day. */
  lemma {:induction false} RowEventsSorted(row: Row, cur: PyDate, end: PyDate, conv: Converter)
    ensures var s := RowEvents(row, cur, end, conv);
      forall i, j :: 0 <= i < j < |s| ==> Before(s[i].start, s[j].start)
    decreases Ordinal(end) - Ordinal(cur)
  {
    if !(Before(end, cur) || cur == MaxDate) {
      var next := NextDay(cur).value;
      NextDayOrdinal(cur);
      OrdinalOrder(end, cur);
      RowEventsStep(row, cur, end, conv);
      RowEventsSorted(row, next, end, conv);
      RowEventsSound(row, next, end, conv);
      var tail := RowEvents(row, next, end, conv);
      var s := RowEvents(row, cur, end, conv);
      if !OccursOn(row, cur, conv) {
        assert s == tail;
      } else {
        assert s == [RangeEvent(row, cur)] + tail;
        forall i, j | 0 <= i < j < |s| ensures Before(s[i].start, s[j].start) {
          assert s[j] == tail[j - 1];
          assert s[j] in tail;
          if i > 0 {
            assert s[i] == tail[i - 1];
          }
        }
      }
    }
  }

  /** Every day of the range on which the row occurs has its event, provided the range
      stops short of `date.max` (otherwise the scan raises). */
  lemma {:induction false} RowEventsComplete(row: Row, cur: PyDate, end: PyDate, conv: Converter, d: PyDate)
    requires end != MaxDate
    requires !Before(d, cur) && !Before(end, d) && OccursOn(row, d, conv)
    ensures d != MaxDate && RangeEvent(row, d) in RowEvents(row, cur, end, conv)
    decreases Ordinal(end) - Ordinal(cur)
  {
    MaxDateIsLatest(end);
    assert !Before(end, cur);
    assert cur != MaxDate;
    var next := NextDay(cur).value;
    NextDayOrdinal(cur);
    OrdinalOrder(end, cur);
    RowEventsStep(row, cur, end, conv);
    if d != cur {
      NextDayAdjacent(cur, d);
      RowEventsComplete(row, next, end, conv, d);
    }
  }

  /** The range's events are exactly the events of the rows' scans. */
  lemma {:induction false} RangeEventsMembers(rows: seq<Row>, start: PyDate, end: PyDate, conv: Converter)
    ensures forall e :: (e in RangeEvents(rows, start, end, conv)
      <==> exists k :: 0 <= k < |rows| && e in RowEvents(rows[k], start, end, conv))
  {
    if rows != [] {
      var init := rows[..|rows| - 1];
      RangeEventsMembers(init, start, end, conv);
      forall e ensures (e in RangeEvents(rows, start, end, conv)
        <==> exists k :: 0 <= k < |rows| && e in RowEvents(rows[k], start, end, conv))
      {
        if e in RangeEvents(rows, start, end, conv) {
          if e in RangeEvents(init, start, end, conv) {
            var k :| 0 <= k < |init| && e in RowEvents(init[k], start, end, conv);
            assert rows[k] == init[k];
          } else {
            assert e in RowEvents(rows[|rows| - 1], start, end, conv);
          }
        }
        if exists k :: 0 <= k < |rows| && e in RowEvents(rows[k], start, end, conv) {
          var k :| 0 <= k < |rows| && e in RowEvents(rows[k], start, end, conv);
          if k < |rows| - 1 {
            assert init[k] == rows[k];
          }
        }
      }
    }
  }

  /** `async_get_events` returns, when it returns, exactly the one-day events (row, d)
      with start <= d <= end on which the row occurs. */
  lemma RangeOutcomeExact(rows: seq<Row>, start: PyDate, end: PyDate, conv: Converter)
    requires RangeOutcome(rows, start, end, conv).Returned?
    ensures var s := RangeOutcome(rows, start, end, conv).value;
      forall k, d: PyDate :: (0 <= k < |rows| && !Before(d, start) && !Before(end, d)
        && OccursOn(rows[k], d, conv)) ==> d != MaxDate && RangeEvent(rows[k], d) in s
    ensures var s := RangeOutcome(rows, start, end, conv).value;
      forall e :: e in s ==> exists k :: 0 <= k < |rows| && EmittedFor(rows[k], e, start, end, conv)
  {
    RangeEventsMembers(rows, start, end, conv);
    var s := RangeOutcome(rows, start, end, conv).value;
    forall k, d: PyDate | 0 <= k < |rows| && !Before(d, start) && !Before(end, d) && OccursOn(rows[k], d, conv)
      ensures d != MaxDate && RangeEvent(rows[k], d) in s
    {
      MaxDateIsLatest(end);
      RowEventsComplete(rows[k], start, end, conv, d);
    }
    forall e | e in s
      ensures exists k :: 0 <= k < |rows| && EmittedFor(rows[k], e, start, end, conv)
    {
      var k :| 0 <= k < |rows| && e in RowEvents(rows[k], start, end, conv);
      RowEventsSound(rows[k], start, end, conv);
    }
  }
}
