/** The date decisions that sensor.py and calendar.py each spell out in the same
    words: the yearly solar candidate and the monthly lunar target. */
module Recurrence {
  import opened PyRuntime
  import opened Dates
  import opened Lunar

  /** `event_date = date(year, month, day)`, replaced by `date(year + 1, month, day)`
      when it falls before `ref`; `None` where either `date(...)` raises. */
  function ThisOrNextYear(ref: PyDate, month: int, day: int): (r: Option<PyDate>)
    ensures r.Some? ==> !Before(r.value, ref) && r.value.month == month && r.value.day == day
    ensures r.Some? ==> (r.value.year == ref.year <==> !Before(Date(ref.year, month, day), ref))
    ensures r.Some? ==> r.value.year == ref.year || r.value.year == ref.year + 1
    ensures r.None? <==> (!ValidDate(ref.year, month, day)
      || (Before(Date(ref.year, month, day), ref) && !ValidDate(ref.year + 1, month, day)))
  {
    match MakeDate(ref.year, month, day)
    case None => None
    case Some(e) => if Before(e, ref) then MakeDate(ref.year + 1, month, day) else Some(e)
  }

  /** The lunar (year, month) whose day `day` is targeted from the lunar date `today`:
      today's lunar month, or the next one once today's lunar day is past `day`. */
  function LunarMonthTarget(today: LunarDate, day: int): (r: (int, int))
    ensures today.day <= day ==> r == (today.year, today.month)
    ensures today.day > day ==> r == NextMonth(today.year, today.month)
  {
    if today.day > day then NextMonth(today.year, today.month) else (today.year, today.month)
  }

  /** Lunar/monthly in both files: convert `ref` to lunar, pick the target lunar month,
      convert (lunar year, lunar month, `day`) back to a solar date. */
  function LunarMonthly(conv: Converter, ref: PyDate, day: int): (r: Option<PyDate>)
    ensures conv.solarToLunar(ref).None? ==> r.None?
  {
    match conv.solarToLunar(ref)
    case None => None
    case Some(lt) =>
      var (y, m) := LunarMonthTarget(lt, day);
      LunarToDate(conv, y, m, day)
  }

  /** For any converter there is a monthly lunar result exactly when `ref` converts to
      lunar and lunar day `day` of the target month converts back to a valid date. */
  lemma LunarMonthlyExists(conv: Converter, ref: PyDate, day: int)
    ensures LunarMonthly(conv, ref, day).Some? <==> (conv.solarToLunar(ref).Some? &&
      var lt := conv.solarToLunar(ref).value;
      var (y, m) := if lt.day > day then NextMonth(lt.year, lt.month) else (lt.year, lt.month);
      LunarToDate(conv, y, m, day).Some?)
  {
  }

  /** Under the round-trip assumption the monthly lunar result falls on lunar day `day`
      of the target month: the one of `ref`, or the next exactly when `ref`'s lunar day
      is past `day` (month 12 rolls to month 1 of the next lunar year). */
  lemma LunarMonthlyLandsOnTarget(conv: Converter, ref: PyDate, day: int)
    requires RoundTrips(conv)
    ensures var r := LunarMonthly(conv, ref, day);
      r.Some? ==> (conv.solarToLunar(ref).Some? &&
        var lt := conv.solarToLunar(ref).value;
        var (y, m) := if lt.day > day then NextMonth(lt.year, lt.month) else (lt.year, lt.month);
        conv.solarToLunar(r.value) == Some(LunarDate(y, m, day)))
  {
    var r := LunarMonthly(conv, ref, day);
    if r.Some? {
      var lt := conv.solarToLunar(ref).value;
      var (y, m) := LunarMonthTarget(lt, day);
      assert LunarToDate(conv, y, m, day).Some?;
    }
  }
}
