/** The two date resolvers side by side: the sensor's `_get_nearest_solar` and the
    calendar's `_get_event_date` agree on every solar row, and on lunar rows differ
    only where the calendar asks for a lunar month the sensor does without, or the
    sensor falls back to a conversion the calendar refuses. */
module Agreement {
  import opened PyRuntime
  import opened Dates
  import opened Lunar
  import opened Events
  import opened Recurrence
  import Calendar
  import Sensor

  /** The solar branches of the two resolvers are the same function. */
  lemma SolarBranchesAgree(row: Row, ref: PyDate, conv: Converter)
    requires IsSolar(row)
    ensures Sensor.NearestSolar(row, ref, conv) == Calendar.EventDate(row, ref, conv)
  {
    if Truthy(row.solarDay) && IsMonthly(row) {
      var sd := Trunc(row.solarDay.value);
      if ref.day > sd && sd >= 1 {
        assert ValidDate(ref.year, ref.month, sd);
        assert sd == IntField(row.solarDay);
      }
    }
  }

  /** Without a day neither resolver has a date, in either calendar system. */
  lemma MissingDayGivesNone(row: Row, ref: PyDate, conv: Converter)
    requires if IsSolar(row) then !Truthy(row.solarDay) else !Truthy(row.lunarDay)
    ensures Sensor.NearestSolar(row, ref, conv).None? && Calendar.EventDate(row, ref, conv).None?
  {
  }

  /** Lunar/monthly, when lunar day 0 converts to nothing: the resolvers agree when the
      lunar month is set, and the calendar alone gives nothing without it. */
  lemma LunarMonthlyCompared(row: Row, ref: PyDate, conv: Converter)
    requires !IsSolar(row) && IsMonthly(row) && RejectsImpossible(conv)
    ensures IntField(row.lunarMonth) != 0 ==>
      Sensor.NearestSolar(row, ref, conv) == Calendar.EventDate(row, ref, conv)
    ensures IntField(row.lunarMonth) == 0 ==> Calendar.EventDate(row, ref, conv).None?
  {
    if conv.installed && Truthy(row.lunarDay) && IntField(row.lunarDay) == 0 {
      var d := Trunc(row.lunarDay.value);
      match conv.solarToLunar(ref)
      case None =>
      case Some(lt) =>
        var (y, m) := LunarMonthTarget(lt, d);
        assert LunarToDate(conv, y, m, d).None?;
    }
  }

  /** Lunar/yearly, when impossible lunar dates convert to nothing: wherever the calendar
      has a date the sensor has the same one, and where only the sensor has one it is the
      `ref.year + 1` conversion and lies before `ref`. */
  lemma LunarYearlyCompared(row: Row, ref: PyDate, conv: Converter)
    requires !IsSolar(row) && IsYearly(row) && RejectsImpossible(conv)
    ensures Calendar.EventDate(row, ref, conv).Some? ==>
      Sensor.NearestSolar(row, ref, conv) == Calendar.EventDate(row, ref, conv)
    ensures Calendar.EventDate(row, ref, conv).None? && Sensor.NearestSolar(row, ref, conv).Some? ==>
      Before(Sensor.NearestSolar(row, ref, conv).value, ref)
      && Sensor.NearestSolar(row, ref, conv)
         == LunarToDate(conv, ref.year + 1, IntField(row.lunarMonth), IntField(row.lunarDay))
  {
    if conv.installed && Truthy(row.lunarDay) && IntField(row.lunarDay) == 0 && IntField(row.lunarMonth) != 0 {
      var d := Trunc(row.lunarDay.value);
      assert LunarToDate(conv, ref.year, IntField(row.lunarMonth), d).None?;
    }
  }

  /** Lunar/once, when impossible lunar dates convert to nothing: the resolvers agree. */
  lemma LunarOnceAgree(row: Row, ref: PyDate, conv: Converter)
    requires !IsSolar(row) && IsOnce(row) && RejectsImpossible(conv)
    ensures Sensor.NearestSolar(row, ref, conv) == Calendar.EventDate(row, ref, conv)
  {
    if conv.installed && Truthy(row.lunarDay) && IntField(row.lunarDay) == 0 && IntField(row.lunarMonth) != 0 {
      var d := Trunc(row.lunarDay.value);
      var y := if Truthy(row.lunarYear) then Trunc(row.lunarYear.value) else ref.year;
      assert LunarToDate(conv, y, IntField(row.lunarMonth), d).None?;
    }
  }

  /** A lunar monthly event without a lunar month: the sensor shows a date, the calendar
      none (with the stand-in converter, from 1 March 2025, lunar day 15). */
  lemma LunarMonthlyWithoutMonthDiffers()
    ensures var row := Row(1, None, Some("lunar"), Some(15.0), None, None,
                           None, None, None, None, Some("monthly"));
      Sensor.NearestSolar(row, Date(2025, 3, 1), SampleConverter()) == Some(Date(2025, 3, 15))
      && Calendar.EventDate(row, Date(2025, 3, 1), SampleConverter()).None?
  {
  }
}
