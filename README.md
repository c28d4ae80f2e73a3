# Âm Lịch events: a Dafny model

The `am_lich` Home Assistant integration stores personal events, such as
anniversaries and memorial days, in an SQLite table `events`. An event is dated
either in the solar (Gregorian) calendar or in the Vietnamese lunar calendar. It
repeats monthly or yearly, or it happens once. Three parts of the integration read
or write those rows, and this project models all three:

- **sensor.py** has one sensor per event. `_get_nearest_solar` finds the next solar
  date of the event as seen from today. `state` renders the countdown
  "Sắp tới DD/MM/YYYY - còn N ngày". `_build_attrs` renders the stored day, month and
  year without a trailing ".0".
- **calendar.py** is the Home Assistant calendar. `_get_event_date` resolves the
  occurrence on or after a reference date. `_get_event_date_for_range` decides
  whether an event falls on one given date. `async_get_events` probes every day of a
  requested range, row by row. The `event` property returns the first event due today.
- **config_flow.py** is the add/edit form. `_event_to_dict` turns a row into the
  form's values. `get_val` renders one of them as a field default.
  `_filter_event_data` with its `clean` helper turns submitted data into a record.
  `_update_event` lines that record up as the parameters of an SQL UPDATE.

Modules:

| file | module | contents |
|---|---|---|
| pyruntime.dfy | PyRuntime | `Option`, a dynamic Python value, `int()` on floats, truthiness, `str(int)` with its parse-back |
| dates.dfy | Dates | `datetime.date` between `date.min` and `date.max`: validity, ordering, `+ timedelta(days=1)`, day ordinals, `strftime("%d/%m/%Y")` and `strftime("%Y%m%d")` with parse-backs |
| lunar.dfy | Lunar | the `lunarcalendar` converter as a value, with the two assumptions the lemmas use |
| events.dfy | Events | one row of the `events` table |
| recurrence.dfy | Recurrence | the date steps that sensor.py and calendar.py write out the same way |
| calendar.dfy | Calendar | calendar.py |
| sensor.dfy | Sensor | sensor.py |
| agreement.dfy | Agreement | sensor.py's resolver compared with calendar.py's |
| config_flow.dfy | ConfigFlow | config_flow.py |

How the model represents things:

- **Cells.** The six date columns have REAL affinity. `_update_event` stores `float(...)`
  or NULL in them, and `_insert_event` stores `clean`'s result, which is NULL or a number
  for every numeric or blank input. A cell is modelled as `Option<real>`; the TEXT a
  non-numeric input leaves there is listed under "## Left out".
  - `int(x)` truncates toward zero (`Trunc`).
  - `not x` holds for None and for 0.0 (`Truthy`).
  - The source's `int(x) if x else None` followed by `not ...` becomes `IntField`, where 0 means "absent".
- **Dates.** `date(y, m, d)` is `MakeDate`. It gives `None` where Python raises `ValueError`, including outside years 1..9999.
- **Today and the converter are parameters.** `date.today()` is passed in. The lunar
  converter is a `Converter` value: functions that give `None` where `lunarcalendar`
  raises, plus an `installed` flag for the `ImportError` branch. Lemmas that need the
  converter to behave like a calendar say so in their `requires`:
  - `RoundTrips`: converting a lunar date to solar and back gives it again;
  - `RejectsImpossible`: lunar months outside 1..12 and days outside 1..30 raise.

  `Lunar.SampleConverter` satisfies both, so the two assumptions are consistent.
- **Errors.** Every `try/except Exception` in the resolvers becomes `None`.
- **Overflow.** `async_get_events` and `event` do not catch the `OverflowError` that
  `date.max + timedelta(days=1)` raises. `Calendar.Outcome` models it.
- **Imperative code.** The functions that update local variables step by step are
  methods with loops, each proved equal to the function that specifies it:
  - `_get_nearest_solar` and `_get_event_date`, with their `for offset in [0, 1]` searches;
  - the day loop inside the row loop of `async_get_events`;
  - the search in `event`;
  - the value list of `_update_event`.

What the code does in the cases where the two resolvers or the calendar months make a
difference:

- **Solar/monthly on day 31 seen from 20 April resolves to nothing.** `date(2025, 4, 31)`
  raises and no later month is tried (`Calendar.Day31MonthlyUnresolved`,
  `Sensor.SolarMonthlyNearest`).
- **The same event seen from 20 December resolves to 31 December of the same year**,
  since that day exists (`Calendar.Day31MonthlyInDecember`).
- **A one-off solar event whose date has passed still resolves to that date** in both
  resolvers (`Sensor.SolarOnceMayBePast`, `Agreement.SolarBranchesAgree`), and the sensor
  then counts down a negative number of days.
- **The range probe and the resolver.** The comment at calendar.py:175 says the range
  probe follows the logic of `_get_nearest_solar`. It agrees with the resolver on the
  first matching day for solar yearly rows and for solar monthly rows without a month
  (`Calendar.SolarEventDateIsFirst`), but not everywhere:
  - a solar monthly row whose month field names another month is resolved to a day that the range probe rejects (`Calendar.SolarEventDateOccurs`);
  - a lunar one-off row without a lunar year is resolved with the reference year, while the range probe requires the field (`Calendar.LunarEventDateOccurs`);
  - a 29 February yearly event resolves to nothing from every day of a non-leap year, and from 1 March of a leap year on, although it occurs every leap year (`Calendar.LeapDayYearlyResolution`, `Calendar.LeapDayYearlyUnresolved`).
- **The sensor's lunar yearly fallback.** When the `ref.year` conversion is before
  today, the sensor returns the `ref.year + 1` conversion even if that is also before
  today. The calendar returns nothing in that case. The model keeps both behaviours
  (`Sensor.LunarYearlyNearest`, `Agreement.LunarYearlyCompared`).

## Model

All paths are under `custom_components/am_lich/`.

| member | source | states |
|---|---|---|
| PyRuntime.Trunc | custom_components/am_lich/sensor.py:130 | `int(x)` on a float truncates toward zero: the result is the integer at most 1 away from x on x's side of zero |
| PyRuntime.IntField | custom_components/am_lich/calendar.py:101-105 | `int(c) if c else None` tested with `not`: a non-zero result means the cell is truthy and truncates to it, and every cell of magnitude at least 1 gives a non-zero result |
| PyRuntime.IntToString | custom_components/am_lich/calendar.py:90 | `str(n)` is optional minus and digits, with a leading '-' exactly for negative n |
| PyRuntime.IntToStringRoundTrip | custom_components/am_lich/sensor.py:221-224 | reading `str(n)` back gives n, so the count in the state text is recoverable |
| Dates.DaysInMonth | custom_components/am_lich/calendar.py:182-187 | a month has 28 to 31 days, and 29 only in a leap February |
| Dates.MakeDate | custom_components/am_lich/calendar.py:182-187 | `date(y, m, d)` succeeds exactly for a valid date and then holds y, m, d |
| Dates.NextMonth | custom_components/am_lich/sensor.py:134-138 | `month += 1`, rolling 12 over to month 1 of the next year |
| Dates.NextDay | custom_components/am_lich/calendar.py:61 | `+ timedelta(days=1)` raises exactly at `date.max` and otherwise gives a later date |
| Dates.MaxDateIsLatest | custom_components/am_lich/calendar.py:51 | no date lies after `date.max` |
| Dates.OrdinalOrder | custom_components/am_lich/sensor.py:221 | day ordinals order dates as date comparison does, and equal ordinals mean equal dates |
| Dates.NextDayOrdinal | custom_components/am_lich/calendar.py:57 | the day after a date has the next ordinal |
| Dates.NextDayAdjacent | custom_components/am_lich/calendar.py:61 | no date lies strictly between a date and the next day |
| Dates.FormatDate | custom_components/am_lich/sensor.py:212 | `strftime("%d/%m/%Y")` is ten characters with slashes at positions 2 and 5 |
| Dates.FormatDateRoundTrip | custom_components/am_lich/sensor.py:212 | the "DD/MM/YYYY" text has digits in its three fields and parses back to the date |
| Dates.FormatCompact | custom_components/am_lich/calendar.py:59 | `strftime("%Y%m%d")` is eight digits |
| Dates.FormatCompactRoundTrip | custom_components/am_lich/calendar.py:59 | the "YYYYMMDD" text in a uid parses back to the date |
| Lunar.LunarToDate | custom_components/am_lich/calendar.py:147-149 | `Lunar2Solar` followed by `date(...)` gives a date exactly when the conversion succeeds with a valid solar date, and then that date |
| Lunar.SampleConverterSatisfiesAssumptions | custom_components/am_lich/calendar.py:137 | the round-trip and impossible-date assumptions about the converter can hold together |
| Events.RealCell | custom_components/am_lich/config_flow.py:345-347 | a REAL cell holding NULL or a number reaches Python as None or a float (TEXT in a date column is listed under "## Left out") |
| Events.TextCell | custom_components/am_lich/config_flow.py:342-343 | a TEXT cell reaches Python as None or text (text that `float()` accepts is listed under "## Left out") |
| Recurrence.ThisOrNextYear | custom_components/am_lich/calendar.py:106-110 | the result is on the given month and day, not before ref, in ref's year exactly when that candidate is not before ref, otherwise the next year; it is None exactly when this year's date is invalid, or it is past and next year's date is invalid |
| Recurrence.LunarMonthTarget | custom_components/am_lich/calendar.py:156-163 | the target is the current lunar month while today's lunar day is not past the event day, and the next lunar month otherwise |
| Recurrence.LunarMonthly | custom_components/am_lich/calendar.py:153-165 | a failed solar-to-lunar conversion of ref gives no date |
| Recurrence.LunarMonthlyExists | custom_components/am_lich/sensor.py:164-179 | for any converter, there is a monthly lunar result exactly when ref converts to lunar and the target lunar date converts back |
| Recurrence.LunarMonthlyLandsOnTarget | custom_components/am_lich/sensor.py:164-179 | when conversions round-trip, the monthly lunar result has the event's lunar day in the target lunar month, which rolls month 12 to month 1 of the next lunar year |
| Calendar.ThisOrNextMonth | custom_components/am_lich/calendar.py:111-124 | the solar monthly result exists exactly when the event day is valid in ref's month (ref's day not past it) or else in the next month; it is on the event day, not before ref, in ref's month exactly when ref's day is not past it, otherwise in the next month |
| Calendar.FirstNotBefore | custom_components/am_lich/calendar.py:144-152 | a first conversion that raises gives nothing; the first conversion wins when it is not before ref; otherwise there is a result exactly when the second conversion exists and is not before ref, and it is the second |
| Calendar.GetEventDate | custom_components/am_lich/calendar.py:94-172 | the step-by-step resolver with its offset loop computes exactly `Calendar.EventDate` |
| Calendar.EventDateForRange | custom_components/am_lich/calendar.py:174-227 | the range probe returns the probed date itself or nothing |
| Calendar.RangeEvent | custom_components/am_lich/calendar.py:54-60 | an emitted event starts on the day, ends the next day, and has uid "<id>_YYYYMMDD" |
| Calendar.DayEvents | custom_components/am_lich/calendar.py:52-60 | a day contributes the row's event exactly when the row occurs on it, and nothing otherwise |
| Calendar.ScanRow | custom_components/am_lich/calendar.py:50-61 | the day loop for one row returns the row's events over the range and raises OverflowError exactly when a non-empty range ends at `date.max` |
| Calendar.GetEvents | custom_components/am_lich/calendar.py:45-62 | `async_get_events` computes `RangeOutcome`: the events of all rows in row order, or OverflowError when a non-empty range ends at `date.max` and there is a row |
| Calendar.FirstDue | custom_components/am_lich/calendar.py:82-84 | the index found is the first row due today: no earlier row is due, and the row found is due |
| Calendar.TodayEventOf | custom_components/am_lich/calendar.py:85-91 | today's event starts today, ends tomorrow, and has the row id as uid |
| Calendar.TodayEvent | custom_components/am_lich/calendar.py:78-92 | `event` returns None when no row is due today; otherwise the first due row's event, or OverflowError on `date.max` |
| Calendar.SolarYearlyMembership | custom_components/am_lich/calendar.py:193-197 | a solar yearly row occurs on d exactly when its day and month are set and equal d's; the stored year is ignored |
| Calendar.SolarMonthlyMembership | custom_components/am_lich/calendar.py:188-192 | a solar monthly row occurs on d exactly when its day is set and equals d's, and its month is absent or equals d's |
| Calendar.SolarOnceMembership | custom_components/am_lich/calendar.py:198-202 | a one-off solar row occurs exactly on the date its three set fields name |
| Calendar.LunarMembership | custom_components/am_lich/calendar.py:203-224 | a lunar row occurs on d exactly when the converter is installed, d converts, and the converted day (monthly), day and month (yearly), or day, month and year (once) equal the row's set fields |
| Calendar.LunarMembershipThroughConversion | custom_components/am_lich/calendar.py:212-213 | lunar membership depends on the date only through its lunar conversion |
| Calendar.SolarEventDateOccurs | custom_components/am_lich/calendar.py:99-132 | a resolved solar date passes the range probe, except exactly for a monthly row whose month field names another month |
| Calendar.LunarEventDateOccurs | custom_components/am_lich/calendar.py:133-172 | when conversions round-trip, a resolved lunar date passes the range probe, except exactly for a one-off row without a lunar year |
| Calendar.SolarEventDateIsFirst | custom_components/am_lich/calendar.py:99-124 | for solar yearly rows, and monthly rows without a month, the resolved date is the first occurrence not before ref |
| Calendar.SolarEventDateWindow | custom_components/am_lich/calendar.py:99-124 | a resolved repeating solar date is not before ref and lies in ref's year or the next (yearly), or in ref's month or the next (monthly), on the row's day |
| Calendar.LunarNeedsDayAndMonth | custom_components/am_lich/calendar.py:139-143 | a lunar row without a lunar day or a lunar month never resolves |
| Calendar.LunarYearlyFirstNotBefore | custom_components/am_lich/calendar.py:144-152 | the lunar yearly resolver takes the first of the this-year and next-year conversions not before ref, and gives nothing when both are before it |
| Calendar.LeapDayYearlyResolution | custom_components/am_lich/calendar.py:100-110 | 29 February yearly resolves exactly from the days of a leap year up to its 29 February, and to nothing from any other day |
| Calendar.LeapDayYearlyUnresolved | custom_components/am_lich/calendar.py:100-110 | 29 February yearly, seen from 1 March 2025, resolves to nothing, though the row occurs on 29 February 2028, three years later |
| Calendar.Day31MonthlyUnresolved | custom_components/am_lich/calendar.py:111-124 | day 31 monthly, seen from 20 April, resolves to nothing, though the row occurs on 31 May |
| Calendar.Day31MonthlyInDecember | custom_components/am_lich/calendar.py:111-124 | day 31 monthly, seen from 20 December, resolves to 31 December of the same year |
| Calendar.RowEventsSound | custom_components/am_lich/calendar.py:50-61 | every event of a row's scan belongs to a day in the range on which the row occurs, and is that day's event |
| Calendar.RowEventsSorted | custom_components/am_lich/calendar.py:50-61 | a row's events come in strictly ascending order of day |
| Calendar.RowEventsComplete | custom_components/am_lich/calendar.py:50-61 | every day in a range ending before `date.max` on which the row occurs has its event in the scan |
| Calendar.RangeEventsMembers | custom_components/am_lich/calendar.py:48-61 | the range's events are exactly the union of the rows' scans |
| Calendar.RangeOutcomeExact | custom_components/am_lich/calendar.py:45-62 | a returned list contains the event for every (row, day in range) on which the row occurs, and nothing else |
| Sensor.ParseFloatOrNone | custom_components/am_lich/sensor.py:49-55 | None and non-numeric text give None, and a number gives its float |
| Sensor.ParseFloatOrNoneOfCell | custom_components/am_lich/sensor.py:70-75 | the sensor's date fields equal the row's REAL cells |
| Sensor.YearlyWithFallback | custom_components/am_lich/sensor.py:180-194 | the this-year conversion when it is not before today, otherwise the next-year conversion, before today or not |
| Sensor.GetNearestSolar | custom_components/am_lich/sensor.py:123-207 | the step-by-step resolver, with its offset loop and fallback, computes exactly `Sensor.NearestSolar` |
| Sensor.NearestSolarStr | custom_components/am_lich/sensor.py:209-213 | the text is empty exactly when there is no date, and otherwise is "DD/MM/YYYY" that parses back to the date |
| Sensor.State | custom_components/am_lich/sensor.py:215-226 | the state is "unknown" without a date, and otherwise the countdown to the date with the day difference from today |
| Sensor.CountdownDecodes | custom_components/am_lich/sensor.py:219-224 | the state text has the prefix, a date field that parses back to the date, the infix, a day count that parses back to the difference, and the suffix; the count is non-negative exactly when the date is not past, and zero exactly on the day |
| Sensor.SolarRepeatingStateNotNegative | custom_components/am_lich/sensor.py:131-149 | a repeating solar event's state never counts down a negative number of days, when both clock reads give the same day |
| Sensor.SolarMonthlyNearest | custom_components/am_lich/sensor.py:131-139 | solar monthly gives day sd of today's month, or of the next month once today is past sd; the result exists exactly when that day does, and it is not before today |
| Sensor.SolarYearlyNearest | custom_components/am_lich/sensor.py:140-149 | solar yearly needs the month; its date has the row's month and day, is not before today, and is in today's year exactly when that candidate is not past |
| Sensor.SolarOnceNearest | custom_components/am_lich/sensor.py:150-156 | a one-off solar event gives the same result whatever today is; there is a date exactly when day, month and year are set and name a valid date, and it is that stored date |
| Sensor.SolarOnceMayBePast | custom_components/am_lich/sensor.py:150-156 | a one-off event of 1 January 2020 is still shown from 2025 |
| Sensor.LunarMonthlyNearest | custom_components/am_lich/sensor.py:164-179 | lunar monthly ignores the lunar month field and follows the shared monthly lunar step |
| Sensor.LunarYearlyNearest | custom_components/am_lich/sensor.py:180-194 | lunar yearly needs the lunar month; it takes the this-year conversion when that is not past, else the next-year one; a past result is always the next-year conversion after a past this-year one |
| Sensor.FormatIntIfPossible | custom_components/am_lich/sensor.py:58-63 | None renders as "", an integral float as digits that read back as its value, and any other float as `str()` renders it |
| Sensor.BuildAttrs | custom_components/am_lich/sensor.py:95-121 | the attributes carry "Duong Lich" exactly for solar rows, plus the row's description and repeat tag unchanged |
| Sensor.BuildAttrsDate | custom_components/am_lich/sensor.py:96-113 | the shown date uses the triple matching the calendar tag: "d/m" without a year, and "d/m/y" with the year's digits for an integral year |
| Agreement.SolarBranchesAgree | custom_components/am_lich/calendar.py:97-132 | on solar rows the sensor and the calendar resolve to the same date |
| Agreement.MissingDayGivesNone | custom_components/am_lich/sensor.py:128-163 | without the day of its own calendar system, neither resolver gives a date |
| Agreement.LunarMonthlyCompared | custom_components/am_lich/calendar.py:142-165 | for lunar monthly rows the resolvers agree when the lunar month is set, and the calendar gives nothing without it |
| Agreement.LunarYearlyCompared | custom_components/am_lich/sensor.py:180-194 | wherever the calendar resolves a lunar yearly row the sensor gives the same date; where only the sensor does, its date is the next-year conversion and lies before today |
| Agreement.LunarOnceAgree | custom_components/am_lich/calendar.py:166-169 | for one-off lunar rows the sensor and the calendar resolve to the same date |
| Agreement.LunarMonthlyWithoutMonthDiffers | custom_components/am_lich/sensor.py:164-179 | a lunar monthly row without a lunar month shows a date on the sensor and none on the calendar |
| ConfigFlow.Get | custom_components/am_lich/config_flow.py:298 | `data.get(key, None)` gives the stored value, or None for a missing key |
| ConfigFlow.Clean | custom_components/am_lich/config_flow.py:297-307 | `clean` maps None and whitespace-only text to None and an integral number to an int of the same value, and leaves every other value unchanged |
| ConfigFlow.CleanKeepsValue | custom_components/am_lich/config_flow.py:297-307 | cleaning is idempotent, keeps a number's value, and never leaves empty text |
| ConfigFlow.FilterEventData | custom_components/am_lich/config_flow.py:295-336 | the record has exactly the ten stored fields |
| ConfigFlow.FilterEventDataFields | custom_components/am_lich/config_flow.py:308-336 | the form's cleaned day, month and year go into the lunar triple for "lunar" and the solar triple for "solar", with the other triple None, or all six are None for any other tag; the name and description are cleaned, and the tags are copied |
| ConfigFlow.EventToDict | custom_components/am_lich/config_flow.py:338-359 | the form's day, month and year are the lunar cells exactly for a row tagged "lunar" and the solar cells otherwise, and the text fields pass through |
| ConfigFlow.FieldKinds | custom_components/am_lich/config_flow.py:386-397 | the fields coerced with `float()` are exactly placeholders 3 to 8 of the UPDATE, the six date columns; the name, tag, description and repeat fields are not |
| ConfigFlow.CoerceField | custom_components/am_lich/config_flow.py:394-402 | "" and None become None, a date field becomes a float or None (its float where `float()` succeeds), and any other field's value is passed on |
| ConfigFlow.UpdateParametersShape | custom_components/am_lich/config_flow.py:386-404 | eleven parameters: the ten fields coerced in the UPDATE's order, with date fields None or a float and non-empty text fields unchanged, then the id |
| ConfigFlow.BuildUpdateValues | custom_components/am_lich/config_flow.py:392-404 | the appending loop builds exactly `ConfigFlow.UpdateParameters` |
| ConfigFlow.DateCellSurvives | custom_components/am_lich/config_flow.py:297-307 | a stored REAL cell comes back unchanged from `clean` followed by the date coercion |
| ConfigFlow.TextCellSurvives | custom_components/am_lich/config_flow.py:394-395 | a stored text cell that `float()` rejects comes back from `clean` and the coercion, except that blank text becomes NULL |
| ConfigFlow.FilterOfEventToDict | custom_components/am_lich/config_flow.py:308-359 | filtering a lunar or solar row's own form values puts the row's active triple, cleaned, back in its columns and None in the other triple |
| ConfigFlow.UpdateParametersList | custom_components/am_lich/config_flow.py:386-404 | the UPDATE parameters are the ten coerced fields, named one by one, followed by the id |
| ConfigFlow.EditRoundTrip | custom_components/am_lich/config_flow.py:382-404 | saving a lunar or solar row's own values through the edit form writes the row back: the active triple unchanged, the other triple NULL, blank name or description NULL, an empty repeat tag NULL, then the id (for names and descriptions that `float()` rejects) |
| ConfigFlow.RenderDefault | custom_components/am_lich/config_flow.py:252-261 | None and "" render as "", an integral number as digits that read back as its value, another float via `str()`, and other text as itself |
| ConfigFlow.GetValPrecedence | custom_components/am_lich/config_flow.py:246-261 | `ConfigFlow.GetVal`, the model of `get_val`, renders the value from `user_input` when it has the key, else the one from `initial`, and "" for a key in neither |
| ConfigFlow.EditDefaultsReadBack | custom_components/am_lich/config_flow.py:246-261 | an integral stored date field shown as a default reads back as the stored number, and cleaning it gives the same int |

## Left out

- Storage: SQLite is not modelled. This covers the table setup in sensor.py
  (`ensure_events_table`, `ensure_events_db_exists`), the `_load_events` queries in
  calendar.py and config_flow.py, the commit of `_update_event`, and `_insert_event`.
  The rows are passed in, and `_update_event` stops at its parameter list.
- Home Assistant plumbing is not modelled: entity registration, `async_update`,
  `device_info`, the query sensor (`AmlichSensor`, sensor.py:266-378), the
  config and options flow steps, reloading, switch.py and `__init__.py`. These are
  framework callbacks with no decision logic of the core.
- `async_get_event` (calendar.py:64-76) is not modelled. It is the by-id lookup that
  reuses `_get_event_date`; when that returns None it builds an event from
  `None + timedelta`, which raises `TypeError`.
- Logging and the `[DEBUG amlich]` warning in the sensor constructor are not modelled.
- Floats: IEEE-754 rounding is not modelled. A float is a `real`.
  - `str()` of a non-integral float is the parameter `floatRepr` in `Sensor.FormatIntIfPossible`, `ConfigFlow.RenderDefault` and `ConfigFlow.GetVal`.
  - Parsing text with `float()` is not modelled. A `PyValue` holds either a number or text that `float()` rejects, so numeric form text (such as "15") appears as its number. `ConfigFlow.Clean` and `ConfigFlow.CoerceField` therefore do not cover the passage from numeric text to a number.
  - `float()` of NaN or infinity is not modelled.
- In `Sensor.ParseFloatOrNone`, text that `float()` accepts is not modelled, because of the representation above. Such text never reaches a REAL column through the integration's own write paths.
- Lunar conversion: the `lunarcalendar` tables and the leap-month flag are not
  modelled, and `Lunar(y, m, d, False)` is only ever built with `False`.
  Correctness of the converter is not proved. It appears only as the assumptions
  `RoundTrips` and `RejectsImpossible`.
- State: `_get_nearest_solar` and `state` each read `date.today()` (sensor.py:125,
  sensor.py:220), and the model passes one `today` to both. If midnight falls between
  the two reads, an event due that day shows "còn -1 ngày". Sensor.State,
  Sensor.CountdownDecodes and Sensor.SolarRepeatingStateNotNegative assume both reads
  give the same day.
- Calendar range arguments: `async_get_events` receives datetimes and uses their
  `.date()`. The model takes the dates.
- FormatDate: does not model the year `strftime("%d/%m/%Y")` writes below year 1000,
  which is platform-dependent. The model always writes four digits.
- FormatCompact: does not model the year `strftime("%Y%m%d")` writes in the uid below
  year 1000 (calendar.py:59), for the same reason. The model always writes four digits.
- RealCell: a date column can also hold TEXT, which is not modelled. `_insert_event`
  (config_flow.py:195, 418-447) stores `clean`'s result, and `clean` returns non-numeric
  text unchanged (config_flow.py:306-307). REAL affinity keeps such a value as TEXT, for
  example a lunar year typed as "Giáp Thìn". On such a row:
  - `int()` of the cell raises wherever the calendar reads it (calendar.py:101-102, 112,
    127-129, 139-141, 178-180, 209-211), so `_get_event_date` and
    `_get_event_date_for_range` give None;
  - the sensor's `parse_float_or_none` reads the cell as None (sensor.py:70-75), and a
    lunar year read as None becomes today's year (sensor.py:166).

  Agreement.LunarMonthlyCompared, Agreement.LunarYearlyCompared, Agreement.LunarOnceAgree
  and Calendar.SolarYearlyMembership (whose "the stored year is ignored" fails for a
  TEXT year) hold only for cells holding NULL or a number.
- TextCell: does not model stored text that `float()` accepts. `TextCell` turns stored
  text into a `PyStr`, which stands for text that `float()` rejects.
- TextCellSurvives: covers only text that `float()` rejects. `clean` turns a name or
  description such as "007" or "2024.0" into the int 7 or 2024 (config_flow.py:301-304),
  and the TEXT column then stores "7" or "2024".
- EditRoundTrip: for the same reason, a name or description that `float()` accepts is
  not written back unchanged but as the text of its integer.
- Form schema: the `vol` ranges of `EVENT_SCHEMA` and `_build_event_schema`
  (config_flow.py:35-63, 242-293) are not modelled. Neither are the schema defaults
  that are not `get_val`, such as `laplai_val` and the "lunar" tag default. The
  values reaching `_filter_event_data` are arbitrary.
- `ConfigFlow.FilterEventData`: the unused `initial` argument is dropped.
