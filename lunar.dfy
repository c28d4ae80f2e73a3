/** The `lunarcalendar` package, which the integration imports inside its lunar
    branches. Its conversion tables are third-party code, so the converter is a
    value that lemmas quantify over; what the proofs assume of it is stated as
    named predicates that appear in their `requires` clauses. */
module Lunar {
  import opened PyRuntime
  import opened Dates

  /** A lunar date as `Converter.Solar2Lunar` returns it (its leap flag is never read). */
  datatype LunarDate = LunarDate(year: int, month: int, day: int)

  /** `installed` is false where `from lunarcalendar import ...` raises ImportError.
      `lunarToSolar(y, m, d)` is `Converter.Lunar2Solar(Lunar(y, m, d, False))`, `None`
      where it raises; `solarToLunar(s)` is `Converter.Solar2Lunar(Solar(s.year, s.month,
      s.day))`, `None` where it raises (the package covers a limited span of years). */
  datatype Converter = Converter(
    installed: bool,
    lunarToSolar: (int, int, int) -> Option<Date>,
    solarToLunar: PyDate -> Option<LunarDate>)

  /** `solar = Converter.Lunar2Solar(Lunar(y, m, d, False))` followed by
      `date(solar.year, solar.month, solar.day)`; `None` where either raises. */
  function LunarToDate(conv: Converter, y: int, m: int, d: int): (r: Option<PyDate>)
    ensures r.Some? <==> conv.lunarToSolar(y, m, d).Some? && var s := conv.lunarToSolar(y, m, d).value;
      ValidDate(s.year, s.month, s.day)
    ensures r.Some? ==> conv.lunarToSolar(y, m, d).value == r.value
  {
    match conv.lunarToSolar(y, m, d)
    case None => None
    case Some(s) => MakeDate(s.year, s.month, s.day)
  }

  /** Assumption: converting a lunar date to solar and back gives the lunar date again. */
  ghost predicate RoundTrips(conv: Converter) {
    forall y: int, m: int, d: int {:trigger LunarToDate(conv, y, m, d)} ::
      LunarToDate(conv, y, m, d).Some? ==>
        conv.solarToLunar(LunarToDate(conv, y, m, d).value) == Some(LunarDate(y, m, d))
  }

  /** Assumption: `Lunar2Solar` raises for a lunar month outside 1..12 or a lunar day
      outside 1..30, as no such lunar date exists. */
  ghost predicate RejectsImpossible(conv: Converter) {
    forall y: int, m: int, d: int {:trigger LunarToDate(conv, y, m, d)} ::
      !(1 <= m <= 12 && 1 <= d <= 30) ==> LunarToDate(conv, y, m, d).None?
  }

  /** A stand-in converter that maps each lunar date to the solar date with the same
      numbers (months of 28 days). It satisfies both assumptions, so they are consistent. */
  function SampleConverter(): Converter {
    Converter(
      true,
      (y: int, m: int, d: int) => if 1 <= m <= 12 && 1 <= d <= 28 then Some(Date(y, m, d)) else None,
      (s: PyDate) => Some(LunarDate(s.year, s.month, s.day)))
  }

  lemma SampleConverterSatisfiesAssumptions()
    ensures RoundTrips(SampleConverter()) && RejectsImpossible(SampleConverter())
  {
    var conv := SampleConverter();
    forall y: int, m: int, d: int
      ensures LunarToDate(conv, y, m, d).Some? ==>
        conv.solarToLunar(LunarToDate(conv, y, m, d).value) == Some(LunarDate(y, m, d))
    {
    }
  }
}
