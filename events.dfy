/** One row of the `events` table as the sensor, the calendar and the options flow
    read it: `id, tendukien, loaisukien, ngayam, thangam, namam, ngayduong,
    thangduong, namduong, mota, laplai`. The six date columns have REAL affinity;
    a cell is modelled as `None` or a float, which is what NULL or a number in them
    reads back as. The text columns are NULL or text. */
module Events {
  import opened PyRuntime

  datatype Row = Row(
    id: int,                    // id
    name: Option<string>,       // tendukien
    kind: Option<string>,       // loaisukien: "solar", "lunar" or anything else
    lunarDay: Option<real>,     // ngayam
    lunarMonth: Option<real>,   // thangam
    lunarYear: Option<real>,    // namam
    solarDay: Option<real>,     // ngayduong
    solarMonth: Option<real>,   // thangduong
    solarYear: Option<real>,    // namduong
    description: Option<string>, // mota
    repeat: Option<string>)     // laplai: "monthly", "yearly" or anything else

  /** `row[2] == "solar"`; every other tag (NULL included) takes the lunar branch. */
  predicate IsSolar(row: Row) {
    row.kind == Some("solar")
  }

  predicate IsMonthly(row: Row) {
    row.repeat == Some("monthly")
  }

  predicate IsYearly(row: Row) {
    row.repeat == Some("yearly")
  }

  /** Neither "monthly" nor "yearly": the event happens once. */
  predicate IsOnce(row: Row) {
    !IsMonthly(row) && !IsYearly(row)
  }

  /** The Python object a REAL cell becomes. */
  function RealCell(v: Option<real>): (r: PyValue)
    ensures r.PyNone? || r.PyFloat?
  {
    match v
    case None => PyNone
    case Some(x) => PyFloat(x)
  }

  /** The Python object a TEXT cell becomes. */
  function TextCell(v: Option<string>): (r: PyValue)
    ensures r.PyNone? || r.PyStr?
  {
    match v
    case None => PyNone
    case Some(s) => PyStr(s)
  }

  /** `row[9] or ""` */
  function DescriptionOrEmpty(row: Row): string {
    match row.description
    case None => ""
    case Some(s) => s
  }
}
