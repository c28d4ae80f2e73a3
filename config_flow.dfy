/** config_flow.py: the options flow that adds and edits events. `_event_to_dict`
    turns a stored row into the form's initial values, `get_val` renders a value as
    a field default, `_filter_event_data` with its inner `clean` turns submitted form
    data into the record to store, and `_update_event` lines that record up as the
    parameters of its UPDATE statement. Form data and records are dictionaries from
    field names to dynamic values. */
module ConfigFlow {
  import opened PyRuntime
  import opened Events

  type Dict = map<string, PyValue>

  /** `d.get(key, None)` */
  function Get(d: Dict, key: string): (v: PyValue)
    ensures key !in d ==> v == PyNone
    ensures key in d ==> v == d[key]
  {
    if key in d then d[key] else PyNone
  }

  /** `float(v)` where it succeeds: numbers; text `float()` rejects gives None. */
  function ToFloat(v: PyValue): Option<real> {
    match v
    case PyInt(i) => Some(i as real)
    case PyFloat(x) => Some(x)
    case _ => None
  }

  /** `clean` in `_filter_event_data`: None and whitespace-only text become None, an
      integral number becomes an int, anything else is returned unchanged. */
  function Clean(v: PyValue): (r: PyValue)
    ensures v.PyNone? || (v.PyStr? && Blank(v.s)) ==> r == PyNone
    ensures v.PyStr? && !Blank(v.s) ==> r == v
    ensures v.PyInt? ==> r == v
    ensures v.PyFloat? && IsIntegral(v.x) ==> r.PyInt? && r.i as real == v.x
    ensures v.PyFloat? && !IsIntegral(v.x) ==> r == v
  {
    match v
    case PyNone => PyNone
    case PyStr(s) => if Blank(s) then PyNone else v
    case PyInt(_) => v
    case PyFloat(x) => if IsIntegral(x) then PyInt(x.Floor) else v
  }

  /** Cleaning keeps a number's value and cleaning twice changes nothing more. */
  lemma CleanKeepsValue(v: PyValue)
    ensures Clean(Clean(v)) == Clean(v)
    ensures v.PyInt? || v.PyFloat? ==> ToFloat(Clean(v)) == ToFloat(v)
    ensures Clean(v) != PyStr("")
  {
  }

  /** The keys of a record `_filter_event_data` returns. */
  const RecordKeys: set<string> := {"tendukien", "loaisukien", "laplai", "mota",
    "ngayam", "thangam", "namam", "ngayduong", "thangduong", "namduong"}

  /** `_filter_event_data(data)`: name and description cleaned, calendar and repeat tags
      copied, the form's ngay/thang/nam cleaned into the triple of the calendar the tag
      names and the other triple None; with any other tag all six are None. (The
      `initial` argument is never read.) */
  function FilterEventData(data: Dict): (r: Dict)
    ensures r.Keys == RecordKeys
  {
    var kind := Get(data, "loaisukien");
    var base := map["tendukien" := Clean(Get(data, "tendukien")), "loaisukien" := kind,
                    "laplai" := Get(data, "laplai"), "mota" := Clean(Get(data, "mota"))];
    var (lunar, solar) :=
      if kind == PyStr("lunar") then
        ((Clean(Get(data, "ngay")), Clean(Get(data, "thang")), Clean(Get(data, "nam"))),
         (PyNone, PyNone, PyNone))
      else if kind == PyStr("solar") then
        ((PyNone, PyNone, PyNone),
         (Clean(Get(data, "ngay")), Clean(Get(data, "thang")), Clean(Get(data, "nam"))))
      else ((PyNone, PyNone, PyNone), (PyNone, PyNone, PyNone));
    base["ngayam" := lunar.0]["thangam" := lunar.1]["namam" := lunar.2]
        ["ngayduong" := solar.0]["thangduong" := solar.1]["namduong" := solar.2]
  }

  /** The date triples of a filtered record, tag by tag; the other fields are cleaned or
      copied. */
  lemma FilterEventDataFields(data: Dict)
    ensures var r := FilterEventData(data);
      var form := (Clean(Get(data, "ngay")), Clean(Get(data, "thang")), Clean(Get(data, "nam")));
      var lunar := (r["ngayam"], r["thangam"], r["namam"]);
      var solar := (r["ngayduong"], r["thangduong"], r["namduong"]);
      && (Get(data, "loaisukien") == PyStr("lunar") ==> lunar == form && solar == (PyNone, PyNone, PyNone))
      && (Get(data, "loaisukien") == PyStr("solar") ==> solar == form && lunar == (PyNone, PyNone, PyNone))
      && (Get(data, "loaisukien") != PyStr("lunar") && Get(data, "loaisukien") != PyStr("solar") ==>
        lunar == (PyNone, PyNone, PyNone) && solar == (PyNone, PyNone, PyNone))
      && r["tendukien"] == Clean(Get(data, "tendukien")) && r["mota"] == Clean(Get(data, "mota"))
      && r["loaisukien"] == Get(data, "loaisukien") && r["laplai"] == Get(data, "laplai")
  {
  }

  /** `_event_to_dict(row)`: the form's ngay/thang/nam are the lunar cells for a row
      tagged "lunar" and the solar cells for any other row. */
  function EventToDict(row: Row): (d: Dict)
    ensures d.Keys == {"tendukien", "loaisukien", "ngay", "thang", "nam", "mota", "laplai"}
    ensures row.kind == Some("lunar") ==>
      (d["ngay"], d["thang"], d["nam"]) == (RealCell(row.lunarDay), RealCell(row.lunarMonth), RealCell(row.lunarYear))
    ensures row.kind != Some("lunar") ==>
      (d["ngay"], d["thang"], d["nam"]) == (RealCell(row.solarDay), RealCell(row.solarMonth), RealCell(row.solarYear))
    ensures d["tendukien"] == TextCell(row.name) && d["loaisukien"] == TextCell(row.kind)
      && d["mota"] == TextCell(row.description) && d["laplai"] == TextCell(row.repeat)
  {
    var (day, month, year) := if row.kind == Some("lunar") then (row.lunarDay, row.lunarMonth, row.lunarYear)
                              else (row.solarDay, row.solarMonth, row.solarYear);
    map["tendukien" := TextCell(row.name), "loaisukien" := TextCell(row.kind),
        "ngay" := RealCell(day), "thang" := RealCell(month), "nam" := RealCell(year),
        "mota" := TextCell(row.description), "laplai" := TextCell(row.repeat)]
  }

  /** `update_fields` in `_update_event`, in the order of the UPDATE's placeholders. */
  const UpdateFields: seq<string> := ["tendukien", "loaisukien", "ngayam", "thangam", "namam",
    "ngayduong", "thangduong", "namduong", "mota", "laplai"]

  /** The fields `_update_event` coerces with `float()`. */
  const DateFields: set<string> := {"ngayam", "thangam", "namam", "ngayduong", "thangduong", "namduong"}

  /** The UPDATE's fields coerced with `float()` are exactly its placeholders 3 to 8,
      the six date columns; the name, tag, description and repeat fields are not. */
  lemma FieldKinds()
    ensures forall k :: 0 <= k < |UpdateFields| ==> (UpdateFields[k] in DateFields <==> 2 <= k < 8)
    ensures "tendukien" !in DateFields && "loaisukien" !in DateFields
    ensures "mota" !in DateFields && "laplai" !in DateFields
    ensures "ngayam" in DateFields && "thangam" in DateFields && "namam" in DateFields
    ensures "ngayduong" in DateFields && "thangduong" in DateFields && "namduong" in DateFields
  {
  }

  /** One value of the list: "" and None become None, a date field becomes its float
      (None where `float()` fails), any other field is passed on. */
  function CoerceField(field: string, v: PyValue): (r: PyValue)
    ensures v == PyStr("") || v == PyNone ==> r == PyNone
    ensures field !in DateFields && v != PyStr("") && v != PyNone ==> r == v
    ensures field in DateFields ==> r.PyNone? || r.PyFloat?
    ensures field in DateFields && ToFloat(v).Some? ==> r == PyFloat(ToFloat(v).value)
  {
    if v == PyStr("") || v == PyNone then PyNone
    else if field in DateFields then
      match ToFloat(v)
      case Some(x) => PyFloat(x)
      case None => PyNone
    else v
  }

  /** The parameters of the UPDATE: ten coerced field values, then the event id. */
  function UpdateParameters(data: Dict, eventId: int): seq<PyValue> {
    seq(|UpdateFields|, k requires 0 <= k < |UpdateFields| => CoerceField(UpdateFields[k], Get(data, UpdateFields[k])))
      + [PyInt(eventId)]
  }

  /** Eleven values: the ten fields in the UPDATE's order, then the id. */
  lemma UpdateParametersShape(data: Dict, eventId: int)
    ensures var values := UpdateParameters(data, eventId);
      && |values| == 11 && values[10] == PyInt(eventId)
      && (forall k :: 0 <= k < 10 ==> values[k] == CoerceField(UpdateFields[k], Get(data, UpdateFields[k])))
      && (forall k :: 2 <= k < 8 ==> values[k].PyNone? || values[k].PyFloat?)
      && (forall k :: (0 <= k < 10 && (k < 2 || k >= 8) && Get(data, UpdateFields[k]) != PyStr("")) ==>
            values[k] == Get(data, UpdateFields[k]))
  {
    var values := UpdateParameters(data, eventId);
    forall k | 2 <= k < 8 ensures values[k].PyNone? || values[k].PyFloat? {
      assert UpdateFields[k] in DateFields;
    }
    forall k | 0 <= k < 10 && (k < 2 || k >= 8) && Get(data, UpdateFields[k]) != PyStr("")
      ensures values[k] == Get(data, UpdateFields[k])
    {
      assert UpdateFields[k] !in DateFields;
    }
  }

  /** The value list of `_update_event`, built by appending in a loop. */
  method BuildUpdateValues(data: Dict, eventId: int) returns (values: seq<PyValue>)
    ensures values == UpdateParameters(data, eventId)
  {
    var updateFields := UpdateFields;
    values := [];
    for i := 0 to |updateFields|
      invariant |values| == i
      invariant forall k :: 0 <= k < i ==> values[k] == CoerceField(updateFields[k], Get(data, updateFields[k]))
    {
      var field := updateFields[i];
      var v := Get(data, field);
      if v == PyStr("") || v == PyNone {
        values := values + [PyNone];
      } else if field in DateFields {
        match ToFloat(v)
        case Some(x) => values := values + [PyFloat(x)];
        case None => values := values + [PyNone];
      } else {
        values := values + [v];
      }
    }
    values := values + [PyInt(eventId)];
  }

  /** What a stored text cell becomes after `clean` and `_update_event`. */
  function StoredText(v: Option<string>): PyValue {
    match v
    case None => PyNone
    case Some(s) => if Blank(s) then PyNone else PyStr(s)
  }

  /** What a stored tag becomes after `_update_event` ("" is stored as NULL). */
  function StoredTag(v: Option<string>): PyValue {
    match v
    case None => PyNone
    case Some(s) => if s == "" then PyNone else PyStr(s)
  }

  /** A stored REAL cell survives `clean` and the coercion of a date field. */
  lemma DateCellSurvives(field: string, c: Option<real>)
    requires field in DateFields
    ensures CoerceField(field, Clean(RealCell(c))) == RealCell(c)
  {
    CleanKeepsValue(RealCell(c));
  }

  /** A stored text cell (text that `float()` rejects) through `clean` and the coercion
      of a text field. */
  lemma TextCellSurvives(field: string, t: Option<string>)
    requires field !in DateFields
    ensures CoerceField(field, Clean(TextCell(t))) == StoredText(t)
  {
  }

  /** The record filtered from a row's own form values, field by field. */
  lemma FilterOfEventToDict(row: Row)
    requires row.kind == Some("lunar") || row.kind == Some("solar")
    ensures var r := FilterEventData(EventToDict(row));
      var lunar := row.kind == Some("lunar");
      && r["tendukien"] == Clean(TextCell(row.name)) && r["loaisukien"] == TextCell(row.kind)
      && r["mota"] == Clean(TextCell(row.description)) && r["laplai"] == TextCell(row.repeat)
      && (r["ngayam"], r["thangam"], r["namam"]) == (if lunar then
           (Clean(RealCell(row.lunarDay)), Clean(RealCell(row.lunarMonth)), Clean(RealCell(row.lunarYear)))
         else (PyNone, PyNone, PyNone))
      && (r["ngayduong"], r["thangduong"], r["namduong"]) == (if lunar then (PyNone, PyNone, PyNone) else
           (Clean(RealCell(row.solarDay)), Clean(RealCell(row.solarMonth)), Clean(RealCell(row.solarYear))))
  {
    var form := EventToDict(row);
    FilterEventDataFields(form);
    assert Get(form, "loaisukien") == TextCell(row.kind);
    assert Get(form, "ngay") == form["ngay"] && Get(form, "thang") == form["thang"] && Get(form, "nam") == form["nam"];
  }

  /** The UPDATE parameters written out one by one. */
  lemma UpdateParametersList(data: Dict, eventId: int)
    ensures UpdateParameters(data, eventId) == [
      CoerceField("tendukien", Get(data, "tendukien")), CoerceField("loaisukien", Get(data, "loaisukien")),
      CoerceField("ngayam", Get(data, "ngayam")), CoerceField("thangam", Get(data, "thangam")),
      CoerceField("namam", Get(data, "namam")), CoerceField("ngayduong", Get(data, "ngayduong")),
      CoerceField("thangduong", Get(data, "thangduong")), CoerceField("namduong", Get(data, "namduong")),
      CoerceField("mota", Get(data, "mota")), CoerceField("laplai", Get(data, "laplai")), PyInt(eventId)]
  {
  }

  /** Saving a lunar or solar event's own values through the edit form writes its row
      back: the active triple unchanged, the other triple NULL, name and description
      unchanged unless blank, the tags unchanged unless empty, then the id. A stored text
      is a `PyStr`, text that `float()` rejects; numeric-looking text is not covered. */
  lemma EditRoundTrip(row: Row)
    requires row.kind == Some("lunar") || row.kind == Some("solar")
    ensures var lunar := row.kind == Some("lunar");
      UpdateParameters(FilterEventData(EventToDict(row)), row.id) == [
        StoredText(row.name), TextCell(row.kind),
        if lunar then RealCell(row.lunarDay) else PyNone,
        if lunar then RealCell(row.lunarMonth) else PyNone,
        if lunar then RealCell(row.lunarYear) else PyNone,
        if lunar then PyNone else RealCell(row.solarDay),
        if lunar then PyNone else RealCell(row.solarMonth),
        if lunar then PyNone else RealCell(row.solarYear),
        StoredText(row.description), StoredTag(row.repeat), PyInt(row.id)]
  {
    var r := FilterEventData(EventToDict(row));
    FilterOfEventToDict(row);
    UpdateParametersList(r, row.id);
    FieldKinds();
    TextCellSurvives("tendukien", row.name);
    TextCellSurvives("mota", row.description);
    if row.kind == Some("lunar") {
      DateCellSurvives("ngayam", row.lunarDay);
      DateCellSurvives("thangam", row.lunarMonth);
      DateCellSurvives("namam", row.lunarYear);
    } else {
      DateCellSurvives("ngayduong", row.solarDay);
      DateCellSurvives("thangduong", row.solarMonth);
      DateCellSurvives("namduong", row.solarYear);
    }
  }

  /** `get_val(key)` in `_build_event_schema`: the value from `user_input` when it has
      the key, else from `initial`, rendered as a field default. */
  function GetVal(key: string, userInput: Option<Dict>, initial: Option<Dict>, floatRepr: real -> string): string {
    var v := if userInput.Some? && key in userInput.value then userInput.value[key]
             else if initial.Some? && key in initial.value then initial.value[key]
             else PyNone;
    RenderDefault(v, floatRepr)
  }

  /** The rendering in `get_val`: None and "" give "", an integral number gives its
      digits without ".0", another float `str(fval)` (`floatRepr`), other text itself. */
  function RenderDefault(v: PyValue, floatRepr: real -> string): (s: string)
    ensures v == PyNone || v == PyStr("") ==> s == ""
    ensures ToFloat(v).Some? && IsIntegral(ToFloat(v).value) ==>
      IntText(s) && ParseInt(s) as real == ToFloat(v).value
    ensures v.PyFloat? && !IsIntegral(v.x) ==> s == floatRepr(v.x)
    ensures v.PyStr? ==> s == v.s
  {
    match v
    case PyNone => ""
    case PyStr(t) => t
    case PyInt(i) => IntToStringRoundTrip(i); IntToString(i)
    case PyFloat(x) =>
      if IsIntegral(x) then
        IntToStringRoundTrip(x.Floor);
        IntToString(x.Floor)
      else floatRepr(x)
  }

  /** A value in `user_input` takes precedence over `initial`; a key in neither gives "". */
  lemma GetValPrecedence(key: string, userInput: Option<Dict>, initial: Option<Dict>, floatRepr: real -> string)
    ensures userInput.Some? && key in userInput.value ==>
      GetVal(key, userInput, initial, floatRepr) == RenderDefault(userInput.value[key], floatRepr)
    ensures !(userInput.Some? && key in userInput.value) && initial.Some? && key in initial.value ==>
      GetVal(key, userInput, initial, floatRepr) == RenderDefault(initial.value[key], floatRepr)
    ensures !(userInput.Some? && key in userInput.value) && !(initial.Some? && key in initial.value) ==>
      GetVal(key, userInput, initial, floatRepr) == ""
  {
  }

  /** The edit form's defaults for a stored integral date field read back as the stored
      number, and cleaning that number gives an int of the same value. */
  lemma EditDefaultsReadBack(row: Row, key: string, floatRepr: real -> string)
    requires key in {"ngay", "thang", "nam"}
    requires var v := EventToDict(row)[key]; v.PyFloat? && IsIntegral(v.x)
    ensures var s := GetVal(key, None, Some(EventToDict(row)), floatRepr);
      IntText(s) && ParseInt(s) as real == EventToDict(row)[key].x
      && Clean(PyInt(ParseInt(s))) == Clean(EventToDict(row)[key])
  {
  }
}
