/**
 * `build_ctx_form` of `services/wtn.py`: the three-part form context built from a posted payload.
 * The generation time is a parameter, and so is Python's `str()` of a number, list or object.
 */
module WtnService {
  import opened Wrappers
  import opened Json

  /** Python `str(v)` of a truthy value: a string is itself, a boolean its name. */
  function PyStr(v: Json, reprOther: Json -> string): string {
    match v
    case JStr(s) => s
    case JBool(b) => if b then "True" else "False"
    case _ => reprOther(v)
  }

  /** `_ctx_get`: `str(section.get(key, default) or "")`. */
  function CtxGet(section: Dict, key: string, default: string, reprOther: Json -> string): (r: string)
    ensures key !in section ==> r == default
    ensures key in section && !PyTruthy(section[key]) ==> r == ""
    ensures key in section && section[key].JStr? ==> r == section[key].s
  {
    if key !in section then default
    else if PyTruthy(section[key]) then PyStr(section[key], reprOther)
    else ""
  }

  /** A present value that converts to something other than the default: the default applies only to a missing key. */
  lemma CtxGetDefaultOnlyWhenAbsent(section: Dict, key: string, default: string, reprOther: Json -> string)
    requires key in section && section[key].JStr? && section[key].s != default
    ensures CtxGet(section, key, default, reprOther) != default
  {
  }

  /** `payload.get(k, {}) or {}`: a missing or falsy part is an empty dict; a truthy part that is not an object has no `.get` (None). */
  function Part(payload: Dict, k: string): (r: Option<Dict>)
    ensures k !in payload || !PyTruthy(payload[k]) ==> r == Some(map[])
    ensures k in payload && payload[k].JObj? ==> r == Some(ToDict(payload[k].members))
  {
    if k !in payload || !PyTruthy(payload[k]) then Some(map[])
    else match payload[k]
      case JObj(members) => Some(ToDict(members))
      case _ => None
  }

  datatype Part1 = Part1(
    wtnNumber: Json,
    wtnId: Json,
    quantity: string,
    wasteType: string,
    dateTime: string,
    originatorLocation: string,
    destinationLocation: string,
    name: string,
    idNo: string,
    signature: string,
    telNo: string)

  datatype Part2 = Part2(
    toLocation: string,
    companyName: string,
    name: string,
    idNo: string,
    signature: string,
    telNo: string,
    plateNo: string)

  datatype Part3 = Part3(
    quantity: string,
    dateTime: string,
    treatment: string,
    name: string,
    idNo: string,
    signature: string)

  /** The context of the form: part 1 names the originator, part 2 the transporter, part 3 the receiver. */
  datatype CtxForm = CtxForm(part1: Part1, part2: Part2, part3: Part3)

  /** `build_ctx_form`; `None` stands for the `AttributeError` of a part that is not an object. */
  function BuildCtxForm(payload: Dict, now: string, reprOther: Json -> string): (r: Option<CtxForm>)
    ensures r.None? <==> Part(payload, "part1").None? || Part(payload, "part2").None? || Part(payload, "part3").None?
    ensures r.Some? ==> r.value.part1.wtnNumber == Get(Some(payload), "wtn_number") && r.value.part1.wtnId == Get(Some(payload), "wtn_id")
  {
    var o1, o2, o3 := Part(payload, "part1"), Part(payload, "part2"), Part(payload, "part3");
    if o1.None? || o2.None? || o3.None? then None
    else
      var p1, p2, p3 := o1.value, o2.value, o3.value;
      var q3 := CtxGet(p3, "quantity", "", reprOther);
      Some(CtxForm(
        Part1(
          Get(Some(payload), "wtn_number"),
          Get(Some(payload), "wtn_id"),
          CtxGet(p1, "quantity", "", reprOther),
          CtxGet(p1, "waste_type", "", reprOther),
          CtxGet(p1, "date_time", now, reprOther),
          CtxGet(p1, "originator_location", "", reprOther),
          CtxGet(p1, "destination_location", "", reprOther),
          CtxGet(p1, "name", "", reprOther),
          CtxGet(p1, "id_no", "", reprOther),
          CtxGet(p1, "signature", "", reprOther),
          CtxGet(p1, "tel_no", "", reprOther)),
        Part2(
          CtxGet(p2, "to_location", "", reprOther),
          CtxGet(p2, "company_name", "", reprOther),
          CtxGet(p2, "name", "", reprOther),
          CtxGet(p2, "id_no", "", reprOther),
          CtxGet(p2, "signature", "", reprOther),
          CtxGet(p2, "tel_no", "", reprOther),
          CtxGet(p2, "plate_no", "", reprOther)),
        Part3(
          if q3 != "" then q3 else CtxGet(p1, "quantity", "", reprOther),
          CtxGet(p3, "date_time", now, reprOther),
          CtxGet(p3, "treatment", "", reprOther),
          CtxGet(p3, "name", "", reprOther),
          CtxGet(p3, "id_no", "", reprOther),
          CtxGet(p3, "signature", "", reprOther))))
  }

  /** Without any parts, every field is empty except the two dates, which are the generation time. */
  lemma BuildEmptyPayload(now: string, reprOther: Json -> string)
    ensures BuildCtxForm(map[], now, reprOther) == Some(CtxForm(
      Part1(JNull, JNull, "", "", now, "", "", "", "", "", ""),
      Part2("", "", "", "", "", "", ""),
      Part3("", now, "", "", "", "")))
  {
  }

  /** Null parts read as empty ones. */
  lemma BuildNullParts(payload: Dict, now: string, reprOther: Json -> string)
    requires forall k :: k in payload ==> payload[k] == JNull
    ensures var r := BuildCtxForm(payload, now, reprOther);
      r.Some? && r.value.part1.dateTime == r.value.part3.dateTime == now && r.value.part3.quantity == ""
  {
    var r := BuildCtxForm(payload, now, reprOther);
    assert Part(payload, "part1") == Some(map[]);
    assert Part(payload, "part3") == Some(map[]);
  }

  /** The receiver's quantity falls back to the originator's when part 3 has none. */
  lemma Part3QuantityFallback(payload: Dict, now: string, reprOther: Json -> string, p1: Dict, p3: Dict)
    requires Part(payload, "part1") == Some(p1) && Part(payload, "part3") == Some(p3) && Part(payload, "part2").Some?
    ensures var r := BuildCtxForm(payload, now, reprOther);
      r.Some?
      && (CtxGet(p3, "quantity", "", reprOther) != "" ==> r.value.part3.quantity == CtxGet(p3, "quantity", "", reprOther))
      && (CtxGet(p3, "quantity", "", reprOther) == "" ==> r.value.part3.quantity == r.value.part1.quantity)
  {
  }

  /** Both dates default to the one generation time when the parts leave them out. */
  lemma DatesShareNow(payload: Dict, now: string, reprOther: Json -> string, p1: Dict, p3: Dict)
    requires Part(payload, "part1") == Some(p1) && Part(payload, "part3") == Some(p3) && Part(payload, "part2").Some?
    requires "date_time" !in p1 && "date_time" !in p3
    ensures var r := BuildCtxForm(payload, now, reprOther);
      r.Some? && r.value.part1.dateTime == now && r.value.part3.dateTime == now
  {
  }

  /** A part's empty `date_time` is kept empty: the generation time replaces only a missing one. */
  lemma EmptyDateNotDefaulted(payload: Dict, now: string, reprOther: Json -> string, p1: Dict)
    requires Part(payload, "part1") == Some(p1) && Part(payload, "part2").Some? && Part(payload, "part3").Some?
    requires "date_time" in p1 && p1["date_time"] == JStr("") && now != ""
    ensures var r := BuildCtxForm(payload, now, reprOther); r.Some? && r.value.part1.dateTime == "" != now
  {
  }

  /** A part that is a non-empty string has no `.get`, so building fails. */
  lemma BuildRejectsTextPart(payload: Dict, now: string, reprOther: Json -> string, k: string)
    requires k == "part1" || k == "part2" || k == "part3"
    requires k in payload && payload[k].JStr? && payload[k].s != ""
    ensures BuildCtxForm(payload, now, reprOther).None?
  {
  }
}
