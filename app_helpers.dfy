/**
 * Helpers of the operator console (`frontend/src/App.js`): reading numbers from form values,
 * labelling drivers and vehicles, the console's own shallow search for a note link, the results
 * panel of the thirty latest responses, and the driver and vehicle form validators.
 * The panel's time stamp (`new Date().toLocaleTimeString()`) is a parameter.
 */
module AppHelpers {
  import opened Wrappers
  import Text
  import opened Json
  import Feed
  import ApiClient
  import WtnLink

  // ----- numbers -----

  /** `safeNum(v)`: JavaScript `Number(v)` when it is finite, else 0. */
  function SafeNum(v: Json): (r: real)
    ensures v.JNum? ==> r == v.n
    ensures v.JNull? || v.JObj? || v.JArr? ==> r == 0.0
    ensures v.JBool? ==> r == (if v.b then 1.0 else 0.0)
    ensures v.JStr? && Text.IsBlank(v.s) ==> r == 0.0
    ensures v.JStr? && Text.ParseDecimal(Text.Strip(v.s)).Some? ==> r == Text.ParseDecimal(Text.Strip(v.s)).value
  {
    match v
    case JNum(n) => n
    case JBool(b) => if b then 1.0 else 0.0
    case JStr(s) =>
      Text.StripEmptyIffBlank(s);
      var t := Text.Strip(s);
      if t == "" then 0.0
      else (match Text.ParseDecimal(t) case Some(x) => x case None => 0.0)
    case _ => 0.0
  }

  /** The text of an integer, typed into a number field with any padding, reads back as that integer. */
  lemma SafeNumOfIntText(pre: string, i: int, post: string)
    requires Text.IsBlank(pre) && Text.IsBlank(post)
    ensures SafeNum(JStr(pre + Text.IntText(i) + post)) == i as real
  {
    var t := Text.IntText(i);
    assert t != [] && !Text.IsSpace(t[0]) && !Text.IsSpace(t[|t| - 1]) by {
      var d := Text.NatText(if i < 0 then -i else i);
      assert Text.IsDigit(d[|d| - 1]);
      if i < 0 {
        assert t == "-" + d && t[|t| - 1] == d[|d| - 1];
      } else {
        assert Text.IsDigit(d[0]);
      }
    }
    Text.StripPadded(pre, t, post);
    Text.DecimalOfIntText(i);
  }

  /** Text that is not a number (here: a word) reads as 0, never as a failure. */
  lemma SafeNumOfWord(w: string)
    requires w != [] && 'a' <= w[0] <= 'z' && !Text.IsSpace(w[|w| - 1])
    ensures SafeNum(JStr(w)) == 0.0
  {
    Text.StripOfTrimmed(w);
    assert Text.DigitRun(w) == 0;
  }

  // ----- labels -----

  /** `driverLabel(d)`: the first of full name, name, email and phone that is present, else "(unnamed)". */
  function DriverLabel(d: Json): (r: Json)
    ensures !r.JNull?
    ensures !ApiClient.JsGet(d, "full_name").JNull? ==> r == ApiClient.JsGet(d, "full_name")
    ensures ApiClient.JsGet(d, "full_name").JNull? && !ApiClient.JsGet(d, "name").JNull? ==> r == ApiClient.JsGet(d, "name")
    ensures ApiClient.JsGet(d, "full_name").JNull? && ApiClient.JsGet(d, "name").JNull? && !ApiClient.JsGet(d, "email").JNull?
      ==> r == ApiClient.JsGet(d, "email")
    ensures ApiClient.JsGet(d, "full_name").JNull? && ApiClient.JsGet(d, "name").JNull? && ApiClient.JsGet(d, "email").JNull?
      ==> r == (if ApiClient.JsGet(d, "phone").JNull? then JStr("(unnamed)") else ApiClient.JsGet(d, "phone"))
  {
    var vals := [ApiClient.JsGet(d, "full_name"), ApiClient.JsGet(d, "name"), ApiClient.JsGet(d, "email"), ApiClient.JsGet(d, "phone")];
    var r := FirstDefined(vals, JStr("(unnamed)"));
    assert vals[0] == ApiClient.JsGet(d, "full_name") && vals[1] == ApiClient.JsGet(d, "name");
    assert vals[2] == ApiClient.JsGet(d, "email") && vals[3] == ApiClient.JsGet(d, "phone");
    r
  }

  /** `vehicleLabel(v)`: the first of registration, plate and id that is present, else "(no reg)". */
  function VehicleLabel(v: Json): (r: Json)
    ensures !r.JNull?
    ensures !ApiClient.JsGet(v, "reg_no").JNull? ==> r == ApiClient.JsGet(v, "reg_no")
    ensures ApiClient.JsGet(v, "reg_no").JNull? && !ApiClient.JsGet(v, "plate").JNull? ==> r == ApiClient.JsGet(v, "plate")
    ensures ApiClient.JsGet(v, "reg_no").JNull? && ApiClient.JsGet(v, "plate").JNull?
      ==> r == (if ApiClient.JsGet(v, "id").JNull? then JStr("(no reg)") else ApiClient.JsGet(v, "id"))
  {
    var vals := [ApiClient.JsGet(v, "reg_no"), ApiClient.JsGet(v, "plate"), ApiClient.JsGet(v, "id")];
    var r := FirstDefined(vals, JStr("(no reg)"));
    assert vals[0] == ApiClient.JsGet(v, "reg_no") && vals[1] == ApiClient.JsGet(v, "plate") && vals[2] == ApiClient.JsGet(v, "id");
    r
  }

  /** `??` is not `||`: a driver whose full name is the empty string is labelled with the empty string. */
  lemma EmptyFullNameKept(name: Json)
    ensures DriverLabel(JObj([("full_name", JStr("")), ("name", name)])) == JStr("")
  {
    var d := JObj([("full_name", JStr("")), ("name", name)]);
    assert ToDict(d.members)["full_name"] == JStr("");
  }

  /** A missing driver or vehicle gets the placeholder label. */
  lemma MissingGetsPlaceholder()
    ensures DriverLabel(JNull) == JStr("(unnamed)") && VehicleLabel(JNull) == JStr("(no reg)")
  {
  }

  // ----- the console's note link search -----

  /** The `i`-th of `Object.values(v)`. */
  function ValueAt(v: Json, i: nat): Json
    requires i < WtnLink.ValueCount(v)
  {
    match v
    case JObj(ms) => ms[i].1
    case JArr(items) => items[i]
  }

  /** The console's `findWtnUrl`: its own `wtn_pdf_url`, else the first top-level value that is a note link. */
  function FindWtnUrlShallow(v: Json): (r: Option<string>)
    ensures r.Some? ==> r.value != ""
  {
    if !WtnLink.IsObjectLike(v) then None
    else if WtnLink.OwnUrl(v).Some? then WtnLink.OwnUrl(v)
    else ScanTopLevel(v, 0)
  }

  /** The loop over `Object.values(v)` from index `i`, without looking inside nested values. */
  function ScanTopLevel(v: Json, i: nat): (r: Option<string>)
    ensures r.Some? ==> r.value != ""
    ensures r.Some? <==> exists j :: i <= j < WtnLink.ValueCount(v) && WtnLink.IsPdfLink(ValueAt(v, j))
    decreases WtnLink.ValueCount(v) - i
  {
    if i >= WtnLink.ValueCount(v) then None
    else if WtnLink.IsPdfLink(ValueAt(v, i)) then
      ShortLinkNonEmpty(ValueAt(v, i));
      Some(ValueAt(v, i).s)
    else
      var r := ScanTopLevel(v, i + 1);
      assert (exists j :: i <= j < WtnLink.ValueCount(v) && WtnLink.IsPdfLink(ValueAt(v, j)))
        <==> (exists j :: i + 1 <= j < WtnLink.ValueCount(v) && WtnLink.IsPdfLink(ValueAt(v, j)));
      r
  }

  lemma ShortLinkNonEmpty(c: Json)
    requires WtnLink.IsPdfLink(c)
    ensures c.s != ""
  {
    var k :| Text.OccursAt(c.s, "/wtn/", k);
  }

  /** The console finds a link exactly when the response has one of its own or one as a top-level value. */
  lemma ShallowIff(v: Json)
    ensures FindWtnUrlShallow(v).Some? <==>
      WtnLink.IsObjectLike(v) && (WtnLink.OwnUrl(v).Some? || exists j :: 0 <= j < WtnLink.ValueCount(v) && WtnLink.IsPdfLink(ValueAt(v, j)))
  {
  }

  /** Whatever the console's search finds, the note link component's deep search finds something too. */
  lemma ShallowImpliesDeep(v: Json)
    requires FindWtnUrlShallow(v).Some?
    ensures WtnLink.FindWtnUrl(v).Some?
  {
    WtnLink.FindIffHoldsLink(v);
    if WtnLink.OwnUrl(v).None? {
      ShallowIff(v);
      var j :| 0 <= j < WtnLink.ValueCount(v) && WtnLink.IsPdfLink(ValueAt(v, j));
      assert WtnLink.ValueHoldsLink(v, j);
    }
  }

  /** The converse fails: a link one level down is found by the component and missed by the console. */
  lemma NestedLinkMissed()
    ensures FindWtnUrlShallow(JObj([("wtn", JObj([("wtn_pdf_url", JStr("/wtn/1.pdf"))]))])).None?
    ensures WtnLink.FindWtnUrl(JObj([("wtn", JObj([("wtn_pdf_url", JStr("/wtn/1.pdf"))]))])).Some?
  {
    var inner := JObj([("wtn_pdf_url", JStr("/wtn/1.pdf"))]);
    var v := JObj([("wtn", inner)]);
    assert "wtn_pdf_url" !in ToDict(v.members);
    assert ToDict(inner.members)["wtn_pdf_url"] == JStr("/wtn/1.pdf");
    assert !WtnLink.IsPdfLink(inner);
    assert ValueAt(v, 0) == inner;
  }

  // ----- the results panel -----

  const MaxOut: nat := 30

  /** One response shown in the panel. */
  datatype OutEntry = OutEntry(title: string, payload: Json, at: string)

  /** The console's results panel: newest first, at most thirty entries. */
  class Console {
    var out: seq<OutEntry>

    constructor()
      ensures out == []
    {
      out := [];
    }

    /** `pushOut(title, payload)`: the entry goes first and only the thirty newest are kept. */
    method PushOut(title: string, payload: Json, at: string)
      modifies this
      ensures out == Feed.Prepend(OutEntry(title, payload, at), old(out), MaxOut)
      ensures |out| <= MaxOut && out[0] == OutEntry(title, payload, at)
    {
      Feed.PrependShape(OutEntry(title, payload, at), out, MaxOut);
      out := Feed.Prepend(OutEntry(title, payload, at), out, MaxOut);
    }
  }

  // ----- form validators -----

  /** Field errors of a form, by field name. */
  type FieldErrors = map<string, string>

  /** One required text field with a length limit: the too-long message overrides the required one. */
  method CheckField(key: string, value: Option<string>, maxLen: nat, missing: string, tooLong: string) returns (e: FieldErrors)
    ensures e.Keys <= {key}
    ensures key in e <==> value.None? || Text.IsBlank(value.value) || |value.value| > maxLen
    ensures key in e ==> e[key] == (if value.Some? && |value.value| > maxLen then tooLong else missing)
  {
    e := map[];
    if value.None? || Text.Strip(value.value) == "" {
      e := e[key := missing];
    }
    if value.Some? && value.value != "" && |value.value| > maxLen {
      e := e[key := tooLong];
    }
    if value.Some? {
      Text.StripEmptyIffBlank(value.value);
    }
  }

  /** `validateDriver(p)`: a name is required and at most 80 characters long. */
  method ValidateDriver(name: Option<string>) returns (e: FieldErrors)
    ensures e.Keys <= {"name"}
    ensures "name" in e <==> name.None? || Text.IsBlank(name.value) || |name.value| > 80
    ensures "name" in e ==> e["name"] == (if name.Some? && |name.value| > 80 then "Name too long" else "Name is required")
  {
    e := CheckField("name", name, 80, "Name is required", "Name too long");
  }

  /** `validateVehicle(p)`: a registration is required and at most 32 characters long. */
  method ValidateVehicle(regNo: Option<string>) returns (e: FieldErrors)
    ensures e.Keys <= {"reg_no"}
    ensures "reg_no" in e <==> regNo.None? || Text.IsBlank(regNo.value) || |regNo.value| > 32
    ensures "reg_no" in e ==> e["reg_no"] == (if regNo.Some? && |regNo.value| > 32 then "Too long" else "Registration required")
  {
    e := CheckField("reg_no", regNo, 32, "Registration required", "Too long");
  }
}
