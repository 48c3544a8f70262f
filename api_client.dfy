/**
 * The front end's API client (`frontend/src/api.ts`): which key goes in the `X-API-Key` header of
 * a request, how a failed request becomes an `ApiError` with a message and field errors, the
 * stored configuration, and the facility drop that is sent as a full collection.
 * JSON values are `Json.Json`; JavaScript's `undefined` and `null` are both `JNull`.
 */
module ApiClient {
  import opened Wrappers
  import Text
  import opened Json
  import DriverModel
  import Driver
  import DriverProps

  /** The console configuration: the API base and the two optional keys. */
  datatype ApiConfig = ApiConfig(base: string, apiKey: Option<string>, adminKey: Option<string>)

  /** A configured key is used only when it is a non-empty string (JavaScript truthiness). */
  predicate IsSet(k: Option<string>) {
    k.Some? && k.value != ""
  }

  // ----- the key header -----

  /** Paths that take the driver key, on the lower-cased request URL. */
  predicate DriverPath(u: string) {
    Text.StartsWith(u, "/driver") || Text.Contains(u, "/ensure-skip")
  }

  /** Paths that take the admin key in the interceptor the client installs. */
  predicate AdminPathAsWritten(u: string) {
    Text.StartsWith(u, "/admin") || Text.StartsWith(u, "/skips/_seed")
  }

  /** Paths that take the admin key in the second copy of the interceptor, which also covers the admin-gated debug routes. */
  predicate AdminPath(u: string) {
    AdminPathAsWritten(u) || Text.StartsWith(u, "/__debug")
  }

  /** The interceptor's two assignments to `X-API-Key`: the driver key, then the admin key over it. */
  function ChooseKey(c: ApiConfig, needsDriver: bool, needsAdmin: bool, existing: Option<string>): (h: Option<string>)
    ensures needsAdmin && IsSet(c.adminKey) ==> h == c.adminKey
    ensures !(needsAdmin && IsSet(c.adminKey)) && needsDriver && IsSet(c.apiKey) ==> h == c.apiKey
    ensures !(needsAdmin && IsSet(c.adminKey)) && !(needsDriver && IsSet(c.apiKey)) ==> h == existing
  {
    var h1 := if needsDriver && IsSet(c.apiKey) then c.apiKey else existing;
    if needsAdmin && IsSet(c.adminKey) then c.adminKey else h1
  }

  /** The header the installed interceptor leaves on a request for `url` (`existing` is the header the caller set, if any). */
  function RequestKeyAsWritten(c: ApiConfig, url: Option<string>, existing: Option<string>): Option<string> {
    var u := Text.Lower(url.GetOr(""));
    ChooseKey(c, DriverPath(u), AdminPathAsWritten(u), existing)
  }

  /** The header with the debug routes counted as admin routes. */
  function RequestKey(c: ApiConfig, url: Option<string>, existing: Option<string>): Option<string> {
    var u := Text.Lower(url.GetOr(""));
    ChooseKey(c, DriverPath(u), AdminPath(u), existing)
  }

  /** When a URL needs both keys and both are configured, the admin key is sent. */
  lemma AdminKeyWins(c: ApiConfig, url: string, existing: Option<string>)
    requires DriverPath(Text.Lower(url)) && AdminPathAsWritten(Text.Lower(url))
    requires IsSet(c.apiKey) && IsSet(c.adminKey)
    ensures RequestKeyAsWritten(c, Some(url), existing) == c.adminKey
    ensures RequestKey(c, Some(url), existing) == c.adminKey
  {
  }

  /** The interceptor either leaves the header alone or sets it to a configured, non-empty key. */
  lemma KeyOnlyWhenSet(c: ApiConfig, url: Option<string>, existing: Option<string>)
    ensures var h := RequestKeyAsWritten(c, url, existing);
      h == existing || (IsSet(h) && (h == c.apiKey || h == c.adminKey))
    ensures var h := RequestKey(c, url, existing);
      h == existing || (IsSet(h) && (h == c.apiKey || h == c.adminKey))
  {
  }

  /** A URL matching no key prefix keeps the caller's header. */
  lemma OtherPathsUntouched(c: ApiConfig, url: string, existing: Option<string>)
    requires !DriverPath(Text.Lower(url)) && !AdminPath(Text.Lower(url))
    ensures RequestKeyAsWritten(c, Some(url), existing) == existing
    ensures RequestKey(c, Some(url), existing) == existing
  {
  }

  /** Lower-casing twice is lower-casing once. */
  lemma LowerIdempotent(s: string)
    ensures Text.Lower(Text.Lower(s)) == Text.Lower(s)
  {
    var l := Text.Lower(s);
    forall i | 0 <= i < |s| ensures Text.Lower(l)[i] == l[i] {
      assert l[i] == Text.LowerChar(s[i]);
    }
  }

  /** The choice depends on the URL only up to letter case. */
  lemma KeyIgnoresCase(c: ApiConfig, url: string, existing: Option<string>)
    ensures RequestKeyAsWritten(c, Some(Text.Lower(url)), existing) == RequestKeyAsWritten(c, Some(url), existing)
    ensures RequestKey(c, Some(Text.Lower(url)), existing) == RequestKey(c, Some(url), existing)
  {
    LowerIdempotent(url);
  }

  /** A debug route such as `/__debug/wtns` never gets the admin key from the installed interceptor. */
  lemma DebugRouteMissesAdminKey(c: ApiConfig, url: string, existing: Option<string>)
    requires Text.StartsWith(Text.Lower(url), "/__debug") && IsSet(c.adminKey)
    ensures RequestKeyAsWritten(c, Some(url), existing) == (if DriverPath(Text.Lower(url)) && IsSet(c.apiKey) then c.apiKey else existing)
    ensures RequestKeyAsWritten(c, Some(url), existing) != c.adminKey || existing == c.adminKey || c.apiKey == c.adminKey
  {
    var u := Text.Lower(url);
    assert u[1] == '_';
    assert !Text.StartsWith(u, "/admin") by {
      assert "/admin"[1] == 'a';
    }
    assert !Text.StartsWith(u, "/skips/_seed") by {
      assert "/skips/_seed"[1] == 's';
    }
  }

  /** With the debug routes counted as admin routes, a debug route gets the admin key whenever one is configured. */
  lemma DebugRouteGetsAdminKey(c: ApiConfig, url: string, existing: Option<string>)
    requires Text.StartsWith(Text.Lower(url), "/__debug") && IsSet(c.adminKey)
    ensures RequestKey(c, Some(url), existing) == c.adminKey
  {
  }

  // ----- error normalisation -----

  /** `v?.[k]`: the member of an object, `undefined` for anything else. */
  function JsGet(v: Json, k: string): Json {
    if v.JObj? && k in ToDict(v.members) then ToDict(v.members)[k] else JNull
  }

  /** JavaScript `a || b`. */
  function JsOr(a: Json, b: Json): Json {
    if JsTruthy(a) then a else b
  }

  /** JavaScript `String(v)`; the text of a number is `numText`. */
  function ToText(v: Json, numText: real -> string): string
    decreases v
  {
    match v
    case JNull => "null"
    case JBool(b) => if b then "true" else "false"
    case JNum(n) => numText(n)
    case JStr(s) => s
    case JArr(items) => Text.Join(seq(|items|, i requires 0 <= i < |items| => if items[i].JNull? then "" else ToText(items[i], numText)), ",")
    case JObj(_) => "[object Object]"
  }

  /** The element texts `Array.prototype.join` uses: `null` and `undefined` become "". */
  function ElemTexts(items: seq<Json>, numText: real -> string): (r: seq<string>)
    ensures |r| == |items|
  {
    seq(|items|, i requires 0 <= i < |items| => if items[i].JNull? then "" else ToText(items[i], numText))
  }

  /** The entry one validation item adds: `loc` after its first element joined by ".", and the message; `None` when `loc` is a truthy non-array, on which `.join` throws. */
  function FieldOf(it: Json, numText: real -> string): (r: Option<(string, Json)>)
    ensures r.None? <==> !JsOr(JsGet(it, "loc"), JArr([])).JArr?
    ensures r.Some? ==> r.value.0 != "" && JsTruthy(r.value.1)
  {
    var loc := JsOr(JsGet(it, "loc"), JArr([]));
    if !loc.JArr? then None
    else
      var key := Text.Join(ElemTexts(if loc.items == [] then [] else loc.items[1..], numText), ".");
      Some((if key == "" then "non_field" else key, JsOr(JsOr(JsGet(it, "msg"), JsGet(it, "message")), JStr("Invalid value"))))
  }

  /** An entry per validation item. */
  function Entries(items: seq<Json>, numText: real -> string): (es: seq<Option<(string, Json)>>)
    ensures |es| == |items| && forall i :: 0 <= i < |items| ==> es[i] == FieldOf(items[i], numText)
  {
    seq(|items|, i requires 0 <= i < |items| => FieldOf(items[i], numText))
  }

  /** `out[loc] = msg` for each entry in order; `None` from the first entry that throws. */
  function Collect(es: seq<Option<(string, Json)>>): Option<map<string, Json>>
    decreases |es|
  {
    if es == [] then Some(map[])
    else
      match Collect(es[..|es| - 1])
      case None => None
      case Some(m) =>
        match es[|es| - 1]
        case None => None
        case Some(f) => Some(m[f.0 := f.1])
  }

  /** The field map of a list of validation items. */
  function FieldMap(items: seq<Json>, numText: real -> string): Option<map<string, Json>> {
    Collect(Entries(items, numText))
  }

  /** Once an entry has thrown, the entries after it do not matter. */
  lemma {:induction false} CollectNoneStays(es: seq<Option<(string, Json)>>, n: nat)
    requires n <= |es| && Collect(es[..n]).None?
    ensures Collect(es).None?
    decreases |es| - n
  {
    if n < |es| {
      assert es[..n + 1][..n] == es[..n];
      CollectNoneStays(es, n + 1);
    } else {
      assert es[..n] == es;
    }
  }

  /** `as422`: fills the field map from `d.detail` when it is an array, item by item. */
  method As422(d: Json, numText: real -> string) returns (out: Option<map<string, Json>>)
    ensures out == (if JsGet(d, "detail").JArr? then FieldMap(JsGet(d, "detail").items, numText) else Some(map[]))
  {
    var detail := JsGet(d, "detail");
    if !detail.JArr? {
      return Some(map[]);
    }
    var items := detail.items;
    ghost var es := Entries(items, numText);
    var m: map<string, Json> := map[];
    for i := 0 to |items|
      invariant Collect(es[..i]) == Some(m)
    {
      assert es[..i + 1][..i] == es[..i];
      var f := FieldOf(items[i], numText);
      assert es[i] == f;
      if f.None? {
        CollectNoneStays(es, i + 1);
        return None;
      }
      m := m[f.value.0 := f.value.1];
    }
    assert es[..|items|] == es;
    return Some(m);
  }

  /** The map is defined exactly when no entry throws. */
  lemma {:induction false} CollectDefined(es: seq<Option<(string, Json)>>)
    ensures Collect(es).Some? <==> forall i :: 0 <= i < |es| ==> es[i].Some?
    decreases |es|
  {
    if es != [] {
      var front := es[..|es| - 1];
      CollectDefined(front);
      assert forall i :: 0 <= i < |front| ==> front[i] == es[i];
    }
  }

  /** The keys of the map are the keys of the entries. */
  lemma {:induction false} CollectKeys(es: seq<Option<(string, Json)>>, k: string)
    requires Collect(es).Some?
    ensures k in Collect(es).value <==> exists i :: 0 <= i < |es| && es[i].Some? && es[i].value.0 == k
    decreases |es|
  {
    CollectDefined(es);
    if es != [] {
      var front := es[..|es| - 1];
      CollectKeys(front, k);
      assert forall i :: 0 <= i < |front| ==> front[i] == es[i];
      if k in Collect(front).value {
        var i :| 0 <= i < |front| && front[i].value.0 == k;
        assert es[i].value.0 == k;
      }
    }
  }

  /** Each key holds the message of the last entry with that key: later items write over earlier ones. */
  lemma {:induction false} CollectLastWins(es: seq<Option<(string, Json)>>, i: nat)
    requires i < |es| && forall j :: 0 <= j < |es| ==> es[j].Some?
    requires forall j :: i < j < |es| ==> es[j].value.0 != es[i].value.0
    ensures Collect(es).Some? && es[i].value.0 in Collect(es).value && Collect(es).value[es[i].value.0] == es[i].value.1
    decreases |es|
  {
    CollectDefined(es);
    var n := |es| - 1;
    if i < n {
      var front := es[..n];
      assert front[i] == es[i];
      assert forall j :: i < j < |front| ==> front[j] == es[j];
      FieldMapLastWinsStep(es, front, i);
    }
  }

  lemma FieldMapLastWinsStep(es: seq<Option<(string, Json)>>, front: seq<Option<(string, Json)>>, i: nat)
    requires es != [] && front == es[..|es| - 1] && i < |front|
    requires forall j :: 0 <= j < |es| ==> es[j].Some?
    requires forall j :: i < j < |es| ==> es[j].value.0 != es[i].value.0
    ensures Collect(es).Some? && es[i].value.0 in Collect(es).value && Collect(es).value[es[i].value.0] == es[i].value.1
    decreases |es|, 0
  {
    assert forall j :: i < j < |front| ==> front[j] == es[j];
    assert front[i] == es[i];
    CollectLastWins(front, i);
    assert es[|es| - 1].value.0 != es[i].value.0;
  }

  /** For the validation items: the field map exists exactly when no item's `loc` throws, and files each item under its key unless a later item has the same key. */
  lemma FieldMapLastWins(items: seq<Json>, numText: real -> string, i: nat)
    requires i < |items| && forall j :: 0 <= j < |items| ==> FieldOf(items[j], numText).Some?
    requires forall j :: i < j < |items| ==> FieldOf(items[j], numText).value.0 != FieldOf(items[i], numText).value.0
    ensures FieldMap(items, numText).Some? && FieldOf(items[i], numText).value.0 in FieldMap(items, numText).value
    ensures FieldMap(items, numText).value[FieldOf(items[i], numText).value.0] == FieldOf(items[i], numText).value.1
  {
    var es := Entries(items, numText);
    CollectLastWins(es, i);
  }

  /** An item whose `loc` is missing or has at most one element is filed under "non_field". */
  lemma NonFieldKey(it: Json, numText: real -> string)
    requires var loc := JsGet(it, "loc"); loc.JNull? || (loc.JArr? && |loc.items| <= 1)
    ensures FieldOf(it, numText).Some? && FieldOf(it, numText).value.0 == "non_field"
  {
    var loc := JsOr(JsGet(it, "loc"), JArr([]));
    assert loc.JArr? && |loc.items| <= 1;
    var rest := if loc.items == [] then [] else loc.items[1..];
    assert ElemTexts(rest, numText) == [];
  }

  /** An item with neither `msg` nor `message` gets "Invalid value". */
  lemma DefaultFieldMessage(it: Json, numText: real -> string)
    requires FieldOf(it, numText).Some?
    requires !JsTruthy(JsGet(it, "msg")) && !JsTruthy(JsGet(it, "message"))
    ensures FieldOf(it, numText).value.1 == JStr("Invalid value")
  {
  }

  /** The HTTP response a failed request carries, if any. */
  datatype HttpResponse = HttpResponse(status: Option<int>, data: Json)

  /** What axios throws: the response, if one arrived, and the error's own message. */
  datatype RequestError = RequestError(response: Option<HttpResponse>, message: Json)

  datatype ApiError = ApiError(message: string, code: int, fields: Option<map<string, Json>>)

  /** `e?.response?.status ?? 0`. */
  function ErrorCode(e: RequestError): int {
    if e.response.Some? && e.response.value.status.Some? then e.response.value.status.value else 0
  }

  /** `e?.response?.data ?? {}`. */
  function ErrorData(e: RequestError): Json {
    if e.response.Some? && !e.response.value.data.JNull? then e.response.value.data else JObj([])
  }

  /** The first truthy value of `detail.message`, `detail`, `error` and the error's message, else "Request failed". */
  function ErrorMessage(data: Json, errorMessage: Json): (m: Json)
    ensures JsTruthy(m)
  {
    var detail := JsGet(data, "detail");
    JsOr(JsOr(JsOr(JsOr(JsGet(detail, "message"), detail), JsGet(data, "error")), errorMessage), JStr("Request failed"))
  }

  /** The field a 409 message hints at: a driver name over a registration. */
  function ConflictFields(txt: string, prior: Option<map<string, Json>>): Option<map<string, Json>> {
    if Text.Contains(txt, "driver") || Text.Contains(txt, "name") then Some(map["name" := JStr("Driver with this name already exists")])
    else if Text.Contains(txt, "reg") || Text.Contains(txt, "vehicle") then Some(map["reg_no" := JStr("Registration already exists")])
    else prior
  }

  /** `parseApiError`; `None` when the validation list holds an item that makes `as422` throw. */
  method ParseApiError(e: RequestError, numText: real -> string) returns (r: Option<ApiError>)
    ensures r.None? <==> ErrorCode(e) == 422 && JsGet(ErrorData(e), "detail").JArr? && FieldMap(JsGet(ErrorData(e), "detail").items, numText).None?
    ensures r.Some? ==> r.value.code == ErrorCode(e)
    ensures r.Some? && ErrorCode(e) != 409 ==> r.value.message == ToText(ErrorMessage(ErrorData(e), e.message), numText)
    ensures r.Some? && ErrorCode(e) == 409 ==>
      (r.value.message == "Duplicate value"
       && r.value.fields == ConflictFields(Text.Lower(ToText(ErrorMessage(ErrorData(e), e.message), numText)), None))
    ensures r.Some? && ErrorCode(e) == 422 ==>
      r.value.fields == Some(if JsGet(ErrorData(e), "detail").JArr? then FieldMap(JsGet(ErrorData(e), "detail").items, numText).value else map[])
    ensures r.Some? && ErrorCode(e) != 409 && ErrorCode(e) != 422 ==> r.value.fields.None?
  {
    var code := ErrorCode(e);
    var data := ErrorData(e);
    var message := ToText(ErrorMessage(data, e.message), numText);
    var fields: Option<map<string, Json>> := None;
    if code == 422 {
      fields := As422(data, numText);
      if fields.None? {
        return None;
      }
    }
    if code == 409 {
      var txt := Text.Lower(message);
      if Text.Contains(txt, "reg") || Text.Contains(txt, "vehicle") {
        fields := Some(map["reg_no" := JStr("Registration already exists")]);
      }
      if Text.Contains(txt, "driver") || Text.Contains(txt, "name") {
        fields := Some(map["name" := JStr("Driver with this name already exists")]);
      }
      message := "Duplicate value";
    }
    return Some(ApiError(message, code, fields));
  }

  /** With no response at all the code is 0 and, with nothing else to go on, the message is "Request failed". */
  lemma NoResponse(e: RequestError, numText: real -> string)
    requires e.response.None? && !JsTruthy(e.message)
    ensures ErrorCode(e) == 0 && ToText(ErrorMessage(ErrorData(e), e.message), numText) == "Request failed"
  {
  }

  /** A 409 that mentions both a name and a vehicle is reported against the name. */
  lemma ConflictNameWins(txt: string)
    requires Text.Contains(txt, "name") && Text.Contains(txt, "vehicle")
    ensures ConflictFields(txt, None) == Some(map["name" := JStr("Driver with this name already exists")])
  {
  }

  // ----- the stored configuration -----

  /** The module-level configuration and the `localStorage` entry it is saved to. */
  class ClientState {
    var cfg: ApiConfig
    var stored: Option<ApiConfig>

    /** `loadConfig`: the saved configuration, else the default base with empty keys. */
    constructor(stored: Option<ApiConfig>, defaultBase: string)
      ensures this.stored == stored
      ensures cfg == (if stored.Some? then stored.value else ApiConfig(defaultBase, Some(""), Some("")))
    {
      this.stored := stored;
      cfg := if stored.Some? then stored.value else ApiConfig(defaultBase, Some(""), Some(""));
    }

    /** `setConfig`: the new configuration is used and saved; the client is rebuilt from it. */
    method SetConfig(next: ApiConfig)
      modifies this
      ensures cfg == next && stored == Some(next)
      ensures forall url, existing :: HeaderFor(url, existing) == RequestKeyAsWritten(next, url, existing)
    {
      cfg := next;
      stored := Some(cfg);
    }

    /** The client's base URL: the configured base without its trailing slashes. */
    function BaseUrl(): (b: string)
      reads this
      ensures Text.StartsWith(cfg.base, b)
      ensures b != "" ==> b[|b| - 1] != '/'
      ensures forall i :: |b| <= i < |cfg.base| ==> cfg.base[i] == '/'
    {
      Text.RStripChar(cfg.base, '/')
    }

    /** The key header the client in use puts on a request: the installed interceptor, without the debug routes. */
    function HeaderFor(url: Option<string>, existing: Option<string>): (h: Option<string>)
      reads this
      ensures var u := Text.Lower(url.GetOr(""));
        AdminPathAsWritten(u) && IsSet(cfg.adminKey) ==> h == cfg.adminKey
      ensures var u := Text.Lower(url.GetOr(""));
        !(AdminPathAsWritten(u) && IsSet(cfg.adminKey)) && DriverPath(u) && IsSet(cfg.apiKey) ==> h == cfg.apiKey
      ensures var u := Text.Lower(url.GetOr(""));
        !(AdminPathAsWritten(u) && IsSet(cfg.adminKey)) && !(DriverPath(u) && IsSet(cfg.apiKey)) ==> h == existing
      ensures h == existing || (IsSet(h) && (h == cfg.apiKey || h == cfg.adminKey))
    {
      RequestKeyAsWritten(cfg, url, existing)
    }
  }

  // ----- the facility drop -----

  /** The arguments of `dropAtFacility`. */
  datatype FacilityDrop = FacilityDrop(
    skipQr: string, facilityName: string, weightSource: string,
    grossKg: Option<real>, tareKg: Option<real>, netKg: Option<real>,
    driverName: string, vehicleReg: Option<string>, siteId: Option<string>)

  /** The body of a full collection. */
  datatype CollectFullBody = CollectFullBody(
    skipQr: string, destinationType: string, destinationName: string, weightSource: string,
    grossKg: Option<real>, tareKg: Option<real>, netKg: Option<real>,
    driverName: string, vehicleReg: Option<string>, siteId: Option<string>)

  /** `dropAtFacility`: a full collection to a transfer destination named after the facility. */
  function DropAtFacility(p: FacilityDrop): (b: CollectFullBody)
    ensures b.destinationType == "TRANSFER" && b.destinationName == p.facilityName
    ensures b.skipQr == p.skipQr && b.weightSource == p.weightSource && b.driverName == p.driverName
    ensures b.grossKg == p.grossKg && b.tareKg == p.tareKg && b.netKg == p.netKg
    ensures b.vehicleReg == p.vehicleReg && b.siteId == p.siteId
  {
    CollectFullBody(p.skipQr, "TRANSFER", p.facilityName, p.weightSource, p.grossKg, p.tareKg, p.netKg,
      p.driverName, p.vehicleReg, p.siteId)
  }

  function WithMember(d: Dict, k: string, v: Option<Json>): Dict {
    if v.Some? then d[k := v.value] else d
  }

  function NumJson(x: Option<real>): Option<Json> {
    if x.Some? then Some(JNum(x.value)) else None
  }

  function StrJson(x: Option<string>): Option<Json> {
    if x.Some? then Some(JStr(x.value)) else None
  }

  /** The JSON object the server receives: `JSON.stringify` leaves out the undefined members. */
  function Payload(b: CollectFullBody): (d: Dict)
    ensures "destination_type" in d && d["destination_type"] == JStr(b.destinationType)
  {
    var base := map["skip_qr" := JStr(b.skipQr), "destination_type" := JStr(b.destinationType),
      "destination_name" := JStr(b.destinationName), "weight_source" := JStr(b.weightSource),
      "driver_name" := JStr(b.driverName)];
    WithMember(WithMember(WithMember(WithMember(WithMember(base,
      "gross_kg", NumJson(b.grossKg)), "tare_kg", NumJson(b.tareKg)), "net_kg", NumJson(b.netKg)),
      "vehicle_reg", StrJson(b.vehicleReg)), "site_id", StrJson(b.siteId))
  }

  /**
   * A facility drop sends "TRANSFER"; unless the back end has a destination type named, or
   * valued, "transfer", the drop is recorded as a transfer to recycling.
   */
  lemma DropRecordedAsRecycling(p: FacilityDrop, transferId: string, movementId: string)
    requires forall i :: 0 <= i < |DriverModel.DestinationTypes| ==> !DriverModel.Names(DriverModel.DestinationTypes[i], "transfer")
    ensures Driver.CollectTransfer(Payload(DropAtFacility(p)), transferId, movementId).destinationType == DriverModel.Recycling
  {
    var d := Payload(DropAtFacility(p));
    assert Driver.EnumArg(d, "destination_type") == Some("TRANSFER");
    DriverProps.TransferFallsBackToRecycling();
  }

  /** When the back end has such a destination type, the facility drop is recorded as the first of them. */
  lemma DropRecordedAsNamedMember(p: FacilityDrop, transferId: string, movementId: string)
    requires DriverModel.FindMember(DriverModel.DestinationTypes, "transfer").Some?
    ensures Driver.CollectTransfer(Payload(DropAtFacility(p)), transferId, movementId).destinationType
      == DriverModel.FindMember(DriverModel.DestinationTypes, "transfer").value
  {
    var d := Payload(DropAtFacility(p));
    assert Driver.EnumArg(d, "destination_type") == Some("TRANSFER");
    DriverProps.TransferNamesMember();
  }
}
