/**
 * The developer console's saved settings (`frontend/src/lib/devConfig.ts`). Browser storage is a
 * map from keys to stored entries; an entry is modelled by what `JSON.parse` makes of its text:
 * the empty text, text that is not JSON (parsing throws), or a JSON document. Reading a
 * property of a parsed `null` throws as well; every throw inside `loadCfg` lands in its `catch`.
 * `String(n)` of a number is the parameter `numText`.
 */
module DevConfig {
  import opened Wrappers
  import Text
  import opened Json
  import ApiClient

  /** The key the console writes, and the key older panels wrote. */
  const CfgKey: string := "wm_dev_console_cfg"
  const LegacyKey: string := "wm_console_cfg"

  datatype Stored = EmptyText | NotJson | Doc(doc: Json)

  type Storage = map<string, Stored>

  /** `DevCfg`: an optional field is `None` when the object lacks it. */
  datatype DevCfg = DevCfg(baseUrl: string, driverKey: Option<string>, adminKey: Option<string>, driverName: Option<string>, driverId: Option<string>)

  /** `Partial<DevCfg>`, the argument of `saveCfg`. */
  datatype PartialCfg = PartialCfg(baseUrl: Option<string>, driverKey: Option<string>, adminKey: Option<string>, driverName: Option<string>, driverId: Option<string>)

  /** What `loadCfg` returns from its `catch`. */
  const Fallback: DevCfg := DevCfg("", None, None, None, None)

  /** `raw ? JSON.parse(raw) : {}`; `None` when parsing throws. */
  function ReadEntry(items: Storage, key: string): (r: Option<Json>)
    ensures key !in items ==> r == Some(JObj([]))
    ensures key in items && items[key].NotJson? <==> r.None?
  {
    if key !in items then Some(JObj([]))
    else match items[key]
      case EmptyText => Some(JObj([]))
      case NotJson => None
      case Doc(j) => Some(j)
  }

  /**
   * `o1.k1 ?? o2.k2 ?? … ?? default`, evaluated left to right: `None` when a property is read
   * from `null` (which throws), which happens only if every earlier property was missing.
   */
  function Chain(srcs: seq<(Json, string)>, default: Json): (r: Option<Json>)
    ensures r.None? ==> exists i :: 0 <= i < |srcs| && srcs[i].0.JNull?
    ensures srcs != [] && !srcs[0].0.JNull? && !ApiClient.JsGet(srcs[0].0, srcs[0].1).JNull? ==>
      r == Some(ApiClient.JsGet(srcs[0].0, srcs[0].1))
    ensures srcs != [] && !srcs[0].0.JNull? && ApiClient.JsGet(srcs[0].0, srcs[0].1).JNull? ==> r == Chain(srcs[1..], default)
    ensures srcs != [] && srcs[0].0.JNull? ==> r.None?
    ensures srcs == [] ==> r == Some(default)
  {
    if srcs == [] then Some(default)
    else if srcs[0].0.JNull? then None
    else
      var v := ApiClient.JsGet(srcs[0].0, srcs[0].1);
      if !v.JNull? then Some(v)
      else
        var r := Chain(srcs[1..], default);
        assert forall i :: 0 <= i < |srcs| - 1 ==> srcs[1..][i] == srcs[i + 1];
        r
  }

  /** `String(x ?? "")` applied to a chain that did not throw. */
  function TextOf(v: Option<Json>, numText: real -> string): string
    requires v.Some?
  {
    ApiClient.ToText(v.value, numText)
  }

  /** The four lookups of `loadCfg`, given the parsed current and legacy entries. */
  function FromEntries(cur: Json, legacy: Json, numText: real -> string): (r: DevCfg)
    ensures r.driverId.None?
    ensures r.driverKey.None? ==> r == Fallback
    ensures r.driverKey.Some? == r.adminKey.Some? == r.driverName.Some?
    ensures cur.JNull? ==> r == Fallback
  {
    var b := Chain([(cur, "baseUrl"), (legacy, "base")], JStr(""));
    var dk := Chain([(cur, "driverKey"), (legacy, "apiKey")], JStr(""));
    var ak := Chain([(cur, "adminKey"), (legacy, "adminKey")], JStr(""));
    var dn := Chain([(cur, "driverName"), (legacy, "driverName"), (cur, "driverId"), (legacy, "driverId")], JStr(""));
    if b.None? || dk.None? || ak.None? || dn.None? then Fallback
    else DevCfg(TextOf(b, numText), Some(TextOf(dk, numText)), Some(TextOf(ak, numText)), Some(TextOf(dn, numText)), None)
  }

  /** `loadCfg()`: the current entry's fields, the legacy entry's where it lacks them, else ""; `{ baseUrl: "" }` after any throw. */
  function LoadCfg(items: Storage, numText: real -> string): (r: DevCfg)
    ensures r.driverId.None?
    ensures ReadEntry(items, CfgKey).None? || ReadEntry(items, LegacyKey).None? ==> r == Fallback
    ensures r.driverKey.None? ==> r == Fallback
    ensures r.driverKey.Some? == r.adminKey.Some? == r.driverName.Some?
  {
    var cur := ReadEntry(items, CfgKey);
    var legacy := ReadEntry(items, LegacyKey);
    if cur.None? || legacy.None? then Fallback
    else FromEntries(cur.value, legacy.value, numText)
  }

  /** A field of the current entry that is a string is used as it is, whatever the legacy entry holds. */
  lemma CurrentFieldWins(cur: Json, legacy: Json, numText: real -> string, s: string)
    requires ApiClient.JsGet(cur, "baseUrl") == JStr(s)
    requires !legacy.JNull?
    ensures FromEntries(cur, legacy, numText).baseUrl == s
  {
    assert !cur.JNull?;
    var b := Chain([(cur, "baseUrl"), (legacy, "base")], JStr(""));
    assert b == Some(JStr(s));
    NoThrowFromObjects([(cur, "driverKey"), (legacy, "apiKey")], JStr(""));
    NoThrowFromObjects([(cur, "adminKey"), (legacy, "adminKey")], JStr(""));
    NoThrowFromObjects([(cur, "driverName"), (legacy, "driverName"), (cur, "driverId"), (legacy, "driverId")], JStr(""));
  }

  /** Where the current entry lacks a field, the legacy entry's field is used. */
  lemma LegacyFieldUsed(cur: Json, legacy: Json, numText: real -> string, s: string)
    requires !cur.JNull? && ApiClient.JsGet(cur, "baseUrl").JNull?
    requires ApiClient.JsGet(legacy, "base") == JStr(s)
    ensures FromEntries(cur, legacy, numText).baseUrl == s
  {
    var srcs := [(cur, "baseUrl"), (legacy, "base")];
    assert srcs[1..] == [(legacy, "base")];
    assert Chain(srcs, JStr("")) == Some(JStr(s));
    NoThrowFromObjects([(cur, "driverKey"), (legacy, "apiKey")], JStr(""));
    NoThrowFromObjects([(cur, "adminKey"), (legacy, "adminKey")], JStr(""));
    NoThrowFromObjects([(cur, "driverName"), (legacy, "driverName"), (cur, "driverId"), (legacy, "driverId")], JStr(""));
  }

  /** A chain over values none of which is `null` never throws. */
  lemma {:induction false} NoThrowFromObjects(srcs: seq<(Json, string)>, default: Json)
    requires forall i :: 0 <= i < |srcs| ==> !srcs[i].0.JNull?
    ensures Chain(srcs, default).Some?
  {
    if srcs != [] && ApiClient.JsGet(srcs[0].0, srcs[0].1).JNull? {
      NoThrowFromObjects(srcs[1..], default);
    }
  }

  /** A legacy driver id is read as the driver name when neither entry has a name. */
  lemma LegacyIdBecomesName(cur: Json, legacy: Json, numText: real -> string, id: string)
    requires !cur.JNull? && !legacy.JNull?
    requires ApiClient.JsGet(cur, "driverName").JNull? && ApiClient.JsGet(legacy, "driverName").JNull?
    requires ApiClient.JsGet(cur, "driverId") == JStr(id)
    ensures FromEntries(cur, legacy, numText).driverName == Some(id)
  {
    var srcs := [(cur, "driverName"), (legacy, "driverName"), (cur, "driverId"), (legacy, "driverId")];
    assert srcs[1..][1..] == [(cur, "driverId"), (legacy, "driverId")];
    assert Chain(srcs, JStr("")) == Some(JStr(id));
    NoThrowFromObjects([(cur, "baseUrl"), (legacy, "base")], JStr(""));
    NoThrowFromObjects([(cur, "driverKey"), (legacy, "apiKey")], JStr(""));
    NoThrowFromObjects([(cur, "adminKey"), (legacy, "adminKey")], JStr(""));
  }

  /** With no saved entries at all every field reads as "". */
  lemma EmptyStorage(numText: real -> string)
    ensures LoadCfg(map[], numText) == DevCfg("", Some(""), Some(""), Some(""), None)
  {
    var e := JObj([]);
    assert ReadEntry(map[], CfgKey) == Some(e) && ReadEntry(map[], LegacyKey) == Some(e);
    assert forall k :: ApiClient.JsGet(e, k) == JNull;
  }

  /** A stored value without a property, written by `JSON.stringify` (an undefined property is left out; `null` reads the same everywhere). */
  function OptJson(o: Option<string>): Json {
    if o.Some? then JStr(o.value) else JNull
  }

  /** `JSON.stringify(merged)` as parsed back. */
  function CfgJson(m: DevCfg): Json {
    JObj([("baseUrl", JStr(m.baseUrl)), ("driverKey", OptJson(m.driverKey)), ("adminKey", OptJson(m.adminKey)), ("driverName", OptJson(m.driverName))])
  }

  /** The fields of a written entry read back as written, and it has no `driverId`. */
  lemma CfgJsonFields(m: DevCfg)
    ensures ApiClient.JsGet(CfgJson(m), "baseUrl") == JStr(m.baseUrl)
    ensures ApiClient.JsGet(CfgJson(m), "driverKey") == OptJson(m.driverKey)
    ensures ApiClient.JsGet(CfgJson(m), "adminKey") == OptJson(m.adminKey)
    ensures ApiClient.JsGet(CfgJson(m), "driverName") == OptJson(m.driverName)
    ensures ApiClient.JsGet(CfgJson(m), "driverId") == JNull
  {
    var ms := CfgJson(m).members;
    FourMembers(ms);
    var id := "driverId";
    assert id[0] == 'd' && |id| == 8;
    assert ms[0].0[0] == 'b' && |ms[1].0| == 9 && ms[2].0[0] == 'a' && |ms[3].0| == 10;
  }

  /** An object of four members with distinct keys reads each member back. */
  lemma FourMembers(ms: seq<(string, Json)>)
    requires |ms| == 4
    requires ms[0].0 != ms[1].0 && ms[0].0 != ms[2].0 && ms[0].0 != ms[3].0
    requires ms[1].0 != ms[2].0 && ms[1].0 != ms[3].0 && ms[2].0 != ms[3].0
    ensures ToDict(ms) == map[ms[0].0 := ms[0].1, ms[1].0 := ms[1].1, ms[2].0 := ms[2].1, ms[3].0 := ms[3].1]
  {
    assert ms[..3][..2][..1] == [ms[0]];
    assert ToDict(ms) == ToDict(ms[..3])[ms[3].0 := ms[3].1];
    assert ToDict(ms[..3]) == ToDict(ms[..3][..2])[ms[2].0 := ms[2].1];
    assert ToDict(ms[..3][..2]) == ToDict(ms[..3][..2][..1])[ms[1].0 := ms[1].1];
  }

  /** The merge of `saveCfg`: each field from `next` when given, else from the current settings; trailing "/" removed; no `driverId`. */
  function Merge(next: PartialCfg, cur: DevCfg): (m: DevCfg)
    ensures m.driverId.None?
    ensures m.baseUrl == Text.RStripChar(if next.baseUrl.Some? then next.baseUrl.value else cur.baseUrl, '/')
    ensures !Text.EndsWith(m.baseUrl, "/")
    ensures m.driverKey == (if next.driverKey.Some? then next.driverKey else cur.driverKey)
    ensures m.adminKey == (if next.adminKey.Some? then next.adminKey else cur.adminKey)
    ensures m.driverName == (if next.driverName.Some? then next.driverName else cur.driverName)
  {
    var b := Text.RStripChar(if next.baseUrl.Some? then next.baseUrl.value else cur.baseUrl, '/');
    assert Text.EndsWith(b, "/") ==> b[|b| - 1] == '/' by {
      if Text.EndsWith(b, "/") {
        assert b[|b| - 1..] == "/";
      }
    }
    DevCfg(b,
      if next.driverKey.Some? then next.driverKey else cur.driverKey,
      if next.adminKey.Some? then next.adminKey else cur.adminKey,
      if next.driverName.Some? then next.driverName else cur.driverName,
      None)
  }

  /** Browser storage as the console uses it. */
  class DevStore {
    var items: Storage

    constructor(initial: Storage)
      ensures items == initial
    {
      items := initial;
    }

    /** `saveCfg(next)`: merges `next` into the settings as loaded now and writes the result under the console's key. */
    method SaveCfg(next: PartialCfg, numText: real -> string)
      modifies this
      ensures items == old(items)[CfgKey := Doc(CfgJson(Merge(next, LoadCfg(old(items), numText))))]
    {
      var cur := LoadCfg(items, numText);
      var merged := Merge(next, cur);
      items := items[CfgKey := Doc(CfgJson(merged))];
    }

    /** `resetCfg()`: the console's entry is removed; the legacy entry stays. */
    method ResetCfg()
      modifies this
      ensures items == map k | k in old(items) && k != CfgKey :: old(items)[k]
    {
      items := map k | k in items && k != CfgKey :: items[k];
    }
  }

  /** Saved settings whose fields are all present load back exactly, unless the legacy entry is not JSON. */
  lemma SaveLoadRoundTrip(items: Storage, m: DevCfg, numText: real -> string)
    requires m.driverKey.Some? && m.adminKey.Some? && m.driverName.Some? && m.driverId.None?
    requires ReadEntry(items, LegacyKey).Some?
    ensures LoadCfg(items[CfgKey := Doc(CfgJson(m))], numText) == m
  {
    var after := items[CfgKey := Doc(CfgJson(m))];
    assert ReadEntry(after, LegacyKey) == ReadEntry(items, LegacyKey);
    assert ReadEntry(after, CfgKey) == Some(CfgJson(m));
    CfgJsonFields(m);
  }

  /** Saving after a successful load loses nothing: the merged settings are what the next load returns. */
  lemma SaveThenLoad(items: Storage, next: PartialCfg, numText: real -> string)
    requires LoadCfg(items, numText).driverKey.Some?
    ensures var m := Merge(next, LoadCfg(items, numText));
      LoadCfg(items[CfgKey := Doc(CfgJson(m))], numText) == m
  {
    SaveLoadRoundTrip(items, Merge(next, LoadCfg(items, numText)), numText);
  }

  /** A legacy entry that is not JSON hides every saved setting, and saving cannot repair it. */
  lemma CorruptLegacyHidesSaved(items: Storage, next: PartialCfg, numText: real -> string)
    requires LegacyKey in items && items[LegacyKey] == NotJson
    ensures var m := Merge(next, LoadCfg(items, numText));
      LoadCfg(items[CfgKey := Doc(CfgJson(m))], numText) == Fallback
  {
    var m := Merge(next, LoadCfg(items, numText));
    assert ReadEntry(items[CfgKey := Doc(CfgJson(m))], LegacyKey).None?;
  }
}
