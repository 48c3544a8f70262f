/**
 * JSON values as request bodies and responses carry them, with the truthiness and
 * string conversions that the Python back end and the TypeScript front end apply to them.
 * An object keeps its members in order (JavaScript iterates keys in insertion order);
 * a Python `dict` is a `map` from keys to values.
 */
module Json {
  import opened Wrappers
  import Text

  datatype Json =
    | JNull
    | JBool(b: bool)
    | JNum(n: real)
    | JStr(s: string)
    | JArr(items: seq<Json>)
    | JObj(members: seq<(string, Json)>)

  /** A Python `dict[str, Any]` decoded from JSON. */
  type Dict = map<string, Json>

  /** The keys of an object's members. */
  function MemberKeys(members: seq<(string, Json)>): set<string> {
    set i | 0 <= i < |members| :: members[i].0
  }

  /** The members of an object as a Python dict: a later duplicate key overrides an earlier one. */
  function ToDict(members: seq<(string, Json)>): (d: Dict)
    ensures d.Keys == MemberKeys(members)
    ensures members != [] ==> d[members[|members| - 1].0] == members[|members| - 1].1
  {
    if members == [] then map[]
    else
      var front := members[..|members| - 1];
      var last := members[|members| - 1];
      assert MemberKeys(members) == MemberKeys(front) + {last.0} by {
        forall k | k in MemberKeys(members) ensures k in MemberKeys(front) + {last.0} {
          var i :| 0 <= i < |members| && members[i].0 == k;
          if i < |members| - 1 {
            assert front[i] == members[i];
          }
        }
        forall k | k in MemberKeys(front) ensures k in MemberKeys(members) {
          var i :| 0 <= i < |front| && front[i].0 == k;
          assert members[i] == front[i];
        }
      }
      ToDict(front)[last.0 := last.1]
  }

  /** Python `bool(v)`: `None`, `False`, `0`, `""`, `[]` and `{}` are false. */
  predicate PyTruthy(v: Json) {
    match v
    case JNull => false
    case JBool(b) => b
    case JNum(n) => n != 0.0
    case JStr(s) => s != ""
    case JArr(items) => items != []
    case JObj(members) => members != []
  }

  /** JavaScript truthiness: `null`, `false`, `0` and `""` are false; every array and object is true. */
  predicate JsTruthy(v: Json) {
    match v
    case JNull => false
    case JBool(b) => b
    case JNum(n) => n != 0.0
    case JStr(s) => s != ""
    case _ => true
  }

  /** `d.get(k)` with JSON `null` and a missing key both read as Python `None`. */
  function Get(d: Option<Dict>, k: string): Json {
    if d.Some? && k in d.value then d.value[k] else JNull
  }

  /** Whether `v` is a JSON string. */
  predicate IsStr(v: Json) {
    v.JStr?
  }

  /** The integral part of a number written in decimal, when it is whole. */
  function WholeText(n: real): Option<string> {
    if n == n.Floor as real then Some(Text.IntText(n.Floor)) else None
  }

  /** JavaScript `a ?? b ?? …`: the first value that is neither `null` nor `undefined`, else `default`. */
  function FirstDefined(vals: seq<Json>, default: Json): (r: Json)
    ensures (forall i :: 0 <= i < |vals| ==> vals[i].JNull?) ==> r == default
    ensures forall i :: 0 <= i < |vals| && !vals[i].JNull? && (forall j :: 0 <= j < i ==> vals[j].JNull?) ==> r == vals[i]
  {
    if vals == [] then default
    else if !vals[0].JNull? then vals[0]
    else
      var r := FirstDefined(vals[1..], default);
      FirstDefinedStep(vals, default, r);
      r
  }

  /** Skipping a leading `null` keeps the answer of the rest. */
  lemma FirstDefinedStep(vals: seq<Json>, default: Json, r: Json)
    requires vals != [] && vals[0].JNull?
    requires (forall i :: 0 <= i < |vals[1..]| ==> vals[1..][i].JNull?) ==> r == default
    requires forall i :: 0 <= i < |vals[1..]| && !vals[1..][i].JNull? && (forall j :: 0 <= j < i ==> vals[1..][j].JNull?) ==> r == vals[1..][i]
    ensures (forall i :: 0 <= i < |vals| ==> vals[i].JNull?) ==> r == default
    ensures forall i :: 0 <= i < |vals| && !vals[i].JNull? && (forall j :: 0 <= j < i ==> vals[j].JNull?) ==> r == vals[i]
  {
    var t := vals[1..];
    assert forall i :: 1 <= i < |vals| ==> t[i - 1] == vals[i];
    if forall i :: 0 <= i < |vals| ==> vals[i].JNull? {
      assert forall i :: 0 <= i < |t| ==> t[i].JNull?;
    }
    forall i | 0 <= i < |vals| && !vals[i].JNull? && (forall j :: 0 <= j < i ==> vals[j].JNull?) ensures r == vals[i] {
      assert i > 0 && t[i - 1] == vals[i];
      assert forall j :: 0 <= j < i - 1 ==> t[j] == vals[j + 1];
    }
  }
}
