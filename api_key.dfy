/**
 * The API-key middleware of `middleware_apikey.py`: in production, requests under a protected
 * prefix need the configured key, unless an allow-listed prefix matches first. The process
 * environment is a map; the request is its path and its key header.
 */
module ApiKey {
  import opened Wrappers
  import Text
  import opened Ordering

  /** An entry with the leading "/" it may lack. */
  function WithSlash(x: string): (r: string)
    ensures Text.StartsWith(r, "/")
    ensures Text.StartsWith(x, "/") ==> r == x
  {
    if Text.StartsWith(x, "/") then x else "/" + x
  }

  /** `r` is what `_norm_prefixes(xs)` returns: the non-empty entries with a leading "/", sorted, without repeats. */
  ghost predicate NormalizedPrefixes(xs: Option<seq<string>>, r: seq<string>) {
    (forall p :: p in r <==> xs.Some? && exists i :: 0 <= i < |xs.value| && xs.value[i] != "" && p == WithSlash(xs.value[i]))
    && (forall i, j :: 0 <= i < j < |r| ==> LexLe(r[i], r[j]) && r[i] != r[j])
  }

  /** `_norm_prefixes`: the loop collects the normalised entries; `sorted(set(...))` orders them. */
  method NormPrefixes(xs: Option<seq<string>>) returns (r: seq<string>)
    ensures NormalizedPrefixes(xs, r)
    ensures xs.None? || xs.value == [] ==> r == []
    ensures forall p :: p in r ==> Text.StartsWith(p, "/")
  {
    if xs.None? || xs.value == [] {
      return [];
    }
    var items := xs.value;
    var norm: seq<string> := [];
    for i := 0 to |items|
      invariant forall p :: p in norm <==> exists k :: 0 <= k < i && items[k] != "" && p == WithSlash(items[k])
    {
      if items[i] == "" {
        continue;
      }
      norm := norm + [WithSlash(items[i])];
    }
    r := SortedSet(norm);
  }

  const DefaultProtected: seq<string> := ["/driver"]
  const DefaultAllow: seq<string> := ["/__meta", "/__debug", "/docs", "/redoc", "/openapi.json", "/skips/__smoke"]

  /** What the middleware does with a request. */
  datatype Decision = Forward | Reject(status: int, detail: string)

  /** `path.startswith(p)` for some `p` of the prefixes. */
  predicate UnderAny(prefixes: seq<string>, path: string) {
    exists i :: 0 <= i < |prefixes| && Text.StartsWith(path, prefixes[i])
  }

  /** `os.getenv(name) or fallback`. */
  function EnvOr(env: map<string, string>, name: string, fallback: string): string {
    if name in env && env[name] != "" then env[name] else fallback
  }

  class ApiKeyMiddleware {
    const headerName: string
    const envVar: string
    const protected: seq<string>
    const allow: seq<string>
    const hideAs404: bool

    /** The prefixes are normalised once, when the middleware is installed. */
    constructor(headerName: string, envVar: string, protectedPrefixes: seq<string>, allowPrefixes: seq<string>, hideAs404: bool)
      ensures this.headerName == headerName && this.envVar == envVar && this.hideAs404 == hideAs404
      ensures NormalizedPrefixes(Some(protectedPrefixes), protected)
      ensures NormalizedPrefixes(Some(allowPrefixes), allow)
    {
      var p := NormPrefixes(Some(protectedPrefixes));
      var a := NormPrefixes(Some(allowPrefixes));
      this.headerName := headerName;
      this.envVar := envVar;
      this.protected := p;
      this.allow := a;
      this.hideAs404 := hideAs404;
    }

    /** `dispatch`: the decision for a request with this path and key header. */
    function Dispatch(env: map<string, string>, urlPath: string, key: Option<string>): (d: Decision)
      ensures Text.Lower(EnvOr(env, "ENV", "dev")) != "prod" ==> d == Forward
      ensures d.Reject? ==> d.status == (if hideAs404 then 404 else 401)
    {
      if Text.Lower(EnvOr(env, "ENV", "dev")) != "prod" then Forward
      else
        var path := if urlPath == "" then "/" else urlPath;
        if UnderAny(allow, path) then Forward
        else if !UnderAny(protected, path) then Forward
        else
          var expected := if envVar in env then env[envVar] else "";
          if key.Some? && key.value != "" && expected != "" && key.value == expected then Forward
          else if hideAs404 then Reject(404, "Not Found")
          else Reject(401, "Missing or invalid API key")
    }

    /** In production, an allow-listed path is forwarded even when a protected prefix matches it too. */
    lemma AllowListWins(env: map<string, string>, urlPath: string, key: Option<string>)
      requires urlPath != "" && UnderAny(allow, urlPath)
      ensures Dispatch(env, urlPath, key) == Forward
    {
    }

    /** A production request under a protected prefix and no allowed one passes exactly with the right, non-empty key. */
    lemma ProtectedNeedsKey(env: map<string, string>, urlPath: string, key: Option<string>)
      requires Text.Lower(EnvOr(env, "ENV", "dev")) == "prod"
      requires urlPath != "" && !UnderAny(allow, urlPath) && UnderAny(protected, urlPath)
      ensures Dispatch(env, urlPath, key) == Forward <==>
        key.Some? && key.value != "" && envVar in env && env[envVar] == key.value
    {
    }

    /** A path under no protected prefix is forwarded. */
    lemma UnprotectedForwarded(env: map<string, string>, urlPath: string, key: Option<string>)
      requires urlPath != "" && !UnderAny(protected, urlPath)
      ensures Dispatch(env, urlPath, key) == Forward
    {
    }
  }

  /** The normalised list is determined by the entries: any two normalisations of them are equal. */
  lemma NormalizationUnique(xs: Option<seq<string>>, r1: seq<string>, r2: seq<string>)
    requires NormalizedPrefixes(xs, r1) && NormalizedPrefixes(xs, r2)
    ensures r1 == r2
  {
    assert SetOf(r1) == SetOf(r2);
    SameSetStrict(r1, r2);
  }

  /** The default protected prefix survives normalisation unchanged. */
  lemma DefaultProtectedKept(r: seq<string>)
    requires NormalizedPrefixes(Some(DefaultProtected), r)
    ensures r == ["/driver"]
  {
    var d := DefaultProtected;
    assert WithSlash(d[0]) == "/driver" by {
      assert d[0][..1] == "/";
    }
    assert NormalizedPrefixes(Some(d), ["/driver"]);
    NormalizationUnique(Some(d), r, ["/driver"]);
  }

  function SetOf(s: seq<string>): set<string> {
    set x | x in s
  }

  lemma SetOfEmpty(s: seq<string>)
    ensures SetOf(s) == {} ==> s == []
  {
    if s != [] {
      assert s[0] in SetOf(s);
    }
  }

  /** Two strictly increasing lists with the same elements are equal. */
  lemma {:induction false} SameSetStrict(a: seq<string>, b: seq<string>)
    requires forall i, j :: 0 <= i < j < |a| ==> LexLe(a[i], a[j]) && a[i] != a[j]
    requires forall i, j :: 0 <= i < j < |b| ==> LexLe(b[i], b[j]) && b[i] != b[j]
    requires SetOf(a) == SetOf(b)
    ensures a == b
    decreases |a|
  {
    if a == [] {
      assert SetOf(a) == {};
      SetOfEmpty(b);
    } else {
      assert a[0] in SetOf(b);
      if b == [] {
        assert false;
      }
      var i :| 0 <= i < |b| && b[i] == a[0];
      assert b[0] in SetOf(a);
      var j :| 0 <= j < |a| && a[j] == b[0];
      if i != 0 && j != 0 {
        LexLeAntisymmetric(a[0], b[0]);
      }
      assert a[0] == b[0];
      assert SetOf(a[1..]) == SetOf(b[1..]) by {
        forall x ensures x in SetOf(a[1..]) <==> x in SetOf(b[1..]) {
          if x in a[1..] {
            var k :| 0 <= k < |a[1..]| && a[1..][k] == x;
            assert a[k + 1] == x && a[0] != x;
            assert x in SetOf(b);
            var m :| 0 <= m < |b| && b[m] == x;
            assert m != 0;
            assert b[1..][m - 1] == x;
          }
          if x in b[1..] {
            var k :| 0 <= k < |b[1..]| && b[1..][k] == x;
            assert b[k + 1] == x && b[0] != x;
            assert x in SetOf(a);
            var m :| 0 <= m < |a| && a[m] == x;
            assert m != 0;
            assert a[1..][m - 1] == x;
          }
        }
      }
      SameSetStrict(a[1..], b[1..]);
      assert a == [a[0]] + a[1..] && b == [b[0]] + b[1..];
    }
  }
}
