/**
 * Links to a waste transfer note document (`frontend/src/components/WtnLink.tsx`): the API base
 * joined with the note's path, the HTML and PDF variants, and the search for a note link in an
 * arbitrary JSON response. An object's values are taken in member order, not in the
 * integer-like-keys-first order of `Object.values`.
 */
module WtnLink {
  import opened Wrappers
  import Text
  import opened Json
  import ApiClient

  /** The base without one trailing "/". */
  function TrimOneSlash(base: string): (b: string)
    ensures Text.EndsWith(base, "/") ==> base == b + "/"
    ensures !Text.EndsWith(base, "/") ==> b == base
  {
    if Text.EndsWith(base, "/") then base[..|base| - 1] else base
  }

  /** The path with a leading "/". */
  function WithLeadingSlash(path: string): (p: string)
    ensures Text.StartsWith(p, "/")
    ensures Text.StartsWith(path, "/") ==> p == path
    ensures !Text.StartsWith(path, "/") ==> p == "/" + path
  {
    if Text.StartsWith(path, "/") then path else "/" + path
  }

  /**
   * `joinUrl(base, path)`: the base less one trailing "/", then a single "/", then the path;
   * the seam is the only slash the join adds or removes.
   */
  function JoinUrl(base: string, path: string): (r: string)
    ensures |r| == |TrimOneSlash(base)| + 1 + |path| - (if Text.StartsWith(path, "/") then 1 else 0)
    ensures Text.StartsWith(r, TrimOneSlash(base)) && r[|TrimOneSlash(base)|] == '/'
    ensures Text.EndsWith(r, path)
  {
    var b := TrimOneSlash(base);
    var p := WithLeadingSlash(path);
    assert (b + p)[..|b|] == b;
    assert (b + p)[|b| + |p| - |path|..] == path by {
      if !Text.StartsWith(path, "/") {
        assert p[1..] == path;
      }
    }
    b + p
  }

  /** Exactly one "/" joins a base and a path that bring at most one between them. */
  lemma JoinSingleSlash(b: string, p: string)
    requires !Text.EndsWith(b, "/") && !Text.StartsWith(p, "/")
    ensures JoinUrl(b + "/", p) == b + "/" + p
    ensures JoinUrl(b, "/" + p) == b + "/" + p
    ensures JoinUrl(b + "/", "/" + p) == b + "/" + p
    ensures JoinUrl(b, p) == b + "/" + p
  {
    var bs := b + "/";
    assert Text.EndsWith(bs, "/") by {
      assert bs[|bs| - 1..] == "/";
    }
    assert bs[..|bs| - 1] == b;
    assert Text.StartsWith("/" + p, "/") by {
      assert ("/" + p)[..1] == "/";
    }
  }

  /** Only one trailing "/" of the base is removed. */
  lemma JoinKeepsSecondSlash(b: string, p: string)
    requires Text.StartsWith(p, "/")
    ensures JoinUrl(b + "//", p) == b + "/" + p
  {
    var bs := b + "//";
    assert bs[|bs| - 1..] == "/";
    assert bs[..|bs| - 1] == b + "/";
  }

  /** The preview link. */
  function HtmlUrl(baseUrl: string, wtnPdfUrl: string): string {
    JoinUrl(baseUrl, wtnPdfUrl) + "?format=html"
  }

  /** The download link. */
  function PdfUrl(baseUrl: string, wtnPdfUrl: string): string {
    JoinUrl(baseUrl, wtnPdfUrl) + "?format=pdf"
  }

  /** The two links differ only in the requested format. */
  lemma LinksShareTarget(baseUrl: string, wtnPdfUrl: string)
    ensures Text.StartsWith(HtmlUrl(baseUrl, wtnPdfUrl), JoinUrl(baseUrl, wtnPdfUrl))
    ensures Text.StartsWith(PdfUrl(baseUrl, wtnPdfUrl), JoinUrl(baseUrl, wtnPdfUrl))
    ensures HtmlUrl(baseUrl, wtnPdfUrl) != PdfUrl(baseUrl, wtnPdfUrl)
  {
    var j := JoinUrl(baseUrl, wtnPdfUrl);
    var h := HtmlUrl(baseUrl, wtnPdfUrl);
    var p := PdfUrl(baseUrl, wtnPdfUrl);
    assert h[..|j|] == j && p[..|j|] == j;
    assert |h| != |p|;
  }

  // ----- finding a note link in a response -----

  /** A string that looks like a note document path. */
  predicate IsPdfLink(v: Json) {
    v.JStr? && Text.Contains(v.s, "/wtn/") && Text.EndsWith(v.s, ".pdf")
  }

  /** A non-empty `wtn_pdf_url` string member. */
  function OwnUrl(v: Json): (r: Option<string>)
    ensures r.Some? ==> r.value != ""
  {
    var u := ApiClient.JsGet(v, "wtn_pdf_url");
    if u.JStr? && u.s != "" then Some(u.s) else None
  }

  /** `typeof v === "object"` for a truthy value: objects and arrays. */
  predicate IsObjectLike(v: Json) {
    v.JObj? || v.JArr?
  }

  /** `Object.values(v)`. */
  function ValueCount(v: Json): nat {
    match v
    case JObj(ms) => |ms|
    case JArr(items) => |items|
    case _ => 0
  }

  /** `findWtnUrl(resp)`: its own `wtn_pdf_url`, else the first value that is a note link or holds one. */
  function FindWtnUrl(v: Json): (r: Option<string>)
    ensures !IsObjectLike(v) ==> r.None?
    ensures OwnUrl(v).Some? && IsObjectLike(v) ==> r == OwnUrl(v)
    ensures r.Some? ==> r.value != ""
    decreases v, 1, 0
  {
    if !IsObjectLike(v) then None
    else if OwnUrl(v).Some? then OwnUrl(v)
    else ScanValues(v, 0)
  }

  /** The loop over `Object.values(v)` from index `i`. */
  function ScanValues(v: Json, i: nat): (r: Option<string>)
    ensures r.Some? ==> r.value != ""
    decreases v, 0, ValueCount(v) - i
  {
    if i >= ValueCount(v) then None
    else
      var c := match v case JObj(ms) => ms[i].1 case JArr(items) => items[i] case _ => JNull;
      if IsPdfLink(c) then Some(c.s)
      else
        var nested := if IsObjectLike(c) then FindWtnUrl(c) else None;
        if nested.Some? && nested.value != "" then nested else ScanValues(v, i + 1)
  }

  /** A value is a link, or an object or array holding one at any depth (an independent statement of what the search looks for). */
  predicate HoldsLink(v: Json)
    decreases v, 1
  {
    IsObjectLike(v) && (OwnUrl(v).Some? || exists i :: 0 <= i < ValueCount(v) && ValueHoldsLink(v, i))
  }

  predicate ValueHoldsLink(v: Json, i: nat)
    requires i < ValueCount(v)
    decreases v, 0
  {
    match v
    case JObj(ms) => IsPdfLink(ms[i].1) || HoldsLink(ms[i].1)
    case JArr(items) => IsPdfLink(items[i]) || HoldsLink(items[i])
  }

  /** The search finds something exactly when the response holds a link somewhere. */
  lemma {:induction false} FindIffHoldsLink(v: Json)
    ensures FindWtnUrl(v).Some? <==> HoldsLink(v)
    decreases v, 1, 0
  {
    if IsObjectLike(v) && OwnUrl(v).None? {
      ScanIffHolds(v, 0);
      assert FindWtnUrl(v) == ScanValues(v, 0);
      assert HoldsLink(v) <==> exists i :: 0 <= i < ValueCount(v) && ValueHoldsLink(v, i);
      if HoldsLink(v) {
        var i :| 0 <= i < ValueCount(v) && ValueHoldsLink(v, i);
        assert exists j :: 0 <= j < ValueCount(v) && ValueHoldsLink(v, j);
        assert (exists j :: 0 <= j < ValueCount(v) && ValueHoldsLink(v, j)) ==> ScanValues(v, 0).Some?;
        assert ScanValues(v, 0).Some?;
      } else {
        assert ScanValues(v, 0).None?;
      }
    }
  }

  lemma {:induction false} ScanIffHolds(v: Json, i: nat)
    requires IsObjectLike(v)
    ensures ScanValues(v, i).Some? <==> exists j :: i <= j < ValueCount(v) && ValueHoldsLink(v, j)
    decreases v, 0, ValueCount(v) - i
  {
    if i < ValueCount(v) {
      var c := match v case JObj(ms) => ms[i].1 case JArr(items) => items[i] case _ => JNull;
      assert ValueHoldsLink(v, i) <==> IsPdfLink(c) || HoldsLink(c);
      if !IsPdfLink(c) {
        if IsObjectLike(c) {
          FindIffHoldsLink(c);
        }
        ScanIffHolds(v, i + 1);
      }
    }
  }
}
