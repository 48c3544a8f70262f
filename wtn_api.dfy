/**
 * The waste transfer note document endpoint of `api/wtn.py`: HTML escaping of stored text, the
 * date formatting fallback, the render context with its fixed fallbacks, and the not-found path.
 * The HTML template, the PDF engine and the id-format probing of `_get_wtn` are left out; the
 * note is looked up by its id. `strftime` and the `,.2f` number format are parameters.
 */
module WtnApi {
  import opened Wrappers
  import Text
  import opened DriverModel

  // ----- escaping -----

  /** The entity each special character becomes; any other character stays itself. */
  function EscChar(c: char): string {
    if c == '&' then "&amp;"
    else if c == '<' then "&lt;"
    else if c == '>' then "&gt;"
    else if c == '"' then "&quot;"
    else if c == '\'' then "&#39;"
    else [c]
  }

  /** The five replacements of `_esc`, in the source's order: `&` first, then `<`, `>`, `"` and `'`. */
  function ReplaceChain(s: string): string {
    Text.ReplaceChar(Text.ReplaceChar(Text.ReplaceChar(Text.ReplaceChar(Text.ReplaceChar(s, '&', "&amp;"), '<', "&lt;"), '>', "&gt;"), '"', "&quot;"), '\'', "&#39;")
  }

  /**
   * `_esc`: "" for a missing or empty text, else each character replaced by its entity; that
   * this is what the source's chain of replacements computes is `EscIsReplaceChain`.
   */
  function Esc(s: Option<string>): (r: string)
    ensures s.None? ==> r == ""
    ensures HtmlSafe(r)
  {
    if s.None? then "" else
      EscapeEachSafe(s.value);
      EscapeEach(s.value)
  }

  /** The chained replacements of `_esc`, applied in the source's order, give `Esc`. */
  lemma EscIsReplaceChain(s: string)
    ensures Esc(Some(s)) == ReplaceChain(s)
  {
    ChainIsEscapeEach(s);
  }

  /** Each character replaced by its entity independently: what the chain amounts to. */
  function EscapeEach(s: string): string {
    if s == [] then [] else EscChar(s[0]) + EscapeEach(s[1..])
  }

  lemma {:induction false} ReplaceCharAbsent(s: string, c: char, rep: string)
    requires forall i :: 0 <= i < |s| ==> s[i] != c
    ensures Text.ReplaceChar(s, c, rep) == s
  {
    if s != [] {
      ReplaceCharAbsent(s[1..], c, rep);
    }
  }

  lemma ReplaceCharSingle(c: char, x: char, rep: string)
    ensures Text.ReplaceChar([c], x, rep) == if c == x then rep else [c]
  {
    assert [c][1..] == [];
  }

  /** On one character the chain gives that character's entity: no later step rewrites an earlier step's output. */
  lemma ChainOneChar(c: char)
    ensures ReplaceChain([c]) == EscChar(c)
  {
    if c == '&' {
      ChainAmp();
    } else if c == '<' {
      ChainLt();
    } else if c == '>' {
      ChainGt();
    } else if c == '"' {
      ChainQuot();
    } else if c == '\'' {
      ChainApos();
    } else {
      ChainPlain(c);
    }
  }

  lemma ChainAmp()
    ensures ReplaceChain(['&']) == "&amp;"
  {
    ReplaceCharSingle('&', '&', "&amp;");
    var e := EscChar('&');
    EscCharShape('&');
    ReplaceCharAbsent(e, '<', "&lt;");
    ReplaceCharAbsent(e, '>', "&gt;");
    ReplaceCharAbsent(e, '"', "&quot;");
    ReplaceCharAbsent(e, '\'', "&#39;");
  }

  lemma ChainLt()
    ensures ReplaceChain(['<']) == "&lt;"
  {
    ReplaceCharSingle('<', '&', "&amp;");
    ReplaceCharSingle('<', '<', "&lt;");
    var e := EscChar('<');
    EscCharShape('<');
    ReplaceCharAbsent(e, '>', "&gt;");
    ReplaceCharAbsent(e, '"', "&quot;");
    ReplaceCharAbsent(e, '\'', "&#39;");
  }

  lemma ChainGt()
    ensures ReplaceChain(['>']) == "&gt;"
  {
    ReplaceCharSingle('>', '&', "&amp;");
    ReplaceCharSingle('>', '<', "&lt;");
    ReplaceCharSingle('>', '>', "&gt;");
    var e := EscChar('>');
    EscCharShape('>');
    ReplaceCharAbsent(e, '"', "&quot;");
    ReplaceCharAbsent(e, '\'', "&#39;");
  }

  lemma ChainQuot()
    ensures ReplaceChain(['"']) == "&quot;"
  {
    ReplaceCharSingle('"', '&', "&amp;");
    ReplaceCharSingle('"', '<', "&lt;");
    ReplaceCharSingle('"', '>', "&gt;");
    ReplaceCharSingle('"', '"', "&quot;");
    var e := EscChar('"');
    EscCharShape('"');
    ReplaceCharAbsent(e, '\'', "&#39;");
  }

  lemma ChainApos()
    ensures ReplaceChain(['\'']) == "&#39;"
  {
    ReplaceCharSingle('\'', '&', "&amp;");
    ReplaceCharSingle('\'', '<', "&lt;");
    ReplaceCharSingle('\'', '>', "&gt;");
    ReplaceCharSingle('\'', '"', "&quot;");
    ReplaceCharSingle('\'', '\'', "&#39;");
    var e := EscChar('\'');
    EscCharShape('\'');
  }

  lemma ChainPlain(c: char)
    requires c != '&' && c != '<' && c != '>' && c != '"' && c != '\''
    ensures ReplaceChain([c]) == [c]
  {
    ReplaceCharSingle(c, '&', "&amp;");
    ReplaceCharSingle(c, '<', "&lt;");
    ReplaceCharSingle(c, '>', "&gt;");
    ReplaceCharSingle(c, '"', "&quot;");
    ReplaceCharSingle(c, '\'', "&#39;");
  }

  lemma ChainConcat(a: string, b: string)
    ensures ReplaceChain(a + b) == ReplaceChain(a) + ReplaceChain(b)
  {
    var s1a, s1b := Text.ReplaceChar(a, '&', "&amp;"), Text.ReplaceChar(b, '&', "&amp;");
    Text.ReplaceCharConcat(a, b, '&', "&amp;");
    var s2a, s2b := Text.ReplaceChar(s1a, '<', "&lt;"), Text.ReplaceChar(s1b, '<', "&lt;");
    Text.ReplaceCharConcat(s1a, s1b, '<', "&lt;");
    var s3a, s3b := Text.ReplaceChar(s2a, '>', "&gt;"), Text.ReplaceChar(s2b, '>', "&gt;");
    Text.ReplaceCharConcat(s2a, s2b, '>', "&gt;");
    var s4a, s4b := Text.ReplaceChar(s3a, '"', "&quot;"), Text.ReplaceChar(s3b, '"', "&quot;");
    Text.ReplaceCharConcat(s3a, s3b, '"', "&quot;");
    Text.ReplaceCharConcat(s4a, s4b, '\'', "&#39;");
  }

  /** The chained replacements equal escaping each character on its own. */
  lemma {:induction false} ChainIsEscapeEach(s: string)
    ensures ReplaceChain(s) == EscapeEach(s)
  {
    if s != [] {
      assert s == [s[0]] + s[1..];
      ChainConcat([s[0]], s[1..]);
      ChainOneChar(s[0]);
      ChainIsEscapeEach(s[1..]);
    }
  }

  predicate IsMarkup(c: char) {
    c == '<' || c == '>' || c == '"' || c == '\''
  }

  /** An entity `_esc` produces. */
  predicate StartsWithEntity(s: string) {
    Text.StartsWith(s, "&amp;") || Text.StartsWith(s, "&lt;") || Text.StartsWith(s, "&gt;")
    || Text.StartsWith(s, "&quot;") || Text.StartsWith(s, "&#39;")
  }

  lemma EscCharShape(c: char)
    ensures forall i :: 0 <= i < |EscChar(c)| ==> !IsMarkup(EscChar(c)[i])
    ensures forall i :: 0 < i < |EscChar(c)| ==> EscChar(c)[i] != '&'
    ensures EscChar(c)[0] == '&' ==> c == '&' || IsMarkup(c)
    ensures c == '&' || IsMarkup(c) ==> StartsWithEntity(EscChar(c))
  {
  }

  /** No raw `< > " '`, and every `&` begins an entity. */
  predicate HtmlSafe(r: string) {
    (forall i :: 0 <= i < |r| ==> !IsMarkup(r[i]))
    && (forall i :: 0 <= i < |r| && r[i] == '&' ==> StartsWithEntity(r[i..]))
  }

  /** Escaped text holds none of `< > " '`, and every `&` in it begins an entity. */
  lemma {:induction false} EscapeEachSafe(s: string)
    ensures HtmlSafe(EscapeEach(s))
  {
    if s != [] {
      var head, rest := EscChar(s[0]), EscapeEach(s[1..]);
      var r := head + rest;
      assert r == EscapeEach(s);
      EscapeEachSafe(s[1..]);
      EscCharShape(s[0]);
      forall i | 0 <= i < |r| ensures !IsMarkup(r[i]) {
        if i >= |head| {
          assert r[i] == rest[i - |head|];
        } else {
          assert r[i] == head[i];
        }
      }
      forall i | 0 <= i < |r| && r[i] == '&' ensures StartsWithEntity(r[i..]) {
        if i >= |head| {
          assert r[i] == rest[i - |head|];
          assert r[i..] == rest[i - |head|..];
        } else {
          assert r[i] == head[i];
          assert i == 0;
          assert r[i..] == head + rest;
          EntityPrefix(head, rest);
        }
      }
    }
  }

  lemma EntityPrefix(head: string, rest: string)
    requires StartsWithEntity(head)
    ensures StartsWithEntity(head + rest)
  {
    var r := head + rest;
    forall p | Text.StartsWith(head, p) ensures Text.StartsWith(r, p) {
      assert r[..|p|] == head[..|p|];
    }
  }

  /** The inverse of escaping: each entity read back as its character. */
  function Unescape(s: string): string
    decreases |s|
  {
    if s == [] then []
    else if Text.StartsWith(s, "&amp;") then "&" + Unescape(s[5..])
    else if Text.StartsWith(s, "&lt;") then "<" + Unescape(s[4..])
    else if Text.StartsWith(s, "&gt;") then ">" + Unescape(s[4..])
    else if Text.StartsWith(s, "&quot;") then "\"" + Unescape(s[6..])
    else if Text.StartsWith(s, "&#39;") then "'" + Unescape(s[5..])
    else [s[0]] + Unescape(s[1..])
  }

  /** A text that differs from `p` at some position of `p` does not start with `p`. */
  lemma DiffersAt(s: string, p: string, i: nat)
    requires i < |p| && i < |s| && s[i] != p[i]
    ensures !Text.StartsWith(s, p)
  {
    if |p| <= |s| {
      assert s[..|p|][i] == s[i];
    }
  }

  lemma UnescapeOne(c: char, rest: string)
    ensures Unescape(EscChar(c) + rest) == [c] + Unescape(rest)
  {
    var e := EscChar(c);
    var s := e + rest;
    assert s[..|e|] == e;
    assert s[|e|..] == rest;
    assert forall i :: 0 <= i < |e| ==> s[i] == e[i];
    if c != '&' && !IsMarkup(c) {
      DiffersAt(s, "&amp;", 0);
      DiffersAt(s, "&lt;", 0);
      DiffersAt(s, "&gt;", 0);
      DiffersAt(s, "&quot;", 0);
      DiffersAt(s, "&#39;", 0);
    } else if c == '<' {
      DiffersAt(s, "&amp;", 1);
    } else if c == '>' {
      DiffersAt(s, "&amp;", 1);
      DiffersAt(s, "&lt;", 1);
    } else if c == '"' {
      DiffersAt(s, "&amp;", 1);
      DiffersAt(s, "&lt;", 1);
      DiffersAt(s, "&gt;", 1);
    } else if c == '\'' {
      DiffersAt(s, "&amp;", 1);
      DiffersAt(s, "&lt;", 1);
      DiffersAt(s, "&gt;", 1);
      DiffersAt(s, "&quot;", 1);
    }
  }

  /** Reading the entities back recovers the text: escaping loses nothing. */
  lemma {:induction false} UnescapeEsc(s: string)
    ensures Unescape(Esc(Some(s))) == s
  {
    EscapeEachRoundTrip(s);
  }

  lemma {:induction false} EscapeEachRoundTrip(s: string)
    ensures Unescape(EscapeEach(s)) == s
  {
    if s != [] {
      UnescapeOne(s[0], EscapeEach(s[1..]));
      EscapeEachRoundTrip(s[1..]);
    }
  }

  /** Text without special characters is left as it is. */
  lemma {:induction false} EscapePlain(s: string)
    requires forall i :: 0 <= i < |s| ==> s[i] != '&' && !IsMarkup(s[i])
    ensures EscapeEach(s) == s
  {
    if s != [] {
      EscapePlain(s[1..]);
    }
  }

  // ----- dates and the render context -----

  /** `_fmt_dt`: `strftime("%Y-%m-%d %H:%M")` of a date, "" when there is none. */
  function FmtDt(dt: Option<int>, strftime: int -> string): (r: string)
    ensures dt.None? ==> r == ""
    ensures dt.Some? ==> r == strftime(dt.value)
  {
    if dt.Some? then strftime(dt.value) else ""
  }

  /** The original, transporter and receiver fields the document template fills in. */
  datatype WtnContext = WtnContext(
    wtnId: string,
    transferId: string,
    createdAt: string,
    qtyStr: string,
    wasteType: string,
    originLoc: string,
    destLoc: string,
    treatment: string,
    carrierCompany: string,
    carrierName: string,
    vehiclePlate: string,
    originName: string,
    originId: string,
    originTel: string,
    carrierId: string,
    carrierTel: string,
    receiverName: string,
    receiverId: string,
    loadedAt: string,
    receivedAt: string)

  /** `x or default` on an optional text. */
  function OrDefault(s: Option<string>, default: string): string {
    if s.Some? && s.value != "" then s.value else default
  }

  /** `_ctx_from_wtn`. `qtyText` is the `,.2f` format of a quantity. */
  function CtxFromWtn(w: WasteTransferNote, strftime: int -> string, qtyText: real -> string): (c: WtnContext)
    ensures c.wtnId == w.id && c.transferId == w.transferId
    ensures w.quantityKg.None? ==> c.qtyStr == ""
    ensures w.quantityKg.Some? ==> c.qtyStr == qtyText(w.quantityKg.value) + " kg"
    ensures c.vehiclePlate == c.originName == c.originId == c.originTel == c.carrierId == c.carrierTel == c.receiverName == c.receiverId == ""
  {
    var created := FmtDt(w.createdAt, strftime);
    WtnContext(
      w.id, w.transferId, created,
      if w.quantityKg.Some? then qtyText(w.quantityKg.value) + " kg" else "",
      Esc(Some(OrDefault(w.description, "MIXED WASTE"))),
      Esc(Some(OrDefault(w.producerName, "ORIGINATOR SITE"))),
      Esc(Some(OrDefault(w.destinationName, "APPROVED LOCATION"))),
      Esc(Some(OrDefault(w.ewcCode, "APPROVED METHOD"))),
      Esc(Some(OrDefault(w.carrierName, "CARRIER CO."))),
      Esc(Some(OrDefault(w.carrierName, "Driver"))),
      "", "", "", "", "", "", "", "",
      created, created)
  }

  /** The three dates of the document all show the note's creation time. */
  lemma CtxDatesAgree(w: WasteTransferNote, strftime: int -> string, qtyText: real -> string)
    ensures var c := CtxFromWtn(w, strftime, qtyText);
      c.createdAt == c.loadedAt == c.receivedAt == FmtDt(w.createdAt, strftime)
  {
  }

  /** A missing or empty text: Python falsy. */
  predicate Blank(s: Option<string>) {
    s.None? || s.value == ""
  }

  /** A missing or empty description or EWC code shows the fixed fallback for the waste or the treatment. */
  lemma CtxWasteFallbacks(w: WasteTransferNote, strftime: int -> string, qtyText: real -> string)
    requires Blank(w.description) && Blank(w.ewcCode)
    ensures var c := CtxFromWtn(w, strftime, qtyText);
      c.wasteType == "MIXED WASTE" && c.treatment == "APPROVED METHOD"
  {
    MixedWastePlain();
    ApprovedMethodPlain();
  }

  /** A missing or empty producer or destination name shows the fixed fallback for that site. */
  lemma CtxSiteFallbacks(w: WasteTransferNote, strftime: int -> string, qtyText: real -> string)
    requires Blank(w.producerName) && Blank(w.destinationName)
    ensures var c := CtxFromWtn(w, strftime, qtyText);
      c.originLoc == "ORIGINATOR SITE" && c.destLoc == "APPROVED LOCATION"
  {
    OriginatorSitePlain();
    ApprovedLocationPlain();
  }

  /** A missing or empty carrier name shows "CARRIER CO." as the company and "Driver" as the person. */
  lemma CtxCarrierFallbacks(w: WasteTransferNote, strftime: int -> string, qtyText: real -> string)
    requires Blank(w.carrierName)
    ensures var c := CtxFromWtn(w, strftime, qtyText);
      c.carrierCompany == "CARRIER CO." && c.carrierName == "Driver"
  {
    CarrierCoPlain();
    DriverPlain();
  }

  // Each fallback text holds no character that needs escaping.

  lemma MixedWastePlain()
    ensures EscapeEach("MIXED WASTE") == "MIXED WASTE"
  {
    EscapePlain("MIXED WASTE");
  }

  lemma OriginatorSitePlain()
    ensures EscapeEach("ORIGINATOR SITE") == "ORIGINATOR SITE"
  {
    EscapePlain("ORIGINATOR SITE");
  }

  lemma ApprovedLocationPlain()
    ensures EscapeEach("APPROVED LOCATION") == "APPROVED LOCATION"
  {
    EscapePlain("APPROVED LOCATION");
  }

  lemma ApprovedMethodPlain()
    ensures EscapeEach("APPROVED METHOD") == "APPROVED METHOD"
  {
    EscapePlain("APPROVED METHOD");
  }

  lemma CarrierCoPlain()
    ensures EscapeEach("CARRIER CO.") == "CARRIER CO."
  {
    EscapePlain("CARRIER CO.");
  }

  lemma DriverPlain()
    ensures EscapeEach("Driver") == "Driver"
  {
    EscapePlain("Driver");
  }

  /** A stored carrier name fills both carrier fields, escaped. */
  lemma CtxCarrierShared(w: WasteTransferNote, strftime: int -> string, qtyText: real -> string)
    requires w.carrierName.Some? && w.carrierName.value != ""
    ensures var c := CtxFromWtn(w, strftime, qtyText);
      c.carrierCompany == c.carrierName == EscapeEach(w.carrierName.value)
  {
  }

  // ----- the document endpoint -----

  datatype Disposition = Inline | Attachment

  datatype WtnDocument = WtnDocument(mediaType: string, disposition: Disposition, fileName: string, context: WtnContext)

  /** The note with the id (`_get_wtn`, without its id-format probing). */
  function FindNote(notes: seq<WasteTransferNote>, id: string): (r: Option<nat>)
    ensures r.Some? ==> r.value < |notes| && notes[r.value].id == id
    ensures r.None? <==> forall i :: 0 <= i < |notes| ==> notes[i].id != id
  {
    if notes == [] then None
    else if notes[0].id == id then Some(0)
    else match FindNote(notes[1..], id)
      case None => None
      case Some(j) => Some(j + 1)
  }

  /** The query's `format` when none is given. */
  const DefaultFormat: string := "pdf"

  /** The query's `as_attachment` when none is given. */
  const DefaultAsAttachment: bool := false

  /**
   * `GET /wtn/{wtn_id}.pdf`: 404 for an unknown note; a PDF when it is asked for and an engine is
   * installed, the HTML page otherwise. `format` is validated against `^(pdf|html)$` first. A query
   * without `format` asks for "pdf", and one without `as_attachment` is shown inline.
   */
  function GetWtnDocument(notes: seq<WasteTransferNote>, wtnId: string, format: Option<string>, asAttachment: Option<bool>,
                          hasPdfEngine: bool, strftime: int -> string, qtyText: real -> string): (r: Response<WtnDocument>)
    ensures var f := format.GetOr(DefaultFormat);
      f != "pdf" && f != "html" ==> r.Err? && r.code == 422
    ensures var f := format.GetOr(DefaultFormat);
      (f == "pdf" || f == "html") && FindNote(notes, wtnId).None? ==> r == Err(404, "WTN not found")
    ensures var f := format.GetOr(DefaultFormat);
      (f == "pdf" || f == "html") && FindNote(notes, wtnId).Some? ==>
        r.Ok? && r.value.fileName == "wtn-" + r.value.context.wtnId + (if r.value.mediaType == "application/pdf" then ".pdf" else ".html")
        && (r.value.mediaType == "application/pdf" || r.value.mediaType == "text/html")
    ensures r.Ok? ==> r.value.context == CtxFromWtn(notes[FindNote(notes, wtnId).value], strftime, qtyText)
    ensures r.Ok? ==> (r.value.mediaType == "application/pdf" <==> format.GetOr(DefaultFormat) == "pdf" && hasPdfEngine)
    ensures r.Ok? ==> (r.value.disposition == Attachment <==> asAttachment.GetOr(DefaultAsAttachment))
  {
    var f := format.GetOr(DefaultFormat);
    if f != "pdf" && f != "html" then Err(422, "format must match ^(pdf|html)$")
    else match FindNote(notes, wtnId)
      case None => Err(404, "WTN not found")
      case Some(k) =>
        var ctx := CtxFromWtn(notes[k], strftime, qtyText);
        var disp := if asAttachment.GetOr(DefaultAsAttachment) then Attachment else Inline;
        if f == "pdf" && hasPdfEngine then Ok(WtnDocument("application/pdf", disp, "wtn-" + ctx.wtnId + ".pdf", ctx))
        else Ok(WtnDocument("text/html", disp, "wtn-" + ctx.wtnId + ".html", ctx))
  }

  /**
   * A bare request for a known note gets the note inline: a PDF named `wtn-<id>.pdf` when an
   * engine is installed, else the HTML page named `wtn-<id>.html`.
   */
  lemma DocumentDefaults(notes: seq<WasteTransferNote>, wtnId: string, hasPdfEngine: bool, strftime: int -> string, qtyText: real -> string)
    requires FindNote(notes, wtnId).Some?
    ensures var r := GetWtnDocument(notes, wtnId, None, None, hasPdfEngine, strftime, qtyText);
      var ctx := CtxFromWtn(notes[FindNote(notes, wtnId).value], strftime, qtyText);
      r.Ok? && r.value.disposition == Inline
      && (hasPdfEngine ==> r.value.mediaType == "application/pdf" && r.value.fileName == "wtn-" + ctx.wtnId + ".pdf")
      && (!hasPdfEngine ==> r.value.mediaType == "text/html" && r.value.fileName == "wtn-" + ctx.wtnId + ".html")
  {
  }
}
