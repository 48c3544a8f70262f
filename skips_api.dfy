/**
 * The admin skip registry (`api/skips.py`): the admin-key guards, the QR deep link,
 * the label-asset bookkeeping (three PNG labels and one three-up PDF per skip), the
 * guarded seed endpoint and the admin create endpoint.
 *
 * The label image bytes and the PDF are left out; an asset row keeps its id, skip,
 * kind, index and content type. The `Organization` model is imported optionally by the
 * source and is not part of the repository, so the organisation table is a parameter
 * `orgs: Option<seq<Organization>>` whose `None` is the shipped configuration.
 */
module SkipsApi {
  import opened Wrappers
  import Text
  import opened SkipModel
  import opened Store

  // ----- admin key guards -----

  /** A key that Python treats as set: present and non-empty. */
  predicate Configured(key: Option<string>) {
    key.Some? && key.value != ""
  }

  /** `_admin_key_expected`: the `ADMIN_API_KEY` setting when it is set, else the `SEED_API_KEY` environment variable. */
  function ExpectedAdminKey(setting: Option<string>, env: Option<string>): (r: Option<string>)
    ensures Configured(setting) ==> r == setting
    ensures !Configured(setting) ==> r == env
    ensures Configured(r) <==> Configured(setting) || Configured(env)
  {
    if Configured(setting) then setting else env
  }

  /** `_admin_key_ok`: the `X-API-Key` header must equal a configured key. */
  function AdminKeyOk(expected: Option<string>, header: Option<string>): (r: Response<()>)
    ensures r.Ok? <==> Configured(expected) && header == expected
    ensures r.Err? ==> r == Err(401, "Not authenticated")
  {
    if !Configured(expected) || header != expected then Err(401, "Not authenticated") else Ok(())
  }

  /** `_admin_key_ok_q`: the configured key may come in the header or in the `key` query parameter. */
  function AdminKeyOkQ(expected: Option<string>, header: Option<string>, key: Option<string>): (r: Response<()>)
    ensures r.Err? ==> r == Err(401, "Not authenticated")
    ensures !Configured(expected) ==> r.Err?
  {
    if Configured(expected) && (header == expected || key == expected) then Ok(()) else Err(401, "Not authenticated")
  }

  /** The query-string guard accepts exactly what the header guard accepts through either channel. */
  lemma QueryGuardEitherChannel(expected: Option<string>, header: Option<string>, key: Option<string>)
    ensures AdminKeyOkQ(expected, header, key).Ok? <==> AdminKeyOk(expected, header).Ok? || AdminKeyOk(expected, key).Ok?
  {
  }

  // ----- QR deep links and integer fields -----

  /** `DRIVER_QR_BASE_URL`'s default. */
  const DefaultDriverQrBase := "http://localhost:5173"

  /** `_qr_deeplink`: the driver page for a code under the configured base, or the bare code without one. */
  function QrDeeplink(base: string, code: string): (r: string)
    ensures base == "" ==> r == code
    ensures base != "" ==>
      var n := |r| - |"/driver/qr/" + code|;
      0 <= n <= |base| && r == base[..n] + "/driver/qr/" + code
      && (n > 0 ==> base[n - 1] != '/')
      && (forall i :: n <= i < |base| ==> base[i] == '/')
  {
    if base != "" then Text.RStripChar(base, '/') + "/driver/qr/" + code else code
  }

  /** Extra trailing slashes on the base do not change the deep link. */
  lemma QrDeeplinkTrailingSlash(base: string, code: string)
    requires base != ""
    ensures QrDeeplink(base + "/", code) == QrDeeplink(base, code)
  {
    assert (base + "/")[..|base|] == base;
  }

  /** The two shapes `SeedIn.size` accepts. */
  datatype SizeValue = SizeText(text: string) | SizeNumber(n: int)

  /** `_to_int`: `int(str(v).strip())`, with `None` for a missing or unparsable value. */
  function ToInt(v: Option<SizeValue>): (r: Option<int>)
    ensures v.None? ==> r.None?
    ensures v.Some? && v.value.SizeText? ==> r == Text.ParseInt(Text.Strip(v.value.text))
  {
    match v
    case None => None
    case Some(SizeText(s)) => Text.ParseInt(Text.Strip(s))
    case Some(SizeNumber(n)) => Text.ParseInt(Text.Strip(Text.IntText(n)))
  }

  /** An integer converts to itself. */
  lemma ToIntOfNumber(n: int)
    ensures ToInt(Some(SizeNumber(n))) == Some(n)
  {
    IntTextTrimmed(n);
    Text.StripOfTrimmed(Text.IntText(n));
    Text.IntTextRoundTrip(n);
  }

  /** The decimal text of an integer, padded with white space, converts to that integer. */
  lemma ToIntOfPaddedText(pre: string, n: int, post: string)
    requires Text.IsBlank(pre) && Text.IsBlank(post)
    ensures ToInt(Some(SizeText(pre + Text.IntText(n) + post))) == Some(n)
  {
    IntTextTrimmed(n);
    Text.StripPadded(pre, Text.IntText(n), post);
    Text.IntTextRoundTrip(n);
  }

  lemma IntTextTrimmed(n: int)
    ensures var s := Text.IntText(n); s != [] && !Text.IsSpace(s[0]) && !Text.IsSpace(s[|s| - 1])
  {
    if n < 0 {
      var d := Text.NatText(-n);
      assert Text.IsDigit(d[|d| - 1]);
    } else {
      var d := Text.NatText(n);
      assert Text.IsDigit(d[0]) && Text.IsDigit(d[|d| - 1]);
    }
  }

  // ----- label assets -----

  /** A PNG label row. */
  function PngRow(id: string, skipId: string, idx: int): SkipAsset {
    SkipAsset(id, skipId, LabelPng, Some(idx), "image/png")
  }

  /** The three PNG labels (index 1 to 3) and the three-up PDF (no index) of one skip, with the given row ids. */
  function LabelRows(skipId: string, ids: seq<string>): (rows: seq<SkipAsset>)
    requires |ids| == 4
    ensures |rows| == 4
    ensures forall i :: 0 <= i < 3 ==> rows[i].kind == LabelPng && rows[i].idx == Some(i + 1) && rows[i].contentType == "image/png"
    ensures rows[3].kind == LabelsPdf && rows[3].idx == None && rows[3].contentType == "application/pdf"
    ensures forall i :: 0 <= i < 4 ==> rows[i].skipId == skipId && rows[i].id == ids[i]
  {
    [PngRow(ids[0], skipId, 1), PngRow(ids[1], skipId, 2), PngRow(ids[2], skipId, 3),
     SkipAsset(ids[3], skipId, LabelsPdf, None, "application/pdf")]
  }

  predicate IsPdfOf(a: SkipAsset, skipId: string) {
    a.skipId == skipId && a.kind == LabelsPdf
  }

  /** How many labels PDFs the table holds for a skip. */
  function PdfCount(assets: seq<SkipAsset>, skipId: string): nat {
    if assets == [] then 0
    else PdfCount(assets[..|assets| - 1], skipId) + (if IsPdfOf(assets[|assets| - 1], skipId) then 1 else 0)
  }

  lemma {:induction false} PdfCountConcat(a: seq<SkipAsset>, b: seq<SkipAsset>, skipId: string)
    ensures PdfCount(a + b, skipId) == PdfCount(a, skipId) + PdfCount(b, skipId)
  {
    if b == [] {
      assert a + b == a;
    } else {
      var front := b[..|b| - 1];
      assert (a + b)[..|a + b| - 1] == a + front;
      PdfCountConcat(a, front, skipId);
    }
  }

  /** The label rows hold exactly one PDF for their skip and none for any other. */
  lemma LabelRowsPdfCount(skipId: string, ids: seq<string>, other: string)
    requires |ids| == 4
    ensures PdfCount(LabelRows(skipId, ids), other) == if other == skipId then 1 else 0
  {
    var rows := LabelRows(skipId, ids);
    assert rows[..1][..0] == [];
    assert PdfCount(rows[..1], other) == 0;
    assert rows[..2][..1] == rows[..1];
    assert PdfCount(rows[..2], other) == 0;
    assert rows[..3][..2] == rows[..2];
    assert PdfCount(rows[..3], other) == 0;
    assert rows[..3] == rows[..|rows| - 1];
  }

  /**
   * `_ensure_label_assets` on the asset table. The PDF lookup is `scalar_one_or_none`, which raises
   * when two PDFs exist; with one PDF nothing is added; with none the four label rows are appended.
   * `ids` are the primary keys given to the new rows; `None` builds the rows without one, as the
   * source does, and the flush then fails. `None` as a result is a raised exception.
   */
  function LabelAssetsSpec(assets: seq<SkipAsset>, skipId: string, ids: Option<seq<string>>): (r: Option<seq<SkipAsset>>)
    requires ids.Some? ==> |ids.value| == 4
    ensures PdfCount(assets, skipId) == 1 ==> r == Some(assets)
    ensures r.Some? ==> |assets| <= |r.value| && r.value[..|assets|] == assets
    ensures r.Some? && ids.Some? && PdfCount(assets, skipId) == 0 ==> r.value[|assets|..] == LabelRows(skipId, ids.value)
  {
    var n := PdfCount(assets, skipId);
    if n >= 2 then None
    else if n == 1 then Some(assets)
    else if ids.None? then None
    else Some(assets + LabelRows(skipId, ids.value))
  }

  /** After the labels are ensured the skip has exactly one PDF, so ensuring them again adds nothing. */
  lemma LabelAssetsOnce(assets: seq<SkipAsset>, skipId: string, ids: seq<string>, ids2: seq<string>)
    requires |ids| == 4 && |ids2| == 4
    requires LabelAssetsSpec(assets, skipId, Some(ids)).Some?
    ensures var a := LabelAssetsSpec(assets, skipId, Some(ids)).value;
      PdfCount(a, skipId) == 1 && LabelAssetsSpec(a, skipId, Some(ids2)) == Some(a)
  {
    if PdfCount(assets, skipId) == 0 {
      PdfCountConcat(assets, LabelRows(skipId, ids), skipId);
      LabelRowsPdfCount(skipId, ids, skipId);
    }
  }

  /** Ensuring one skip's labels leaves every other skip's PDF count alone. */
  lemma LabelAssetsOtherSkips(assets: seq<SkipAsset>, skipId: string, ids: seq<string>, other: string)
    requires |ids| == 4 && other != skipId
    requires LabelAssetsSpec(assets, skipId, Some(ids)).Some?
    ensures PdfCount(LabelAssetsSpec(assets, skipId, Some(ids)).value, other) == PdfCount(assets, other)
  {
    if PdfCount(assets, skipId) == 0 {
      PdfCountConcat(assets, LabelRows(skipId, ids), other);
      LabelRowsPdfCount(skipId, ids, other);
    }
  }

  /** Appends the four label rows one by one: `for i in range(1, 4)` for the PNGs, then the PDF. */
  method AddLabelRows(db: SkipDb, skipId: string, ids: seq<string>)
    requires |ids| == 4
    modifies db
    ensures db.Snapshot() == old(db.Snapshot()).(assets := old(db.assets) + LabelRows(skipId, ids))
  {
    ghost var rows := LabelRows(skipId, ids);
    for i := 1 to 4
      invariant db.Snapshot() == old(db.Snapshot()).(assets := old(db.assets) + rows[..i - 1])
    {
      db.assets := db.assets + [PngRow(ids[i - 1], skipId, i)];
      assert rows[..i] == rows[..i - 1] + [rows[i - 1]];
    }
    db.assets := db.assets + [SkipAsset(ids[3], skipId, LabelsPdf, None, "application/pdf")];
    assert rows == rows[..3] + [rows[3]];
  }

  /** `_ensure_label_assets` with row ids supplied; `ok` is false when the lookup raises. */
  method EnsureLabelAssets(db: SkipDb, skipId: string, ids: seq<string>) returns (ok: bool)
    requires |ids| == 4
    modifies db
    ensures var r := LabelAssetsSpec(old(db.assets), skipId, Some(ids));
      ok == r.Some? && db.Snapshot() == old(db.Snapshot()).(assets := r.GetOr(old(db.assets)))
  {
    var n := PdfCount(db.assets, skipId);
    if n >= 2 {
      return false;
    }
    if n == 0 {
      AddLabelRows(db, skipId, ids);
    }
    return true;
  }

  // ----- seed -----

  /** An organisation row, as far as the registry reads it. */
  datatype Organization = Organization(id: string, name: string)

  /** The body of `POST /skips/_seed`. */
  datatype SeedIn = SeedIn(
    ownerOrgId: Option<string>,
    ownerOrgName: Option<string>,
    qrCode: Option<string>,
    qr: Option<string>,
    size: Option<SizeValue>,
    color: Option<string>,
    notes: Option<string>)

  datatype SeedOut = SeedOut(id: string, qrCode: string)

  /** Python truthiness of an optional string. */
  predicate Truthy(s: Option<string>) {
    Configured(s)
  }

  /** `(body.qr_code or body.qr or "").strip()`. */
  function SeedQr(body: SeedIn): (qr: string)
    ensures Truthy(body.qrCode) ==> qr == Text.Strip(body.qrCode.value)
    ensures !Truthy(body.qrCode) && Truthy(body.qr) ==> qr == Text.Strip(body.qr.value)
    ensures !Truthy(body.qrCode) && !Truthy(body.qr) ==> qr == ""
  {
    Text.Strip(if Truthy(body.qrCode) then body.qrCode.value else if Truthy(body.qr) then body.qr.value else "")
  }

  /** The index of the first organisation with the given name. */
  function FirstOrgNamed(orgs: seq<Organization>, name: string): (r: Option<nat>)
    ensures r.Some? ==> r.value < |orgs| && orgs[r.value].name == name && forall i :: 0 <= i < r.value ==> orgs[i].name != name
    ensures r.None? <==> forall i :: 0 <= i < |orgs| ==> orgs[i].name != name
  {
    if orgs == [] then None
    else if orgs[0].name == name then Some(0)
    else match FirstOrgNamed(orgs[1..], name)
      case None => None
      case Some(j) => Some(j + 1)
  }

  /**
   * `scalar_one_or_none()` over the organisations with the name: none, the one there is, or a
   * raise (`MultipleResultsFound`, a 500) when two share the name.
   */
  function FindOrgByName(orgs: seq<Organization>, name: string): (r: Response<Option<Organization>>)
    ensures r.Ok? && r.value.Some? ==> r.value.value.name == name
    ensures r.Ok? && r.value.Some? ==>
      exists i :: 0 <= i < |orgs| && orgs[i] == r.value.value && (forall j :: 0 <= j < |orgs| && j != i ==> orgs[j].name != name)
    ensures r == Ok(None) <==> forall i :: 0 <= i < |orgs| ==> orgs[i].name != name
    ensures r.Err? <==> (r == Err(500, "Internal Server Error")
      && exists i, j :: 0 <= i < j < |orgs| && orgs[i].name == name && orgs[j].name == name)
  {
    match FirstOrgNamed(orgs, name)
    case None => Ok(None)
    case Some(i) =>
      var rest := orgs[i + 1..];
      match FirstOrgNamed(rest, name)
      case None =>
        assert forall j :: i < j < |orgs| ==> orgs[j] == rest[j - i - 1];
        Ok(Some(orgs[i]))
      case Some(j) =>
        assert rest[j] == orgs[i + 1 + j];
        Err(500, "Internal Server Error")
  }

  /** The first organisation with the given id. */
  function FindOrgById(orgs: seq<Organization>, id: string): (r: Option<Organization>)
    ensures r.Some? ==> r.value in orgs && r.value.id == id
    ensures r.None? ==> forall i :: 0 <= i < |orgs| ==> orgs[i].id != id
  {
    if orgs == [] then None else if orgs[0].id == id then Some(orgs[0]) else FindOrgById(orgs[1..], id)
  }

  /**
   * Step 2 of `seed_skip`: the owner id (stripped, empty meaning none) and the name printed on the
   * labels. Only without an owner id, with a name and with the organisation table present is the
   * name looked up; a missing organisation is a 404, and two with the name are a 500.
   */
  function ResolveOwner(body: SeedIn, orgs: Option<seq<Organization>>): (r: Response<(Option<string>, string)>)
    ensures r.Err? ==> (r == Err(404, "Owner org not found") || r == Err(500, "Internal Server Error")) && orgs.Some? && Truthy(body.ownerOrgName)
    ensures Truthy(body.ownerOrgId) && Text.Strip(body.ownerOrgId.value) != "" ==> r == Ok((Some(Text.Strip(body.ownerOrgId.value)), if Truthy(body.ownerOrgName) then body.ownerOrgName.value else "OWNER"))
    ensures orgs.None? ==> r.Ok?
  {
    var owner := if Truthy(body.ownerOrgId) && Text.Strip(body.ownerOrgId.value) != "" then Some(Text.Strip(body.ownerOrgId.value)) else None;
    if owner.None? && Truthy(body.ownerOrgName) && orgs.Some? then
      match FindOrgByName(orgs.value, body.ownerOrgName.value)
      case Err(c, d) => Err(c, d)
      case Ok(None) => Err(404, "Owner org not found")
      case Ok(Some(o)) => Ok((Some(o.id), o.name))
    else if Truthy(body.ownerOrgName) then Ok((owner, body.ownerOrgName.value))
    else Ok((owner, "OWNER"))
  }

  /** The new skip a seed inserts: only `qr_code` and `owner_org_id`, since `Skip` has no colour, notes or size column. */
  function SeededSkip(id: string, qr: string, owner: Option<string>, now: int): (s: Skip)
    ensures s.id == id && s.qrCode == qr && s.ownerOrgId == owner && s.status == InStock.Value() && s.deletedAt.None?
  {
    NewSkip(id, qr, now).(ownerOrgId := owner)
  }

  /**
   * `POST /skips/_seed`: the key guard, the code, the owner, then either the existing skip (with
   * its labels ensured) or a new skip with its labels; on a failure nothing is committed.
   * `ids` are the primary keys of the label rows (`None`: built without one, as written).
   */
  function SeedSkipSpec(t: Tables, expected: Option<string>, header: Option<string>, body: SeedIn,
                        orgs: Option<seq<Organization>>, newId: string, now: int, ids: Option<seq<string>>): (Tables, Response<SeedOut>)
    requires ids.Some? ==> |ids.value| == 4
  {
    if AdminKeyOk(expected, header).Err? then (t, Err(401, "Not authenticated"))
    else
      var qr := SeedQr(body);
      if qr == "" then (t, Err(422, "qr_code: Field required"))
      else
        match ResolveOwner(body, orgs)
        case Err(c, d) => (t, Err(c, d))
        case Ok(owner) =>
          match FindByQr(t.skips, qr)
          case Some(k) =>
            (match LabelAssetsSpec(t.assets, t.skips[k].id, ids)
             case None => (t, Err(500, "Internal Server Error"))
             case Some(a) => (t.(assets := a), Ok(SeedOut(t.skips[k].id, t.skips[k].qrCode))))
          case None =>
            match LabelAssetsSpec(t.assets, newId, ids)
            case None => (t, Err(500, "seed_failed"))
            case Some(a) => (t.(skips := t.skips + [SeededSkip(newId, qr, owner.0, now)], assets := a), Ok(SeedOut(newId, qr)))
  }

  /** `seed_skip` with the label rows given ids. */
  method SeedSkip(db: SkipDb, expected: Option<string>, header: Option<string>, body: SeedIn,
                  orgs: Option<seq<Organization>>, newId: string, now: int, ids: seq<string>) returns (r: Response<SeedOut>)
    requires |ids| == 4
    modifies db
    ensures (db.Snapshot(), r) == SeedSkipSpec(old(db.Snapshot()), expected, header, body, orgs, newId, now, Some(ids))
  {
    if AdminKeyOk(expected, header).Err? {
      return Err(401, "Not authenticated");
    }
    var qr := SeedQr(body);
    if qr == "" {
      return Err(422, "qr_code: Field required");
    }
    var owner := ResolveOwner(body, orgs);
    if owner.Err? {
      return Err(owner.code, owner.detail);
    }
    var found := FindByQr(db.skips, qr);
    if found.Some? {
      var existing := db.skips[found.value];
      var ok := EnsureLabelAssets(db, existing.id, ids);
      if !ok {
        return Err(500, "Internal Server Error");
      }
      return Ok(SeedOut(existing.id, existing.qrCode));
    }
    var skips := db.skips;
    db.skips := db.skips + [SeededSkip(newId, qr, owner.value.0, now)];
    var ok := EnsureLabelAssets(db, newId, ids);
    if !ok {
      // rollback
      db.skips := skips;
      return Err(500, "seed_failed");
    }
    return Ok(SeedOut(newId, qr));
  }

  /** Seeding an existing code returns that skip and inserts no skip. */
  lemma SeedExistingCreatesNoSkip(t: Tables, expected: Option<string>, body: SeedIn, orgs: Option<seq<Organization>>,
                                  newId: string, now: int, ids: seq<string>, k: nat)
    requires |ids| == 4 && k < |t.skips|
    requires Configured(expected) && ResolveOwner(body, orgs).Ok?
    requires UniqueQr(t.skips) && SeedQr(body) == t.skips[k].qrCode && SeedQr(body) != ""
    requires PdfCount(t.assets, t.skips[k].id) <= 1
    ensures var (t', r) := SeedSkipSpec(t, expected, expected, body, orgs, newId, now, Some(ids));
      r == Ok(SeedOut(t.skips[k].id, t.skips[k].qrCode)) && t'.skips == t.skips
      && PdfCount(t'.assets, t.skips[k].id) == 1
  {
    FindByQrUnique(t.skips, k);
    LabelAssetsOnce(t.assets, t.skips[k].id, ids, ids);
  }

  /** A second seed with the same body returns the same skip and changes nothing: a seed happens once. */
  lemma SeedSkipIdempotent(t: Tables, expected: Option<string>, body: SeedIn, orgs: Option<seq<Organization>>,
                           newId: string, now: int, ids: seq<string>, newId2: string, now2: int, ids2: seq<string>)
    requires |ids| == 4 && |ids2| == 4
    requires SeedSkipSpec(t, expected, expected, body, orgs, newId, now, Some(ids)).1.Ok?
    ensures var (t1, r1) := SeedSkipSpec(t, expected, expected, body, orgs, newId, now, Some(ids));
      SeedSkipSpec(t1, expected, expected, body, orgs, newId2, now2, Some(ids2)) == (t1, r1)
  {
    var qr := SeedQr(body);
    var (t1, r1) := SeedSkipSpec(t, expected, expected, body, orgs, newId, now, Some(ids));
    match FindByQr(t.skips, qr)
    case Some(k) =>
      LabelAssetsOnce(t.assets, t.skips[k].id, ids, ids2);
    case None =>
      assert FindByQr(t1.skips, qr) == Some(|t.skips|) by {
        FindByQrAppended(t.skips, SeededSkip(newId, qr, ResolveOwner(body, orgs).value.0, now), qr);
      }
      LabelAssetsOnce(t.assets, newId, ids, ids2);
  }

  /** A seed keeps the tables consistent when the new skip's id is fresh. */
  lemma SeedSkipConsistent(t: Tables, expected: Option<string>, header: Option<string>, body: SeedIn,
                           orgs: Option<seq<Organization>>, newId: string, now: int, ids: seq<string>)
    requires |ids| == 4 && Consistent(t) && FindById(t.skips, newId).None?
    ensures Consistent(SeedSkipSpec(t, expected, header, body, orgs, newId, now, Some(ids)).0)
  {
    var qr := SeedQr(body);
    if AdminKeyOk(expected, header).Ok? && qr != "" && ResolveOwner(body, orgs).Ok? && FindByQr(t.skips, qr).None? {
      var a := LabelAssetsSpec(t.assets, newId, Some(ids));
      if a.Some? {
        AppendFreshSkip(t.skips, SeededSkip(newId, qr, ResolveOwner(body, orgs).value.0, now));
      }
    }
  }

  /**
   * As written, `_ensure_label_assets` builds its rows without the primary key, so seeding a code
   * that has no skip always ends in `seed_failed` and inserts nothing.
   */
  lemma SeedNewSkipAsWrittenFails(t: Tables, expected: Option<string>, body: SeedIn, orgs: Option<seq<Organization>>,
                                  newId: string, now: int)
    requires Configured(expected) && SeedQr(body) != "" && ResolveOwner(body, orgs).Ok?
    requires FindByQr(t.skips, SeedQr(body)).None? && PdfCount(t.assets, newId) == 0
    ensures SeedSkipSpec(t, expected, expected, body, orgs, newId, now, None) == (t, Err(500, "seed_failed"))
  {
  }

  /** With the row ids supplied the same seed inserts the skip under its code, with its four labels. */
  lemma SeedNewSkipInserts(t: Tables, expected: Option<string>, body: SeedIn, orgs: Option<seq<Organization>>,
                           newId: string, now: int, ids: seq<string>)
    requires |ids| == 4
    requires Configured(expected) && SeedQr(body) != "" && ResolveOwner(body, orgs).Ok?
    requires FindByQr(t.skips, SeedQr(body)).None? && PdfCount(t.assets, newId) == 0
    ensures var (t', r) := SeedSkipSpec(t, expected, expected, body, orgs, newId, now, Some(ids));
      r == Ok(SeedOut(newId, SeedQr(body)))
      && FindByQr(t'.skips, SeedQr(body)) == Some(|t.skips|) && t'.skips[|t.skips|].id == newId
      && t'.assets == t.assets + LabelRows(newId, ids)
  {
    FindByQrAppended(t.skips, SeededSkip(newId, SeedQr(body), ResolveOwner(body, orgs).value.0, now), SeedQr(body));
  }

  // ----- admin create -----

  /** The user `get_current_user` resolves: `id` and `role`. */
  datatype User = User(id: string, role: string)

  /** `SkipCreate`. */
  datatype SkipCreate = SkipCreate(ownerOrgId: string, qrCode: Option<string>, assignedCommodityId: Option<string>, zoneId: Option<string>)

  /** `SkipOut`. */
  datatype SkipOut = SkipOut(id: string, qrCode: string, ownerOrgId: Option<string>, labelsPdfUrl: string, labelPngUrls: seq<string>)

  predicate IsLowerHexDigit(c: char) {
    '0' <= c <= '9' || 'a' <= c <= 'f'
  }

  predicate IsUpperHexDigit(c: char) {
    '0' <= c <= '9' || 'A' <= c <= 'F'
  }

  /** `uuid.uuid4().hex`: 32 lower-case hexadecimal digits. */
  predicate IsUuidHex(h: string) {
    |h| == 32 && forall i :: 0 <= i < |h| ==> IsLowerHexDigit(h[i])
  }

  /** `payload.qr_code or ("SK-" + uuid.uuid4().hex[:8].upper())`. */
  function CreateCode(qrCode: Option<string>, uuidHex: string): (code: string)
    requires IsUuidHex(uuidHex)
    ensures Truthy(qrCode) ==> code == qrCode.value
    ensures !Truthy(qrCode) ==> |code| == 11 && code[..3] == "SK-" && forall i :: 3 <= i < 11 ==> IsUpperHexDigit(code[i])
  {
    if Truthy(qrCode) then qrCode.value
    else
      var up := Text.Upper(uuidHex[..8]);
      assert forall i :: 0 <= i < 8 ==> IsUpperHexDigit(up[i]) by {
        forall i | 0 <= i < 8 ensures IsUpperHexDigit(up[i]) {
          assert IsLowerHexDigit(uuidHex[i]);
        }
      }
      "SK-" + up
  }

  function LabelsPdfUrl(id: string): string {
    "/skips/" + id + "/labels.pdf"
  }

  function LabelPngUrl(id: string, i: int): string {
    "/skips/" + id + "/labels/" + Text.IntText(i) + ".png"
  }

  /** The row `create_skip` inserts; `created_by_id`/`updated_by_id` are the user id, or none when it is empty. */
  function CreatedSkip(id: string, code: string, payload: SkipCreate, user: User, now: int): (s: Skip)
    ensures s.id == id && s.qrCode == code && s.ownerOrgId == Some(payload.ownerOrgId)
    ensures s.zoneId == payload.zoneId && s.assignedCommodityId == payload.assignedCommodityId
    ensures s.status == InStock.Value() && s.deletedAt.None?
    ensures s.createdById == s.updatedById == (if user.id == "" then None else Some(user.id))
  {
    var uid := if user.id == "" then None else Some(user.id);
    NewSkip(id, code, now).(ownerOrgId := Some(payload.ownerOrgId), assignedCommodityId := payload.assignedCommodityId,
                            zoneId := payload.zoneId, createdById := uid, updatedById := uid)
  }

  /**
   * `POST /skips`: admin only (403), the owner organisation must exist when the table is present
   * (404), the code must be new (409); the skip is inserted with its four label rows.
   */
  function CreateSkipSpec(t: Tables, user: User, orgs: Option<seq<Organization>>, payload: SkipCreate,
                          uuidHex: string, newId: string, now: int, ids: seq<string>): (Tables, Response<SkipOut>)
    requires IsUuidHex(uuidHex) && |ids| == 4
  {
    if user.role != "admin" then (t, Err(403, "Admin only"))
    else if orgs.Some? && FindOrgById(orgs.value, payload.ownerOrgId).None? then (t, Err(404, "Owner org not found"))
    else
      var code := CreateCode(payload.qrCode, uuidHex);
      if FindByQr(t.skips, code).Some? then (t, Err(409, "qr_code already exists"))
      else
        (t.(skips := t.skips + [CreatedSkip(newId, code, payload, user, now)], assets := t.assets + LabelRows(newId, ids)),
         Ok(SkipOut(newId, code, Some(payload.ownerOrgId), LabelsPdfUrl(newId),
                    [LabelPngUrl(newId, 1), LabelPngUrl(newId, 2), LabelPngUrl(newId, 3)])))
  }

  /** `create_skip`. */
  method CreateSkip(db: SkipDb, user: User, orgs: Option<seq<Organization>>, payload: SkipCreate,
                    uuidHex: string, newId: string, now: int, ids: seq<string>) returns (r: Response<SkipOut>)
    requires IsUuidHex(uuidHex) && |ids| == 4
    modifies db
    ensures (db.Snapshot(), r) == CreateSkipSpec(old(db.Snapshot()), user, orgs, payload, uuidHex, newId, now, ids)
  {
    if user.role != "admin" {
      return Err(403, "Admin only");
    }
    if orgs.Some? && FindOrgById(orgs.value, payload.ownerOrgId).None? {
      return Err(404, "Owner org not found");
    }
    var code := CreateCode(payload.qrCode, uuidHex);
    if FindByQr(db.skips, code).Some? {
      return Err(409, "qr_code already exists");
    }
    db.skips := db.skips + [CreatedSkip(newId, code, payload, user, now)];
    AddLabelRows(db, newId, ids);
    var urls := [];
    for i := 1 to 4
      invariant |urls| == i - 1 && forall j :: 0 <= j < i - 1 ==> urls[j] == LabelPngUrl(newId, j + 1)
    {
      urls := urls + [LabelPngUrl(newId, i)];
    }
    assert urls == [LabelPngUrl(newId, 1), LabelPngUrl(newId, 2), LabelPngUrl(newId, 3)];
    return Ok(SkipOut(newId, code, Some(payload.ownerOrgId), LabelsPdfUrl(newId), urls));
  }

  /** Creating a code that is taken is refused with 409 and changes nothing. */
  lemma CreateSkipRejectsDuplicate(t: Tables, user: User, payload: SkipCreate, uuidHex: string, newId: string, now: int, ids: seq<string>, k: nat)
    requires IsUuidHex(uuidHex) && |ids| == 4 && k < |t.skips|
    requires user.role == "admin" && payload.qrCode == Some(t.skips[k].qrCode) && t.skips[k].qrCode != ""
    ensures CreateSkipSpec(t, user, None, payload, uuidHex, newId, now, ids) == (t, Err(409, "qr_code already exists"))
  {
    assert FindByQr(t.skips, t.skips[k].qrCode).Some?;
  }

  /**
   * A created skip is found under its code and has exactly one labels PDF, three PNG URLs and one PDF
   * URL, so a later seed of the same code adds no labels.
   */
  lemma CreateSkipLabels(t: Tables, user: User, orgs: Option<seq<Organization>>, payload: SkipCreate,
                         uuidHex: string, newId: string, now: int, ids: seq<string>)
    requires IsUuidHex(uuidHex) && |ids| == 4
    requires CreateSkipSpec(t, user, orgs, payload, uuidHex, newId, now, ids).1.Ok?
    requires PdfCount(t.assets, newId) == 0
    ensures var (t', r) := CreateSkipSpec(t, user, orgs, payload, uuidHex, newId, now, ids);
      FindByQr(t'.skips, r.value.qrCode) == Some(|t.skips|) && t'.skips[|t.skips|].id == r.value.id == newId
      && PdfCount(t'.assets, newId) == 1
      && |r.value.labelPngUrls| == 3 && r.value.labelsPdfUrl == "/skips/" + newId + "/labels.pdf"
  {
    var code := CreateCode(payload.qrCode, uuidHex);
    FindByQrAppended(t.skips, CreatedSkip(newId, code, payload, user, now), code);
    PdfCountConcat(t.assets, LabelRows(newId, ids), newId);
    LabelRowsPdfCount(newId, ids, newId);
  }

  /** A create keeps the tables consistent when the new skip's id is fresh. */
  lemma CreateSkipConsistent(t: Tables, user: User, orgs: Option<seq<Organization>>, payload: SkipCreate,
                             uuidHex: string, newId: string, now: int, ids: seq<string>)
    requires IsUuidHex(uuidHex) && |ids| == 4
    requires Consistent(t) && FindById(t.skips, newId).None?
    ensures Consistent(CreateSkipSpec(t, user, orgs, payload, uuidHex, newId, now, ids).0)
  {
    var code := CreateCode(payload.qrCode, uuidHex);
    if user.role == "admin" && FindByQr(t.skips, code).None? {
      AppendFreshSkip(t.skips, CreatedSkip(newId, code, payload, user, now));
    }
  }
}
