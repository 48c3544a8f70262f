/**
 * The demo skip admin of `api/skips_demo.py`, behind the `x_admin_key` header: create by code
 * (returning an existing skip unchanged), newest-first listing, lookup by code and soft delete.
 */
module SkipsDemo {
  import opened Wrappers
  import Text
  import opened Json
  import opened SkipModel
  import opened Store
  import opened Ordering

  /**
   * `require_admin`. `adminKey` is `settings.ADMIN_API_KEY`; the shipped settings do not declare it,
   * which `None` stands for: reading it then raises, once the header check has passed.
   */
  function RequireAdmin(adminKey: Option<string>, header: Option<string>): (r: Response<()>)
    ensures r.Ok? <==> header.Some? && header.value != "" && adminKey == header
    ensures (header.None? || header.value == "") ==> r == Err(401, "bad admin key")
    ensures header.Some? && header.value != "" && adminKey.None? ==> r == Err(500, "Internal Server Error")
    ensures header.Some? && header.value != "" && adminKey.Some? && adminKey != header ==> r == Err(401, "bad admin key")
  {
    if header.None? || header.value == "" then Err(401, "bad admin key")
    else if adminKey.None? then Err(500, "Internal Server Error")
    else if header != adminKey then Err(401, "bad admin key")
    else Ok(())
  }

  /** The shape every endpoint returns a skip in. */
  datatype SkipRow = SkipRow(id: string, qrCode: string, status: string, zoneId: Option<string>, createdAt: int)

  function RowOf(s: Skip): (r: SkipRow)
    ensures r.id == s.id && r.qrCode == s.qrCode && r.status == s.status && r.zoneId == s.zoneId && r.createdAt == s.createdAt
  {
    SkipRow(s.id, s.qrCode, s.status, s.zoneId, s.createdAt)
  }

  /** `(payload or {}).get("qr_code", "").strip()`; a value that is not a string has no `strip` and raises. */
  function DemoQr(payload: Dict): (r: Response<string>)
    ensures "qr_code" !in payload ==> r == Ok("")
    ensures "qr_code" in payload && payload["qr_code"].JStr? ==> r == Ok(Text.Strip(payload["qr_code"].s))
    ensures "qr_code" in payload && !payload["qr_code"].JStr? ==> r == Err(500, "Internal Server Error")
  {
    if "qr_code" !in payload then Ok("")
    else match payload["qr_code"]
      case JStr(s) => Ok(Text.Strip(s))
      case _ => Err(500, "Internal Server Error")
  }

  /** `POST /admin/skips`: the existing skip with the code, else a new one in stock. */
  function DemoCreateSpec(t: Tables, adminKey: Option<string>, header: Option<string>, payload: Dict, newId: string, now: int): (Tables, Response<SkipRow>)
  {
    var guard := RequireAdmin(adminKey, header);
    if guard.Err? then (t, Err(guard.code, guard.detail))
    else
      match DemoQr(payload)
      case Err(c, d) => (t, Err(c, d))
      case Ok(qr) =>
        if qr == "" then (t, Err(400, "qr_code required"))
        else
          match FindByQr(t.skips, qr)
          case Some(k) => (t, Ok(RowOf(t.skips[k])))
          case None => (t.(skips := t.skips + [NewSkip(newId, qr, now)]), Ok(RowOf(NewSkip(newId, qr, now))))
  }

  method DemoCreate(db: SkipDb, adminKey: Option<string>, header: Option<string>, payload: Dict, newId: string, now: int) returns (r: Response<SkipRow>)
    modifies db
    ensures (db.Snapshot(), r) == DemoCreateSpec(old(db.Snapshot()), adminKey, header, payload, newId, now)
  {
    var guard := RequireAdmin(adminKey, header);
    if guard.Err? {
      return Err(guard.code, guard.detail);
    }
    var qr := DemoQr(payload);
    if qr.Err? {
      return Err(qr.code, qr.detail);
    }
    if qr.value == "" {
      return Err(400, "qr_code required");
    }
    var found := FindByQr(db.skips, qr.value);
    if found.Some? {
      return Ok(RowOf(db.skips[found.value]));
    }
    var sk := NewSkip(newId, qr.value, now);
    db.skips := db.skips + [sk];
    return Ok(RowOf(sk));
  }

  /** A code that is blank after stripping is refused with 400 and changes nothing. */
  lemma DemoCreateBlankRejected(t: Tables, adminKey: string, code: string, newId: string, now: int)
    requires adminKey != "" && Text.IsBlank(code)
    ensures DemoCreateSpec(t, Some(adminKey), Some(adminKey), map["qr_code" := JStr(code)], newId, now) == (t, Err(400, "qr_code required"))
  {
    var payload := map["qr_code" := JStr(code)];
    assert "qr_code" in payload && payload["qr_code"] == JStr(code);
    Text.StripEmptyIffBlank(code);
    assert DemoQr(payload) == Ok("");
  }

  /** Creating a code twice returns the same skip the second time and inserts nothing more. */
  lemma DemoCreateIdempotent(t: Tables, adminKey: Option<string>, header: Option<string>, payload: Dict,
                             newId: string, now: int, newId2: string, now2: int)
    ensures var (t1, r1) := DemoCreateSpec(t, adminKey, header, payload, newId, now);
      DemoCreateSpec(t1, adminKey, header, payload, newId2, now2) == (t1, r1)
  {
    var qr := DemoQr(payload);
    if RequireAdmin(adminKey, header).Ok? && qr.Ok? && qr.value != "" && FindByQr(t.skips, qr.value).None? {
      FindByQrAppended(t.skips, NewSkip(newId, qr.value, now), qr.value);
    }
  }

  /** A new skip is in stock, not deleted, and placed nowhere. */
  lemma DemoCreateNewInStock(t: Tables, adminKey: Option<string>, header: Option<string>, payload: Dict, newId: string, now: int)
    requires DemoCreateSpec(t, adminKey, header, payload, newId, now).1.Ok?
    requires |DemoCreateSpec(t, adminKey, header, payload, newId, now).0.skips| > |t.skips|
    ensures var (t', r) := DemoCreateSpec(t, adminKey, header, payload, newId, now);
      t'.skips == t.skips + [t'.skips[|t.skips|]] && t'.skips[|t.skips|].status == "in_stock"
      && t'.skips[|t.skips|].deletedAt.None? && t'.skips[|t.skips|].zoneId.None? && r.value.id == newId
  {
  }

  // ----- listing -----

  /** `max(1, min(200, limit))`. */
  function ClampLimit(limit: int): (r: int)
    ensures 1 <= r <= 200
    ensures 1 <= limit <= 200 ==> r == limit
    ensures limit < 1 ==> r == 1
    ensures limit > 200 ==> r == 200
  {
    if limit < 1 then 1 else if limit > 200 then 200 else limit
  }

  /** `desc(Skip.created_at)`: a skip comes first when it was created no earlier than the other. */
  predicate NewerOrSame(a: Skip, b: Skip) {
    a.createdAt >= b.createdAt
  }

  lemma NewerOrSameOrders()
    ensures TotalPreorder(NewerOrSame)
  {
  }

  /** Newest first: creation times never increase along the sequence. */
  ghost predicate NewestFirst(s: seq<Skip>) {
    forall i, j :: 0 <= i < j < |s| ==> s[i].createdAt >= s[j].createdAt
  }

  /** `ORDER BY created_at DESC`; skips created at the same time keep their table order. */
  function SortNewestFirst(s: seq<Skip>): (r: seq<Skip>)
    ensures multiset(r) == multiset(s) && NewestFirst(r)
  {
    NewerOrSameOrders();
    var r := SortBy(s, NewerOrSame);
    assert forall i, j :: 0 <= i < j < |r| ==> NewerOrSame(r[i], r[j]);
    r
  }

  /** The `limit` of `GET /admin/skips` when the query gives none. */
  const DefaultListLimit: int := 20

  /**
   * `GET /admin/skips`: the `ClampLimit(limit)` newest skips, deleted ones included; with no
   * `limit` in the query, the 20 newest.
   */
  function ListSkips(t: Tables, adminKey: Option<string>, header: Option<string>, limit: Option<int>): (r: Response<seq<SkipRow>>)
    ensures RequireAdmin(adminKey, header).Err? ==> r.Err?
    ensures RequireAdmin(adminKey, header).Ok? ==> r.Ok?
    ensures r.Ok? ==> |r.value| == if ClampLimit(limit.GetOr(DefaultListLimit)) < |t.skips| then ClampLimit(limit.GetOr(DefaultListLimit)) else |t.skips|
    ensures r.Ok? && limit.None? ==> |r.value| == if 20 < |t.skips| then 20 else |t.skips|
    ensures r.Ok? ==> forall i, j :: 0 <= i < j < |r.value| ==> r.value[i].createdAt >= r.value[j].createdAt
  {
    var guard := RequireAdmin(adminKey, header);
    if guard.Err? then Err(guard.code, guard.detail)
    else
      var sorted := SortNewestFirst(t.skips);
      assert |sorted| == |multiset(sorted)| == |multiset(t.skips)| == |t.skips|;
      var lim := ClampLimit(limit.GetOr(DefaultListLimit));
      var n := if lim < |sorted| then lim else |sorted|;
      Ok(seq(n, i requires 0 <= i < n => RowOf(sorted[i])))
  }

  /**
   * The listing is the top of the newest-first order: it and the skips it leaves out make up the
   * whole table, and no skip left out is newer than a listed one.
   */
  lemma ListSkipsIsNewest(t: Tables, adminKey: Option<string>, header: Option<string>, limit: Option<int>)
    requires RequireAdmin(adminKey, header).Ok?
    ensures var sorted := SortNewestFirst(t.skips);
      var n := |ListSkips(t, adminKey, header, limit).value|;
      multiset(sorted[..n]) + multiset(sorted[n..]) == multiset(t.skips)
      && (forall i :: 0 <= i < n ==> ListSkips(t, adminKey, header, limit).value[i] == RowOf(sorted[i]))
      && (forall x, y :: x in sorted[n..] && y in sorted[..n] ==> x.createdAt <= y.createdAt)
  {
    var sorted := SortNewestFirst(t.skips);
    var n := |ListSkips(t, adminKey, header, limit).value|;
    assert n <= |t.skips| == |sorted| by {
      assert |sorted| == |multiset(sorted)| == |multiset(t.skips)|;
    }
    TopOfNewestFirst(sorted, n);
  }

  /** Cutting a newest-first sequence leaves nothing newer after the cut than before it. */
  lemma TopOfNewestFirst(s: seq<Skip>, n: nat)
    requires NewestFirst(s) && n <= |s|
    ensures multiset(s[..n]) + multiset(s[n..]) == multiset(s)
    ensures forall x, y :: x in s[n..] && y in s[..n] ==> x.createdAt <= y.createdAt
  {
    assert s == s[..n] + s[n..];
    forall x, y | x in s[n..] && y in s[..n] ensures x.createdAt <= y.createdAt {
      var i :| 0 <= i < |s[n..]| && s[n..][i] == x;
      var j :| 0 <= j < n && s[..n][j] == y;
      assert s[n + i] == x && s[j] == y;
    }
  }

  // ----- lookup and soft delete -----

  /** `GET /admin/skips/by_qr/{qr}`: the skip with the code, deleted or not. */
  function GetByQr(t: Tables, adminKey: Option<string>, header: Option<string>, qr: string): (r: Response<SkipRow>)
    ensures RequireAdmin(adminKey, header).Err? ==> r == Err(RequireAdmin(adminKey, header).code, RequireAdmin(adminKey, header).detail)
    ensures RequireAdmin(adminKey, header).Ok? && FindByQr(t.skips, qr).None? ==> r == Err(404, "not found")
    ensures RequireAdmin(adminKey, header).Ok? && FindByQr(t.skips, qr).Some? ==> r == Ok(RowOf(t.skips[FindByQr(t.skips, qr).value]))
    ensures RequireAdmin(adminKey, header).Ok? && (exists k :: 0 <= k < |t.skips| && t.skips[k].qrCode == qr) ==> r.Ok? && r.value.qrCode == qr
    ensures r.Ok? ==> exists k :: 0 <= k < |t.skips| && t.skips[k].qrCode == qr && r.value == RowOf(t.skips[k])
  {
    var guard := RequireAdmin(adminKey, header);
    if guard.Err? then Err(guard.code, guard.detail)
    else match FindByQr(t.skips, qr)
      case None => Err(404, "not found")
      case Some(k) => Ok(RowOf(t.skips[k]))
  }

  datatype DeleteOut = DeleteOut(ok: bool, deleted: bool, id: Option<string>)

  /** `DELETE /admin/skips/{skip_id}`: stamps `deleted_at`; an unknown id is reported, not refused. */
  function DeleteSkipSpec(t: Tables, adminKey: Option<string>, header: Option<string>, skipId: string, now: int): (Tables, Response<DeleteOut>)
  {
    var guard := RequireAdmin(adminKey, header);
    if guard.Err? then (t, Err(guard.code, guard.detail))
    else match FindById(t.skips, skipId)
      case None => (t, Ok(DeleteOut(true, false, None)))
      case Some(k) => (t.(skips := t.skips[k := t.skips[k].(deletedAt := Some(now))]), Ok(DeleteOut(true, true, Some(skipId))))
  }

  method DeleteSkip(db: SkipDb, adminKey: Option<string>, header: Option<string>, skipId: string, now: int) returns (r: Response<DeleteOut>)
    modifies db
    ensures (db.Snapshot(), r) == DeleteSkipSpec(old(db.Snapshot()), adminKey, header, skipId, now)
  {
    var guard := RequireAdmin(adminKey, header);
    if guard.Err? {
      return Err(guard.code, guard.detail);
    }
    var found := FindById(db.skips, skipId);
    if found.None? {
      return Ok(DeleteOut(true, false, None));
    }
    var k := found.value;
    db.skips := db.skips[k := db.skips[k].(deletedAt := Some(now))];
    return Ok(DeleteOut(true, true, Some(skipId)));
  }

  /** Deleting an unknown id answers `deleted: false` and changes nothing. */
  lemma DeleteUnknownChangesNothing(t: Tables, adminKey: Option<string>, header: Option<string>, skipId: string, now: int)
    requires RequireAdmin(adminKey, header).Ok? && forall i :: 0 <= i < |t.skips| ==> t.skips[i].id != skipId
    ensures DeleteSkipSpec(t, adminKey, header, skipId, now) == (t, Ok(DeleteOut(true, false, None)))
  {
  }

  /** Two tables that show the same rows (everything but `deleted_at` and the audit columns). */
  ghost predicate SameRows(a: seq<Skip>, b: seq<Skip>) {
    |a| == |b| && forall i :: 0 <= i < |a| ==> RowOf(a[i]) == RowOf(b[i])
  }

  lemma {:induction false} InsertSameRows(x: Skip, y: Skip, a: seq<Skip>, b: seq<Skip>)
    requires TotalPreorder(NewerOrSame) && SortedBy(a, NewerOrSame) && SortedBy(b, NewerOrSame)
    requires SameRows(a, b) && RowOf(x) == RowOf(y)
    ensures SameRows(InsertBy(x, a, NewerOrSame), InsertBy(y, b, NewerOrSame))
  {
    if a != [] && !NewerOrSame(x, a[0]) {
      assert SortedBy(a[1..], NewerOrSame) && SortedBy(b[1..], NewerOrSame) by {
        assert forall i :: 0 <= i < |a| - 1 ==> a[1..][i] == a[i + 1] && b[1..][i] == b[i + 1];
      }
      InsertSameRows(x, y, a[1..], b[1..]);
    }
  }

  lemma {:induction false} SortSameRows(a: seq<Skip>, b: seq<Skip>)
    requires TotalPreorder(NewerOrSame) && SameRows(a, b)
    ensures SameRows(SortBy(a, NewerOrSame), SortBy(b, NewerOrSame))
  {
    if a != [] {
      SortSameRows(a[1..], b[1..]);
      InsertSameRows(a[0], b[0], SortBy(a[1..], NewerOrSame), SortBy(b[1..], NewerOrSame));
    }
  }

  /**
   * A soft delete keeps the row: the lookup by code and the listing show exactly what they
   * showed before, since neither filters on `deleted_at`.
   */
  lemma SoftDeleteStillVisible(t: Tables, adminKey: Option<string>, header: Option<string>, skipId: string, now: int, qr: string, limit: Option<int>)
    requires RequireAdmin(adminKey, header).Ok?
    ensures var t' := DeleteSkipSpec(t, adminKey, header, skipId, now).0;
      |t'.skips| == |t.skips|
      && GetByQr(t', adminKey, header, qr) == GetByQr(t, adminKey, header, qr)
      && ListSkips(t', adminKey, header, limit) == ListSkips(t, adminKey, header, limit)
  {
    var t' := DeleteSkipSpec(t, adminKey, header, skipId, now).0;
    match FindById(t.skips, skipId)
    case None =>
    case Some(k) =>
      assert t'.skips == t.skips[k := t.skips[k].(deletedAt := Some(now))];
      StampKeepsRows(t, t', qr, limit, adminKey, header);
  }

  lemma StampKeepsRows(t: Tables, t': Tables, qr: string, limit: Option<int>, adminKey: Option<string>, header: Option<string>)
    requires SameRows(t.skips, t'.skips)
    ensures GetByQr(t', adminKey, header, qr) == GetByQr(t, adminKey, header, qr)
    ensures ListSkips(t', adminKey, header, limit) == ListSkips(t, adminKey, header, limit)
  {
    assert forall i :: 0 <= i < |t.skips| ==> t.skips[i].qrCode == RowOf(t.skips[i]).qrCode;
    FindByQrSameCodes(t.skips, t'.skips, qr);
    if RequireAdmin(adminKey, header).Ok? {
      NewerOrSameOrders();
      SortSameRows(t.skips, t'.skips);
      ListSameRows(t, t', adminKey, header, limit);
    }
  }

  lemma ListSameRows(t: Tables, t': Tables, adminKey: Option<string>, header: Option<string>, limit: Option<int>)
    requires RequireAdmin(adminKey, header).Ok?
    requires SameRows(SortNewestFirst(t.skips), SortNewestFirst(t'.skips))
    ensures ListSkips(t', adminKey, header, limit) == ListSkips(t, adminKey, header, limit)
  {
    var l, l' := ListSkips(t, adminKey, header, limit).value, ListSkips(t', adminKey, header, limit).value;
    var s, s' := SortNewestFirst(t.skips), SortNewestFirst(t'.skips);
    assert |l| == |l'|;
    forall i | 0 <= i < |l| ensures l[i] == l'[i] {
      assert l[i] == RowOf(s[i]);
      assert l'[i] == RowOf(s'[i]);
    }
    assert l == l';
  }

  /** A soft delete of a known skip stamps its `deleted_at` with the time of the call and changes no other row. */
  lemma SoftDeleteStamps(t: Tables, adminKey: Option<string>, header: Option<string>, skipId: string, now: int, k: nat)
    requires RequireAdmin(adminKey, header).Ok? && UniqueSkipIds(t.skips) && k < |t.skips| && t.skips[k].id == skipId
    ensures var (t', r) := DeleteSkipSpec(t, adminKey, header, skipId, now);
      r == Ok(DeleteOut(true, true, Some(skipId))) && t'.skips[k].deletedAt == Some(now)
      && (forall i :: 0 <= i < |t.skips| && i != k ==> t'.skips[i] == t.skips[i])
      && t' == t.(skips := t'.skips)
  {
  }
}
