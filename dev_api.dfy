/**
 * The development helpers of `api/dev.py`: `ensure-skip`, which creates a skip for a code only
 * when none exists, and the secret-guarded `seed/skip`.
 */
module DevApi {
  import opened Wrappers
  import Text
  import opened Json
  import opened SkipModel
  import opened Store

  /** The code used when neither the query nor the body names one. */
  const DefaultDevQr := "QRDEV-001"

  /** The status `ensure-skip` gives a new skip: a value outside `SkipStatus`. */
  const EnsuredStatus := "available"

  /** Python truthiness of an optional string. */
  predicate Truthy(s: Option<string>) {
    s.Some? && s.value != ""
  }

  /**
   * `(qr or body_qr or "QRDEV-001").strip()`: the choice comes first, the stripping after it.
   * `bodyQr` is the body's `qr` member (`JNull` when there is no body or no such member); a body
   * that is a plain dict may hold any JSON value there, and a truthy one that is not a string has
   * no `strip`, which raises.
   */
  function EnsureQr(query: Option<string>, bodyQr: Json): (r: Response<string>)
    ensures Truthy(query) ==> r == Ok(Text.Strip(query.value))
    ensures !Truthy(query) && PyTruthy(bodyQr) && bodyQr.JStr? ==> r == Ok(Text.Strip(bodyQr.s))
    ensures !Truthy(query) && PyTruthy(bodyQr) && !bodyQr.JStr? ==> r == Err(500, "Internal Server Error")
    ensures !Truthy(query) && !PyTruthy(bodyQr) ==> r == Ok(Text.Strip(DefaultDevQr))
  {
    if Truthy(query) then Ok(Text.Strip(query.value))
    else if PyTruthy(bodyQr) then
      match bodyQr
      case JStr(s) => Ok(Text.Strip(s))
      case _ => Err(500, "Internal Server Error")
    else Ok(Text.Strip(DefaultDevQr))
  }

  /** The default code needs no stripping. */
  lemma DefaultDevQrTrimmed()
    ensures Text.Strip(DefaultDevQr) == DefaultDevQr
  {
    assert DefaultDevQr[0] == 'Q' && DefaultDevQr[|DefaultDevQr| - 1] == '1';
    Text.StripOfTrimmed(DefaultDevQr);
  }

  /** A white-space-only query code is chosen over the body and the default, and strips to "". */
  lemma BlankQueryGivesEmptyCode(query: string, bodyQr: Json)
    requires query != [] && Text.IsBlank(query)
    ensures EnsureQr(Some(query), bodyQr) == Ok("")
  {
    Text.StripEmptyIffBlank(query);
  }

  /** The response of `ensure-skip`. */
  datatype EnsureOut = EnsureOut(id: string, qr: string, status: Option<string>)

  /** `ensure_skip`: the skip with the code, inserted with status "available" when there is none. */
  function EnsureSkipSpec(t: Tables, query: Option<string>, bodyQr: Json, newId: string, now: int): (Tables, Response<EnsureOut>)
  {
    match EnsureQr(query, bodyQr)
    case Err(c, d) => (t, Err(c, d))
    case Ok(qr) =>
      match FindByQr(t.skips, qr)
      case Some(k) => (t, Ok(EnsureOut(t.skips[k].id, t.skips[k].qrCode, Some(t.skips[k].status))))
      case None =>
        var sk := NewSkip(newId, qr, now).(status := EnsuredStatus);
        (t.(skips := t.skips + [sk]), Ok(EnsureOut(newId, qr, Some(EnsuredStatus))))
  }

  /** `ensure_skip` on the committed tables. */
  method EnsureSkip(db: SkipDb, query: Option<string>, bodyQr: Json, newId: string, now: int) returns (r: Response<EnsureOut>)
    modifies db
    ensures (db.Snapshot(), r) == EnsureSkipSpec(old(db.Snapshot()), query, bodyQr, newId, now)
  {
    var code := EnsureQr(query, bodyQr);
    if code.Err? {
      return Err(code.code, code.detail);
    }
    var qr := code.value;
    var found := FindByQr(db.skips, qr);
    if found.Some? {
      var sk := db.skips[found.value];
      return Ok(EnsureOut(sk.id, sk.qrCode, Some(sk.status)));
    }
    db.skips := db.skips + [NewSkip(newId, qr, now).(status := EnsuredStatus)];
    return Ok(EnsureOut(newId, qr, Some(EnsuredStatus)));
  }

  /** A truthy body code that is not a string is refused with a 500 and nothing is inserted. */
  lemma EnsureSkipBadBodyCode(t: Tables, bodyQr: Json, newId: string, now: int)
    requires PyTruthy(bodyQr) && !bodyQr.JStr?
    ensures EnsureSkipSpec(t, None, bodyQr, newId, now) == (t, Err(500, "Internal Server Error"))
  {
  }

  /** An existing skip is returned unchanged and nothing is inserted. */
  lemma EnsureSkipExisting(t: Tables, query: Option<string>, bodyQr: Json, newId: string, now: int, k: nat)
    requires UniqueQr(t.skips) && k < |t.skips| && EnsureQr(query, bodyQr) == Ok(t.skips[k].qrCode)
    ensures EnsureSkipSpec(t, query, bodyQr, newId, now) == (t, Ok(EnsureOut(t.skips[k].id, t.skips[k].qrCode, Some(t.skips[k].status))))
  {
    FindByQrUnique(t.skips, k);
  }

  /** Repeating `ensure-skip` with the same code returns the same skip, whatever id a second insert would have used, and changes nothing. */
  lemma EnsureSkipIdempotent(t: Tables, query: Option<string>, bodyQr: Json, newId: string, now: int, newId2: string, now2: int)
    ensures var (t1, r1) := EnsureSkipSpec(t, query, bodyQr, newId, now);
      EnsureSkipSpec(t1, query, bodyQr, newId2, now2) == (t1, r1)
  {
    var code := EnsureQr(query, bodyQr);
    if code.Ok? && FindByQr(t.skips, code.value).None? {
      FindByQrAppended(t.skips, NewSkip(newId, code.value, now).(status := EnsuredStatus), code.value);
    }
  }

  /** `ensure-skip` keeps the tables consistent when the new id is fresh. */
  lemma EnsureSkipConsistent(t: Tables, query: Option<string>, bodyQr: Json, newId: string, now: int)
    requires Consistent(t) && FindById(t.skips, newId).None?
    ensures Consistent(EnsureSkipSpec(t, query, bodyQr, newId, now).0)
  {
    var code := EnsureQr(query, bodyQr);
    if code.Ok? && FindByQr(t.skips, code.value).None? {
      AppendFreshSkip(t.skips, NewSkip(newId, code.value, now).(status := EnsuredStatus));
    }
  }

  // ----- seed/skip -----

  /** The body of `seed/skip`: both the owner and the code are required strings. */
  datatype DevSkipCreate = DevSkipCreate(ownerOrgId: string, qrCode: string, size: Option<string>, color: Option<string>)

  datatype DevSeedOut = DevSeedOut(id: string, qrCode: string)

  /** The guards of `seed/skip`, in order: the `X-Dev-Secret` header must equal `JWT_SECRET` (401), and the code must be new (409). */
  function DevSeedGuard(t: Tables, secret: string, header: Option<string>, payload: DevSkipCreate): (r: Response<()>)
    ensures r.Ok? <==> header == Some(secret) && FindByQr(t.skips, payload.qrCode).None?
    ensures header != Some(secret) ==> r == Err(401, "Not authenticated")
    ensures header == Some(secret) && FindByQr(t.skips, payload.qrCode).Some? ==> r == Err(409, "qr_code already exists")
  {
    if header != Some(secret) then Err(401, "Not authenticated")
    else if FindByQr(t.skips, payload.qrCode).Some? then Err(409, "qr_code already exists")
    else Ok(())
  }

  /**
   * `seed_skip` as written: `Skip` has no `size` or `color` column, so building the row with those
   * keywords raises `TypeError` and every call past the guards is a 500 that inserts nothing.
   */
  function DevSeedSkipAsWritten(t: Tables, secret: string, header: Option<string>, payload: DevSkipCreate): (Tables, Response<DevSeedOut>)
  {
    match DevSeedGuard(t, secret, header, payload)
    case Err(c, d) => (t, Err(c, d))
    case Ok(_) => (t, Err(500, "Internal Server Error"))
  }

  /** `seed_skip` as intended: the row gets the owner and the code, and is committed. */
  function DevSeedSkipSpec(t: Tables, secret: string, header: Option<string>, payload: DevSkipCreate, newId: string, now: int): (Tables, Response<DevSeedOut>)
  {
    match DevSeedGuard(t, secret, header, payload)
    case Err(c, d) => (t, Err(c, d))
    case Ok(_) =>
      (t.(skips := t.skips + [NewSkip(newId, payload.qrCode, now).(ownerOrgId := Some(payload.ownerOrgId))]),
       Ok(DevSeedOut(newId, payload.qrCode)))
  }

  /** The intended `seed_skip` on the committed tables. */
  method DevSeedSkip(db: SkipDb, secret: string, header: Option<string>, payload: DevSkipCreate, newId: string, now: int) returns (r: Response<DevSeedOut>)
    modifies db
    ensures (db.Snapshot(), r) == DevSeedSkipSpec(old(db.Snapshot()), secret, header, payload, newId, now)
  {
    var guard := DevSeedGuard(db.Snapshot(), secret, header, payload);
    if guard.Err? {
      return Err(guard.code, guard.detail);
    }
    db.skips := db.skips + [NewSkip(newId, payload.qrCode, now).(ownerOrgId := Some(payload.ownerOrgId))];
    return Ok(DevSeedOut(newId, payload.qrCode));
  }

  /** As written the endpoint never succeeds and never changes the tables; past the guards it always fails with 500. */
  lemma DevSeedAsWrittenNeverInserts(t: Tables, secret: string, header: Option<string>, payload: DevSkipCreate)
    ensures var (t', r) := DevSeedSkipAsWritten(t, secret, header, payload);
      t' == t && r.Err? && (DevSeedGuard(t, secret, header, payload).Ok? ==> r.code == 500)
  {
  }

  /**
   * The two versions agree whenever a guard rejects; otherwise the intended one inserts a skip
   * that the code then finds, so a second seed of the same code is the 409.
   */
  lemma DevSeedIntendedInsertsOnce(t: Tables, secret: string, payload: DevSkipCreate, newId: string, now: int, newId2: string, now2: int)
    requires FindByQr(t.skips, payload.qrCode).None?
    ensures var (t1, r1) := DevSeedSkipSpec(t, secret, Some(secret), payload, newId, now);
      r1 == Ok(DevSeedOut(newId, payload.qrCode))
      && FindByQr(t1.skips, payload.qrCode) == Some(|t.skips|)
      && DevSeedSkipSpec(t1, secret, Some(secret), payload, newId2, now2) == (t1, Err(409, "qr_code already exists"))
  {
    FindByQrAppended(t.skips, NewSkip(newId, payload.qrCode, now).(ownerOrgId := Some(payload.ownerOrgId)), payload.qrCode);
  }

  /** A rejected seed is rejected the same way by both versions, before any lookup when the secret is wrong. */
  lemma DevSeedGuardsShared(t: Tables, secret: string, header: Option<string>, payload: DevSkipCreate, newId: string, now: int)
    requires DevSeedGuard(t, secret, header, payload).Err?
    ensures DevSeedSkipAsWritten(t, secret, header, payload) == DevSeedSkipSpec(t, secret, header, payload, newId, now)
  {
  }
}
