/**
 * The skip lifecycle engine of the driver endpoints: payload readers, the placement
 * ledger, and the four commands deliver-empty, relocate-empty, collect-full and return-empty.
 *
 * Each command is specified by a function from the tables before the command to the
 * tables after it and the response; the `SkipDb` methods carry the command out step by
 * step and are proved to agree with that function. The clock readings and the ids the
 * database would generate are parameters.
 */
module Driver {
  import opened Wrappers
  import opened Json
  import Text
  import opened SkipModel
  import opened DriverModel
  import opened Store

  // ===================== payload readers =====================

  /** The stripped string under `k`, when it is a string with non-blank content. */
  function StrAt(d: Option<Dict>, k: string): (r: Option<string>)
    ensures r.Some? ==> r.value != ""
  {
    var v := Get(d, k);
    if v.JStr? && Text.Strip(v.s) != "" then Some(Text.Strip(v.s)) else None
  }

  /** The position of the first present value from position `from` on. */
  function FirstIndex<T>(vals: seq<Option<T>>, from: nat): (r: Option<nat>)
    requires from <= |vals|
    decreases |vals| - from
    ensures r.None? <==> forall i :: from <= i < |vals| ==> vals[i].None?
    ensures r.Some? ==> from <= r.value < |vals| && vals[r.value].Some? && forall j :: from <= j < r.value ==> vals[j].None?
  {
    if from == |vals| then None
    else if vals[from].Some? then Some(from)
    else FirstIndex(vals, from + 1)
  }

  /** The first present value, as the early-returning loops over a key list find it. */
  function First<T>(vals: seq<Option<T>>): (r: Option<T>)
    ensures r.None? <==> forall i :: 0 <= i < |vals| ==> vals[i].None?
    ensures r.Some? ==> (var i := FirstIndex(vals, 0).value; r == vals[i] && forall j :: 0 <= j < i ==> vals[j].None?)
  {
    match FirstIndex(vals, 0)
    case None => None
    case Some(i) => vals[i]
  }

  /** The first present value of a key list's lookups, stated in terms of the keys. */
  lemma FirstOfKeys<T>(keys: seq<string>, vals: seq<Option<T>>, f: string -> Option<T>)
    requires |vals| == |keys| && forall i :: 0 <= i < |keys| ==> vals[i] == f(keys[i])
    ensures First(vals).None? <==> forall i :: 0 <= i < |keys| ==> f(keys[i]).None?
    ensures First(vals).Some? ==> exists i :: 0 <= i < |keys| && First(vals) == f(keys[i]) && forall j :: 0 <= j < i ==> f(keys[j]).None?
  {
    if First(vals).Some? {
      var i := FirstIndex(vals, 0).value;
      assert 0 <= i < |keys| && First(vals) == f(keys[i]) && forall j :: 0 <= j < i ==> f(keys[j]).None?;
    }
  }

  /**
   * `get_str`: nothing for a missing or empty body, else the stripped string of the first
   * listed key that holds a non-blank string; nothing when no key does.
   */
  function GetStr(d: Option<Dict>, keys: seq<string>): (r: Option<string>)
    ensures r.None? <==> forall i :: 0 <= i < |keys| ==> StrAt(d, keys[i]).None?
    ensures r.Some? ==> r.value != "" && exists i :: 0 <= i < |keys| && r == StrAt(d, keys[i]) && forall j :: 0 <= j < i ==> StrAt(d, keys[j]).None?
  {
    if d.None? || d.value == map[] then None
    else
      var vals := seq(|keys|, i requires 0 <= i < |keys| => StrAt(d, keys[i]));
      FirstOfKeys(keys, vals, k => StrAt(d, k));
      First(vals)
  }

  /** Python `float(v)` for a decoded JSON value; `None` where it raises. */
  function PyFloat(v: Json): Option<real> {
    match v
    case JNum(n) => Some(n)
    case JBool(b) => Some(if b then 1.0 else 0.0)
    case JStr(s) => Text.ParseDecimal(Text.Strip(s))
    case _ => None
  }

  /** The number under `k`, when the value is neither `None` nor `""` and converts. */
  function NumAt(d: Option<Dict>, k: string): Option<real> {
    var v := Get(d, k);
    if v == JNull || v == JStr("") then None else PyFloat(v)
  }

  /** `get_num`: the number of the first listed key whose value converts, skipping `None` and `""`; nothing when none does. */
  function GetNum(d: Option<Dict>, keys: seq<string>): (r: Option<real>)
    ensures r.None? <==> forall i :: 0 <= i < |keys| ==> NumAt(d, keys[i]).None?
    ensures r.Some? ==> exists i :: 0 <= i < |keys| && r == NumAt(d, keys[i]) && forall j :: 0 <= j < i ==> NumAt(d, keys[j]).None?
  {
    if d.None? || d.value == map[] then None
    else
      var vals := seq(|keys|, i requires 0 <= i < |keys| => NumAt(d, keys[i]));
      FirstOfKeys(keys, vals, k => NumAt(d, k));
      First(vals)
  }

  /** `_calc_net`: the explicit net, else gross minus tare when both are known, else nothing. */
  function CalcNet(gross: Option<real>, tare: Option<real>, net: Option<real>): (r: Option<real>)
    ensures net.Some? ==> r == net
    ensures net.None? && gross.Some? && tare.Some? ==> r == Some(gross.value - tare.value)
    ensures net.None? && (gross.None? || tare.None?) ==> r.None?
  {
    if net.Some? then net
    else if gross.Some? && tare.Some? then Some(gross.value - tare.value)
    else None
  }

  /** `x or 0.0` for an optional number. */
  function OrZero(x: Option<real>): real {
    if x.Some? then x.value else 0.0
  }

  /** `str(payload.get(k, ""))` as `parse_enum` receives it: the text of a string value, `""` for a missing key; the text of any other value names no member. */
  function EnumArg(d: Dict, k: string): Option<string> {
    if k !in d then Some("")
    else if d[k].JStr? then Some(d[k].s)
    else None
  }

  const SkipQrKeys: seq<string> := ["skip_qr", "qr", "skipId", "skip_id"]
  const ToZoneKeys: seq<string> := ["to_zone_id", "zone_id", "toZoneId"]
  const DriverKeys: seq<string> := ["driver_name", "driver"]
  const VehicleKeys: seq<string> := ["vehicle_reg", "vehicle", "vehicle_reg_no"]

  // ===================== placement ledger =====================

  /** A placement of skip `skipId` that has not been removed. */
  predicate IsOpenOf(p: Placement, skipId: string) {
    p.skipId == skipId && p.removedAt.None?
  }

  /** A placement of `skipId` counted by a lookup: any, or only the open ones. */
  predicate Eligible(p: Placement, skipId: string, openOnly: bool) {
    p.skipId == skipId && (!openOnly || p.removedAt.None?)
  }

  /**
   * `order_by(placed_at.desc()).limit(1)`: the index of an eligible placement placed no
   * earlier than any other eligible one. SQL leaves the order of equal times open; the model
   * picks the row inserted last, and no lemma relies on that choice.
   */
  function Latest(ps: seq<Placement>, skipId: string, openOnly: bool): (r: Option<nat>)
    ensures r.Some? ==> r.value < |ps| && Eligible(ps[r.value], skipId, openOnly)
    ensures r.Some? ==> forall j :: 0 <= j < |ps| && Eligible(ps[j], skipId, openOnly) ==> ps[j].placedAt <= ps[r.value].placedAt
    ensures r.None? <==> forall j :: 0 <= j < |ps| ==> !Eligible(ps[j], skipId, openOnly)
  {
    if ps == [] then None
    else
      var front := ps[..|ps| - 1];
      var rest := Latest(front, skipId, openOnly);
      assert forall j :: 0 <= j < |front| ==> front[j] == ps[j];
      if Eligible(ps[|ps| - 1], skipId, openOnly) && (rest.None? || ps[rest.value].placedAt <= ps[|ps| - 1].placedAt)
      then Some(|ps| - 1)
      else rest
  }

  /**
   * `_get_active_placement`, reduced to the zone it reports: with a placement model, the
   * zone of the latest open placement; without one, the skip's own `zone_id` when it is set.
   * `None` means there is no active placement.
   */
  function ActiveZone(pm: bool, ps: seq<Placement>, sk: Skip): (r: Option<string>)
    ensures !pm ==> (r.Some? <==> sk.zoneId.Some? && sk.zoneId.value != "")
    ensures pm ==> (r.Some? <==> exists j :: 0 <= j < |ps| && IsOpenOf(ps[j], sk.id))
  {
    if !pm then (if sk.zoneId.Some? && sk.zoneId.value != "" then sk.zoneId else None)
    else
      var l := Latest(ps, sk.id, true);
      if l.None? then None
      else
        assert Eligible(ps[l.value], sk.id, true);
        Some(ps[l.value].zoneId)
  }

  /** `_close_all_active_placements`: every open placement of the skip gets `removed_at = when`. */
  function CloseAll(ps: seq<Placement>, skipId: string, when: int): (r: seq<Placement>)
    ensures |r| == |ps|
    ensures forall i :: 0 <= i < |r| ==> !IsOpenOf(r[i], skipId)
    ensures forall i :: 0 <= i < |ps| && !IsOpenOf(ps[i], skipId) ==> r[i] == ps[i]
  {
    seq(|ps|, i requires 0 <= i < |ps| => if IsOpenOf(ps[i], skipId) then ps[i].(removedAt := Some(when)) else ps[i])
  }

  /** `_open_placement`: a new open placement when the model exists and the zone is non-empty. */
  function Open(pm: bool, ps: seq<Placement>, skipId: string, zone: Option<string>, when: int, id: string): seq<Placement> {
    if pm && zone.Some? && zone.value != "" then ps + [Placement(id, skipId, zone.value, when, None)] else ps
  }

  /** The status `_safe_place` leaves: deployed after a delivery or return, in transit after a collection, otherwise unchanged. */
  function PlacedStatus(mt: MovementType, status: string): string {
    match mt
    case DeliveryEmpty => Deployed.Value()
    case ReturnEmpty => Deployed.Value()
    case CollectionFull => InTransit.Value()
    case RelocationEmpty => status
  }


  /** A zone `_open_placement` accepts: present and non-empty. */
  predicate Opens(pm: bool, zone: Option<string>) {
    pm && zone.Some? && zone.value != ""
  }

  /**
   * `_safe_place` on skip number `k`: close every open placement of the skip, open one at
   * the target zone when there is one, then set the skip's zone and status.
   */
  function SafePlaceSpec(pm: bool, t: Tables, k: nat, toZone: Option<string>, when: int, mt: MovementType, placementId: string): (t': Tables)
    requires k < |t.skips|
    // the placement ledger: every open placement of the skip is closed, nothing else changes
    ensures |t'.placements| == |t.placements| + (if Opens(pm, toZone) then 1 else 0)
    ensures !pm ==> t'.placements == t.placements
    ensures pm ==> forall i :: 0 <= i < |t.placements| ==>
      t'.placements[i] == (if IsOpenOf(t.placements[i], t.skips[k].id) then t.placements[i].(removedAt := Some(when)) else t.placements[i])
    // at most one open placement remains for the skip: the new one, at the target zone
    ensures pm ==> forall i :: 0 <= i < |t'.placements| && IsOpenOf(t'.placements[i], t.skips[k].id) ==>
      i == |t.placements| && Some(t'.placements[i].zoneId) == toZone && t'.placements[i].placedAt == when
    ensures Opens(pm, toZone) ==> IsOpenOf(t'.placements[|t.placements|], t.skips[k].id) && t'.placements[|t.placements|].id == placementId
    // the skip's zone and status
    ensures |t'.skips| == |t.skips| && t'.skips[k].zoneId == toZone
    ensures t'.skips[k] == t.skips[k].(zoneId := toZone, status := t'.skips[k].status)
    ensures mt == DeliveryEmpty || mt == ReturnEmpty ==> t'.skips[k].status == "deployed"
    ensures mt == CollectionFull ==> t'.skips[k].status == "in_transit"
    ensures mt == RelocationEmpty ==> t'.skips[k].status == t.skips[k].status
    ensures forall j :: 0 <= j < |t.skips| && j != k ==> t'.skips[j] == t.skips[j]
    ensures t' == t.(placements := t'.placements, skips := t'.skips)
  {
    var sk := t.skips[k];
    var closed := if pm then CloseAll(t.placements, sk.id, when) else t.placements;
    t.(placements := Open(pm, closed, sk.id, toZone, when, placementId),
       skips := t.skips[k := sk.(zoneId := toZone, status := PlacedStatus(mt, sk.status))])
  }

  /** `_safe_place` keeps the tables consistent: unique codes, and never two open placements for one skip. */
  lemma SafePlaceConsistent(pm: bool, t: Tables, k: nat, toZone: Option<string>, when: int, mt: MovementType, pid: string)
    requires k < |t.skips| && Consistent(t)
    ensures Consistent(SafePlaceSpec(pm, t, k, toZone, when, mt, pid))
  {
    var t' := SafePlaceSpec(pm, t, k, toZone, when, mt, pid);
    var id := t.skips[k].id;
    assert UniqueQr(t'.skips) by {
      forall i, j | 0 <= i < |t'.skips| && 0 <= j < |t'.skips| && t'.skips[i].qrCode == t'.skips[j].qrCode
        ensures i == j
      {
        assert t'.skips[i].qrCode == t.skips[i].qrCode && t'.skips[j].qrCode == t.skips[j].qrCode;
      }
    }
    assert UniqueSkipIds(t'.skips) by {
      forall i, j | 0 <= i < |t'.skips| && 0 <= j < |t'.skips| && t'.skips[i].id == t'.skips[j].id
        ensures i == j
      {
        assert t'.skips[i].id == t.skips[i].id && t'.skips[j].id == t.skips[j].id;
      }
    }
    if pm {
      assert OnePlacementOpen(t'.placements) by {
        forall i, j | 0 <= i < |t'.placements| && 0 <= j < |t'.placements| && t'.placements[i].removedAt.None? &&
          t'.placements[j].removedAt.None? && t'.placements[i].skipId == t'.placements[j].skipId
          ensures i == j
        {
          if t'.placements[i].skipId != id {
            assert i < |t.placements| && j < |t.placements|;
            assert t'.placements[i] == t.placements[i] && t'.placements[j] == t.placements[j];
          }
        }
      }
    }
  }

  // ===================== responses =====================

  datatype ScanOut = ScanOut(id: string, qrCode: string, status: Option<string>, zoneId: Option<string>)

  datatype CollectFullOut = CollectFullOut(movementId: string, weightNetKg: real, transferId: string, wtnId: Option<string>, wtnPdfUrl: Option<string>)

  datatype ReturnEmptyOut = ReturnEmptyOut(movementId: string, skipId: string, toZoneId: string, placementId: Option<string>, status: Option<string>)

  /** The ids the database assigns to the rows one command inserts. */
  datatype NewIds = NewIds(movementId: string, placementId: string, transferId: string, wtnId: string)

  // ===================== commands as functions =====================

  /** A query parameter counts when it is present and non-empty. */
  predicate Given(p: Option<string>) {
    p.Some? && p.value != ""
  }

  /** `scan`: the code from `?qr=`, else `?q=`, else the body's `qr`/`q`; 400 without one, 404 when unknown. */
  function Scan(t: Tables, qr: Option<string>, q: Option<string>, payload: Option<Dict>): (r: Response<ScanOut>)
    ensures var code := if Given(qr) then qr else if Given(q) then q else GetStr(payload, ["qr", "q"]);
      (r == Err(400, "qr is required") <==> !Given(code)) &&
      (r == Err(404, "skip not found") <==> Given(code) && FindByQr(t.skips, code.value).None?) &&
      (r.Ok? ==> Given(code) && exists k :: (0 <= k < |t.skips| && t.skips[k].qrCode == code.value &&
                                             r.value == ScanOut(t.skips[k].id, code.value, Some(t.skips[k].status), t.skips[k].zoneId)))
  {
    var code := if Given(qr) then qr else if Given(q) then q else GetStr(payload, ["qr", "q"]);
    if !Given(code) then Err(400, "qr is required")
    else match FindByQr(t.skips, code.value)
      case None => Err(404, "skip not found")
      case Some(k) => Ok(ScanOut(t.skips[k].id, t.skips[k].qrCode, Some(t.skips[k].status), t.skips[k].zoneId))
  }

  /**
   * The movement an empty-skip command records for skip `sk`: deliver and return come from
   * nowhere, relocate comes from the skip's current zone; return records no note.
   */
  function EmptyMove(mt: MovementType, sk: Skip, toZone: string, payload: Dict, when: int, id: string): Movement {
    Movement(
      id, sk.id, mt,
      if mt == RelocationEmpty then sk.zoneId else None,
      Some(toZone), when,
      GetStr(Some(payload), DriverKeys),
      GetStr(Some(payload), VehicleKeys),
      if mt == ReturnEmpty then None else GetStr(Some(payload), ["note"]))
  }

  /**
   * Deliver-empty, relocate-empty and return-empty up to their responses: validate the body,
   * find the skip, append the movement, place the skip. On success it also reports the
   * index of the skip in the table.
   */
  function EmptyMoveSpec(mt: MovementType, pm: bool, t: Tables, payload: Dict, when: int, ids: NewIds): (res: (Tables, Response<(nat, Movement)>))
    requires mt != CollectionFull
    ensures var skipQr := GetStr(Some(payload), SkipQrKeys);
      var toZone := GetStr(Some(payload), ToZoneKeys);
      (res.1 == Err(400, "skip_qr and to_zone_id required") <==> skipQr.None? || toZone.None?) &&
      (res.1 == Err(404, "skip not found") <==> skipQr.Some? && toZone.Some? && FindByQr(t.skips, skipQr.value).None?) &&
      (res.1.Err? ==> res.0 == t) &&
      (res.1.Ok? ==> skipQr.Some? && toZone.Some? && res.1.value.0 == FindByQr(t.skips, skipQr.value).value)
    ensures res.1.Ok? ==>
      var (k, mv) := res.1.value;
      k < |t.skips| &&
      mv.skipId == t.skips[k].id && mv.mtype == mt && mv.when == when && mv.id == ids.movementId &&
      mv.toZoneId == GetStr(Some(payload), ToZoneKeys) &&
      mv.fromZoneId == (if mt == RelocationEmpty then t.skips[k].zoneId else None) &&
      res.0 == SafePlaceSpec(pm, t.(movements := t.movements + [mv]), k, mv.toZoneId, when, mt, ids.placementId)
  {
    var skipQr := GetStr(Some(payload), SkipQrKeys);
    var toZone := GetStr(Some(payload), ToZoneKeys);
    if skipQr.None? || toZone.None? then (t, Err(400, "skip_qr and to_zone_id required"))
    else match FindByQr(t.skips, skipQr.value)
      case None => (t, Err(404, "skip not found"))
      case Some(k) =>
        var mv := EmptyMove(mt, t.skips[k], toZone.value, payload, when, ids.movementId);
        (SafePlaceSpec(pm, t.(movements := t.movements + [mv]), k, toZone, when, mt, ids.placementId), Ok((k, mv)))
  }

  /** The public response of deliver-empty and relocate-empty: the movement. */
  function MovementResponse(r: Response<(nat, Movement)>): Response<Movement> {
    if r.Ok? then Ok(r.value.1) else Err(r.code, r.detail)
  }

  function DeliverEmptySpec(pm: bool, t: Tables, payload: Dict, when: int, ids: NewIds): (Tables, Response<Movement>) {
    var res := EmptyMoveSpec(DeliveryEmpty, pm, t, payload, when, ids);
    (res.0, MovementResponse(res.1))
  }

  function RelocateEmptySpec(pm: bool, t: Tables, payload: Dict, when: int, ids: NewIds): (Tables, Response<Movement>) {
    var res := EmptyMoveSpec(RelocationEmpty, pm, t, payload, when, ids);
    (res.0, MovementResponse(res.1))
  }

  /**
   * Return-empty: after the placement, the response names the skip's latest placement
   * (when the placement model exists) and the skip's new status.
   */
  function ReturnEmptySpec(pm: bool, t: Tables, payload: Dict, when: int, ids: NewIds): (res: (Tables, Response<ReturnEmptyOut>))
    ensures res.1.Err? ==> res.0 == t
    ensures res.1.Ok? ==> res.1.value.status == Some("deployed") && Some(res.1.value.toZoneId) == GetStr(Some(payload), ToZoneKeys)
    ensures res.1.Ok? && !pm ==> res.1.value.placementId == None
  {
    var (t', r) := EmptyMoveSpec(ReturnEmpty, pm, t, payload, when, ids);
    if r.Err? then (t', Err(r.code, r.detail))
    else
      var (k, mv) := r.value;
      var sk := t'.skips[k];
      var latest := if pm then Latest(t'.placements, sk.id, false) else None;
      (t', Ok(ReturnEmptyOut(mv.id, sk.id, mv.toZoneId.value, if latest.Some? then Some(t'.placements[latest.value].id) else None, Some(sk.status))))
  }

  /** The weight row of a collection: the source named by `weight_source` (weighbridge by default) and the net, 0.0 when unknown. */
  function CollectWeight(payload: Dict, movementId: string): (w: Weight)
    ensures w.movementId == movementId
    ensures w.grossKg == GetNum(Some(payload), ["gross_kg", "gross"]) && w.tareKg == GetNum(Some(payload), ["tare_kg", "tare"])
    ensures w.netKg == OrZero(CalcNet(w.grossKg, w.tareKg, GetNum(Some(payload), ["net_kg", "net"])))
  {
    var gross := GetNum(Some(payload), ["gross_kg", "gross"]);
    var tare := GetNum(Some(payload), ["tare_kg", "tare"]);
    var net := GetNum(Some(payload), ["net_kg", "net"]);
    Weight(movementId, ParseEnum(WeightSources, EnumArg(payload, "weight_source"), Weighbridge), gross, tare, OrZero(CalcNet(gross, tare, net)))
  }

  /** The transfer row of a collection, with the development defaults for absent fields. */
  function CollectTransfer(payload: Dict, id: string, movementId: string): Transfer {
    Transfer(
      id, movementId,
      GetStr(Some(payload), ["site_id"]).GetOr("SITE-DEV"),
      GetStr(Some(payload), ["commodity_id"]).GetOr("COM-DEV"),
      ParseEnum(DestinationTypes, EnumArg(payload, "destination_type"), Recycling),
      GetStr(Some(payload), ["destination_name", "dest_name"]).GetOr("ECO MRF"),
      GetStr(Some(payload), ["destination_address"]))
  }

  /** The note issued for a collection of skip `qr`. */
  function CollectNote(payload: Dict, id: string, qr: string, w: Weight, tr: Transfer, createdAt: int): WasteTransferNote {
    WasteTransferNote(id, tr.id, Some("Collection of skip " + qr), None, Some(w.netKg), None,
      GetStr(Some(payload), DriverKeys), Some(tr.destinationName), Some(createdAt))
  }

  /** The movement a collection records: from the active zone to nowhere. */
  function CollectMove(sk: Skip, active: Option<string>, payload: Dict, when: int, id: string): Movement {
    Movement(id, sk.id, CollectionFull, active, None, when,
      GetStr(Some(payload), DriverKeys), GetStr(Some(payload), VehicleKeys), GetStr(Some(payload), ["gate_pass_ref", "note"]))
  }

  /**
   * `collect_full`: requires a placed skip; records the movement, empties the placement,
   * and writes the weight, transfer and note. `noteTime` is the second clock reading.
   */
  function CollectFullSpec(pm: bool, t: Tables, payload: Dict, when: int, noteTime: int, ids: NewIds): (res: (Tables, Response<CollectFullOut>))
    ensures var skipQr := GetStr(Some(payload), SkipQrKeys);
      var k := if skipQr.Some? then FindByQr(t.skips, skipQr.value) else None;
      (res.1 == Err(400, "skip_qr (or qr) required") <==> skipQr.None?) &&
      (res.1 == Err(404, "skip not found") <==> skipQr.Some? && k.None?) &&
      (res.1 == Err(400, "skip not deployed on a site") <==> k.Some? && ActiveZone(pm, t.placements, t.skips[k.value]).None?) &&
      (res.1.Ok? <==> k.Some? && ActiveZone(pm, t.placements, t.skips[k.value]).Some?) &&
      (res.1.Err? ==> res.0 == t)
  {
    var skipQr := GetStr(Some(payload), SkipQrKeys);
    if skipQr.None? then (t, Err(400, "skip_qr (or qr) required"))
    else match FindByQr(t.skips, skipQr.value)
      case None => (t, Err(404, "skip not found"))
      case Some(k) =>
        var sk := t.skips[k];
        var active := ActiveZone(pm, t.placements, sk);
        if active.None? then (t, Err(400, "skip not deployed on a site"))
        else CollectPlaced(pm, t, k, active, payload, when, noteTime, ids)
  }

  /** A collection of skip number `k`, known to stand in zone `active`. */
  function CollectPlaced(pm: bool, t: Tables, k: nat, active: Option<string>, payload: Dict, when: int, noteTime: int, ids: NewIds): (Tables, Response<CollectFullOut>)
    requires k < |t.skips|
  {
    var sk := t.skips[k];
    var mv := CollectMove(sk, active, payload, when, ids.movementId);
    var t1 := SafePlaceSpec(pm, t.(movements := t.movements + [mv]), k, None, when, CollectionFull, ids.placementId);
    var w := CollectWeight(payload, mv.id);
    var tr := CollectTransfer(payload, ids.transferId, mv.id);
    var note := CollectNote(payload, ids.wtnId, sk.qrCode, w, tr, noteTime);
    (t1.(weights := t1.weights + [w], transfers := t1.transfers + [tr], notes := t1.notes + [note]),
     Ok(CollectFullOut(mv.id, w.netKg, tr.id, Some(note.id), Some("/wtn/" + note.id + ".pdf"))))
  }

  /**
   * A successful collection appends one movement, from the active zone to nowhere, leaves
   * the skip in transit with no zone and no open placement, and writes exactly one weight,
   * one transfer and one note, each tied to the one before; the note's quantity is the net
   * weight, so never missing, and the response links to the note's document.
   */
  lemma CollectFullRecords(pm: bool, t: Tables, payload: Dict, when: int, noteTime: int, ids: NewIds)
    ensures var (t', r) := CollectFullSpec(pm, t, payload, when, noteTime, ids);
      r.Ok? ==> (
      var k := FindByQr(t.skips, GetStr(Some(payload), SkipQrKeys).value).value;
      var sk := t.skips[k];
      var out := r.value;
      // one movement from the active zone to nowhere, then the placement is emptied
      var mv := CollectMove(sk, ActiveZone(pm, t.placements, sk), payload, when, ids.movementId);
      t'.movements == t.movements + [mv] &&
      mv.fromZoneId.Some? && mv.toZoneId == None &&
      t'.skips[k].zoneId == None && t'.skips[k].status == "in_transit" &&
      (pm ==> forall i :: 0 <= i < |t'.placements| ==> !IsOpenOf(t'.placements[i], sk.id)) &&
      // exactly one weight, transfer and note, chained to the movement
      |t'.weights| == |t.weights| + 1 && t'.weights[..|t.weights|] == t.weights &&
      |t'.transfers| == |t.transfers| + 1 && t'.transfers[..|t.transfers|] == t.transfers &&
      |t'.notes| == |t.notes| + 1 && t'.notes[..|t.notes|] == t.notes &&
      var w := t'.weights[|t.weights|];
      var tr := t'.transfers[|t.transfers|];
      var note := t'.notes[|t.notes|];
      w == CollectWeight(payload, mv.id) && tr == CollectTransfer(payload, ids.transferId, mv.id) &&
      note.transferId == tr.id && note.quantityKg == Some(w.netKg) &&
      note.destinationName == Some(tr.destinationName) &&
      note.description == Some("Collection of skip " + sk.qrCode) &&
      out == CollectFullOut(mv.id, w.netKg, tr.id, Some(ids.wtnId), Some("/wtn/" + ids.wtnId + ".pdf")))
  {
    var (t', r) := CollectFullSpec(pm, t, payload, when, noteTime, ids);
    if r.Ok? {
      var k := FindByQr(t.skips, GetStr(Some(payload), SkipQrKeys).value).value;
      var sk := t.skips[k];
      var mv := CollectMove(sk, ActiveZone(pm, t.placements, sk), payload, when, ids.movementId);
      assert (t', r) == CollectPlaced(pm, t, k, ActiveZone(pm, t.placements, sk), payload, when, noteTime, ids);
      var t0 := t.(movements := t.movements + [mv]);
      var t1 := SafePlaceSpec(pm, t0, k, None, when, CollectionFull, ids.placementId);
      var w := CollectWeight(payload, mv.id);
      var tr := CollectTransfer(payload, ids.transferId, mv.id);
      var note := CollectNote(payload, ids.wtnId, sk.qrCode, w, tr, noteTime);
      assert t' == t1.(weights := t1.weights + [w], transfers := t1.transfers + [tr], notes := t1.notes + [note]);
      assert t1.weights == t.weights && t1.transfers == t.transfers && t1.notes == t.notes;
      assert (t.weights + [w])[..|t.weights|] == t.weights;
      assert (t.transfers + [tr])[..|t.transfers|] == t.transfers;
      assert (t.notes + [note])[..|t.notes|] == t.notes;
    }
  }

  /** Each command keeps the tables consistent: codes stay unique and no skip is ever open in two places. */
  lemma EmptyMoveConsistent(mt: MovementType, pm: bool, t: Tables, payload: Dict, when: int, ids: NewIds)
    requires mt != CollectionFull && Consistent(t)
    ensures Consistent(EmptyMoveSpec(mt, pm, t, payload, when, ids).0)
  {
    var (t', r) := EmptyMoveSpec(mt, pm, t, payload, when, ids);
    if r.Ok? {
      var (k, mv) := r.value;
      SafePlaceConsistent(pm, t.(movements := t.movements + [mv]), k, mv.toZoneId, when, mt, ids.placementId);
    }
  }

  lemma CollectFullConsistent(pm: bool, t: Tables, payload: Dict, when: int, noteTime: int, ids: NewIds)
    requires Consistent(t)
    ensures Consistent(CollectFullSpec(pm, t, payload, when, noteTime, ids).0)
  {
    var (t', r) := CollectFullSpec(pm, t, payload, when, noteTime, ids);
    if r.Ok? {
      var k := FindByQr(t.skips, GetStr(Some(payload), SkipQrKeys).value).value;
      var sk := t.skips[k];
      var mv := CollectMove(sk, ActiveZone(pm, t.placements, sk), payload, when, ids.movementId);
      var t0 := t.(movements := t.movements + [mv]);
      SafePlaceConsistent(pm, t0, k, None, when, CollectionFull, ids.placementId);
      var t1 := SafePlaceSpec(pm, t0, k, None, when, CollectionFull, ids.placementId);
      assert t'.skips == t1.skips && t'.placements == t1.placements && t'.assignments == t1.assignments;
    }
  }

  /**
   * An eligible row placed strictly later than every other eligible row is the one the lookup
   * returns, however the database breaks ties among the others.
   */
  lemma {:induction false} LatestIsNewest(ps: seq<Placement>, skipId: string, openOnly: bool)
    requires ps != [] && Eligible(ps[|ps| - 1], skipId, openOnly)
    requires forall j :: 0 <= j < |ps| - 1 && Eligible(ps[j], skipId, openOnly) ==> ps[j].placedAt < ps[|ps| - 1].placedAt
    ensures Latest(ps, skipId, openOnly) == Some(|ps| - 1)
  {
    var front := ps[..|ps| - 1];
    var rest := Latest(front, skipId, openOnly);
    if rest.Some? {
      assert front[rest.value] == ps[rest.value];
    }
  }

  /**
   * After `_safe_place` at a zone, at a time later than every placement stamp, the skip's latest
   * placement is the new one: it alone has the greatest `placed_at`, so no tie is involved.
   */
  lemma SafePlaceLatest(t: Tables, k: nat, toZone: Option<string>, when: int, mt: MovementType, pid: string)
    requires k < |t.skips| && Opens(true, toZone)
    requires forall i :: 0 <= i < |t.placements| ==> t.placements[i].placedAt < when
    ensures var t' := SafePlaceSpec(true, t, k, toZone, when, mt, pid);
      Latest(t'.placements, t.skips[k].id, false) == Some(|t.placements|) && t'.placements[|t.placements|].id == pid
  {
    var t' := SafePlaceSpec(true, t, k, toZone, when, mt, pid);
    var id := t.skips[k].id;
    var n := |t.placements|;
    assert Eligible(t'.placements[n], id, false);
    forall j | 0 <= j < n && Eligible(t'.placements[j], id, false)
      ensures t'.placements[j].placedAt < t'.placements[n].placedAt
    {
      assert t'.placements[j].placedAt == t.placements[j].placedAt;
    }
    LatestIsNewest(t'.placements, id, false);
  }

  /**
   * With the placement model, when every earlier placement was stamped before the command's
   * time, the placement return-empty reports is the one it has just opened.
   */
  lemma ReturnEmptyNamesNewPlacement(t: Tables, payload: Dict, when: int, ids: NewIds)
    requires forall i :: 0 <= i < |t.placements| ==> t.placements[i].placedAt < when
    ensures var (t', r) := ReturnEmptySpec(true, t, payload, when, ids);
      r.Ok? ==> r.value.placementId == Some(ids.placementId)
  {
    var (t1, r1) := EmptyMoveSpec(ReturnEmpty, true, t, payload, when, ids);
    if r1.Ok? {
      var (k, mv) := r1.value;
      var t0 := t.(movements := t.movements + [mv]);
      assert t1 == SafePlaceSpec(true, t0, k, mv.toZoneId, when, ReturnEmpty, ids.placementId);
      SafePlaceLatest(t0, k, mv.toZoneId, when, ReturnEmpty, ids.placementId);
      assert t1.skips[k].id == t.skips[k].id;
    }
  }

  // ===================== the commands on the database =====================

  /** `_close_all_active_placements`: one pass over the placements, closing the open ones of the skip. */
  method CloseAllActivePlacements(db: SkipDb, skipId: string, when: int)
    modifies db
    ensures db.Snapshot() == old(db.Snapshot()).(placements := if db.placementModel then CloseAll(old(db.placements), skipId, when) else old(db.placements))
  {
    if !db.placementModel {
      return;
    }
    var i := 0;
    while i < |db.placements|
      invariant 0 <= i <= |db.placements| == |old(db.placements)|
      invariant forall j :: 0 <= j < i ==> db.placements[j] == CloseAll(old(db.placements), skipId, when)[j]
      invariant forall j :: i <= j < |db.placements| ==> db.placements[j] == old(db.placements)[j]
      invariant db.Snapshot() == old(db.Snapshot()).(placements := db.placements)
    {
      if IsOpenOf(db.placements[i], skipId) {
        db.placements := db.placements[i := db.placements[i].(removedAt := Some(when))];
      }
      i := i + 1;
    }
  }

  /** `_open_placement`. */
  method OpenPlacement(db: SkipDb, skipId: string, zone: Option<string>, when: int, id: string)
    modifies db
    ensures db.Snapshot() == old(db.Snapshot()).(placements := Open(db.placementModel, old(db.placements), skipId, zone, when, id))
  {
    if !db.placementModel || zone.None? || zone.value == "" {
      return;
    }
    db.placements := db.placements + [Placement(id, skipId, zone.value, when, None)];
  }

  /** `_safe_place`: close, open, then set the zone and the status of skip number `k`. */
  method SafePlace(db: SkipDb, k: nat, toZone: Option<string>, when: int, mt: MovementType, placementId: string)
    requires k < |db.skips|
    modifies db
    ensures db.Snapshot() == SafePlaceSpec(db.placementModel, old(db.Snapshot()), k, toZone, when, mt, placementId)
  {
    var sk := db.skips[k];
    CloseAllActivePlacements(db, sk.id, when);
    OpenPlacement(db, sk.id, toZone, when, placementId);
    db.skips := db.skips[k := sk.(zoneId := toZone)];
    if mt == DeliveryEmpty || mt == ReturnEmpty {
      db.skips := db.skips[k := db.skips[k].(status := Deployed.Value())];
    } else if mt == CollectionFull {
      db.skips := db.skips[k := db.skips[k].(status := InTransit.Value())];
    }
  }

  /** The shared steps of deliver-empty, relocate-empty and return-empty. */
  method MoveEmpty(db: SkipDb, mt: MovementType, payload: Dict, when: int, ids: NewIds) returns (r: Response<(nat, Movement)>)
    requires mt != CollectionFull
    modifies db
    ensures (db.Snapshot(), r) == EmptyMoveSpec(mt, db.placementModel, old(db.Snapshot()), payload, when, ids)
  {
    ghost var t := db.Snapshot();
    var skipQr := GetStr(Some(payload), SkipQrKeys);
    var toZone := GetStr(Some(payload), ToZoneKeys);
    if skipQr.None? || toZone.None? {
      return Err(400, "skip_qr and to_zone_id required");
    }
    var found := FindByQr(db.skips, skipQr.value);
    if found.None? {
      return Err(404, "skip not found");
    }
    var k := found.value;
    var mv := EmptyMove(mt, db.skips[k], toZone.value, payload, when, ids.movementId);
    db.movements := db.movements + [mv];
    assert db.Snapshot() == t.(movements := t.movements + [mv]);
    SafePlace(db, k, toZone, when, mt, ids.placementId);
    r := Ok((k, mv));
    assert EmptyMoveSpec(mt, db.placementModel, t, payload, when, ids) == (db.Snapshot(), r);
  }

  /** `POST /driver/deliver-empty`. */
  method DeliverEmpty(db: SkipDb, payload: Dict, when: int, ids: NewIds) returns (r: Response<Movement>)
    modifies db
    ensures (db.Snapshot(), r) == DeliverEmptySpec(db.placementModel, old(db.Snapshot()), payload, when, ids)
  {
    var res := MoveEmpty(db, DeliveryEmpty, payload, when, ids);
    r := MovementResponse(res);
  }

  /** `POST /driver/relocate-empty`. */
  method RelocateEmpty(db: SkipDb, payload: Dict, when: int, ids: NewIds) returns (r: Response<Movement>)
    modifies db
    ensures (db.Snapshot(), r) == RelocateEmptySpec(db.placementModel, old(db.Snapshot()), payload, when, ids)
  {
    var res := MoveEmpty(db, RelocationEmpty, payload, when, ids);
    r := MovementResponse(res);
  }

  /** `POST /driver/collect-full`. */
  method CollectFull(db: SkipDb, payload: Dict, when: int, noteTime: int, ids: NewIds) returns (r: Response<CollectFullOut>)
    modifies db
    ensures (db.Snapshot(), r) == CollectFullSpec(db.placementModel, old(db.Snapshot()), payload, when, noteTime, ids)
  {
    ghost var t := db.Snapshot();
    var skipQr := GetStr(Some(payload), SkipQrKeys);
    if skipQr.None? {
      return Err(400, "skip_qr (or qr) required");
    }
    var found := FindByQr(db.skips, skipQr.value);
    if found.None? {
      return Err(404, "skip not found");
    }
    var k := found.value;
    var sk := db.skips[k];
    var active := ActiveZone(db.placementModel, db.placements, sk);
    if active.None? {
      return Err(400, "skip not deployed on a site");
    }
    r := CollectPlacedSkip(db, k, active, payload, when, noteTime, ids);
  }

  /** The writes of a collection once the skip is known to be placed. */
  method CollectPlacedSkip(db: SkipDb, k: nat, active: Option<string>, payload: Dict, when: int, noteTime: int, ids: NewIds) returns (r: Response<CollectFullOut>)
    requires k < |db.skips|
    modifies db
    ensures (db.Snapshot(), r) == CollectPlaced(db.placementModel, old(db.Snapshot()), k, active, payload, when, noteTime, ids)
  {
    ghost var t := db.Snapshot();
    var sk := db.skips[k];
    var mv := CollectMove(sk, active, payload, when, ids.movementId);
    db.movements := db.movements + [mv];
    assert db.Snapshot() == t.(movements := t.movements + [mv]);
    SafePlace(db, k, None, when, CollectionFull, ids.placementId);
    r := RecordCollection(db, payload, mv.id, sk.qrCode, noteTime, ids);
  }

  /** The weight, transfer and note rows of a collection, and its response. */
  method RecordCollection(db: SkipDb, payload: Dict, movementId: string, qr: string, noteTime: int, ids: NewIds) returns (r: Response<CollectFullOut>)
    modifies db
    ensures var w := CollectWeight(payload, movementId);
      var tr := CollectTransfer(payload, ids.transferId, movementId);
      var note := CollectNote(payload, ids.wtnId, qr, w, tr, noteTime);
      db.Snapshot() == old(db.Snapshot()).(weights := old(db.weights) + [w], transfers := old(db.transfers) + [tr], notes := old(db.notes) + [note]) &&
      r == Ok(CollectFullOut(movementId, w.netKg, tr.id, Some(note.id), Some("/wtn/" + note.id + ".pdf")))
  {
    var w := CollectWeight(payload, movementId);
    var tr := CollectTransfer(payload, ids.transferId, movementId);
    var note := CollectNote(payload, ids.wtnId, qr, w, tr, noteTime);
    db.weights, db.transfers, db.notes := db.weights + [w], db.transfers + [tr], db.notes + [note];
    r := Ok(CollectFullOut(movementId, w.netKg, tr.id, Some(note.id), Some("/wtn/" + note.id + ".pdf")));
  }

  /** The response of return-empty, read from the session after the placement. */
  method ReturnResponse(session: SkipDb, res: Response<(nat, Movement)>) returns (r: Response<ReturnEmptyOut>)
    requires res.Ok? ==> res.value.0 < |session.skips| && res.value.1.toZoneId.Some?
    ensures r == (if res.Err? then Err(res.code, res.detail) else
      var (k, mv) := res.value;
      var sk := session.skips[k];
      var latest := if session.placementModel then Latest(session.placements, sk.id, false) else None;
      Ok(ReturnEmptyOut(mv.id, sk.id, mv.toZoneId.value, if latest.Some? then Some(session.placements[latest.value].id) else None, Some(sk.status))))
  {
    if res.Err? {
      return Err(res.code, res.detail);
    }
    var (k, mv) := res.value;
    var sk := session.skips[k];
    var placementId: Option<string> := None;
    if session.placementModel {
      var latest := Latest(session.placements, sk.id, false);
      if latest.Some? {
        placementId := Some(session.placements[latest.value].id);
      }
    }
    return Ok(ReturnEmptyOut(mv.id, sk.id, mv.toZoneId.value, placementId, Some(sk.status)));
  }

  /**
   * `POST /driver/return-empty` as written: the rows are flushed to the request's session
   * but the session is never committed, so when it closes the database is as it was.
   */
  method ReturnEmptyAsWritten(db: SkipDb, payload: Dict, when: int, ids: NewIds) returns (r: Response<ReturnEmptyOut>)
    ensures r == ReturnEmptySpec(db.placementModel, db.Snapshot(), payload, when, ids).1
  {
    var session := new SkipDb(db.placementModel);
    session.skips, session.placements, session.movements := db.skips, db.placements, db.movements;
    session.weights, session.transfers, session.notes := db.weights, db.transfers, db.notes;
    session.assets, session.contractors, session.assignments := db.assets, db.contractors, db.assignments;
    assert session.Snapshot() == db.Snapshot();
    var res := MoveEmpty(session, ReturnEmpty, payload, when, ids);
    r := ReturnResponse(session, res);
    assert ReturnEmptySpec(db.placementModel, db.Snapshot(), payload, when, ids) == (session.Snapshot(), r);
  }

  /** `POST /driver/return-empty` with the commit the other commands make. */
  method ReturnEmptyCommitted(db: SkipDb, payload: Dict, when: int, ids: NewIds) returns (r: Response<ReturnEmptyOut>)
    modifies db
    ensures (db.Snapshot(), r) == ReturnEmptySpec(db.placementModel, old(db.Snapshot()), payload, when, ids)
  {
    ghost var t := db.Snapshot();
    var res := MoveEmpty(db, ReturnEmpty, payload, when, ids);
    r := ReturnResponse(db, res);
    assert ReturnEmptySpec(db.placementModel, t, payload, when, ids) == (db.Snapshot(), r);
  }
}
