/**
 * Properties of the driver commands that relate several calls, or a command to its
 * defaults: the fixed transfer defaults, the unclamped net weight, the whole lifecycle of
 * one skip, and what return-empty leaves behind.
 */
module DriverProps {
  import opened Wrappers
  import opened Json
  import Text
  import opened SkipModel
  import opened DriverModel
  import opened Store
  import opened Driver

  /** A reader answers with its first key when that key holds a usable value. */
  lemma GetNumFirst(d: Dict, keys: seq<string>)
    requires keys != [] && NumAt(Some(d), keys[0]).Some?
    ensures GetNum(Some(d), keys) == NumAt(Some(d), keys[0])
  {
    var r := GetNum(Some(d), keys);
    var i :| 0 <= i < |keys| && r == NumAt(Some(d), keys[i]) && forall j :: 0 <= j < i ==> NumAt(Some(d), keys[j]).None?;
    if i > 0 {
      assert false;
    }
  }

  /** A number under the first key is what the reader answers. */
  lemma GetNumOf(d: Dict, keys: seq<string>, x: real)
    requires keys != [] && keys[0] in d && d[keys[0]] == JNum(x)
    ensures GetNum(Some(d), keys) == Some(x)
  {
    assert NumAt(Some(d), keys[0]) == Some(x);
    GetNumFirst(d, keys);
  }

  /** A reader answers with nothing when none of its keys is in the body. */
  lemma GetStrAbsent(d: Dict, keys: seq<string>)
    requires forall i :: 0 <= i < |keys| ==> keys[i] !in d
    ensures GetStr(Some(d), keys) == None
  {
    forall i | 0 <= i < |keys| ensures StrAt(Some(d), keys[i]).None? {
      assert Get(Some(d), keys[i]) == JNull;
    }
  }

  lemma GetNumAbsent(d: Dict, keys: seq<string>)
    requires forall i :: 0 <= i < |keys| ==> keys[i] !in d
    ensures GetNum(Some(d), keys) == None
  {
    forall i | 0 <= i < |keys| ensures NumAt(Some(d), keys[i]).None? {
      assert Get(Some(d), keys[i]) == JNull;
    }
  }

  /** An absent enumeration field names no member and takes the default. */
  lemma ParseEnumAbsent<E>(members: seq<EnumMember<E>>, d: Dict, k: string, default: E)
    requires k !in d && NoBlankMember(members)
    ensures ParseEnum(members, EnumArg(d, k), default) == default
  {
    assert EnumArg(d, k) == Some("");
    assert Text.Lower(Text.Strip("")) == "";
    NoBlankNamesNothing(members);
  }

  /** A member with a non-empty name and value is not named by the empty text. */
  lemma NoBlankNamesNothing<E>(members: seq<EnumMember<E>>)
    requires NoBlankMember(members)
    ensures forall i :: 0 <= i < |members| ==> !Names(members[i], "")
  {
    forall i | 0 <= i < |members| ensures !Names(members[i], "") {
      assert |Text.Lower(members[i].name)| == |members[i].name|;
      assert |Text.Lower(members[i].value)| == |members[i].value|;
    }
  }

  /**
   * A collection whose body names no site, commodity, destination or address records the
   * development defaults: site "SITE-DEV", commodity "COM-DEV", a recycling destination
   * called "ECO MRF", and no address (provided no destination type has an empty name or value).
   */
  lemma TransferDefaults(payload: Dict, id: string, movementId: string)
    requires NoBlankMember(DestinationTypes)
    requires forall k :: k in ["site_id", "commodity_id", "destination_type", "destination_name", "dest_name", "destination_address"] ==> k !in payload
    ensures CollectTransfer(payload, id, movementId) == Transfer(id, movementId, "SITE-DEV", "COM-DEV", Recycling, "ECO MRF", None)
  {
    GetStrAbsent(payload, ["site_id"]);
    GetStrAbsent(payload, ["commodity_id"]);
    GetStrAbsent(payload, ["destination_name", "dest_name"]);
    GetStrAbsent(payload, ["destination_address"]);
    ParseEnumAbsent(DestinationTypes, payload, "destination_type", Recycling);
  }

  /** A collection with no weights at all stores a net of 0.0, never a missing one. */
  lemma MissingWeightsGiveZero(payload: Dict, movementId: string)
    requires forall k :: k in ["gross_kg", "gross", "tare_kg", "tare", "net_kg", "net"] ==> k !in payload
    ensures CollectWeight(payload, movementId).netKg == 0.0
    ensures CollectWeight(payload, movementId).grossKg == None && CollectWeight(payload, movementId).tareKg == None
  {
    GetNumAbsent(payload, ["gross_kg", "gross"]);
    GetNumAbsent(payload, ["tare_kg", "tare"]);
    GetNumAbsent(payload, ["net_kg", "net"]);
  }

  /**
   * Without an explicit net, the stored net is gross minus tare even when the tare is the
   * larger: a negative net is stored as it is.
   */
  lemma NetIsNotClamped(payload: Dict, movementId: string, gross: real, tare: real)
    requires "gross_kg" in payload && payload["gross_kg"] == JNum(gross)
    requires "tare_kg" in payload && payload["tare_kg"] == JNum(tare)
    requires "net_kg" !in payload && "net" !in payload
    ensures CollectWeight(payload, movementId).netKg == gross - tare
    ensures tare > gross ==> CollectWeight(payload, movementId).netKg < 0.0
  {
    NetOfGrossAndTare(payload, "gross_kg", "gross", "tare_kg", "tare", "net_kg", "net", gross, tare);
  }

  /** The net computed from the first gross key and the first tare key when no net key is present. */
  lemma NetOfGrossAndTare(d: Dict, g0: string, g1: string, t0: string, t1: string, n0: string, n1: string, gross: real, tare: real)
    requires g0 in d && d[g0] == JNum(gross) && t0 in d && d[t0] == JNum(tare)
    requires n0 !in d && n1 !in d
    ensures OrZero(CalcNet(GetNum(Some(d), [g0, g1]), GetNum(Some(d), [t0, t1]), GetNum(Some(d), [n0, n1]))) == gross - tare
  {
    GetNumOf(d, [g0, g1], gross);
    GetNumOf(d, [t0, t1], tare);
    GetNumAbsent(d, [n0, n1]);
  }

  /** "TRANSFER" is already stripped, and lower-cases to "transfer". */
  lemma TransferText()
    ensures Text.Strip("TRANSFER") == "TRANSFER" && Text.Lower(Text.Strip("TRANSFER")) == "transfer"
  {
    var t := "TRANSFER";
    assert t[0] == 'T' && t[7] == 'R';
    Text.StripOfTrimmed(t);
    LowerTransfer();
  }

  lemma LowerTransfer()
    ensures Text.Lower("TRANSFER") == "transfer"
  {
    var t, u := "TRANSFER", Text.Lower("TRANSFER");
    assert |u| == 8;
    assert u[0] == 't' && u[1] == 'r' && u[2] == 'a' && u[3] == 'n';
    assert u[4] == 's' && u[5] == 'f' && u[6] == 'e' && u[7] == 'r';
  }

  /**
   * The front end's "TRANSFER" is recorded as recycling when no destination type is named, or
   * valued, "transfer" in any case.
   */
  lemma TransferFallsBackToRecycling()
    requires forall i :: 0 <= i < |DestinationTypes| ==> !Names(DestinationTypes[i], "transfer")
    ensures ParseEnum(DestinationTypes, Some("TRANSFER"), Recycling) == Recycling
  {
    TransferText();
  }

  /** Otherwise "TRANSFER" is recorded as the first destination type named, or valued, "transfer". */
  lemma TransferNamesMember()
    requires FindMember(DestinationTypes, "transfer").Some?
    ensures ParseEnum(DestinationTypes, Some("TRANSFER"), Recycling) == FindMember(DestinationTypes, "transfer").value
  {
    TransferText();
  }

  /** `parse_enum` strips and lower-cases its text first, so padding and case make no difference. */
  lemma ParseEnumIgnoresCaseAndPadding<E>(members: seq<EnumMember<E>>, v: string, w: string, default: E)
    requires Text.Lower(Text.Strip(v)) == Text.Lower(Text.Strip(w))
    ensures ParseEnum(members, Some(v), default) == ParseEnum(members, Some(w), default)
  {
  }

  // ===================== the placement after each command =====================

  /** Every placement was placed no later than `w`. */
  ghost predicate PlacedBy(ps: seq<Placement>, w: int) {
    forall i :: 0 <= i < |ps| ==> ps[i].placedAt <= w
  }

  /**
   * After `_safe_place`, the skip's active placement is the target zone when that is
   * non-empty, and there is none otherwise; this holds with and without the placement model.
   */
  lemma SafePlaceActiveZone(pm: bool, t: Tables, k: nat, toZone: Option<string>, when: int, mt: MovementType, pid: string)
    requires k < |t.skips|
    ensures var t' := SafePlaceSpec(pm, t, k, toZone, when, mt, pid);
      ActiveZone(pm, t'.placements, t'.skips[k]) == (if toZone.Some? && toZone.value != "" then toZone else None)
  {
    var t' := SafePlaceSpec(pm, t, k, toZone, when, mt, pid);
    var sk := t'.skips[k];
    assert sk.id == t.skips[k].id;
    if pm {
      var l := Latest(t'.placements, sk.id, true);
      if Opens(pm, toZone) {
        assert IsOpenOf(t'.placements[|t.placements|], sk.id);
        assert l.Some?;
        assert IsOpenOf(t'.placements[l.value], sk.id);
      } else {
        assert l.None? by {
          forall j | 0 <= j < |t'.placements| ensures !Eligible(t'.placements[j], sk.id, true) {
            assert !IsOpenOf(t'.placements[j], sk.id);
          }
        }
      }
    }
  }

  /** `_safe_place` at time `when` keeps every placement placed by any later time. */
  lemma SafePlacePlacedBy(pm: bool, t: Tables, k: nat, toZone: Option<string>, when: int, mt: MovementType, pid: string, w: int)
    requires k < |t.skips| && PlacedBy(t.placements, w) && when <= w
    ensures PlacedBy(SafePlaceSpec(pm, t, k, toZone, when, mt, pid).placements, w)
  {
    var t' := SafePlaceSpec(pm, t, k, toZone, when, mt, pid);
    forall i | 0 <= i < |t'.placements| ensures t'.placements[i].placedAt <= w {
      if i < |t.placements| {
        assert t'.placements[i].placedAt == t.placements[i].placedAt;
      }
    }
  }

  /** `_safe_place` leaves every skip's code where it was. */
  lemma SafePlaceKeepsCodes(pm: bool, t: Tables, k: nat, toZone: Option<string>, when: int, mt: MovementType, pid: string, qr: string)
    requires k < |t.skips|
    ensures FindByQr(SafePlaceSpec(pm, t, k, toZone, when, mt, pid).skips, qr) == FindByQr(t.skips, qr)
  {
    var t' := SafePlaceSpec(pm, t, k, toZone, when, mt, pid);
    forall i | 0 <= i < |t.skips| ensures t'.skips[i].qrCode == t.skips[i].qrCode {
      if i != k {
        assert t'.skips[i] == t.skips[i];
      }
    }
    FindByQrSameCodes(t'.skips, t.skips, qr);
  }

  /**
   * A successful collection leaves the skip with no active placement, so a second
   * collection of the same skip is refused with "skip not deployed on a site".
   */
  lemma CollectTwiceRejected(pm: bool, t: Tables, p1: Dict, p2: Dict, w1: int, w2: int, n1: int, n2: int, ids1: NewIds, ids2: NewIds)
    requires GetStr(Some(p2), SkipQrKeys) == GetStr(Some(p1), SkipQrKeys)
    ensures var (t1, r1) := CollectFullSpec(pm, t, p1, w1, n1, ids1);
      r1.Ok? ==> CollectFullSpec(pm, t1, p2, w2, n2, ids2).1 == Err(400, "skip not deployed on a site")
  {
    var (t1, r1) := CollectFullSpec(pm, t, p1, w1, n1, ids1);
    if r1.Ok? {
      var qr := GetStr(Some(p1), SkipQrKeys).value;
      var k := FindByQr(t.skips, qr).value;
      var sk := t.skips[k];
      var active := ActiveZone(pm, t.placements, sk);
      var mv := CollectMove(sk, active, p1, w1, ids1.movementId);
      var t0 := t.(movements := t.movements + [mv]);
      var ts := SafePlaceSpec(pm, t0, k, None, w1, CollectionFull, ids1.placementId);
      assert (t1, r1) == CollectPlaced(pm, t, k, active, p1, w1, n1, ids1);
      assert t1.skips == ts.skips && t1.placements == ts.placements;
      SafePlaceKeepsCodes(pm, t0, k, None, w1, CollectionFull, ids1.placementId, qr);
      SafePlaceActiveZone(pm, t0, k, None, w1, CollectionFull, ids1.placementId);
      assert FindByQr(t1.skips, qr) == Some(k);
      assert ActiveZone(pm, t1.placements, t1.skips[k]).None?;
    }
  }

  // ===================== one skip through its lifecycle =====================

  /** The codes of all skips are as they were. */
  ghost predicate SameCodes(a: seq<Skip>, b: seq<Skip>) {
    |a| == |b| && forall i :: 0 <= i < |a| ==> a[i].qrCode == b[i].qrCode
  }

  /**
   * An empty-skip command naming skip `k` and a zone succeeds; it sets the skip's zone and
   * status, makes the zone the skip's active placement and keeps every code.
   */
  lemma EmptyMoveStep(mt: MovementType, pm: bool, t: Tables, k: nat, payload: Dict, when: int, ids: NewIds, w: int)
    requires mt != CollectionFull && k < |t.skips|
    requires GetStr(Some(payload), SkipQrKeys) == Some(t.skips[k].qrCode) && GetStr(Some(payload), ToZoneKeys).Some?
    requires UniqueQr(t.skips) && PlacedBy(t.placements, w) && when <= w
    ensures var (t', r) := EmptyMoveSpec(mt, pm, t, payload, when, ids);
      var zone := GetStr(Some(payload), ToZoneKeys);
      r.Ok? && r.value.0 == k && SameCodes(t'.skips, t.skips) && t'.skips[k].id == t.skips[k].id &&
      t'.skips[k].zoneId == zone && t'.skips[k].status == PlacedStatus(mt, t.skips[k].status) &&
      ActiveZone(pm, t'.placements, t'.skips[k]) == zone &&
      PlacedBy(t'.placements, w)
  {
    FindByQrUnique(t.skips, k);
    var (t', r) := EmptyMoveSpec(mt, pm, t, payload, when, ids);
    var mv := r.value.1;
    var t0 := t.(movements := t.movements + [mv]);
    var zone := GetStr(Some(payload), ToZoneKeys);
    assert t' == SafePlaceSpec(pm, t0, k, zone, when, mt, ids.placementId);
    SafePlaceActiveZone(pm, t0, k, zone, when, mt, ids.placementId);
    SafePlacePlacedBy(pm, t0, k, zone, when, mt, ids.placementId, w);
    forall i | 0 <= i < |t.skips| ensures t'.skips[i].qrCode == t.skips[i].qrCode {
      if i != k {
        assert t'.skips[i] == t.skips[i];
      }
    }
  }

  /**
   * A collection naming skip `k` while it has an active placement succeeds; it records a
   * movement from that zone and leaves the skip in transit, keeping every code.
   */
  lemma CollectStep(pm: bool, t: Tables, k: nat, payload: Dict, when: int, noteTime: int, ids: NewIds, w: int)
    requires k < |t.skips| && GetStr(Some(payload), SkipQrKeys) == Some(t.skips[k].qrCode)
    requires ActiveZone(pm, t.placements, t.skips[k]).Some?
    requires UniqueQr(t.skips) && PlacedBy(t.placements, w) && when <= w
    ensures var (t', r) := CollectFullSpec(pm, t, payload, when, noteTime, ids);
      r.Ok? && SameCodes(t'.skips, t.skips) && t'.skips[k].id == t.skips[k].id &&
      |t'.movements| == |t.movements| + 1 && t'.movements[|t.movements|].fromZoneId == ActiveZone(pm, t.placements, t.skips[k]) &&
      t'.skips[k].status == "in_transit" && ActiveZone(pm, t'.placements, t'.skips[k]) == None &&
      PlacedBy(t'.placements, w)
  {
    FindByQrUnique(t.skips, k);
    var (t', r) := CollectFullSpec(pm, t, payload, when, noteTime, ids);
    var sk := t.skips[k];
    var active := ActiveZone(pm, t.placements, sk);
    var mv := CollectMove(sk, active, payload, when, ids.movementId);
    var t0 := t.(movements := t.movements + [mv]);
    var ts := SafePlaceSpec(pm, t0, k, None, when, CollectionFull, ids.placementId);
    assert (t', r) == CollectPlaced(pm, t, k, active, payload, when, noteTime, ids);
    assert t'.skips == ts.skips && t'.placements == ts.placements && t'.movements == t0.movements;
    SafePlaceActiveZone(pm, t0, k, None, when, CollectionFull, ids.placementId);
    SafePlacePlacedBy(pm, t0, k, None, when, CollectionFull, ids.placementId, w);
    forall i | 0 <= i < |t.skips| ensures t'.skips[i].qrCode == t.skips[i].qrCode {
      if i != k {
        assert ts.skips[i] == t0.skips[i];
      }
    }
  }

  lemma SameCodesFind(a: seq<Skip>, b: seq<Skip>, k: nat)
    requires SameCodes(a, b) && UniqueQr(b) && k < |b|
    ensures UniqueQr(a) && FindByQr(a, b[k].qrCode) == Some(k)
  {
    FindByQrSameCodes(a, b, b[k].qrCode);
    FindByQrUnique(b, k);
  }

  /** Delivery then relocation: relocation starts where the delivery left the skip. */
  lemma DeliverThenRelocate(pm: bool, t: Tables, k: nat, p1: Dict, p2: Dict, w1: int, w2: int, ids1: NewIds, ids2: NewIds, w: int)
    requires k < |t.skips| && UniqueQr(t.skips) && PlacedBy(t.placements, w) && w1 <= w2 <= w
    requires GetStr(Some(p1), SkipQrKeys) == Some(t.skips[k].qrCode) && GetStr(Some(p1), ToZoneKeys).Some?
    requires GetStr(Some(p2), SkipQrKeys) == Some(t.skips[k].qrCode) && GetStr(Some(p2), ToZoneKeys).Some?
    ensures var (t1, r1) := EmptyMoveSpec(DeliveryEmpty, pm, t, p1, w1, ids1);
      var (t2, r2) := EmptyMoveSpec(RelocationEmpty, pm, t1, p2, w2, ids2);
      r1.Ok? && r2.Ok? && t1.skips[k].status == "deployed" &&
      r2.value.1.fromZoneId == GetStr(Some(p1), ToZoneKeys) &&
      SameCodes(t2.skips, t.skips) && t2.skips[k].status == "deployed" &&
      ActiveZone(pm, t2.placements, t2.skips[k]) == GetStr(Some(p2), ToZoneKeys) &&
      PlacedBy(t2.placements, w)
  {
    EmptyMoveStep(DeliveryEmpty, pm, t, k, p1, w1, ids1, w);
    var (t1, e1) := EmptyMoveSpec(DeliveryEmpty, pm, t, p1, w1, ids1);
    assert t1.skips[k].zoneId == GetStr(Some(p1), ToZoneKeys);
    SameCodesFind(t1.skips, t.skips, k);
    EmptyMoveStep(RelocationEmpty, pm, t1, k, p2, w2, ids2, w);
    var (t2, e2) := EmptyMoveSpec(RelocationEmpty, pm, t1, p2, w2, ids2);
    assert e2.value.1.fromZoneId == t1.skips[k].zoneId;
    assert SameCodes(t2.skips, t.skips);
  }

  /** Stamps no later than `w` are no later than any later time, and earlier than a strictly later one. */
  lemma PlacedByLater(ps: seq<Placement>, w: int, w2: int)
    requires PlacedBy(ps, w) && w <= w2
    ensures PlacedBy(ps, w2)
    ensures w < w2 ==> forall i :: 0 <= i < |ps| ==> ps[i].placedAt < w2
  {
  }

  /**
   * Collection then return of a placed skip: the skip ends deployed at the return zone, and
   * when the return comes later than the collection, the return reports the placement it opened.
   */
  lemma CollectThenReturn(pm: bool, t: Tables, k: nat, p3: Dict, p4: Dict, w3: int, n3: int, w4: int, ids3: NewIds, ids4: NewIds)
    requires k < |t.skips| && UniqueQr(t.skips) && PlacedBy(t.placements, w3) && w3 <= w4
    requires ActiveZone(pm, t.placements, t.skips[k]).Some?
    requires GetStr(Some(p3), SkipQrKeys) == Some(t.skips[k].qrCode)
    requires GetStr(Some(p4), SkipQrKeys) == Some(t.skips[k].qrCode) && GetStr(Some(p4), ToZoneKeys).Some?
    ensures var (t3, r3) := CollectFullSpec(pm, t, p3, w3, n3, ids3);
      var (t4, r4) := ReturnEmptySpec(pm, t3, p4, w4, ids4);
      r3.Ok? && r4.Ok? &&
      t3.movements[|t.movements|].fromZoneId == ActiveZone(pm, t.placements, t.skips[k]) &&
      t3.skips[k].status == "in_transit" &&
      t4.skips[k].status == "deployed" && t4.skips[k].zoneId == GetStr(Some(p4), ToZoneKeys) &&
      ActiveZone(pm, t4.placements, t4.skips[k]) == GetStr(Some(p4), ToZoneKeys) &&
      r4.value.status == Some("deployed") &&
      (pm && w3 < w4 ==> r4.value.placementId == Some(ids4.placementId))
  {
    CollectStep(pm, t, k, p3, w3, n3, ids3, w3);
    var (t3, r3) := CollectFullSpec(pm, t, p3, w3, n3, ids3);
    SameCodesFind(t3.skips, t.skips, k);
    assert t3.skips[k].qrCode == t.skips[k].qrCode;
    ReturnStep(pm, t3, k, p4, w3, w4, ids4);
  }

  /** A return no earlier than every placement: the skip ends deployed at the return zone. */
  lemma ReturnStep(pm: bool, t: Tables, k: nat, payload: Dict, w: int, when: int, ids: NewIds)
    requires k < |t.skips| && UniqueQr(t.skips) && PlacedBy(t.placements, w) && w <= when
    requires GetStr(Some(payload), SkipQrKeys) == Some(t.skips[k].qrCode) && GetStr(Some(payload), ToZoneKeys).Some?
    ensures var (t', r) := ReturnEmptySpec(pm, t, payload, when, ids);
      r.Ok? &&
      t'.skips[k].status == "deployed" && t'.skips[k].zoneId == GetStr(Some(payload), ToZoneKeys) &&
      ActiveZone(pm, t'.placements, t'.skips[k]) == GetStr(Some(payload), ToZoneKeys) &&
      r.value.status == Some("deployed") &&
      (pm && w < when ==> r.value.placementId == Some(ids.placementId))
  {
    PlacedByLater(t.placements, w, when);
    EmptyMoveStep(ReturnEmpty, pm, t, k, payload, when, ids, when);
    if pm && w < when {
      ReturnEmptyNamesNewPlacement(t, payload, when, ids);
    }
  }

  /**
   * The lifecycle of one skip, as the smoke scenario drives it: deliver, relocate, collect,
   * return. Every step succeeds; relocation starts where the delivery left the skip; the
   * collection starts where the relocation left it; the skip ends deployed at the return
   * zone, which is its active placement, and with the placement model a return later than
   * the collection reports the placement it opened. This holds with and without the placement model.
   */
  lemma Lifecycle(pm: bool, t: Tables, k: nat,
                  p1: Dict, p2: Dict, p3: Dict, p4: Dict,
                  w1: int, w2: int, w3: int, n3: int, w4: int,
                  ids1: NewIds, ids2: NewIds, ids3: NewIds, ids4: NewIds)
    requires k < |t.skips| && UniqueQr(t.skips) && PlacedBy(t.placements, w1)
    requires w1 <= w2 <= w3 <= w4
    requires GetStr(Some(p1), SkipQrKeys) == Some(t.skips[k].qrCode) && GetStr(Some(p1), ToZoneKeys).Some?
    requires GetStr(Some(p2), SkipQrKeys) == Some(t.skips[k].qrCode) && GetStr(Some(p2), ToZoneKeys).Some?
    requires GetStr(Some(p3), SkipQrKeys) == Some(t.skips[k].qrCode)
    requires GetStr(Some(p4), SkipQrKeys) == Some(t.skips[k].qrCode) && GetStr(Some(p4), ToZoneKeys).Some?
    ensures var (t1, r1) := DeliverEmptySpec(pm, t, p1, w1, ids1);
      var (t2, r2) := RelocateEmptySpec(pm, t1, p2, w2, ids2);
      var (t3, r3) := CollectFullSpec(pm, t2, p3, w3, n3, ids3);
      var (t4, r4) := ReturnEmptySpec(pm, t3, p4, w4, ids4);
      r1.Ok? && r2.Ok? && r3.Ok? && r4.Ok? &&
      r2.value.fromZoneId == GetStr(Some(p1), ToZoneKeys) &&
      t3.movements[|t2.movements|].fromZoneId == GetStr(Some(p2), ToZoneKeys) &&
      t3.skips[k].status == "in_transit" &&
      t4.skips[k].status == "deployed" && t4.skips[k].zoneId == GetStr(Some(p4), ToZoneKeys) &&
      (pm && w3 < w4 ==> r4.value.placementId == Some(ids4.placementId))
  {
    assert PlacedBy(t.placements, w3);
    DeliverThenRelocate(pm, t, k, p1, p2, w1, w2, ids1, ids2, w3);
    var (t1, e1) := EmptyMoveSpec(DeliveryEmpty, pm, t, p1, w1, ids1);
    var (t2, e2) := EmptyMoveSpec(RelocationEmpty, pm, t1, p2, w2, ids2);
    assert DeliverEmptySpec(pm, t, p1, w1, ids1) == (t1, MovementResponse(e1));
    assert RelocateEmptySpec(pm, t1, p2, w2, ids2) == (t2, MovementResponse(e2));
    SameCodesFind(t2.skips, t.skips, k);
    CollectThenReturn(pm, t2, k, p3, p4, w3, n3, w4, ids3, ids4);
  }

  // ===================== return-empty and the missing commit =====================

  /**
   * As written, return-empty reports the skip deployed but commits nothing; the database
   * keeps the tables it had, so a scan afterwards reports the old status and zone. For a
   * skip that was not deployed, the response and the stored row disagree.
   */
  lemma ReturnEmptyAsWrittenLosesState(pm: bool, t: Tables, payload: Dict, when: int, ids: NewIds)
    ensures var r := ReturnEmptySpec(pm, t, payload, when, ids).1;
      var qr := GetStr(Some(payload), SkipQrKeys);
      r.Ok? ==> (qr.Some? && FindByQr(t.skips, qr.value).Some? && (
        var sk := t.skips[FindByQr(t.skips, qr.value).value];
        r.value.status == Some("deployed") &&
        Scan(t, qr, None, None) == Ok(ScanOut(sk.id, qr.value, Some(sk.status), sk.zoneId)) &&
        (sk.status != "deployed" ==> Scan(t, qr, None, None).value.status != r.value.status)))
  {
  }

  /** With the commit, a scan after return-empty finds the skip deployed at the return zone. */
  lemma ReturnEmptyCommittedPersists(pm: bool, t: Tables, payload: Dict, when: int, ids: NewIds)
    ensures var (t', r) := ReturnEmptySpec(pm, t, payload, when, ids);
      var qr := GetStr(Some(payload), SkipQrKeys);
      r.Ok? ==> qr.Some? && Scan(t', qr, None, None) == Ok(ScanOut(r.value.skipId, qr.value, Some("deployed"), Some(r.value.toZoneId)))
  {
    var (t', r) := ReturnEmptySpec(pm, t, payload, when, ids);
    var (t1, r1) := EmptyMoveSpec(ReturnEmpty, pm, t, payload, when, ids);
    if r.Ok? {
      var qr := GetStr(Some(payload), SkipQrKeys).value;
      var (k, mv) := r1.value;
      var t0 := t.(movements := t.movements + [mv]);
      assert t1 == SafePlaceSpec(pm, t0, k, mv.toZoneId, when, ReturnEmpty, ids.placementId);
      SafePlaceKeepsCodes(pm, t0, k, mv.toZoneId, when, ReturnEmpty, ids.placementId, qr);
      assert FindByQr(t'.skips, qr) == Some(k);
    }
  }
}
