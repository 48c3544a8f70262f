/**
 * The skip aggregate: the `SkipStatus` enumeration, the `Skip` row, label assets,
 * contractors and the skip-to-contractor assignment rows.
 * Timestamps are integers supplied by the caller; ids are strings supplied by the caller.
 */
module SkipModel {
  import opened Wrappers

  /** The four lifecycle states of a skip. */
  datatype SkipStatus = InStock | Deployed | InTransit | Processing {
    /** The string stored in the `status` column. */
    function Value(): string {
      match this
      case InStock => "in_stock"
      case Deployed => "deployed"
      case InTransit => "in_transit"
      case Processing => "processing"
    }
  }

  /** `SkipStatus(v)`: the member whose value is `v`, if any. */
  function StatusOf(v: string): (r: Option<SkipStatus>)
    ensures r.Some? ==> r.value.Value() == v
  {
    if v == "in_stock" then Some(InStock)
    else if v == "deployed" then Some(Deployed)
    else if v == "in_transit" then Some(InTransit)
    else if v == "processing" then Some(Processing)
    else None
  }

  /** A status string is one of the enumeration's values exactly when `StatusOf` finds it. */
  lemma StatusValuesExact(v: string)
    ensures StatusOf(v).Some? <==> v in {"in_stock", "deployed", "in_transit", "processing"}
    ensures forall st: SkipStatus :: StatusOf(st.Value()) == Some(st)
  {
  }

  /** Distinct statuses are stored as distinct strings. */
  lemma StatusValueInjective(a: SkipStatus, b: SkipStatus)
    ensures a.Value() == b.Value() ==> a == b
  {
    if a != b {
      assert StatusOf(a.Value()) == Some(a);
      assert StatusOf(b.Value()) == Some(b);
    }
  }

  /** A row of the `skips` table. `status` is a free string column: other modules store values outside the enumeration. */
  datatype Skip = Skip(
    id: string,
    qrCode: string,
    ownerOrgId: Option<string>,
    assignedCommodityId: Option<string>,
    zoneId: Option<string>,
    status: string,
    createdAt: int,
    updatedAt: int,
    deletedAt: Option<int>,
    createdById: Option<string>,
    updatedById: Option<string>)

  /** A skip built with only `qr_code` set: every other column takes its declared default. */
  function NewSkip(id: string, qrCode: string, now: int): (s: Skip)
    ensures s.id == id && s.qrCode == qrCode
    ensures s.status == InStock.Value() && s.deletedAt == None && s.zoneId == None && s.ownerOrgId == None
    ensures s.createdAt == now && s.updatedAt == now
  {
    Skip(id, qrCode, None, None, None, InStock.Value(), now, now, None, None, None)
  }

  /** `SkipAssetKind`. */
  const LabelPng := "label_png"
  const LabelsPdf := "labels_pdf"

  /** A row of `skip_assets`; the image bytes themselves are left out. */
  datatype SkipAsset = SkipAsset(id: string, skipId: string, kind: string, idx: Option<int>, contentType: string)

  /** A row of `contractors` (contact columns left out). */
  datatype Contractor = Contractor(id: string, orgName: string)

  /** A row of `skip_assignments`: the interval during which a contractor owns a skip. */
  datatype SkipAssignment = SkipAssignment(id: string, skipId: string, contractorId: string, assignedAt: int, unassignedAt: Option<int>)
}
