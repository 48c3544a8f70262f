/**
 * The database tables the skip endpoints share. Each table is a sequence of rows in
 * insertion order; `SkipDb` holds the committed state and the endpoint methods reassign
 * its fields. `Tables` is the same state as a value, for specifications and lemmas.
 */
module Store {
  import opened Wrappers
  import opened SkipModel
  import opened DriverModel

  datatype Tables = Tables(
    skips: seq<Skip>,
    placements: seq<Placement>,
    movements: seq<Movement>,
    weights: seq<Weight>,
    transfers: seq<Transfer>,
    notes: seq<WasteTransferNote>,
    assets: seq<SkipAsset>,
    contractors: seq<Contractor>,
    assignments: seq<SkipAssignment>)

  /** `qr_code` is unique (a UNIQUE column). */
  ghost predicate UniqueQr(skips: seq<Skip>) {
    forall i, j :: 0 <= i < |skips| && 0 <= j < |skips| && skips[i].qrCode == skips[j].qrCode ==> i == j
  }

  /** `id` is the primary key. */
  ghost predicate UniqueSkipIds(skips: seq<Skip>) {
    forall i, j :: 0 <= i < |skips| && 0 <= j < |skips| && skips[i].id == skips[j].id ==> i == j
  }

  /** A skip never stands in two places at once: at most one open placement per skip. */
  ghost predicate OnePlacementOpen(ps: seq<Placement>) {
    forall i, j :: 0 <= i < |ps| && 0 <= j < |ps| && ps[i].removedAt.None? && ps[j].removedAt.None? && ps[i].skipId == ps[j].skipId ==> i == j
  }

  /** A skip never has two active owners: at most one open assignment per skip (`uq_skip_active_assignment`). */
  ghost predicate OneAssignmentOpen(asg: seq<SkipAssignment>) {
    forall i, j :: 0 <= i < |asg| && 0 <= j < |asg| && asg[i].unassignedAt.None? && asg[j].unassignedAt.None? && asg[i].skipId == asg[j].skipId ==> i == j
  }

  /** The integrity the schema and the ledgers are meant to keep. */
  ghost predicate Consistent(t: Tables) {
    UniqueQr(t.skips) && UniqueSkipIds(t.skips) && OnePlacementOpen(t.placements) && OneAssignmentOpen(t.assignments)
  }

  /** The index of the first skip whose code is `qr` (`select(Skip).where(Skip.qr_code == qr)`). */
  function FindByQr(skips: seq<Skip>, qr: string): (r: Option<nat>)
    ensures r.Some? ==> r.value < |skips| && skips[r.value].qrCode == qr
    ensures r.Some? ==> forall j :: 0 <= j < r.value ==> skips[j].qrCode != qr
    ensures r.None? <==> forall j :: 0 <= j < |skips| ==> skips[j].qrCode != qr
  {
    if skips == [] then None
    else if skips[0].qrCode == qr then Some(0)
    else match FindByQr(skips[1..], qr)
      case None => None
      case Some(j) => Some(j + 1)
  }

  /** The index of the first skip whose id is `id` (a primary-key lookup). */
  function FindById(skips: seq<Skip>, id: string): (r: Option<nat>)
    ensures r.Some? ==> r.value < |skips| && skips[r.value].id == id
    ensures r.None? <==> forall j :: 0 <= j < |skips| ==> skips[j].id != id
  {
    if skips == [] then None
    else if skips[0].id == id then Some(0)
    else match FindById(skips[1..], id)
      case None => None
      case Some(j) => Some(j + 1)
  }

  /** Under a unique code, the lookup finds the one skip carrying it. */
  lemma FindByQrUnique(skips: seq<Skip>, k: nat)
    requires UniqueQr(skips) && k < |skips|
    ensures FindByQr(skips, skips[k].qrCode) == Some(k)
  {
  }

  /** The lookup by code depends on the codes only, so rows that keep their codes keep their positions. */
  lemma FindByQrSameCodes(a: seq<Skip>, b: seq<Skip>, qr: string)
    requires |a| == |b| && forall i :: 0 <= i < |a| ==> a[i].qrCode == b[i].qrCode
    ensures FindByQr(a, qr) == FindByQr(b, qr)
  {
    var ra, rb := FindByQr(a, qr), FindByQr(b, qr);
    if ra.Some? {
      assert b[ra.value].qrCode == qr;
      assert a[rb.value].qrCode == qr;
    }
  }

  /** Appending a skip with a code no row has makes the lookup find the new row. */
  lemma FindByQrAppended(skips: seq<Skip>, s: Skip, qr: string)
    requires FindByQr(skips, qr).None? && s.qrCode == qr
    ensures FindByQr(skips + [s], qr) == Some(|skips|)
  {
    var all := skips + [s];
    assert all[|skips|].qrCode == qr;
    assert forall j :: 0 <= j < |skips| ==> all[j].qrCode != qr;
  }

  /** Appending a skip whose code and id are both new keeps codes and ids unique. */
  lemma AppendFreshSkip(skips: seq<Skip>, s: Skip)
    requires UniqueQr(skips) && UniqueSkipIds(skips)
    requires FindByQr(skips, s.qrCode).None? && FindById(skips, s.id).None?
    ensures UniqueQr(skips + [s]) && UniqueSkipIds(skips + [s])
  {
  }

  /** The committed state of the skip tables. */
  class SkipDb {
    var skips: seq<Skip>
    var placements: seq<Placement>
    var movements: seq<Movement>
    var weights: seq<Weight>
    var transfers: seq<Transfer>
    var notes: seq<WasteTransferNote>
    var assets: seq<SkipAsset>
    var contractors: seq<Contractor>
    var assignments: seq<SkipAssignment>
    /** Whether a `SkipPlacement` model could be imported; without it the placement helpers do nothing. */
    const placementModel: bool

    constructor(placementModel: bool)
      ensures this.placementModel == placementModel
      ensures Snapshot() == Tables([], [], [], [], [], [], [], [], [])
    {
      this.placementModel := placementModel;
      skips, placements, movements, weights, transfers := [], [], [], [], [];
      notes, assets, contractors, assignments := [], [], [], [];
    }

    function Snapshot(): Tables
      reads this
    {
      Tables(skips, placements, movements, weights, transfers, notes, assets, contractors, assignments)
    }
  }
}
