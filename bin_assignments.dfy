/**
 * The contractor ownership ledger of `api/admin_bin_assignments.py`. A skip belongs to a
 * contractor through an assignment row that is open while `unassigned_at` is empty; assigning
 * closes the open row and opens a new one, the same close-then-open pattern as placements.
 *
 * `assign_bin` as written names `func`, which that function's module never imports: whenever
 * the skip already has an open assignment the handler raises `NameError` and nothing is
 * committed. `AssignBinAsWritten` is that behaviour; `AssignBinSpec` and `AssignBin` are the
 * intended one (close with the current time, then open).
 */
module BinAssignments {
  import opened Wrappers
  import opened SkipModel
  import opened Store

  predicate IsOpenFor(a: SkipAssignment, skipId: string) {
    a.skipId == skipId && a.unassignedAt.None?
  }

  /** The first open assignment of a skip. */
  function FindOpen(asg: seq<SkipAssignment>, skipId: string): (r: Option<nat>)
    ensures r.Some? ==> r.value < |asg| && IsOpenFor(asg[r.value], skipId)
    ensures r.Some? ==> forall j :: 0 <= j < r.value ==> !IsOpenFor(asg[j], skipId)
    ensures r.None? <==> forall j :: 0 <= j < |asg| ==> !IsOpenFor(asg[j], skipId)
  {
    if asg == [] then None
    else if IsOpenFor(asg[0], skipId) then Some(0)
    else match FindOpen(asg[1..], skipId)
      case None => None
      case Some(j) => Some(j + 1)
  }

  /**
   * The open assignment `scalar_one_or_none` returns: none, the one there is, or a raise
   * (`MultipleResultsFound`, a 500) when the skip has two.
   */
  function ActiveAssignment(asg: seq<SkipAssignment>, skipId: string): (r: Response<Option<nat>>)
    ensures r.Ok? && r.value.Some? ==> (r.value.value < |asg| && IsOpenFor(asg[r.value.value], skipId)
      && forall j :: 0 <= j < |asg| && j != r.value.value ==> !IsOpenFor(asg[j], skipId))
    ensures r.Ok? && r.value.None? <==> forall j :: 0 <= j < |asg| ==> !IsOpenFor(asg[j], skipId)
    ensures r.Err? ==> (r == Err(500, "Internal Server Error")
      && exists i, j :: 0 <= i < j < |asg| && IsOpenFor(asg[i], skipId) && IsOpenFor(asg[j], skipId))
  {
    match FindOpen(asg, skipId)
    case None => Ok(None)
    case Some(i) =>
      match FindOpen(asg[i + 1..], skipId)
      case None =>
        assert forall j :: i < j < |asg| ==> asg[j] == asg[i + 1..][j - i - 1];
        Ok(Some(i))
      case Some(j) =>
        assert asg[i + 1..][j] == asg[i + 1 + j];
        Err(500, "Internal Server Error")
  }

  /** Under the one-open-assignment invariant the lookup never raises. */
  lemma ActiveAssignmentUnique(asg: seq<SkipAssignment>, skipId: string)
    requires OneAssignmentOpen(asg)
    ensures ActiveAssignment(asg, skipId).Ok?
  {
  }

  /** The first contractor with the id (`Contractor.id` is the primary key). */
  function FindContractor(cs: seq<Contractor>, id: string): (r: Option<nat>)
    ensures r.Some? ==> r.value < |cs| && cs[r.value].id == id
    ensures r.None? <==> forall j :: 0 <= j < |cs| ==> cs[j].id != id
  {
    if cs == [] then None
    else if cs[0].id == id then Some(0)
    else match FindContractor(cs[1..], id)
      case None => None
      case Some(j) => Some(j + 1)
  }

  datatype AssignOut = AssignOut(skipId: string, contractorId: string, assignmentId: string)

  /** The lookups `assign_bin` does before it writes: skip, contractor, open assignment. */
  function AssignTarget(t: Tables, qr: string, contractorId: string): (r: Response<(nat, nat, Option<nat>)>)
    ensures FindByQr(t.skips, qr).None? ==> r == Err(404, "skip not found")
    ensures FindByQr(t.skips, qr).Some? && FindContractor(t.contractors, contractorId).None? ==> r == Err(404, "contractor not found")
    ensures r.Ok? ==> (r.value.0 < |t.skips| && r.value.1 < |t.contractors| && t.contractors[r.value.1].id == contractorId
      && t.skips[r.value.0].qrCode == qr && ActiveAssignment(t.assignments, t.skips[r.value.0].id) == Ok(r.value.2))
  {
    match FindByQr(t.skips, qr)
    case None => Err(404, "skip not found")
    case Some(k) =>
      match FindContractor(t.contractors, contractorId)
      case None => Err(404, "contractor not found")
      case Some(c) =>
        match ActiveAssignment(t.assignments, t.skips[k].id)
        case Err(code, d) => Err(code, d)
        case Ok(active) => Ok((k, c, active))
  }

  function NewLink(linkId: string, skipId: string, contractorId: string, now: int): (a: SkipAssignment)
    ensures a.id == linkId && IsOpenFor(a, skipId) && a.contractorId == contractorId && a.assignedAt == now
  {
    SkipAssignment(linkId, skipId, contractorId, now, None)
  }

  /** `assign_bin` as written: succeeds only for a skip that no contractor owns yet. */
  function AssignBinAsWritten(t: Tables, qr: string, contractorId: string, linkId: string, now: int): (Tables, Response<AssignOut>)
  {
    match AssignTarget(t, qr, contractorId)
    case Err(c, d) => (t, Err(c, d))
    case Ok((k, c, active)) =>
      if active.Some? then (t, Err(500, "Internal Server Error"))
      else
        (t.(assignments := t.assignments + [NewLink(linkId, t.skips[k].id, t.contractors[c].id, now)]),
         Ok(AssignOut(t.skips[k].id, t.contractors[c].id, linkId)))
  }

  /** `assign_bin` as intended: the open assignment is closed at `now`, then the new one is opened. */
  function AssignBinSpec(t: Tables, qr: string, contractorId: string, linkId: string, now: int): (Tables, Response<AssignOut>)
  {
    match AssignTarget(t, qr, contractorId)
    case Err(c, d) => (t, Err(c, d))
    case Ok((k, c, active)) =>
      var closed := if active.Some? then t.assignments[active.value := t.assignments[active.value].(unassignedAt := Some(now))] else t.assignments;
      (t.(assignments := closed + [NewLink(linkId, t.skips[k].id, t.contractors[c].id, now)]),
       Ok(AssignOut(t.skips[k].id, t.contractors[c].id, linkId)))
  }

  method AssignBin(db: SkipDb, qr: string, contractorId: string, linkId: string, now: int) returns (r: Response<AssignOut>)
    modifies db
    ensures (db.Snapshot(), r) == AssignBinSpec(old(db.Snapshot()), qr, contractorId, linkId, now)
  {
    var target := AssignTarget(db.Snapshot(), qr, contractorId);
    if target.Err? {
      return Err(target.code, target.detail);
    }
    var (k, c, active) := target.value;
    var skip, contractor := db.skips[k], db.contractors[c];
    if active.Some? {
      var i := active.value;
      db.assignments := db.assignments[i := db.assignments[i].(unassignedAt := Some(now))];
    }
    db.assignments := db.assignments + [NewLink(linkId, skip.id, contractor.id, now)];
    return Ok(AssignOut(skip.id, contractor.id, linkId));
  }

  /**
   * After an assignment the new link is the skip's only open assignment; the link that was open
   * is closed at `now`; every other row is unchanged.
   */
  lemma AssignBinOnlyOpen(t: Tables, qr: string, contractorId: string, linkId: string, now: int)
    requires AssignBinSpec(t, qr, contractorId, linkId, now).1.Ok?
    ensures var (t', r) := AssignBinSpec(t, qr, contractorId, linkId, now);
      var n := |t.assignments|;
      |t'.assignments| == n + 1 && t'.assignments[n] == NewLink(linkId, r.value.skipId, contractorId, now)
      && (forall i :: 0 <= i <= n && IsOpenFor(t'.assignments[i], r.value.skipId) ==> i == n)
      && (forall i :: 0 <= i < n && IsOpenFor(t.assignments[i], r.value.skipId) ==> t'.assignments[i] == t.assignments[i].(unassignedAt := Some(now)))
      && (forall i :: 0 <= i < n && !IsOpenFor(t.assignments[i], r.value.skipId) ==> t'.assignments[i] == t.assignments[i])
      && t' == t.(assignments := t'.assignments)
  {
  }

  /** An unknown skip or contractor is refused with 404 before anything changes. */
  lemma AssignBinRejectsUnknown(t: Tables, qr: string, contractorId: string, linkId: string, now: int)
    requires FindByQr(t.skips, qr).None? || FindContractor(t.contractors, contractorId).None?
    ensures var (t', r) := AssignBinSpec(t, qr, contractorId, linkId, now);
      t' == t && r.Err? && r.code == 404
  {
  }

  /** Assigning keeps every skip to at most one open assignment. */
  lemma AssignBinConsistent(t: Tables, qr: string, contractorId: string, linkId: string, now: int)
    requires Consistent(t)
    ensures Consistent(AssignBinSpec(t, qr, contractorId, linkId, now).0)
  {
    var (t', r) := AssignBinSpec(t, qr, contractorId, linkId, now);
    if r.Ok? {
      AssignBinOnlyOpen(t, qr, contractorId, linkId, now);
      var n := |t.assignments|;
      forall i, j | 0 <= i < |t'.assignments| && 0 <= j < |t'.assignments| && t'.assignments[i].unassignedAt.None? && t'.assignments[j].unassignedAt.None? && t'.assignments[i].skipId == t'.assignments[j].skipId
        ensures i == j
      {
        if i < n && j < n {
          assert t.assignments[i].unassignedAt.None? && t.assignments[j].unassignedAt.None?;
        }
      }
    }
  }

  /** As written, assigning a skip that a contractor already owns raises and changes nothing, where the intended handler succeeds. */
  lemma AssignOwnedAsWrittenFails(t: Tables, qr: string, contractorId: string, linkId: string, now: int)
    requires AssignTarget(t, qr, contractorId).Ok? && AssignTarget(t, qr, contractorId).value.2.Some?
    ensures AssignBinAsWritten(t, qr, contractorId, linkId, now) == (t, Err(500, "Internal Server Error"))
    ensures AssignBinSpec(t, qr, contractorId, linkId, now).1.Ok?
  {
  }

  /** For a skip nobody owns, the handler as written and the intended one agree. */
  lemma AssignFreeAsWrittenAgrees(t: Tables, qr: string, contractorId: string, linkId: string, now: int)
    requires AssignTarget(t, qr, contractorId).Err? || AssignTarget(t, qr, contractorId).value.2.None?
    ensures AssignBinAsWritten(t, qr, contractorId, linkId, now) == AssignBinSpec(t, qr, contractorId, linkId, now)
  {
  }

  // ----- unassign -----

  datatype UnassignOut = UnassignOut(ok: bool)

  /** `unassign_bin`: the open assignment is closed at `now`; without one, 404. */
  function UnassignBinSpec(t: Tables, qr: string, now: int): (Tables, Response<UnassignOut>)
  {
    match FindByQr(t.skips, qr)
    case None => (t, Err(404, "skip not found"))
    case Some(k) =>
      match ActiveAssignment(t.assignments, t.skips[k].id)
      case Err(c, d) => (t, Err(c, d))
      case Ok(None) => (t, Err(404, "no active assignment"))
      case Ok(Some(i)) => (t.(assignments := t.assignments[i := t.assignments[i].(unassignedAt := Some(now))]), Ok(UnassignOut(true)))
  }

  method UnassignBin(db: SkipDb, qr: string, now: int) returns (r: Response<UnassignOut>)
    modifies db
    ensures (db.Snapshot(), r) == UnassignBinSpec(old(db.Snapshot()), qr, now)
  {
    var found := FindByQr(db.skips, qr);
    if found.None? {
      return Err(404, "skip not found");
    }
    var active := ActiveAssignment(db.assignments, db.skips[found.value].id);
    if active.Err? {
      return Err(active.code, active.detail);
    }
    if active.value.None? {
      return Err(404, "no active assignment");
    }
    var i := active.value.value;
    db.assignments := db.assignments[i := db.assignments[i].(unassignedAt := Some(now))];
    return Ok(UnassignOut(true));
  }

  /** After an unassignment the skip has no open assignment, and no other row changed. */
  lemma UnassignLeavesNoneOpen(t: Tables, qr: string, now: int, k: nat)
    requires k < |t.skips| && FindByQr(t.skips, qr) == Some(k)
    requires UnassignBinSpec(t, qr, now).1.Ok?
    ensures var t' := UnassignBinSpec(t, qr, now).0;
      |t'.assignments| == |t.assignments| && t' == t.(assignments := t'.assignments)
      && (forall i :: 0 <= i < |t'.assignments| ==> !IsOpenFor(t'.assignments[i], t.skips[k].id))
      && (forall i :: 0 <= i < |t.assignments| && !IsOpenFor(t.assignments[i], t.skips[k].id) ==> t'.assignments[i] == t.assignments[i])
  {
  }

  /** With nothing open, unassigning is a 404 that changes nothing. */
  lemma UnassignWithoutOwner(t: Tables, qr: string, now: int, k: nat)
    requires k < |t.skips| && FindByQr(t.skips, qr) == Some(k)
    requires forall i :: 0 <= i < |t.assignments| ==> !IsOpenFor(t.assignments[i], t.skips[k].id)
    ensures UnassignBinSpec(t, qr, now) == (t, Err(404, "no active assignment"))
  {
  }

  /** Unassigning keeps every skip to at most one open assignment. */
  lemma UnassignBinConsistent(t: Tables, qr: string, now: int)
    requires Consistent(t)
    ensures Consistent(UnassignBinSpec(t, qr, now).0)
  {
  }

  // ----- current owner -----

  datatype Owner = Owner(id: string, orgName: string)

  datatype CurrentOut = CurrentOut(skipId: string, contractor: Option<Owner>, assignedAt: Option<int>)

  /** The first open assignment of the skip joined with its contractor (`res.first()` of the join). */
  function FirstOpenJoined(asg: seq<SkipAssignment>, cs: seq<Contractor>, skipId: string): (r: Option<(SkipAssignment, Contractor)>)
    ensures r.Some? ==> r.value.0 in asg && IsOpenFor(r.value.0, skipId) && r.value.1 in cs && r.value.1.id == r.value.0.contractorId
    ensures r.None? <==> forall i :: 0 <= i < |asg| && IsOpenFor(asg[i], skipId) ==> FindContractor(cs, asg[i].contractorId).None?
  {
    if asg == [] then None
    else if IsOpenFor(asg[0], skipId) && FindContractor(cs, asg[0].contractorId).Some? then
      Some((asg[0], cs[FindContractor(cs, asg[0].contractorId).value]))
    else
      var r := FirstOpenJoined(asg[1..], cs, skipId);
      assert forall i :: 1 <= i < |asg| ==> asg[1..][i - 1] == asg[i];
      r
  }

  /** `get_current_owner`: the contractor of the open assignment, or none. */
  function GetCurrentOwner(t: Tables, qr: string): (r: Response<CurrentOut>)
    ensures FindByQr(t.skips, qr).None? <==> r == Err(404, "skip not found")
    ensures FindByQr(t.skips, qr).Some? ==> r.Ok? && r.value.skipId == t.skips[FindByQr(t.skips, qr).value].id
    ensures r.Ok? ==> (r.value.contractor.Some? <==> FirstOpenJoined(t.assignments, t.contractors, r.value.skipId).Some?)
    ensures r.Ok? && r.value.contractor.None? ==> r.value.assignedAt.None?
    ensures r.Ok? && r.value.contractor.None? ==>
      forall i :: 0 <= i < |t.assignments| && IsOpenFor(t.assignments[i], r.value.skipId) ==> FindContractor(t.contractors, t.assignments[i].contractorId).None?
    ensures r.Ok? && FirstOpenJoined(t.assignments, t.contractors, r.value.skipId).Some? ==>
      var (link, c) := FirstOpenJoined(t.assignments, t.contractors, r.value.skipId).value;
      r.value.contractor == Some(Owner(c.id, c.orgName)) && r.value.assignedAt == Some(link.assignedAt)
  {
    match FindByQr(t.skips, qr)
    case None => Err(404, "skip not found")
    case Some(k) =>
      match FirstOpenJoined(t.assignments, t.contractors, t.skips[k].id)
      case None => Ok(CurrentOut(t.skips[k].id, None, None))
      case Some((link, c)) => Ok(CurrentOut(t.skips[k].id, Some(Owner(c.id, c.orgName)), Some(link.assignedAt)))
  }

  lemma {:induction false} FirstOpenJoinedOnly(asg: seq<SkipAssignment>, cs: seq<Contractor>, skipId: string, n: nat, c: nat)
    requires n < |asg| && c < |cs| && IsOpenFor(asg[n], skipId) && FindContractor(cs, asg[n].contractorId) == Some(c)
    requires forall i :: 0 <= i < |asg| && i != n ==> !IsOpenFor(asg[i], skipId)
    ensures FirstOpenJoined(asg, cs, skipId) == Some((asg[n], cs[c]))
  {
    if n > 0 {
      assert !IsOpenFor(asg[0], skipId);
      assert asg[1..][n - 1] == asg[n];
      FirstOpenJoinedOnly(asg[1..], cs, skipId, n - 1, c);
    }
  }

  /** Right after an assignment the current owner is the contractor just assigned, since the assignment time. */
  lemma AssignThenCurrent(t: Tables, qr: string, contractorId: string, linkId: string, now: int)
    requires AssignBinSpec(t, qr, contractorId, linkId, now).1.Ok?
    ensures var (t', r) := AssignBinSpec(t, qr, contractorId, linkId, now);
      var c := t.contractors[FindContractor(t.contractors, contractorId).value];
      GetCurrentOwner(t', qr) == Ok(CurrentOut(r.value.skipId, Some(Owner(contractorId, c.orgName)), Some(now)))
  {
    var (t', r) := AssignBinSpec(t, qr, contractorId, linkId, now);
    AssignBinOnlyOpen(t, qr, contractorId, linkId, now);
    var c := FindContractor(t.contractors, contractorId).value;
    FirstOpenJoinedOnly(t'.assignments, t'.contractors, r.value.skipId, |t.assignments|, c);
  }

  /** After an unassignment the skip has no current owner. */
  lemma UnassignThenNoOwner(t: Tables, qr: string, now: int)
    requires UnassignBinSpec(t, qr, now).1.Ok?
    ensures var t' := UnassignBinSpec(t, qr, now).0;
      GetCurrentOwner(t', qr).Ok? && GetCurrentOwner(t', qr).value.contractor.None?
  {
    var k := FindByQr(t.skips, qr).value;
    UnassignLeavesNoneOpen(t, qr, now, k);
  }
}
