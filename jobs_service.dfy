/**
 * The job queue of `services/jobs_service.py`: listing, the driver's open jobs, the partial update
 * and marking a job done. The session is the table of jobs; `now` stands for `func.now()`, which
 * refreshes `updated_at` whenever a flush writes a changed row.
 */
module JobsService {
  import opened Wrappers
  import opened Ordering

  datatype JobType = DeliverEmpty | RelocateEmpty | CollectFull | ReturnEmpty

  datatype JobStatus = Pending | InProgress | Done | Failed

  /** `JobStatus(value)`: the member whose value is the text (values equal the names). */
  function ParseStatus(s: string): (r: Option<JobStatus>)
    ensures r.Some? <==> s in ["PENDING", "IN_PROGRESS", "DONE", "FAILED"]
  {
    if s == "PENDING" then Some(Pending)
    else if s == "IN_PROGRESS" then Some(InProgress)
    else if s == "DONE" then Some(Done)
    else if s == "FAILED" then Some(Failed)
    else None
  }

  /** A row of `jobs`. */
  datatype Job = Job(
    id: string,
    jobType: JobType,
    skipQr: Option<string>,
    fromZoneId: Option<string>,
    toZoneId: Option<string>,
    siteId: Option<string>,
    destinationType: Option<string>,
    destinationName: Option<string>,
    windowStart: Option<int>,
    windowEnd: Option<int>,
    assignedDriverId: Option<string>,
    assignedVehicleId: Option<string>,
    notes: Option<string>,
    status: JobStatus,
    createdAt: int,
    updatedAt: int)

  /** The `jobs` table as the session sees it. */
  class JobDb {
    var jobs: seq<Job>

    constructor()
      ensures jobs == []
    {
      jobs := [];
    }
  }

  // ----- queries -----

  /** `ORDER BY created_at DESC`. */
  function NewerFirst(a: Job, b: Job): bool {
    a.createdAt >= b.createdAt
  }

  /** `WHERE status = s` when a status is given. */
  function WithStatus(jobs: seq<Job>, st: Option<JobStatus>): (r: seq<Job>)
    ensures forall j :: j in r <==> j in jobs && (st.Some? ==> j.status == st.value)
  {
    if jobs == [] then []
    else
      var rest := WithStatus(jobs[1..], st);
      assert jobs == [jobs[0]] + jobs[1..];
      if st.None? || jobs[0].status == st.value then [jobs[0]] + rest else rest
  }

  /** `LIMIT limit OFFSET offset` of rows. */
  function Page(rows: seq<Job>, limit: nat, offset: nat): (r: seq<Job>)
    ensures |r| == if offset >= |rows| then 0 else if |rows| - offset < limit then |rows| - offset else limit
    ensures forall i :: 0 <= i < |r| ==> r[i] == rows[offset + i]
  {
    if offset >= |rows| then []
    else if |rows| - offset < limit then rows[offset..]
    else rows[offset..offset + limit]
  }

  /** The status filter `list_jobs` applies: none without a non-empty status text. */
  function StatusFilter(status: Option<string>): Option<JobStatus> {
    if status.Some? && status.value != "" then ParseStatus(status.value) else None
  }

  /** Newest first: creation times never increase along the sequence. */
  ghost predicate NewestFirst(s: seq<Job>) {
    forall i, j :: 0 <= i < j < |s| ==> s[i].createdAt >= s[j].createdAt
  }

  /** `ORDER BY created_at DESC`. */
  function NewestJobsFirst(rows: seq<Job>): (r: seq<Job>)
    ensures multiset(r) == multiset(rows) && |r| == |rows| && NewestFirst(r)
  {
    assert TotalPreorder(NewerFirst);
    var r := SortBy(rows, NewerFirst);
    assert |r| == |multiset(r)| == |multiset(rows)| == |rows|;
    r
  }

  /** How many rows `LIMIT limit OFFSET offset` keeps of `n`. */
  function PageSize(n: nat, limit: nat, offset: nat): nat {
    if offset >= n then 0 else if n - offset < limit then n - offset else limit
  }

  /**
   * `list_jobs`: filtered by status only when a non-empty one is given (an unknown status raises
   * `ValueError`), newest first, then paged. The route's defaults are a limit of 200 and no offset.
   */
  function ListJobs(jobs: seq<Job>, status: Option<string>, limit: nat, offset: nat): (r: Response<seq<Job>>)
    ensures status.Some? && status.value != "" && ParseStatus(status.value).None? ==> r.Err?
    ensures (status.None? || status.value == "" || ParseStatus(status.value).Some?) ==> r.Ok?
    ensures r.Ok? ==> |r.value| == PageSize(|WithStatus(jobs, StatusFilter(status))|, limit, offset)
    ensures r.Ok? ==> NewestFirst(r.value)
    ensures r.Ok? ==> forall j :: j in r.value ==> j in jobs && (status.Some? && status.value != "" ==> Some(j.status) == ParseStatus(status.value))
  {
    var st := StatusFilter(status);
    if status.Some? && status.value != "" && st.None? then Err(500, "ValueError: not a valid JobStatus")
    else
      var sorted := NewestJobsFirst(WithStatus(jobs, st));
      var page := Page(sorted, limit, offset);
      assert forall j :: j in page ==> j in sorted by {
        forall j | j in page ensures j in sorted {
          var i :| 0 <= i < |page| && page[i] == j;
          assert sorted[offset + i] == j;
        }
      }
      assert forall j :: j in sorted ==> j in WithStatus(jobs, st) by {
        forall j | j in sorted ensures j in WithStatus(jobs, st) {
          assert j in multiset(sorted);
        }
      }
      assert NewestFirst(page) by {
        forall a, b | 0 <= a < b < |page| ensures page[a].createdAt >= page[b].createdAt {
          assert page[a] == sorted[offset + a] && page[b] == sorted[offset + b];
        }
      }
      Ok(page)
  }

  /**
   * The page is a window of the status-filtered jobs in newest-first order: the jobs listed are
   * the slice from the offset of a newest-first permutation of exactly the jobs with the status.
   */
  lemma ListJobsIsWindow(jobs: seq<Job>, status: Option<string>, limit: nat, offset: nat)
    requires ListJobs(jobs, status, limit, offset).Ok?
    ensures var rows := WithStatus(jobs, StatusFilter(status));
      var s := NewestJobsFirst(rows);
      var lo := if offset < |s| then offset else |s|;
      var hi := lo + PageSize(|s|, limit, offset);
      multiset(s) == multiset(rows) && NewestFirst(s)
      && hi <= |s| && ListJobs(jobs, status, limit, offset).value == s[lo..hi]
  {
    ListJobsPage(jobs, status, limit, offset);
  }

  /** The successful answer is the page of the newest-first filtered jobs starting at the offset. */
  lemma ListJobsPage(jobs: seq<Job>, status: Option<string>, limit: nat, offset: nat)
    requires ListJobs(jobs, status, limit, offset).Ok?
    ensures var s := NewestJobsFirst(WithStatus(jobs, StatusFilter(status)));
      var lo := if offset < |s| then offset else |s|;
      lo + PageSize(|s|, limit, offset) <= |s|
      && ListJobs(jobs, status, limit, offset).value == s[lo..lo + PageSize(|s|, limit, offset)]
  {
    var s := NewestJobsFirst(WithStatus(jobs, StatusFilter(status)));
    var r := Page(s, limit, offset);
    assert ListJobs(jobs, status, limit, offset) == Ok(r);
  }

  /** A window of a newest-first sequence sits between the newer rows before it and the older rows after it. */
  lemma WindowOfNewestFirst(s: seq<Job>, lo: nat, hi: nat)
    requires NewestFirst(s) && lo <= hi <= |s|
    ensures multiset(s[..lo]) + multiset(s[lo..hi]) + multiset(s[hi..]) == multiset(s)
    ensures forall x, y :: x in s[..lo] && y in s[lo..hi] ==> x.createdAt >= y.createdAt
    ensures forall x, y :: x in s[hi..] && y in s[lo..hi] ==> x.createdAt <= y.createdAt
  {
    assert s == s[..lo] + s[lo..hi] + s[hi..];
    forall x, y | x in s[..lo] && y in s[lo..hi] ensures x.createdAt >= y.createdAt {
      var a :| 0 <= a < lo && s[..lo][a] == x;
      var b :| 0 <= b < hi - lo && s[lo..hi][b] == y;
      assert s[a] == x && s[lo + b] == y;
    }
    forall x, y | x in s[hi..] && y in s[lo..hi] ensures x.createdAt <= y.createdAt {
      var a :| 0 <= a < |s| - hi && s[hi..][a] == x;
      var b :| 0 <= b < hi - lo && s[lo..hi][b] == y;
      assert s[hi + a] == x && s[lo + b] == y;
    }
  }

  const DefaultLimit: nat := 200
  const DefaultOffset: nat := 0

  /**
   * With the defaults and no status, the list is the 200 newest jobs (all of them when there are
   * fewer): it is drawn from the table, and no job it leaves out is newer than one it lists.
   */
  lemma ListJobsDefaults(jobs: seq<Job>)
    ensures var r := ListJobs(jobs, None, DefaultLimit, DefaultOffset);
      r.Ok? && |r.value| == (if |jobs| < 200 then |jobs| else 200)
      && multiset(r.value) <= multiset(jobs)
      && forall x, y :: x in multiset(jobs) - multiset(r.value) && y in r.value ==> x.createdAt <= y.createdAt
  {
    WithStatusNone(jobs);
    var s := NewestJobsFirst(jobs);
    var n := PageSize(|s|, DefaultLimit, DefaultOffset);
    ListJobsPage(jobs, None, DefaultLimit, DefaultOffset);
    var r := s[0..n];
    assert ListJobs(jobs, None, DefaultLimit, DefaultOffset).value == r;
    WindowOfNewestFirst(s, 0, n);
    assert multiset(s[..0]) == multiset{};
    assert multiset(r) + multiset(s[n..]) == multiset(jobs);
    forall x, y | x in multiset(jobs) - multiset(r) && y in r ensures x.createdAt <= y.createdAt {
      assert x in multiset(s[n..]);
      assert x in s[n..];
    }
  }

  lemma {:induction false} WithStatusNone(jobs: seq<Job>)
    ensures WithStatus(jobs, None) == jobs
  {
    if jobs != [] {
      WithStatusNone(jobs[1..]);
    }
  }

  /** The jobs a driver still has to do. */
  predicate OpenFor(j: Job, driverId: string) {
    j.assignedDriverId == Some(driverId) && (j.status == Pending || j.status == InProgress)
  }

  function OpenJobs(jobs: seq<Job>, driverId: string): (r: seq<Job>)
    ensures forall j :: j in r <==> j in jobs && OpenFor(j, driverId)
  {
    if jobs == [] then []
    else
      var rest := OpenJobs(jobs[1..], driverId);
      assert jobs == [jobs[0]] + jobs[1..];
      if OpenFor(jobs[0], driverId) then [jobs[0]] + rest else rest
  }

  /** `ORDER BY window_start NULLS LAST, created_at ASC`. */
  function WindowThenCreated(a: Job, b: Job): bool {
    if a.windowStart.None? then b.windowStart.None? && a.createdAt <= b.createdAt
    else if b.windowStart.None? then true
    else (a.windowStart.value < b.windowStart.value
          || (a.windowStart.value == b.windowStart.value && a.createdAt <= b.createdAt))
  }

  lemma WindowThenCreatedOrders()
    ensures TotalPreorder(WindowThenCreated)
  {
  }

  /** `jobs_for_driver`: the driver's pending and in-progress jobs, windowed ones first by start, then by age. */
  function JobsForDriver(jobs: seq<Job>, driverId: string): (r: seq<Job>)
    ensures multiset(r) == multiset(OpenJobs(jobs, driverId))
    ensures forall i, j :: 0 <= i < j < |r| ==> WindowThenCreated(r[i], r[j])
  {
    WindowThenCreatedOrders();
    SortBy(OpenJobs(jobs, driverId), WindowThenCreated)
  }

  /** Exactly the driver's open jobs are listed, and a job with a window comes before every job without one. */
  lemma JobsForDriverRows(jobs: seq<Job>, driverId: string)
    ensures var r := JobsForDriver(jobs, driverId);
      (forall j :: j in r <==> j in jobs && OpenFor(j, driverId))
      && (forall i, k :: 0 <= i < k < |r| && r[k].windowStart.Some? ==> r[i].windowStart.Some?)
  {
    var r := JobsForDriver(jobs, driverId);
    forall j ensures j in r <==> j in OpenJobs(jobs, driverId) {
      assert j in r <==> j in multiset(r);
    }
  }

  // ----- partial update -----

  /** A column of `jobs` that `JobUpdate` can set. */
  datatype Column = CType | CSkipQr | CFromZone | CToZone | CSite | CDestType | CDestName
                  | CWindowStart | CWindowEnd | CDriver | CVehicle | CNotes | CStatus

  /**
   * One entry of `data.dict(exclude_unset=True)`: a column with the value sent for it. `null`
   * is a value too; for the two non-null columns it is carried as `None`.
   */
  datatype Assign =
    | SetType(jobType: Option<JobType>)
    | SetText(col: Column, text: Option<string>)
    | SetTime(col: Column, time: Option<int>)
    | SetStatus(status: Option<JobStatus>)

  /** The entries that are well formed: text columns get text, window columns get a time. */
  predicate IsTextColumn(c: Column) {
    c in {CSkipQr, CFromZone, CToZone, CSite, CDestType, CDestName, CDriver, CVehicle, CNotes}
  }

  predicate WellTyped(a: Assign) {
    match a
    case SetText(c, _) => IsTextColumn(c)
    case SetTime(c, _) => c == CWindowStart || c == CWindowEnd
    case _ => true
  }

  function ColumnOf(a: Assign): Column {
    match a
    case SetType(_) => CType
    case SetText(c, _) => c
    case SetTime(c, _) => c
    case SetStatus(_) => CStatus
  }

  /** The value of a column as an entry would set it. */
  function Cell(j: Job, c: Column): Assign {
    match c
    case CType => SetType(Some(j.jobType))
    case CStatus => SetStatus(Some(j.status))
    case CWindowStart => SetTime(CWindowStart, j.windowStart)
    case CWindowEnd => SetTime(CWindowEnd, j.windowEnd)
    case CSkipQr => SetText(CSkipQr, j.skipQr)
    case CFromZone => SetText(CFromZone, j.fromZoneId)
    case CToZone => SetText(CToZone, j.toZoneId)
    case CSite => SetText(CSite, j.siteId)
    case CDestType => SetText(CDestType, j.destinationType)
    case CDestName => SetText(CDestName, j.destinationName)
    case CDriver => SetText(CDriver, j.assignedDriverId)
    case CVehicle => SetText(CVehicle, j.assignedVehicleId)
    case CNotes => SetText(CNotes, j.notes)
  }

  /** The object after `setattr`, while it may still hold `None` in a non-null column. */
  datatype Staged = Staged(job: Job, nullType: bool, nullStatus: bool)

  /** `setattr(job, k, v)` of one entry. */
  function SetAttr(p: Staged, a: Assign): (q: Staged)
    requires WellTyped(a)
    ensures q.job.id == p.job.id && q.job.createdAt == p.job.createdAt && q.job.updatedAt == p.job.updatedAt
    ensures (a.SetType? && a.jobType.Some?) || (a.SetStatus? && a.status.Some?) || a.SetText? || a.SetTime? ==> Cell(q.job, ColumnOf(a)) == a
    ensures forall c :: c != ColumnOf(a) ==> Cell(q.job, c) == Cell(p.job, c)
    ensures q.nullType == (if a.SetType? then a.jobType.None? else p.nullType)
    ensures q.nullStatus == (if a.SetStatus? then a.status.None? else p.nullStatus)
  {
    var j := p.job;
    match a
    case SetType(t) => if t.Some? then Staged(j.(jobType := t.value), false, p.nullStatus) else p.(nullType := true)
    case SetStatus(s) => if s.Some? then Staged(j.(status := s.value), p.nullType, false) else p.(nullStatus := true)
    case SetTime(c, v) => if c == CWindowStart then p.(job := j.(windowStart := v)) else p.(job := j.(windowEnd := v))
    case SetText(c, v) =>
      var j' := match c
        case CSkipQr => j.(skipQr := v)
        case CFromZone => j.(fromZoneId := v)
        case CToZone => j.(toZoneId := v)
        case CSite => j.(siteId := v)
        case CDestType => j.(destinationType := v)
        case CDestName => j.(destinationName := v)
        case CDriver => j.(assignedDriverId := v)
        case CVehicle => j.(assignedVehicleId := v)
        case _ => j.(notes := v);
      p.(job := j')
  }

  /** The `setattr` loop over the entries, in order. */
  function SetAll(p: Staged, fields: seq<Assign>): Staged
    requires forall i :: 0 <= i < |fields| ==> WellTyped(fields[i])
    decreases |fields|
  {
    if fields == [] then p
    else SetAll(SetAttr(p, fields[0]), fields[1..])
  }

  lemma {:induction false} SetAllAppend(p: Staged, fields: seq<Assign>, a: Assign)
    requires forall i :: 0 <= i < |fields| ==> WellTyped(fields[i])
    requires WellTyped(a)
    ensures SetAll(p, fields + [a]) == SetAttr(SetAll(p, fields), a)
    decreases |fields|
  {
    if fields == [] {
      assert [a][1..] == [];
    } else {
      assert (fields + [a])[1..] == fields[1..] + [a];
      SetAllAppend(SetAttr(p, fields[0]), fields[1..], a);
    }
  }

  /** The columns an update sets. */
  function Columns(fields: seq<Assign>): set<Column> {
    set i | 0 <= i < |fields| :: ColumnOf(fields[i])
  }

  /** Columns the update leaves out keep their values. */
  lemma {:induction false} SetAllOthersUnchanged(p: Staged, fields: seq<Assign>, c: Column)
    requires forall i :: 0 <= i < |fields| ==> WellTyped(fields[i])
    requires c !in Columns(fields)
    ensures Cell(SetAll(p, fields).job, c) == Cell(p.job, c)
    decreases |fields|
  {
    if fields != [] {
      assert ColumnOf(fields[0]) in Columns(fields);
      assert Columns(fields[1..]) <= Columns(fields) by {
        forall x | x in Columns(fields[1..]) ensures x in Columns(fields) {
          var i :| 0 <= i < |fields[1..]| && ColumnOf(fields[1..][i]) == x;
          assert fields[1..][i] == fields[i + 1];
        }
      }
      SetAllOthersUnchanged(SetAttr(p, fields[0]), fields[1..], c);
    }
  }

  /** A column set exactly once (as the entries of a dict are) holds the value sent. */
  lemma {:induction false} SetAllSetsColumn(p: Staged, fields: seq<Assign>, k: nat)
    requires forall i :: 0 <= i < |fields| ==> WellTyped(fields[i])
    requires k < |fields| && forall i :: 0 <= i < |fields| && i != k ==> ColumnOf(fields[i]) != ColumnOf(fields[k])
    requires !(fields[k].SetType? && fields[k].jobType.None?) && !(fields[k].SetStatus? && fields[k].status.None?)
    ensures Cell(SetAll(p, fields).job, ColumnOf(fields[k])) == fields[k]
    decreases |fields|
  {
    if k == 0 {
      var q := SetAttr(p, fields[0]);
      assert ColumnOf(fields[0]) !in Columns(fields[1..]) by {
        forall i | 0 <= i < |fields[1..]| ensures ColumnOf(fields[1..][i]) != ColumnOf(fields[0]) {
          assert fields[1..][i] == fields[i + 1];
        }
      }
      SetAllOthersUnchanged(q, fields[1..], ColumnOf(fields[0]));
    } else {
      forall i | 0 <= i < |fields[1..]| && i != k - 1 ensures ColumnOf(fields[1..][i]) != ColumnOf(fields[1..][k - 1]) {
        assert fields[1..][i] == fields[i + 1];
      }
      SetAllSetsColumn(SetAttr(p, fields[0]), fields[1..], k - 1);
    }
  }

  /** The first row with the id. */
  function FindJob(jobs: seq<Job>, id: string): (r: Option<nat>)
    ensures r.Some? ==> r.value < |jobs| && jobs[r.value].id == id
    ensures r.None? <==> forall i :: 0 <= i < |jobs| ==> jobs[i].id != id
  {
    if jobs == [] then None
    else if jobs[0].id == id then Some(0)
    else match FindJob(jobs[1..], id)
      case None => None
      case Some(j) => Some(j + 1)
  }

  /** The flush: a `None` in `type` or `status` violates NOT NULL; a changed row gets `updated_at = now`. */
  function Flush(before: Job, p: Staged, now: int): Response<Job> {
    if p.nullType || p.nullStatus then Err(500, "IntegrityError: NOT NULL constraint failed")
    else if p.job == before then Ok(before)
    else Ok(p.job.(updatedAt := now))
  }

  /** `update_job`: `None` (here `Ok(None)`) for an unknown id; otherwise the updated row. */
  function UpdateJobSpec(jobs: seq<Job>, id: string, fields: seq<Assign>, now: int): (seq<Job>, Response<Option<Job>>)
    requires forall i :: 0 <= i < |fields| ==> WellTyped(fields[i])
  {
    match FindJob(jobs, id)
    case None => (jobs, Ok(None))
    case Some(k) =>
      match Flush(jobs[k], SetAll(Staged(jobs[k], false, false), fields), now)
      case Err(c, d) => (jobs, Err(c, d))
      case Ok(job) => (jobs[k := job], Ok(Some(job)))
  }

  method UpdateJob(db: JobDb, id: string, fields: seq<Assign>, now: int) returns (r: Response<Option<Job>>)
    requires forall i :: 0 <= i < |fields| ==> WellTyped(fields[i])
    modifies db
    ensures (db.jobs, r) == UpdateJobSpec(old(db.jobs), id, fields, now)
  {
    var k := FindJob(db.jobs, id);
    if k.None? {
      return Ok(None);
    }
    var before := db.jobs[k.value];
    var p := Staged(before, false, false);
    for i := 0 to |fields|
      invariant db.jobs == old(db.jobs)
      invariant p == SetAll(Staged(before, false, false), fields[..i])
    {
      SetAllAppend(Staged(before, false, false), fields[..i], fields[i]);
      assert fields[..i + 1] == fields[..i] + [fields[i]];
      p := SetAttr(p, fields[i]);
    }
    assert fields[..|fields|] == fields;
    var flushed := Flush(before, p, now);
    if flushed.Err? {
      return Err(flushed.code, flushed.detail);
    }
    db.jobs := db.jobs[k.value := flushed.value];
    return Ok(Some(flushed.value));
  }

  /**
   * The partial update: only the columns sent change, each to the value sent; the id and the
   * creation time stay; every other job is untouched.
   */
  lemma UpdateJobEffect(jobs: seq<Job>, id: string, fields: seq<Assign>, now: int, k: nat)
    requires forall i :: 0 <= i < |fields| ==> WellTyped(fields[i])
    requires FindJob(jobs, id) == Some(k)
    requires forall i :: 0 <= i < |fields| ==> !(fields[i].SetType? && fields[i].jobType.None?) && !(fields[i].SetStatus? && fields[i].status.None?)
    ensures var (t1, r) := UpdateJobSpec(jobs, id, fields, now);
      r.Ok? && r.value.Some? && t1 == jobs[k := r.value.value]
      && r.value.value.id == id && r.value.value.createdAt == jobs[k].createdAt
      && (forall c :: c !in Columns(fields) ==> Cell(r.value.value, c) == Cell(jobs[k], c))
      && (forall i :: 0 <= i < |fields| && (forall i' :: 0 <= i' < |fields| && i' != i ==> ColumnOf(fields[i']) != ColumnOf(fields[i]))
            ==> Cell(r.value.value, ColumnOf(fields[i])) == fields[i])
  {
    var p0 := Staged(jobs[k], false, false);
    var p := SetAll(p0, fields);
    NoNulls(p0, fields);
    SetAllKeepsIdentity(p0, fields);
    forall c | c !in Columns(fields) ensures Cell(p.job, c) == Cell(jobs[k], c) {
      SetAllOthersUnchanged(p0, fields, c);
    }
    forall i | 0 <= i < |fields| && (forall i' :: 0 <= i' < |fields| && i' != i ==> ColumnOf(fields[i']) != ColumnOf(fields[i]))
      ensures Cell(p.job, ColumnOf(fields[i])) == fields[i]
    {
      SetAllSetsColumn(p0, fields, i);
    }
    var job := p.job.(updatedAt := now);
    assert forall c :: Cell(job, c) == Cell(p.job, c);
  }

  lemma {:induction false} NoNulls(p: Staged, fields: seq<Assign>)
    requires forall i :: 0 <= i < |fields| ==> WellTyped(fields[i])
    requires !p.nullType && !p.nullStatus
    requires forall i :: 0 <= i < |fields| ==> !(fields[i].SetType? && fields[i].jobType.None?) && !(fields[i].SetStatus? && fields[i].status.None?)
    ensures !SetAll(p, fields).nullType && !SetAll(p, fields).nullStatus
    decreases |fields|
  {
    if fields != [] {
      NoNulls(SetAttr(p, fields[0]), fields[1..]);
    }
  }

  lemma {:induction false} SetAllKeepsIdentity(p: Staged, fields: seq<Assign>)
    requires forall i :: 0 <= i < |fields| ==> WellTyped(fields[i])
    ensures SetAll(p, fields).job.id == p.job.id && SetAll(p, fields).job.createdAt == p.job.createdAt
    decreases |fields|
  {
    if fields != [] {
      SetAllKeepsIdentity(SetAttr(p, fields[0]), fields[1..]);
    }
  }

  /** Sending `null` for the status fails at the flush and changes nothing. */
  lemma UpdateNullStatusRejected(jobs: seq<Job>, id: string, now: int)
    requires FindJob(jobs, id).Some?
    ensures UpdateJobSpec(jobs, id, [SetStatus(None)], now).0 == jobs
    ensures UpdateJobSpec(jobs, id, [SetStatus(None)], now).1.Err?
  {
    assert [SetStatus(None)][1..] == [];
  }

  /** An unknown id changes nothing and gives `None`. */
  lemma UpdateUnknownJob(jobs: seq<Job>, id: string, fields: seq<Assign>, now: int)
    requires forall i :: 0 <= i < |fields| ==> WellTyped(fields[i])
    requires forall i :: 0 <= i < |jobs| ==> jobs[i].id != id
    ensures UpdateJobSpec(jobs, id, fields, now) == (jobs, Ok(None))
  {
  }

  // ----- mark done -----

  /** `mark_done`: `None` for an unknown id, else the job with status DONE. */
  function MarkDoneSpec(jobs: seq<Job>, id: string, now: int): (seq<Job>, Option<Job>)
  {
    match FindJob(jobs, id)
    case None => (jobs, None)
    case Some(k) =>
      var job := if jobs[k].status == Done then jobs[k] else jobs[k].(status := Done, updatedAt := now);
      (jobs[k := job], Some(job))
  }

  method MarkDone(db: JobDb, id: string, now: int) returns (r: Option<Job>)
    modifies db
    ensures (db.jobs, r) == MarkDoneSpec(old(db.jobs), id, now)
  {
    var k := FindJob(db.jobs, id);
    if k.None? {
      return None;
    }
    var job := db.jobs[k.value];
    if job.status != Done {
      job := job.(status := Done, updatedAt := now);
    }
    db.jobs := db.jobs[k.value := job];
    return Some(job);
  }

  /** Marking done is the update that sets the status to DONE. */
  lemma MarkDoneIsStatusUpdate(jobs: seq<Job>, id: string, now: int)
    ensures var (t1, r1) := MarkDoneSpec(jobs, id, now);
      var (t2, r2) := UpdateJobSpec(jobs, id, [SetStatus(Some(Done))], now);
      t1 == t2 && r2 == Ok(r1)
  {
    var k := FindJob(jobs, id);
    if k.Some? {
      var p := SetAll(Staged(jobs[k.value], false, false), [SetStatus(Some(Done))]);
      assert [SetStatus(Some(Done))][1..] == [];
      assert p == SetAttr(Staged(jobs[k.value], false, false), SetStatus(Some(Done)));
    }
  }

  /** A done job is no longer among the driver's open jobs; nothing else leaves or joins. */
  lemma MarkDoneLeavesDriverList(jobs: seq<Job>, id: string, now: int, driverId: string, k: nat)
    requires FindJob(jobs, id) == Some(k)
    ensures var t1 := MarkDoneSpec(jobs, id, now).0;
      (forall j :: j in JobsForDriver(t1, driverId) ==> j.id != id || j != t1[k])
      && (forall i :: 0 <= i < |jobs| && i != k ==> t1[i] == jobs[i])
      && t1[k].status == Done
  {
    var t1 := MarkDoneSpec(jobs, id, now).0;
    JobsForDriverRows(t1, driverId);
  }
}
