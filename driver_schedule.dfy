/**
 * The driver's task list of `api/driver_schedule.py`: the schedule query, marking a task done,
 * and the development seed of four tasks. Ids, clocks and `str()` of a date are parameters.
 */
module DriverSchedule {
  import opened Wrappers
  import opened Ordering

  /** A row of `driver_tasks`. */
  datatype DriverTask = DriverTask(
    id: string,
    driverName: string,
    taskType: string,
    skipQr: Option<string>,
    toZoneId: Option<string>,
    destinationName: Option<string>,
    destinationType: Option<string>,
    grossKg: Option<real>,
    tareKg: Option<real>,
    scheduledAt: int,
    done: bool,
    completedAt: Option<int>,
    createdAt: int)

  /** The `driver_tasks` table. */
  class TaskDb {
    var tasks: seq<DriverTask>

    constructor()
      ensures tasks == []
    {
      tasks := [];
    }
  }

  // ----- the schedule -----

  /** `WHERE driver_name = driver`, in table order. */
  function OfDriver(tasks: seq<DriverTask>, driver: string): (r: seq<DriverTask>)
    ensures forall t :: t in r <==> t in tasks && t.driverName == driver
  {
    if tasks == [] then []
    else
      var rest := OfDriver(tasks[..|tasks| - 1], driver);
      var last := tasks[|tasks| - 1];
      assert tasks == tasks[..|tasks| - 1] + [last];
      if last.driverName == driver then rest + [last] else rest
  }

  /** `ORDER BY scheduled_at ASC`. */
  function EarlierScheduled(a: DriverTask, b: DriverTask): bool {
    a.scheduledAt <= b.scheduledAt
  }

  /** Ascending `scheduled_at`. */
  predicate InScheduleOrder(rows: seq<DriverTask>) {
    forall i, j :: 0 <= i < j < |rows| ==> rows[i].scheduledAt <= rows[j].scheduledAt
  }

  /** The rows the schedule query returns. */
  function ScheduleQuery(tasks: seq<DriverTask>, driver: string): (r: seq<DriverTask>)
    ensures multiset(r) == multiset(OfDriver(tasks, driver))
    ensures InScheduleOrder(r)
  {
    SortBy(OfDriver(tasks, driver), EarlierScheduled)
  }

  /** The rows the loop keeps: all of them, or with `only_pending` those not done, in the same order. */
  function Kept(rows: seq<DriverTask>, onlyPending: bool): (r: seq<DriverTask>)
    ensures forall t :: t in r <==> t in rows && !(onlyPending && t.done)
  {
    if rows == [] then []
    else
      var rest := Kept(rows[..|rows| - 1], onlyPending);
      var last := rows[|rows| - 1];
      assert rows == rows[..|rows| - 1] + [last];
      if onlyPending && last.done then rest else rest + [last]
  }

  /** Keeping rows keeps their order. */
  lemma {:induction false} KeptSorted(rows: seq<DriverTask>, onlyPending: bool)
    requires InScheduleOrder(rows)
    ensures InScheduleOrder(Kept(rows, onlyPending))
  {
    if rows != [] {
      var front := rows[..|rows| - 1];
      var last := rows[|rows| - 1];
      assert forall i :: 0 <= i < |front| ==> front[i] == rows[i];
      KeptSorted(front, onlyPending);
      var rest := Kept(front, onlyPending);
      var r := Kept(rows, onlyPending);
      if !(onlyPending && last.done) {
        assert r == rest + [last];
        forall k | 0 <= k < |rest| ensures rest[k].scheduledAt <= last.scheduledAt {
          assert rest[k] in rest;
          var j :| 0 <= j < |front| && front[j] == rest[k];
          assert rows[j] == front[j];
        }
        forall i, j | 0 <= i < j < |r| ensures r[i].scheduledAt <= r[j].scheduledAt {
          assert r[i] == rest[i];
          if j < |rest| {
            assert r[j] == rest[j];
            assert rest[i].scheduledAt <= rest[j].scheduledAt;
          }
        }
      } else {
        assert r == rest;
      }
    }
  }

  /** Without `only_pending` every row is kept. */
  lemma {:induction false} KeptAll(rows: seq<DriverTask>)
    ensures Kept(rows, false) == rows
  {
    if rows != [] {
      KeptAll(rows[..|rows| - 1]);
      assert rows == rows[..|rows| - 1] + [rows[|rows| - 1]];
    }
  }

  /** One entry of `items`. */
  datatype TaskItem = TaskItem(
    id: string,
    taskType: string,
    skipQr: Option<string>,
    toZoneId: Option<string>,
    destinationName: Option<string>,
    destinationType: Option<string>,
    grossKg: Option<real>,
    tareKg: Option<real>,
    scheduledAt: string,
    done: bool,
    completedAt: Option<string>)

  /** The item of a row; `dtText` is `str()` of a date. */
  function ItemOf(t: DriverTask, dtText: int -> string): TaskItem {
    TaskItem(t.id, t.taskType, t.skipQr, t.toZoneId, t.destinationName, t.destinationType,
             t.grossKg, t.tareKg, dtText(t.scheduledAt), t.done,
             if t.completedAt.Some? then Some(dtText(t.completedAt.value)) else None)
  }

  function ItemsOf(rows: seq<DriverTask>, dtText: int -> string): (r: seq<TaskItem>)
    ensures |r| == |rows| && forall i :: 0 <= i < |rows| ==> r[i] == ItemOf(rows[i], dtText)
  {
    seq(|rows|, i requires 0 <= i < |rows| => ItemOf(rows[i], dtText))
  }

  lemma ItemsOfAppend(rows: seq<DriverTask>, row: DriverTask, dtText: int -> string)
    ensures ItemsOf(rows + [row], dtText) == ItemsOf(rows, dtText) + [ItemOf(row, dtText)]
  {
    var a, b := ItemsOf(rows + [row], dtText), ItemsOf(rows, dtText) + [ItemOf(row, dtText)];
    assert |a| == |b|;
    forall i | 0 <= i < |a| ensures a[i] == b[i] {
      if i < |rows| {
        assert (rows + [row])[i] == rows[i];
      }
    }
  }

  datatype ScheduleOut = ScheduleOut(driver: string, items: seq<TaskItem>)

  /** The query's `only_pending` when none is given: done tasks are hidden. */
  const DefaultOnlyPending: bool := true

  /**
   * `GET /driver/schedule`: 422 for an empty driver name, else the driver's items; without
   * `only_pending` in the query, no done task is listed.
   */
  method GetSchedule(db: TaskDb, driver: string, onlyPending: Option<bool>, dtText: int -> string) returns (r: Response<ScheduleOut>)
    ensures driver == "" ==> r.Err? && r.code == 422
    ensures driver != "" ==> r == Ok(ScheduleOut(driver, ItemsOf(Kept(ScheduleQuery(db.tasks, driver), onlyPending.GetOr(DefaultOnlyPending)), dtText)))
    ensures driver != "" && onlyPending.None? ==> forall i :: 0 <= i < |r.value.items| ==> !r.value.items[i].done
  {
    if driver == "" {
      return Err(422, "driver: String should have at least 1 character");
    }
    var pending := onlyPending.GetOr(DefaultOnlyPending);
    if onlyPending.None? {
      DefaultSchedulePending(db.tasks, driver, dtText);
    }
    var rows := ScheduleQuery(db.tasks, driver);
    var items: seq<TaskItem> := [];
    ghost var kept: seq<DriverTask> := [];
    for i := 0 to |rows|
      invariant kept == Kept(rows[..i], pending)
      invariant items == ItemsOf(kept, dtText)
    {
      ghost var next := rows[..i + 1];
      assert next[..|next| - 1] == rows[..i] && next[|next| - 1] == rows[i];
      var row := rows[i];
      if pending && row.done {
        continue;
      }
      ItemsOfAppend(kept, row, dtText);
      items := items + [ItemOf(row, dtText)];
      kept := kept + [row];
    }
    assert rows[..|rows|] == rows;
    return Ok(ScheduleOut(driver, items));
  }

  /**
   * The schedule holds exactly the driver's tasks (only those not done when `only_pending`), in
   * ascending `scheduled_at` order.
   */
  lemma ScheduleRows(tasks: seq<DriverTask>, driver: string, onlyPending: bool)
    ensures var r := Kept(ScheduleQuery(tasks, driver), onlyPending);
      (forall t :: t in r <==> t in tasks && t.driverName == driver && !(onlyPending && t.done))
      && InScheduleOrder(r)
  {
    var q := ScheduleQuery(tasks, driver);
    KeptSorted(q, onlyPending);
    forall t ensures t in q <==> t in OfDriver(tasks, driver) {
      assert t in q <==> t in multiset(q);
    }
  }

  /**
   * By default the schedule lists exactly the driver's tasks that are not done, in ascending
   * `scheduled_at`, and no listed item is done.
   */
  lemma DefaultSchedulePending(tasks: seq<DriverTask>, driver: string, dtText: int -> string)
    ensures var r := Kept(ScheduleQuery(tasks, driver), DefaultOnlyPending);
      (forall t :: t in r <==> t in tasks && t.driverName == driver && !t.done)
      && InScheduleOrder(r)
    ensures var items := ItemsOf(Kept(ScheduleQuery(tasks, driver), DefaultOnlyPending), dtText);
      forall i :: 0 <= i < |items| ==> !items[i].done
  {
    var r := Kept(ScheduleQuery(tasks, driver), DefaultOnlyPending);
    ScheduleRows(tasks, driver, DefaultOnlyPending);
    var items := ItemsOf(r, dtText);
    forall i | 0 <= i < |items| ensures !items[i].done {
      assert r[i] in r;
    }
  }

  // ----- mark done -----

  /** The first row with the id (the primary key). */
  function FindTask(tasks: seq<DriverTask>, id: string): (r: Option<nat>)
    ensures r.Some? ==> r.value < |tasks| && tasks[r.value].id == id && forall i :: 0 <= i < r.value ==> tasks[i].id != id
    ensures r.None? <==> forall i :: 0 <= i < |tasks| ==> tasks[i].id != id
  {
    if tasks == [] then None
    else if tasks[0].id == id then Some(0)
    else match FindTask(tasks[1..], id)
      case None => None
      case Some(j) => Some(j + 1)
  }

  /** `PATCH /driver/schedule/{id}/done`: 404 for an unknown task; a pending task becomes done at `now`. */
  function MarkDoneSpec(tasks: seq<DriverTask>, id: string, now: int): (seq<DriverTask>, Response<()>)
  {
    match FindTask(tasks, id)
    case None => (tasks, Err(404, "task not found"))
    case Some(k) =>
      if tasks[k].done then (tasks, Ok(()))
      else (tasks[k := tasks[k].(done := true, completedAt := Some(now))], Ok(()))
  }

  method MarkDone(db: TaskDb, id: string, now: int) returns (r: Response<()>)
    modifies db
    ensures (db.tasks, r) == MarkDoneSpec(old(db.tasks), id, now)
  {
    var k := FindTask(db.tasks, id);
    if k.None? {
      return Err(404, "task not found");
    }
    var row := db.tasks[k.value];
    if !row.done {
      db.tasks := db.tasks[k.value := row.(done := true, completedAt := Some(now))];
    }
    return Ok(());
  }

  /** Marking a task done again changes nothing and still answers ok, whatever the clock says. */
  lemma MarkDoneIdempotent(tasks: seq<DriverTask>, id: string, now: int, later: int)
    ensures var (t1, r1) := MarkDoneSpec(tasks, id, now);
      MarkDoneSpec(t1, id, later) == (t1, r1)
  {
    var k := FindTask(tasks, id);
    if k.Some? && !tasks[k.value].done {
      var t1 := MarkDoneSpec(tasks, id, now).0;
      assert t1[k.value].id == id;
      forall i | 0 <= i < k.value ensures t1[i].id != id {
        assert t1[i] == tasks[i];
      }
      var k1 := FindTask(t1, id);
      assert k1.Some?;
      assert k1 == k;
    }
  }

  /** A marked task ends done, its completion time set only if it was pending; every other row is unchanged. */
  lemma MarkDoneEffect(tasks: seq<DriverTask>, id: string, now: int, k: nat)
    requires k < |tasks| && FindTask(tasks, id) == Some(k)
    ensures var (t1, r) := MarkDoneSpec(tasks, id, now);
      r == Ok(()) && |t1| == |tasks| && t1[k].done
      && t1[k].completedAt == (if tasks[k].done then tasks[k].completedAt else Some(now))
      && t1[k] == tasks[k].(done := true, completedAt := t1[k].completedAt)
      && forall i :: 0 <= i < |tasks| && i != k ==> t1[i] == tasks[i]
  {
  }

  // ----- seed -----

  /** The four tasks `POST /driver/dev/schedule/seed` adds for a driver and a skip code. */
  function SeedTasks(driver: string, qr: string, ids: seq<string>, now: int): (r: seq<DriverTask>)
    requires |ids| == 4
    ensures |r| == 4
    ensures forall i :: 0 <= i < 4 ==> r[i].id == ids[i] && r[i].driverName == driver && r[i].skipQr == Some(qr)
    ensures forall i :: 0 <= i < 4 ==> !r[i].done && r[i].completedAt.None? && r[i].scheduledAt == now
    ensures [r[0].taskType, r[1].taskType, r[2].taskType, r[3].taskType] == ["deliver-empty", "relocate-empty", "collect-full", "return-empty"]
    ensures r[2].grossKg == Some(2500.0) && r[2].tareKg == Some(1500.0) && r[2].destinationType == Some("RECYCLING")
  {
    var blank := DriverTask("", driver, "", Some(qr), None, None, None, None, None, now, false, None, now);
    [blank.(id := ids[0], taskType := "deliver-empty", toZoneId := Some("ZONE_A")),
     blank.(id := ids[1], taskType := "relocate-empty", toZoneId := Some("ZONE_B")),
     blank.(id := ids[2], taskType := "collect-full", destinationName := Some("ECO MRF"), destinationType := Some("RECYCLING"),
            grossKg := Some(2500.0), tareKg := Some(1500.0)),
     blank.(id := ids[3], taskType := "return-empty", toZoneId := Some("ZONE_C"))]
  }

  /** The query's `driver` when none is given. */
  const DefaultSeedDriver: string := "Alex"

  /** The query's `qr` when none is given. */
  const DefaultSeedQr: string := "QR123"

  /**
   * `seed_schedule`: the four tasks are appended and committed; the response counts them. A query
   * without `driver` or `qr` seeds tasks for "Alex" and the skip "QR123".
   */
  method SeedSchedule(db: TaskDb, driver: Option<string>, qr: Option<string>, ids: seq<string>, now: int) returns (created: nat)
    requires |ids| == 4
    modifies db
    ensures db.tasks == old(db.tasks) + SeedTasks(driver.GetOr(DefaultSeedDriver), qr.GetOr(DefaultSeedQr), ids, now)
    ensures driver.None? ==> forall i :: |old(db.tasks)| <= i < |db.tasks| ==> db.tasks[i].driverName == "Alex"
    ensures qr.None? ==> forall i :: |old(db.tasks)| <= i < |db.tasks| ==> db.tasks[i].skipQr == Some("QR123")
    ensures created == 4
  {
    var items := SeedTasks(driver.GetOr(DefaultSeedDriver), qr.GetOr(DefaultSeedQr), ids, now);
    db.tasks := db.tasks + items;
    return |items|;
  }

  lemma {:induction false} OfDriverConcat(a: seq<DriverTask>, b: seq<DriverTask>, driver: string)
    ensures OfDriver(a + b, driver) == OfDriver(a, driver) + OfDriver(b, driver)
  {
    if b == [] {
      assert a + b == a;
    } else {
      var front := b[..|b| - 1];
      assert b == front + [b[|b| - 1]];
      assert (a + b)[..|a + b| - 1] == a + front;
      assert (a + b)[|a + b| - 1] == b[|b| - 1];
      OfDriverConcat(a, front, driver);
    }
  }

  /**
   * For a driver with no earlier tasks, the seeded schedule lists exactly the four pending tasks
   * of the seed. The four share one `scheduled_at`, so their order in the list is left open.
   */
  lemma SeededScheduleListed(tasks: seq<DriverTask>, driver: string, qr: string, ids: seq<string>, now: int)
    requires |ids| == 4
    requires forall t :: t in tasks ==> t.driverName != driver
    ensures multiset(Kept(ScheduleQuery(tasks + SeedTasks(driver, qr, ids, now), driver), true)) == multiset(SeedTasks(driver, qr, ids, now))
  {
    BatchListed(tasks, SeedTasks(driver, qr, ids, now), driver);
  }

  /**
   * Pending tasks added for a driver who had none are listed exactly, in ascending `scheduled_at`;
   * when their times are distinct the listing is the batch in time order, whatever the order of ties.
   */
  lemma BatchListed(tasks: seq<DriverTask>, batch: seq<DriverTask>, driver: string)
    requires forall t :: t in tasks ==> t.driverName != driver
    requires forall i :: 0 <= i < |batch| ==> batch[i].driverName == driver && !batch[i].done
    ensures var r := Kept(ScheduleQuery(tasks + batch, driver), true);
      multiset(r) == multiset(batch) && InScheduleOrder(r)
      && ((forall i, j :: 0 <= i < j < |batch| ==> batch[i].scheduledAt < batch[j].scheduledAt) ==> r == batch)
  {
    var q := ScheduleQuery(tasks + batch, driver);
    BatchQuery(tasks, batch, driver);
    PendingKept(q, batch);
    if forall i, j :: 0 <= i < j < |batch| ==> batch[i].scheduledAt < batch[j].scheduledAt {
      assert SortedBy(batch, EarlierScheduled);
      SortBySorted(batch, EarlierScheduled);
    }
  }

  /** Only the batch belongs to the driver, so the query sorts the batch alone. */
  lemma BatchQuery(tasks: seq<DriverTask>, batch: seq<DriverTask>, driver: string)
    requires forall t :: t in tasks ==> t.driverName != driver
    requires forall i :: 0 <= i < |batch| ==> batch[i].driverName == driver
    ensures ScheduleQuery(tasks + batch, driver) == SortBy(batch, EarlierScheduled)
  {
    OfDriverConcat(tasks, batch, driver);
    OfDriverNone(tasks, driver);
    OfDriverAll(batch, driver);
    assert OfDriver(tasks + batch, driver) == [] + batch == batch;
  }

  /** A permutation of pending tasks loses nothing to the `only_pending` filter. */
  lemma PendingKept(q: seq<DriverTask>, batch: seq<DriverTask>)
    requires multiset(q) == multiset(batch)
    requires forall i :: 0 <= i < |batch| ==> !batch[i].done
    ensures Kept(q, true) == q
  {
    forall i | 0 <= i < |q| ensures !q[i].done {
      assert q[i] in multiset(q);
      assert q[i] in batch;
    }
    KeptNone(q);
  }

  lemma {:induction false} OfDriverNone(s: seq<DriverTask>, driver: string)
    requires forall t :: t in s ==> t.driverName != driver
    ensures OfDriver(s, driver) == []
  {
    if s != [] {
      assert s[|s| - 1] in s;
      assert forall t :: t in s[..|s| - 1] ==> t in s;
      OfDriverNone(s[..|s| - 1], driver);
    }
  }

  lemma {:induction false} OfDriverAll(s: seq<DriverTask>, driver: string)
    requires forall i :: 0 <= i < |s| ==> s[i].driverName == driver
    ensures OfDriver(s, driver) == s
  {
    if s != [] {
      OfDriverAll(s[..|s| - 1], driver);
      assert s == s[..|s| - 1] + [s[|s| - 1]];
    }
  }

  lemma {:induction false} KeptNone(s: seq<DriverTask>)
    requires forall i :: 0 <= i < |s| ==> !s[i].done
    ensures Kept(s, true) == s
  {
    if s != [] {
      KeptNone(s[..|s| - 1]);
      assert s == s[..|s| - 1] + [s[|s| - 1]];
    }
  }
}
