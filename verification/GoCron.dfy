/**
 The in-memory half of the native scheduler: jobs, the job store, the cron table, and the snapshot of last fire times.

 The database rows and admin are arguments; the cron library runs the registered jobs.
 */
module GoCron {
  import opened Wrappers
  import opened CatchUp
  import opened Naming
  import opened Executor

  /** A row of `schedulable_entities`. */
  datatype Row = Row(id: Identifier, schedule: Schedule, kickoffTimeInputArg: string, active: bool, updatedAt: Time)

  function ToEntity(row: Row): Entity {
    Entity(row.id, row.schedule.cronExpression, row.kickoffTimeInputArg, row.active)
  }

  predicate HasCronExpression(s: Schedule) { |s.cronExpression| > 0 }

  // ------------------------------------------------------------------------------------------------------------
  // Watermarks
  // ------------------------------------------------------------------------------------------------------------

  /** `lastTime` after a job ran for `t`. */
  function LaterOf(lastTime: Option<Time>, t: Time): Option<Time> {
    if lastTime.None? || lastTime.value < t then Some(t) else lastTime
  }

  /** Where catch-up of a bootstrapped schedule starts. */
  function CatchupFrom(updatedAt: Time, fromSnapshot: Option<Time>): Time {
    if fromSnapshot.Some? && fromSnapshot.value > updatedAt then fromSnapshot.value else updatedAt
  }

  /** The snapshot of a job store: the jobs that fired at least once, and when they last did. */
  function SnapshotOf(lastTimes: map<string, Option<Time>>): map<string, Time> {
    map n | n in lastTimes && lastTimes[n].Some? :: lastTimes[n].value
  }

  class SnapshotV1 {
    var lastTimes: map<string, Time>

    constructor Create()
      ensures lastTimes == map[]
    {
      lastTimes := map[];
    }

    function GetLastExecutionTime(key: string): Option<Time>
      reads this
    {
      if key in lastTimes then Some(lastTimes[key]) else None
    }

    method UpdateLastExecutionTime(key: string, lastExecTime: Time)
      modifies this
      ensures lastTimes == old(lastTimes)[key := lastExecTime]
    {
      lastTimes := lastTimes[key := lastExecTime];
    }

    predicate IsEmpty()
      reads this
    {
      lastTimes == map[]
    }
  }

  /** The snapshot table: every save adds a row, a read returns the last one. A snapshot that could not be serialised is
      saved all the same, as a row that cannot be decoded: `None`. */
  class Snapshoter {
    var rows: seq<Option<map<string, Time>>>

    constructor ()
      ensures rows == []
    {
      rows := [];
    }

    method Save(snapshot: SnapshotV1, encodeFails: bool, dbFails: bool)
      modifies this
      ensures rows == if snapshot.IsEmpty() || dbFails then old(rows)
                      else old(rows) + [if encodeFails then None else Some(snapshot.lastTimes)]
    {
      if !snapshot.IsEmpty() {
        var bytes: Option<map<string, Time>> := None;
        if !encodeFails {
          bytes := Some(snapshot.lastTimes);
        }
        if !dbFails {
          rows := rows + [bytes];
        }
      }
    }

    /** No row is no error; a row that cannot be read or decoded is. */
    method Read(dbFails: bool) returns (r: Option<SnapshotV1>)
      ensures r.None? <==> dbFails || !IsReadable(rows)
      ensures r.Some? ==> fresh(r.value) && r.value.lastTimes == LastSaved(rows)
    {
      var snapshot := new SnapshotV1.Create();
      if dbFails {
        return None;
      }
      if rows != [] {
        if rows[|rows| - 1].None? {
          return None;
        }
        snapshot.lastTimes := rows[|rows| - 1].value;
      }
      return Some(snapshot);
    }
  }

  predicate IsReadable(rows: seq<Option<map<string, Time>>>) { rows != [] ==> Last(rows).Some? }

  function LastSaved(rows: seq<Option<map<string, Time>>>): map<string, Time> {
    if rows == [] || Last(rows).None? then map[] else Last(rows).value
  }

  /** What was saved is what the next start reads, unless it was empty or could not be written; an empty snapshot is read
      only where no other was ever saved. The read fails where the snapshot could not be serialised, and not because
      nothing was saved. */
  method SaveThenRead(db: Snapshoter, snapshot: SnapshotV1, encodeFails: bool, saveFails: bool, readFails: bool)
    returns (r: Option<SnapshotV1>)
    modifies db
    ensures r.Some? && !saveFails && snapshot.lastTimes != map[] ==>
      forall key :: r.value.GetLastExecutionTime(key) == snapshot.GetLastExecutionTime(key)
    ensures r.Some? && (saveFails || snapshot.lastTimes == map[]) ==> r.value.lastTimes == LastSaved(old(db.rows))
    ensures r.None? <==>
      readFails || if saveFails || snapshot.lastTimes == map[] then !IsReadable(old(db.rows)) else encodeFails
  {
    db.Save(snapshot, encodeFails, saveFails);
    r := db.Read(readFails);
  }

  // ------------------------------------------------------------------------------------------------------------
  // Jobs
  // ------------------------------------------------------------------------------------------------------------

  class GoCronJob {
    const name: string
    const row: Row
    const catchupFrom: Option<Time>
    var lastTime: Option<Time>
    const entryId: nat

    constructor (name: string, row: Row, catchupFrom: Option<Time>, entryId: nat)
      ensures this.name == name && this.row == row && this.catchupFrom == catchupFrom
      ensures lastTime == None && this.entryId == entryId
    {
      this.name := name;
      this.row := row;
      this.catchupFrom := catchupFrom;
      lastTime := None;
      this.entryId := entryId;
    }

    /** The callback of the cron library. The watermark moves whether or not admin took the execution. */
    method Run(admin: Admin, hash: Hash, t: Time, faults: nat -> Fault, others: nat -> seq<Call>)
      modifies this`lastTime, admin
      ensures lastTime == LaterOf(old(lastTime), t)
      ensures row.active ==>
        admin.executions
        == Attempts(old(admin.executions), RequestKey(hash, row.id, t), RequestLaunch(ToEntity(row), t), faults, others, 0).0
      ensures !row.active ==> admin.executions == old(admin.executions)
    {
      var _ := Execute(admin, hash, ToEntity(row), t, faults, others);
      if lastTime.None? || lastTime.value < t {
        lastTime := Some(t);
      }
    }
  }

  datatype JobView = JobView(row: Row, catchupFrom: Option<Time>, lastTime: Option<Time>)

  function Registered(hash: Hash, lib: CronLibrary, jobs: map<string, JobView>, row: Row, from: Option<Time>): map<string, JobView> {
    var n := ScheduleName(hash, row.id);
    if n in jobs || !Supported(lib, row.schedule) then jobs else jobs[n := JobView(row, from, None)]
  }

  function Bootstrapped(
    hash: Hash, lib: CronLibrary, jobs: map<string, JobView>, rows: seq<Row>, snapshot: map<string, Time>): map<string, JobView>
    decreases |rows|
  {
    if rows == [] then jobs
    else Bootstrapped(hash, lib, BootstrappedRow(hash, lib, jobs, rows[0], snapshot), rows[1..], snapshot)
  }

  function BootstrappedRow(
    hash: Hash, lib: CronLibrary, jobs: map<string, JobView>, row: Row, snapshot: map<string, Time>): map<string, JobView>
  {
    if !row.active then jobs
    else
      var n := ScheduleName(hash, row.id);
      var fromSnapshot := if n in snapshot then Some(snapshot[n]) else None;
      Registered(hash, lib, jobs, row, Some(CatchupFrom(row.updatedAt, fromSnapshot)))
  }

  function UpdatedWith(hash: Hash, lib: CronLibrary, jobs: map<string, JobView>, rows: seq<Row>): map<string, JobView>
    decreases |rows|
  {
    if rows == [] then jobs
    else
      var row := rows[0];
      var jobs1 := if row.active then Registered(hash, lib, jobs, row, None) else jobs - {ScheduleName(hash, row.id)};
      UpdatedWith(hash, lib, jobs1, rows[1..])
  }

  /** A job knows its cron entry, and the entry its job, for cron expressions only: a fixed-rate job never records the
      id the library gave it. */
  ghost predicate TablesAgree(jobStore: map<string, GoCronJob>, cron: map<nat, GoCronJob>, lastEntry: nat) {
    && (forall e :: e in cron ==> 0 < e <= lastEntry)
    && (forall n :: n in jobStore ==>
          && jobStore[n].name == n
          && (HasCronExpression(jobStore[n].row.schedule) ==> jobStore[n].entryId in cron && cron[jobStore[n].entryId] == jobStore[n])
          && (!HasCronExpression(jobStore[n].row.schedule) ==> jobStore[n].entryId == 0))
    && (forall e :: e in cron && HasCronExpression(cron[e].row.schedule) ==>
          cron[e].entryId == e && cron[e].name in jobStore && jobStore[cron[e].name] == cron[e])
  }

  lemma TablesAgreeAfterAdd(jobStore: map<string, GoCronJob>, cron: map<nat, GoCronJob>, lastEntry: nat, job: GoCronJob)
    requires TablesAgree(jobStore, cron, lastEntry) && job.name !in jobStore
    requires job.entryId == if HasCronExpression(job.row.schedule) then lastEntry + 1 else 0
    ensures TablesAgree(jobStore[job.name := job], cron[lastEntry + 1 := job], lastEntry + 1)
  {
  }

  /** Where catch-up concerns a job, its list is finite. */
  ghost predicate CanCatchUp(lib: CronLibrary, jobs: map<string, JobView>, until: Time) {
    forall n :: n in jobs && jobs[n].row.active && jobs[n].catchupFrom.Some? && Supported(lib, jobs[n].row.schedule) ==>
      HasCatchUp(Next(lib, jobs[n].row.schedule), jobs[n].catchupFrom.value, until)
  }

  class GoCronScheduler {
    const hash: Hash
    const lib: CronLibrary
    var jobStore: map<string, GoCronJob>
    /** The cron table: the callbacks the library will run, by entry id. Ids start at 1. */
    var cron: map<nat, GoCronJob>
    var lastEntry: nat

    ghost predicate Valid()
      reads this
    {
      TablesAgree(jobStore, cron, lastEntry)
    }

    ghost function Jobs(): map<string, JobView>
      reads this, jobStore.Values
    {
      map n | n in jobStore :: JobView(jobStore[n].row, jobStore[n].catchupFrom, jobStore[n].lastTime)
    }

    constructor (hash: Hash, lib: CronLibrary)
      ensures Valid() && Jobs() == map[] && cron == map[] && jobStore == map[]
      ensures this.hash == hash && this.lib == lib
    {
      this.hash := hash;
      this.lib := lib;
      jobStore := map[];
      cron := map[];
      lastEntry := 0;
    }

    method ScheduleJob(row: Row, from: Option<Time>) returns (err: bool)
      requires Valid()
      modifies this
      ensures Valid()
      ensures Jobs() == Registered(hash, lib, old(Jobs()), row, from)
      ensures err <==> ScheduleName(hash, row.id) !in old(jobStore) && !Supported(lib, row.schedule)
      ensures forall n :: n in old(jobStore) ==> n in jobStore && jobStore[n] == old(jobStore[n])
      ensures forall n :: n in jobStore && n !in old(jobStore) ==> fresh(jobStore[n])
      ensures forall e :: e in cron && e !in old(cron) ==> fresh(cron[e])
      ensures forall e :: e in old(cron) ==> e in cron && cron[e] == old(cron[e])
    {
      var name := ScheduleName(hash, row.id);
      if name in jobStore {
        return false;
      }
      if !Supported(lib, row.schedule) {
        return true;
      }
      AddJob(name, row, from);
      return false;
    }

    /** Hands a new job to the cron library and stores it. Only `AddCronJob` keeps the entry id it is given. */
    method AddJob(name: string, row: Row, from: Option<Time>)
      requires Valid() && name !in jobStore
      modifies this
      ensures Valid()
      ensures jobStore.Keys == old(jobStore.Keys) + {name}
      ensures Jobs() == old(Jobs())[name := JobView(row, from, None)]
      ensures forall n :: n in old(jobStore) ==> jobStore[n] == old(jobStore[n])
      ensures fresh(jobStore[name])
      ensures cron == old(cron)[lastEntry := jobStore[name]] && lastEntry == old(lastEntry) + 1
    {
      hide TablesAgree, HasCronExpression;
      ghost var jobs := Jobs();
      lastEntry := lastEntry + 1;
      var job := new GoCronJob(name, row, from, if HasCronExpression(row.schedule) then lastEntry else 0);
      TablesAgreeAfterAdd(jobStore, cron, lastEntry - 1, job);
      cron := cron[lastEntry := job];
      jobStore := jobStore[name := job];
      assert Jobs() == jobs[name := JobView(row, from, None)];
    }

    /** Removal takes a cron job out of the cron table too. A fixed-rate job stays there and keeps running. */
    method DeScheduleJob(row: Row)
      requires Valid()
      modifies this
      ensures Valid()
      ensures jobStore == old(jobStore) - {ScheduleName(hash, row.id)}
      ensures Jobs() == old(Jobs()) - {ScheduleName(hash, row.id)}
      ensures var n := ScheduleName(hash, row.id);
              cron == if n in old(jobStore) && HasCronExpression(old(jobStore)[n].row.schedule)
                      then old(cron) - {old(jobStore)[n].entryId} else old(cron)
    {
      var name := ScheduleName(hash, row.id);
      if name !in jobStore {
        assert jobStore == jobStore - {name};
        return;
      }
      var job := jobStore[name];
      cron := cron - {job.entryId};
      jobStore := jobStore - {name};
      assert job.entryId == 0 ==> cron == old(cron);
    }

    method BootStrapSchedulesFromSnapShot(rows: seq<Row>, snapshot: SnapshotV1)
      requires Valid()
      modifies this
      ensures Valid()
      ensures Jobs() == Bootstrapped(hash, lib, old(Jobs()), rows, snapshot.lastTimes)
      ensures forall n :: n in jobStore && n !in old(jobStore) ==> fresh(jobStore[n])
    {
      ghost var times := snapshot.lastTimes;
      var i := 0;
      while i < |rows|
        invariant 0 <= i <= |rows|
        invariant Valid()
        invariant snapshot.lastTimes == times
        invariant forall n :: n in jobStore && n !in old(jobStore) ==> fresh(jobStore[n])
        invariant Bootstrapped(hash, lib, Jobs(), rows[i..], times) == Bootstrapped(hash, lib, old(Jobs()), rows, times)
      {
        var row := rows[i];
        assert rows[i..][0] == row && rows[i..][1..] == rows[i + 1..];
        if row.active {
          var fromSnapshot := snapshot.GetLastExecutionTime(ScheduleName(hash, row.id));
          var lastExecTime := row.updatedAt;
          if fromSnapshot.Some? && fromSnapshot.value > row.updatedAt {
            lastExecTime := fromSnapshot.value;
          }
          var _ := ScheduleJob(row, Some(lastExecTime));
        }
        i := i + 1;
      }
    }

    method UpdateSchedules(rows: seq<Row>)
      requires Valid()
      modifies this
      ensures Valid()
      ensures Jobs() == UpdatedWith(hash, lib, old(Jobs()), rows)
    {
      var i := 0;
      while i < |rows|
        invariant 0 <= i <= |rows|
        invariant Valid()
        invariant UpdatedWith(hash, lib, Jobs(), rows[i..]) == UpdatedWith(hash, lib, old(Jobs()), rows)
      {
        var row := rows[i];
        assert rows[i..][0] == row && rows[i..][1..] == rows[i + 1..];
        if !row.active {
          DeScheduleJob(row);
        } else {
          var _ := ScheduleJob(row, None);
        }
        i := i + 1;
      }
    }

    method CalculateSnapshot() returns (snapshot: SnapshotV1)
      ensures fresh(snapshot)
      ensures HoldsWatermarks(snapshot.lastTimes, Jobs())
    {
      ghost var jobs := Jobs();
      snapshot := new SnapshotV1.Create();
      var left := jobStore.Keys;
      while left != {}
        invariant fresh(snapshot)
        invariant left <= jobStore.Keys
        invariant HoldsWatermarks(snapshot.lastTimes, map n | n in jobs && n !in left :: jobs[n])
      {
        var n :| n in left;
        assert n in jobs && jobs[n].lastTime == jobStore[n].lastTime;
        if jobStore[n].lastTime.Some? {
          snapshot.UpdateLastExecutionTime(n, jobStore[n].lastTime.value);
        }
        left := left - {n};
      }
      assert jobs == map n | n in jobs && n !in left :: jobs[n];
    }

    /** Catch-up of every bootstrapped job, in whatever order the store is walked; the first failure ends it. It fails
        only when a call fails thirty times or a schedule has no times. */
    method CatchupAll(admin: Admin, until: Time, reachable: bool)
      returns (ok: bool)
      requires CanCatchUp(lib, Jobs(), until)
      modifies admin
      ensures Keeps(old(admin.executions), admin.executions)
      ensures ok ==> AllCaughtUp(admin.executions, hash, lib, Jobs(), until)
      ensures reachable && AllSupported(lib, Jobs()) ==> ok
    {
      ghost var jobs := Jobs();
      var left := jobStore.Keys;
      assert (map n | n in jobs && n !in left :: jobs[n]) == map[];
      while left != {}
        invariant left <= jobStore.Keys
        invariant Keeps(old(admin.executions), admin.executions)
        invariant AllCaughtUp(admin.executions, hash, lib, map n | n in jobs && n !in left :: jobs[n], until)
      {
        var n :| n in left;
        var job := jobStore[n];
        assert n in jobs && jobs[n].row == job.row && jobs[n].catchupFrom == job.catchupFrom;
        if job.row.active && job.catchupFrom.Some? {
          ghost var before := admin.executions;
          var done := CatchUpSingleSchedule(admin, hash, lib, job.row, job.catchupFrom.value, until, reachable);
          if !done {
            return false;
          }
          AllCaughtUpIsKept(before, admin.executions, hash, lib, map m | m in jobs && m !in left :: jobs[m], until);
        }
        left := left - {n};
      }
      assert jobs == map n | n in jobs && n !in left :: jobs[n];
      return true;
    }
  }

  /** The times are those the jobs were last run for. */
  ghost predicate HoldsWatermarks(times: map<string, Time>, jobs: map<string, JobView>) {
    && (forall n :: n in times <==> n in jobs && jobs[n].lastTime.Some?)
    && (forall n :: n in times ==> jobs[n].lastTime == Some(times[n]))
  }

  ghost predicate AllSupported(lib: CronLibrary, jobs: map<string, JobView>) {
    forall n :: n in jobs ==> Supported(lib, jobs[n].row.schedule)
  }

  /** Every catch-up time of the schedule has an execution in admin. */
  ghost predicate CaughtUp(execs: Executions, hash: Hash, lib: CronLibrary, row: Row, from: Time, until: Time) {
    from < until ==>
      && Supported(lib, row.schedule)
      && forall times :: IsCatchUp(Next(lib, row.schedule), from, until, times) ==>
           forall t :: t in times ==> RequestKey(hash, row.id, t) in execs
  }

  lemma CaughtUpIsKept(before: Executions, after: Executions, hash: Hash, lib: CronLibrary, row: Row, from: Time, until: Time)
    requires CaughtUp(before, hash, lib, row, from, until) && Keeps(before, after)
    ensures CaughtUp(after, hash, lib, row, from, until)
  {
  }

  lemma CaughtUpByList(execs: Executions, hash: Hash, lib: CronLibrary, row: Row, from: Time, until: Time, times: seq<Time>)
    requires from < until ==> Supported(lib, row.schedule) && IsCatchUp(Next(lib, row.schedule), from, until, times)
    requires AllFired(execs, hash, row.id, times)
    ensures CaughtUp(execs, hash, lib, row, from, until)
  {
    if from < until {
      forall other | IsCatchUp(Next(lib, row.schedule), from, until, other)
        ensures forall t :: t in other ==> RequestKey(hash, row.id, t) in execs
      {
        CatchUpIsUnique(Next(lib, row.schedule), from, until, times, other);
      }
    }
  }

  /** One `Execute` of an active schedule. What befalls its attempts, and what other clients do meanwhile, is left open;
      where admin is reachable, one of the attempts gets through. */
  method FireOnce(admin: Admin, hash: Hash, row: Row, t: Time, reachable: bool) returns (ok: bool)
    requires row.active
    modifies admin
    ensures Keeps(old(admin.executions), admin.executions)
    ensures ok ==> RequestKey(hash, row.id, t) in admin.executions
    ensures reachable ==> ok
  {
    var faults := AnyFaults(reachable);
    var others: nat -> seq<Call> := *;
    ok := Execute(admin, hash, ToEntity(row), t, faults, others);
    ExecuteNilMeansStored(old(admin.executions), RequestKey(hash, row.id, t), RequestLaunch(ToEntity(row), t), faults, others, 0);
    ThirtyAttempts(old(admin.executions), RequestKey(hash, row.id, t), RequestLaunch(ToEntity(row), t), faults, others);
  }

  method AnyFaults(reachable: bool) returns (faults: nat -> Fault)
    ensures reachable ==> exists j :: 0 <= j < 30 && faults(j).NoFault?
  {
    faults := *;
    if reachable {
      var rest, through: nat := faults, *;
      through := through % 30;
      faults := (i: nat) => if i == through then NoFault else rest(i);
      assert faults(through).NoFault?;
    }
  }

  ghost predicate AllFired(execs: Executions, hash: Hash, id: Identifier, times: seq<Time>) {
    forall j :: 0 <= j < |times| ==> RequestKey(hash, id, times[j]) in execs
  }

  lemma AllFiredStep(before: Executions, after: Executions, hash: Hash, id: Identifier, times: seq<Time>, t: Time)
    requires AllFired(before, hash, id, times) && Keeps(before, after) && RequestKey(hash, id, t) in after
    ensures AllFired(after, hash, id, times + [t])
  {
  }

  method FireAll(
    admin: Admin, hash: Hash, row: Row, times: seq<Time>, reachable: bool)
    returns (ok: bool)
    requires row.active
    modifies admin
    ensures Keeps(old(admin.executions), admin.executions)
    ensures ok ==> AllFired(admin.executions, hash, row.id, times)
    ensures reachable ==> ok
  {
    hide RequestKey;
    var i := 0;
    while i < |times|
      invariant 0 <= i <= |times|
      invariant Keeps(old(admin.executions), admin.executions)
      invariant AllFired(admin.executions, hash, row.id, times[..i])
    {
      ghost var before := admin.executions;
      var done := FireOnce(admin, hash, row, times[i], reachable);
      if !done {
        return false;
      }
      AllFiredStep(before, admin.executions, hash, row.id, times[..i], times[i]);
      assert times[..i] + [times[i]] == times[..i + 1];
      i := i + 1;
    }
    assert times[..i] == times;
    return true;
  }

  method CatchUpSingleSchedule(
    admin: Admin, hash: Hash, lib: CronLibrary, row: Row, from: Time, until: Time, reachable: bool)
    returns (ok: bool)
    requires row.active
    requires from < until && Supported(lib, row.schedule) ==> HasCatchUp(Next(lib, row.schedule), from, until)
    modifies admin
    ensures Keeps(old(admin.executions), admin.executions)
    ensures ok ==> CaughtUp(admin.executions, hash, lib, row, from, until)
    ensures reachable && (from < until ==> Supported(lib, row.schedule)) ==> ok
  {
    var r := GetCatchUpTimes(lib, row.schedule, from, until);
    if r.Err? {
      return false;
    }
    ok := FireAll(admin, hash, row, r.value, reachable);
    if ok {
      CaughtUpByList(admin.executions, hash, lib, row, from, until, r.value);
    }
  }

  /** Every job that catch-up concerns is caught up. */
  ghost predicate AllCaughtUp(execs: Executions, hash: Hash, lib: CronLibrary, jobs: map<string, JobView>, until: Time) {
    forall n :: n in jobs && jobs[n].row.active && jobs[n].catchupFrom.Some? ==>
      CaughtUp(execs, hash, lib, jobs[n].row, jobs[n].catchupFrom.value, until)
  }

  lemma AllCaughtUpIsKept(before: Executions, after: Executions, hash: Hash, lib: CronLibrary, jobs: map<string, JobView>, until: Time)
    requires AllCaughtUp(before, hash, lib, jobs, until) && Keeps(before, after)
    ensures AllCaughtUp(after, hash, lib, jobs, until)
  {
  }

  // ------------------------------------------------------------------------------------------------------------
  // One scheduler process
  // ------------------------------------------------------------------------------------------------------------

  /** Cron runs a job for a time. */
  datatype Fire = Fire(name: string, time: Time)

  function RanFor(jobs: map<string, JobView>, fire: Fire): map<string, JobView> {
    if fire.name in jobs then jobs[fire.name := jobs[fire.name].(lastTime := LaterOf(jobs[fire.name].lastTime, fire.time))] else jobs
  }

  /** The jobs after cron ran some of them, one after another. */
  function AfterFires(jobs: map<string, JobView>, fires: seq<Fire>): map<string, JobView> {
    if fires == [] then jobs else RanFor(AfterFires(jobs, fires[..|fires| - 1]), fires[|fires| - 1])
  }

  /** The same jobs, apart from what they have been run for. */
  ghost predicate Same(jobs: map<string, JobView>, jobs1: map<string, JobView>) {
    jobs.Keys == jobs1.Keys && forall n :: n in jobs ==> jobs1[n].row == jobs[n].row && jobs1[n].catchupFrom == jobs[n].catchupFrom
  }

  lemma {:induction false} FiresKeepJobs(jobs: map<string, JobView>, fires: seq<Fire>)
    ensures Same(jobs, AfterFires(jobs, fires))
  {
    if fires != [] {
      FiresKeepJobs(jobs, fires[..|fires| - 1]);
    }
  }

  /** A watermark is the latest time its job was run for. */
  lemma {:induction false} WatermarkIsLatest(jobs: map<string, JobView>, fires: seq<Fire>, n: string)
    requires n in jobs && jobs[n].lastTime == None
    ensures n in AfterFires(jobs, fires)
    ensures var mark := AfterFires(jobs, fires)[n].lastTime;
            && (mark.None? <==> forall fire :: fire in fires ==> fire.name != n)
            && (mark.Some? ==> Fire(n, mark.value) in fires && forall fire :: fire in fires && fire.name == n ==> fire.time <= mark.value)
  {
    if fires != [] {
      var front, last := fires[..|fires| - 1], fires[|fires| - 1];
      assert fires == front + [last];
      WatermarkIsLatest(jobs, front, n);
    }
  }

  function Flatten(rounds: seq<seq<Fire>>): seq<Fire> {
    if rounds == [] then [] else Flatten(rounds[..|rounds| - 1]) + rounds[|rounds| - 1]
  }

  lemma {:induction false} AfterMoreFires(jobs: map<string, JobView>, a: seq<Fire>, b: seq<Fire>)
    ensures AfterFires(jobs, a + b) == AfterFires(AfterFires(jobs, a), b)
  {
    if b == [] {
      assert a + b == a;
    } else {
      assert (a + b)[..|a + b| - 1] == a + b[..|b| - 1];
      AfterMoreFires(jobs, a, b[..|b| - 1]);
    }
  }

  /** The times are the latest of these fires, for exactly the names that are among them. */
  ghost predicate HoldsLatest(names: set<string>, fires: seq<Fire>, times: map<string, Time>) {
    && (forall n :: n in times <==> n in names && exists fire :: fire in fires && fire.name == n)
    && (forall n :: n in times ==>
          Fire(n, times[n]) in fires && forall fire :: fire in fires && fire.name == n ==> fire.time <= times[n])
  }

  /** A snapshot holds the latest fires of the jobs when the early ones and some of the rounds are over. */
  ghost predicate IsSnapshotAfter(names: set<string>, early: seq<Fire>, rounds: seq<seq<Fire>>, times: map<string, Time>) {
    exists i :: 0 <= i <= |rounds| && HoldsLatest(names, early + Flatten(rounds[..i]), times)
  }

  /** Some job is among the fires. */
  ghost predicate SomeJobRan(names: set<string>, fires: seq<Fire>) { exists fire :: fire in fires && fire.name in names }

  /** The row saved last is complete: it has the latest fire of every job. */
  ghost predicate LastIsComplete(names: set<string>, fires: seq<Fire>, rows: seq<Option<map<string, Time>>>) {
    rows != [] && Last(rows).Some? && HoldsLatest(names, fires, Last(rows).value)
  }

  ghost predicate NoneHasRun(jobs: map<string, JobView>) { forall n :: n in jobs ==> jobs[n].lastTime == None }

  /** The watermarks of jobs that had not run before these fires are the latest of the fires. */
  lemma WatermarksAreLatestFires(jobs: map<string, JobView>, fires: seq<Fire>, times: map<string, Time>)
    requires NoneHasRun(jobs) && HoldsWatermarks(times, AfterFires(jobs, fires))
    ensures HoldsLatest(jobs.Keys, fires, times)
  {
    hide AfterFires;
    FiresKeepJobs(jobs, fires);
    forall n | n in jobs
      ensures n in times <==> exists fire :: fire in fires && fire.name == n
      ensures n in times ==>
        Fire(n, times[n]) in fires && forall fire :: fire in fires && fire.name == n ==> fire.time <= times[n]
    {
      WatermarkIsLatest(jobs, fires, n);
    }
  }

  /** The life of one scheduler process: snapshot, bootstrap, catch-up, and only after a complete catch-up the snapshot
      writer. Cron runs jobs before catch-up is done, `early`, and in rounds between snapshots. Where admin is reachable,
      one of the attempts of every call gets through; where the database is writable, every snapshot is saved. */
  method RunScheduledExecutor(
    hash: Hash, lib: CronLibrary, rows: seq<Row>, db: Snapshoter, readFails: bool, admin: Admin, until: Time,
    early: seq<Fire>, rounds: seq<seq<Fire>>, reachable: bool, writable: bool)
    returns (ok: bool)
    requires CanCatchUp(lib, Bootstrapped(hash, lib, map[], rows, LastSaved(db.rows)), until)
    modifies db, admin
    ensures Keeps(old(admin.executions), admin.executions)
    ensures readFails || !IsReadable(old(db.rows)) ==> !ok && admin.executions == old(admin.executions)
    ensures reachable && !readFails && IsReadable(old(db.rows)) ==> ok
    ensures !ok ==> db.rows == old(db.rows)
    ensures old(db.rows) <= db.rows
    ensures ok ==>
      var jobs := Bootstrapped(hash, lib, map[], rows, LastSaved(old(db.rows)));
      && AllCaughtUp(admin.executions, hash, lib, jobs, until)
      && (reachable ==> AllRan(admin.executions, hash, jobs, early + Flatten(rounds)))
      && (writable && rounds != [] && SomeJobRan(jobs.Keys, early + Flatten(rounds)) ==>
            LastIsComplete(jobs.Keys, early + Flatten(rounds), db.rows))
      && forall i :: |old(db.rows)| <= i < |db.rows| && db.rows[i].Some? ==>
           IsSnapshotAfter(jobs.Keys, early, rounds, db.rows[i].value)
  {
    hide *;
    KeepsItself(admin.executions);
    var snapshot := db.Read(readFails);
    if snapshot.None? {
      return false;
    }
    var scheduler := new GoCronScheduler(hash, lib);
    scheduler.BootStrapSchedulesFromSnapShot(rows, snapshot.value);
    BootedJobsAreFresh(hash, lib, rows, LastSaved(db.rows));
    ok := CatchUpThenWatch(scheduler, db, admin, until, early, rounds, reachable, writable);
  }

  /** What a process does once its schedules are registered. */
  method CatchUpThenWatch(
    scheduler: GoCronScheduler, db: Snapshoter, admin: Admin, until: Time, early: seq<Fire>, rounds: seq<seq<Fire>>,
    reachable: bool, writable: bool)
    returns (ok: bool)
    requires scheduler.Valid() && CanCatchUp(scheduler.lib, scheduler.Jobs(), until) && NoneHasRun(scheduler.Jobs())
    modifies db, admin, scheduler.jobStore.Values
    ensures Keeps(old(admin.executions), admin.executions)
    ensures reachable && AllSupported(scheduler.lib, old(scheduler.Jobs())) ==> ok
    ensures !ok ==> db.rows == old(db.rows)
    ensures old(db.rows) <= db.rows
    ensures ok ==>
      && AllCaughtUp(admin.executions, scheduler.hash, scheduler.lib, old(scheduler.Jobs()), until)
      && (reachable ==> AllRan(admin.executions, scheduler.hash, old(scheduler.Jobs()), early + Flatten(rounds)))
      && (writable && rounds != [] && SomeJobRan(old(scheduler.Jobs()).Keys, early + Flatten(rounds)) ==>
            LastIsComplete(old(scheduler.Jobs()).Keys, early + Flatten(rounds), db.rows))
      && forall i :: |old(db.rows)| <= i < |db.rows| && db.rows[i].Some? ==>
           IsSnapshotAfter(old(scheduler.Jobs()).Keys, early, rounds, db.rows[i].value)
  {
    hide Keeps, CanCatchUp, AllCaughtUp, AllRan, AllSupported, IsSnapshotAfter, LastIsComplete, NoneHasRun;
    hide SomeJobRan, AfterFires, Same, TablesAgree;
    ghost var hash, lib, jobs := scheduler.hash, scheduler.lib, scheduler.Jobs();
    LiveRuns(scheduler, admin, early, reachable);
    ghost var jobs1, ran := scheduler.Jobs(), admin.executions;
    FiresKeepJobs(jobs, early);
    SameCanCatchUp(lib, jobs, jobs1, until);
    ok := scheduler.CatchupAll(admin, until, reachable);
    KeepsAgain(old(admin.executions), ran, admin.executions);
    if !ok {
      return;
    }
    ghost var caught := admin.executions;
    if reachable {
      AllRanStays(ran, caught, hash, jobs, early);
    }
    SnapshotLoop(scheduler, db, admin, jobs, early, rounds, until, reachable, writable);
    KeepsAgain(old(admin.executions), caught, admin.executions);
    AllCaughtUpIsKept(caught, admin.executions, hash, lib, jobs1, until);
    SameCaughtUp(admin.executions, hash, lib, jobs, jobs1, until);
  }

  lemma KeepsItself(execs: Executions)
    ensures Keeps(execs, execs)
  {
  }

  lemma KeepsAgain(a: Executions, b: Executions, c: Executions)
    requires Keeps(a, b) && Keeps(b, c)
    ensures Keeps(a, c)
  {
  }

  lemma SameCanCatchUp(lib: CronLibrary, jobs: map<string, JobView>, jobs1: map<string, JobView>, until: Time)
    requires Same(jobs, jobs1) && CanCatchUp(lib, jobs, until)
    ensures CanCatchUp(lib, jobs1, until) && (AllSupported(lib, jobs) ==> AllSupported(lib, jobs1))
  {
    hide HasCatchUp, Supported, Next;
  }

  lemma SameCaughtUp(execs: Executions, hash: Hash, lib: CronLibrary, jobs: map<string, JobView>, jobs1: map<string, JobView>, until: Time)
    requires Same(jobs, jobs1) && AllCaughtUp(execs, hash, lib, jobs1, until)
    ensures AllCaughtUp(execs, hash, lib, jobs, until)
  {
    hide CaughtUp;
  }

  /** Every fire of an active job has its execution in admin. */
  ghost predicate AllRan(execs: Executions, hash: Hash, jobs: map<string, JobView>, fires: seq<Fire>) {
    forall fire :: fire in fires && fire.name in jobs && jobs[fire.name].row.active ==>
      RequestKey(hash, jobs[fire.name].row.id, fire.time) in execs
  }

  lemma AllRanAndMore(
    before: Executions, after: Executions, hash: Hash, jobs: map<string, JobView>, jobs1: map<string, JobView>,
    a: seq<Fire>, b: seq<Fire>)
    requires AllRan(before, hash, jobs, a) && Keeps(before, after) && Same(jobs, jobs1) && AllRan(after, hash, jobs1, b)
    ensures AllRan(after, hash, jobs, a + b)
  {
    hide RequestKey;
  }

  lemma AllRanStays(before: Executions, after: Executions, hash: Hash, jobs: map<string, JobView>, fires: seq<Fire>)
    requires AllRan(before, hash, jobs, fires) && Keeps(before, after)
    ensures AllRan(after, hash, jobs, fires)
  {
  }

  /** Cron runs one job. */
  method LiveRunOf(scheduler: GoCronScheduler, admin: Admin, fire: Fire, reachable: bool)
    requires scheduler.Valid()
    modifies admin, scheduler.jobStore.Values
    ensures scheduler.Valid() && Keeps(old(admin.executions), admin.executions)
    ensures scheduler.Jobs() == RanFor(old(scheduler.Jobs()), fire)
    ensures reachable ==> AllRan(admin.executions, scheduler.hash, old(scheduler.Jobs()), [fire])
  {
    hide Keeps, RequestKey;
    KeepsItself(admin.executions);
    if fire.name in scheduler.jobStore {
      var job := scheduler.jobStore[fire.name];
      assert forall n :: n in scheduler.jobStore && n != fire.name ==> scheduler.jobStore[n].name != job.name;
      LiveRun(job, admin, scheduler.hash, fire.time, reachable);
    }
  }

  method LiveRuns(scheduler: GoCronScheduler, admin: Admin, fires: seq<Fire>, reachable: bool)
    requires scheduler.Valid()
    modifies admin, scheduler.jobStore.Values
    ensures scheduler.Valid() && Keeps(old(admin.executions), admin.executions)
    ensures scheduler.Jobs() == AfterFires(old(scheduler.Jobs()), fires)
    ensures reachable ==> AllRan(admin.executions, scheduler.hash, old(scheduler.Jobs()), fires)
  {
    hide Keeps, RanFor, TablesAgree, AllRan, Same;
    KeepsItself(admin.executions);
    ghost var jobs := scheduler.Jobs();
    assert fires[..0] == [];
    assert AllRan(admin.executions, scheduler.hash, jobs, []) by { NothingRan(admin.executions, scheduler.hash, jobs); }
    for i := 0 to |fires|
      invariant scheduler.Valid() && Keeps(old(admin.executions), admin.executions)
      invariant scheduler.Jobs() == AfterFires(jobs, fires[..i])
      invariant reachable ==> AllRan(admin.executions, scheduler.hash, jobs, fires[..i])
    {
      ghost var before, jobs1 := admin.executions, scheduler.Jobs();
      FiresKeepJobs(jobs, fires[..i]);
      LiveRunOf(scheduler, admin, fires[i], reachable);
      KeepsAgain(old(admin.executions), before, admin.executions);
      assert fires[..i + 1][..i] == fires[..i] && fires[..i + 1] == fires[..i] + [fires[i]];
      if reachable {
        AllRanAndMore(before, admin.executions, scheduler.hash, jobs, jobs1, fires[..i], [fires[i]]);
      }
    }
    assert fires[..|fires|] == fires;
  }

  lemma NothingRan(execs: Executions, hash: Hash, jobs: map<string, JobView>)
    ensures AllRan(execs, hash, jobs, [])
  {
  }

  /** A snapshot is taken and saved; where the database is writable it is saved as it is. */
  method TakeSnapshot(scheduler: GoCronScheduler, db: Snapshoter, writable: bool)
    modifies db
    ensures db.rows == old(db.rows) || (|db.rows| == |old(db.rows)| + 1 && old(db.rows) <= db.rows)
    ensures db.rows != old(db.rows) && Last(db.rows).Some? ==> HoldsWatermarks(Last(db.rows).value, scheduler.Jobs())
    ensures writable && (exists k :: k in scheduler.Jobs() && scheduler.Jobs()[k].lastTime.Some?) ==>
      db.rows != old(db.rows) && Last(db.rows).Some?
  {
    hide HoldsWatermarks;
    ghost var jobs := scheduler.Jobs();
    var snapshot := scheduler.CalculateSnapshot();
    var encodeFails, dbFails: bool := *, *;
    db.Save(snapshot, !writable && encodeFails, !writable && dbFails);
    assert scheduler.Jobs() == jobs;
    if k :| k in jobs && jobs[k].lastTime.Some? {
      SomeWatermark(snapshot.lastTimes, jobs, k);
    }
  }

  /** Cron runs some jobs, then a snapshot is taken and saved: catch-up is complete by then. */
  method SnapshotRound(
    scheduler: GoCronScheduler, db: Snapshoter, admin: Admin, fires: seq<Fire>, ghost until: Time, reachable: bool, writable: bool)
    requires scheduler.Valid() && AllCaughtUp(admin.executions, scheduler.hash, scheduler.lib, scheduler.Jobs(), until)
    modifies db, admin, scheduler.jobStore.Values
    ensures scheduler.Valid() && Keeps(old(admin.executions), admin.executions)
    ensures AllCaughtUp(admin.executions, scheduler.hash, scheduler.lib, scheduler.Jobs(), until)
    ensures scheduler.Jobs() == AfterFires(old(scheduler.Jobs()), fires)
    ensures reachable ==> AllRan(admin.executions, scheduler.hash, old(scheduler.Jobs()), fires)
    ensures db.rows == old(db.rows) || (|db.rows| == |old(db.rows)| + 1 && old(db.rows) <= db.rows)
    ensures db.rows != old(db.rows) && Last(db.rows).Some? ==> HoldsWatermarks(Last(db.rows).value, scheduler.Jobs())
    ensures writable && (exists k :: k in scheduler.Jobs() && scheduler.Jobs()[k].lastTime.Some?) ==>
      db.rows != old(db.rows) && Last(db.rows).Some?
  {
    hide Keeps, AllCaughtUp, AllRan, AfterFires, Same, TablesAgree, HoldsWatermarks;
    ghost var jobs := scheduler.Jobs();
    LiveRuns(scheduler, admin, fires, reachable);
    ghost var jobs1 := scheduler.Jobs();
    FiresKeepJobs(jobs, fires);
    AllCaughtUpIsKept(old(admin.executions), admin.executions, scheduler.hash, scheduler.lib, jobs, until);
    SameIsSymmetric(jobs, jobs1);
    SameCaughtUp(admin.executions, scheduler.hash, scheduler.lib, jobs1, jobs, until);
    TakeSnapshot(scheduler, db, writable);
    assert scheduler.Jobs() == jobs1;
  }

  lemma SomeWatermark(times: map<string, Time>, jobs: map<string, JobView>, n: string)
    requires HoldsWatermarks(times, jobs) && n in jobs && jobs[n].lastTime.Some?
    ensures times != map[]
  {
  }

  lemma SameIsSymmetric(jobs: map<string, JobView>, jobs1: map<string, JobView>)
    requires Same(jobs, jobs1)
    ensures Same(jobs1, jobs)
  {
  }

  lemma OneMoreRound(jobs: map<string, JobView>, early: seq<Fire>, rounds: seq<seq<Fire>>, i: nat)
    requires i < |rounds|
    ensures early + Flatten(rounds[..i + 1]) == (early + Flatten(rounds[..i])) + rounds[i]
    ensures AfterFires(jobs, early + Flatten(rounds[..i + 1])) == AfterFires(AfterFires(jobs, early + Flatten(rounds[..i])), rounds[i])
  {
    hide AfterFires;
    assert rounds[..i + 1][..i] == rounds[..i];
    assert early + Flatten(rounds[..i + 1]) == (early + Flatten(rounds[..i])) + rounds[i];
    AfterMoreFires(jobs, early + Flatten(rounds[..i]), rounds[i]);
  }

  lemma JobThatRan(jobs: map<string, JobView>, fires: seq<Fire>)
    requires NoneHasRun(jobs) && SomeJobRan(jobs.Keys, fires)
    ensures exists k :: k in AfterFires(jobs, fires) && AfterFires(jobs, fires)[k].lastTime.Some?
  {
    var fire :| fire in fires && fire.name in jobs.Keys;
    WatermarkIsLatest(jobs, fires, fire.name);
  }

  /** `jobs` are the jobs as they were registered. */
  method SnapshotLoop(
    scheduler: GoCronScheduler, db: Snapshoter, admin: Admin, ghost jobs: map<string, JobView>, ghost early: seq<Fire>,
    rounds: seq<seq<Fire>>, ghost until: Time, reachable: bool, writable: bool)
    requires scheduler.Valid() && AllCaughtUp(admin.executions, scheduler.hash, scheduler.lib, scheduler.Jobs(), until)
    requires reachable ==> AllRan(admin.executions, scheduler.hash, jobs, early)
    requires NoneHasRun(jobs) && scheduler.Jobs() == AfterFires(jobs, early)
    modifies db, admin, scheduler.jobStore.Values
    ensures Keeps(old(admin.executions), admin.executions)
    ensures reachable ==> AllRan(admin.executions, scheduler.hash, jobs, early + Flatten(rounds))
    ensures writable && rounds != [] && SomeJobRan(jobs.Keys, early + Flatten(rounds)) ==>
      LastIsComplete(jobs.Keys, early + Flatten(rounds), db.rows)
    ensures old(db.rows) <= db.rows
    ensures forall i :: |old(db.rows)| <= i < |db.rows| && db.rows[i].Some? ==>
      IsSnapshotAfter(jobs.Keys, early, rounds, db.rows[i].value)
  {
    hide Keeps, AllCaughtUp, AllRan, AfterFires, Same, TablesAgree, HoldsWatermarks, HoldsLatest, NoneHasRun, SomeJobRan;
    KeepsItself(admin.executions);
    assert rounds[..0] == [] && early + Flatten([]) == early;
    for i := 0 to |rounds|
      invariant scheduler.Valid() && Keeps(old(admin.executions), admin.executions)
      invariant AllCaughtUp(admin.executions, scheduler.hash, scheduler.lib, scheduler.Jobs(), until)
      invariant old(db.rows) <= db.rows
      invariant scheduler.Jobs() == AfterFires(jobs, early + Flatten(rounds[..i]))
      invariant reachable ==> AllRan(admin.executions, scheduler.hash, jobs, early + Flatten(rounds[..i]))
      invariant forall j :: |old(db.rows)| <= j < |db.rows| && db.rows[j].Some? ==>
        IsSnapshotAfter(jobs.Keys, early, rounds, db.rows[j].value)
      invariant writable && i > 0 && SomeJobRan(jobs.Keys, early + Flatten(rounds[..i])) ==>
        LastIsComplete(jobs.Keys, early + Flatten(rounds[..i]), db.rows)
    {
      ghost var before, rows, jobs1 := admin.executions, db.rows, scheduler.Jobs();
      SnapshotRound(scheduler, db, admin, rounds[i], until, reachable, writable);
      KeepsAgain(old(admin.executions), before, admin.executions);
      OneMoreRound(jobs, early, rounds, i);
      if reachable {
        FiresKeepJobs(jobs, early + Flatten(rounds[..i]));
        AllRanAndMore(before, admin.executions, scheduler.hash, jobs, jobs1, early + Flatten(rounds[..i]), rounds[i]);
      }
      if SomeJobRan(jobs.Keys, early + Flatten(rounds[..i + 1])) {
        JobThatRan(jobs, early + Flatten(rounds[..i + 1]));
      }
      if db.rows != rows && Last(db.rows).Some? {
        WatermarksAreLatestFires(jobs, early + Flatten(rounds[..i + 1]), Last(db.rows).value);
        assert IsSnapshotAfter(jobs.Keys, early, rounds, Last(db.rows).value);
      }
    }
    assert rounds[..|rounds|] == rounds;
  }

  method LiveRun(job: GoCronJob, admin: Admin, hash: Hash, t: Time, reachable: bool)
    modifies job`lastTime, admin
    ensures Keeps(old(admin.executions), admin.executions)
    ensures job.lastTime == LaterOf(old(job.lastTime), t)
    ensures reachable && job.row.active ==> RequestKey(hash, job.row.id, t) in admin.executions
  {
    var faults := AnyFaults(reachable);
    var others: nat -> seq<Call> := *;
    ThirtyAttempts(admin.executions, RequestKey(hash, job.row.id, t), RequestLaunch(ToEntity(job.row), t), faults, others);
    ExecuteNilMeansStored(admin.executions, RequestKey(hash, job.row.id, t), RequestLaunch(ToEntity(job.row), t), faults, others, 0);
    job.Run(admin, hash, t, faults, others);
  }

  // ------------------------------------------------------------------------------------------------------------
  // What bootstrap and the updater leave in the store
  // ------------------------------------------------------------------------------------------------------------

  /** A row that starts a job of this name. */
  ghost predicate Starts(hash: Hash, lib: CronLibrary, rows: seq<Row>, i: int, n: string) {
    0 <= i < |rows| && rows[i].active && Supported(lib, rows[i].schedule) && ScheduleName(hash, rows[i].id) == n
  }

  ghost predicate StartsFirst(hash: Hash, lib: CronLibrary, rows: seq<Row>, i: int, n: string) {
    Starts(hash, lib, rows, i, n) && forall j :: 0 <= j < i ==> !Starts(hash, lib, rows, j, n)
  }

  lemma {:induction false} BootstrappedKeeps(
    hash: Hash, lib: CronLibrary, jobs: map<string, JobView>, rows: seq<Row>, snapshot: map<string, Time>, n: string)
    requires n in jobs
    ensures n in Bootstrapped(hash, lib, jobs, rows, snapshot) && Bootstrapped(hash, lib, jobs, rows, snapshot)[n] == jobs[n]
    decreases |rows|
  {
    if rows != [] {
      BootstrappedKeeps(hash, lib, BootstrappedRow(hash, lib, jobs, rows[0], snapshot), rows[1..], snapshot, n);
    }
  }

  lemma StartsInRest(hash: Hash, lib: CronLibrary, rows: seq<Row>, n: string)
    requires rows != []
    ensures forall i :: Starts(hash, lib, rows[1..], i, n) <==> i >= 0 && Starts(hash, lib, rows, i + 1, n)
    ensures !Starts(hash, lib, rows, 0, n) ==>
      forall i :: i > 0 && StartsFirst(hash, lib, rows, i, n) ==> StartsFirst(hash, lib, rows[1..], i - 1, n)
    ensures (exists i :: Starts(hash, lib, rows, i, n)) <==>
      Starts(hash, lib, rows, 0, n) || exists i :: Starts(hash, lib, rows[1..], i, n)
  {
    hide Supported, ScheduleName;
    assert forall i :: 0 <= i < |rows| - 1 ==> rows[1..][i] == rows[i + 1];
    if i :| i > 0 && Starts(hash, lib, rows, i, n) {
      assert Starts(hash, lib, rows[1..], i - 1, n);
    }
  }

  /** A fresh scheduler ends up with exactly the active, well-formed schedules, and each of them catches up from the later
      of its own update time and its snapshot time. Of schedules that share a name the first is there. */
  lemma {:induction false} BootstrapIsExact(
    hash: Hash, lib: CronLibrary, jobs: map<string, JobView>, rows: seq<Row>, snapshot: map<string, Time>, n: string)
    requires n !in jobs
    ensures var booted := Bootstrapped(hash, lib, jobs, rows, snapshot);
            && (n in booted <==> exists i :: Starts(hash, lib, rows, i, n))
            && (forall i :: StartsFirst(hash, lib, rows, i, n) ==>
                  && n in booted && booted[n].row == rows[i] && booted[n].lastTime == None && booted[n].catchupFrom.Some?
                  && booted[n].catchupFrom.value >= rows[i].updatedAt
                  && (n in snapshot ==> booted[n].catchupFrom.value >= snapshot[n])
                  && booted[n].catchupFrom.value in {rows[i].updatedAt} + (if n in snapshot then {snapshot[n]} else {}))
    decreases |rows|
  {
    if rows != [] {
      StartsInRest(hash, lib, rows, n);
      hide Supported, ScheduleName;
      var jobs1 := BootstrappedRow(hash, lib, jobs, rows[0], snapshot);
      if Starts(hash, lib, rows, 0, n) {
        BootstrappedKeeps(hash, lib, jobs1, rows[1..], snapshot, n);
      } else {
        BootstrapIsExact(hash, lib, jobs1, rows[1..], snapshot, n);
      }
    }
  }

  /** A bootstrapped job has not run, and its schedule has times. */
  lemma BootedJobsAreFresh(hash: Hash, lib: CronLibrary, rows: seq<Row>, snapshot: map<string, Time>)
    ensures var jobs := Bootstrapped(hash, lib, map[], rows, snapshot); NoneHasRun(jobs) && AllSupported(lib, jobs)
  {
    BootstrapKeepsFresh(hash, lib, map[], rows, snapshot);
  }

  lemma {:induction false} BootstrapKeepsFresh(
    hash: Hash, lib: CronLibrary, jobs: map<string, JobView>, rows: seq<Row>, snapshot: map<string, Time>)
    requires NoneHasRun(jobs) && AllSupported(lib, jobs)
    ensures var booted := Bootstrapped(hash, lib, jobs, rows, snapshot); NoneHasRun(booted) && AllSupported(lib, booted)
    decreases |rows|
  {
    if rows != [] {
      hide Supported, ScheduleName;
      BootstrapKeepsFresh(hash, lib, BootstrappedRow(hash, lib, jobs, rows[0], snapshot), rows[1..], snapshot);
    }
  }

  /** A successful start of a process leaves in admin every firing point of each active cron schedule after the later of
      its update time and its snapshot time, up to `until`. The firing points are the library's own. */
  lemma CaughtUpMeansAllPoints(
    execs: Executions, hash: Hash, lib: CronLibrary, rows: seq<Row>, snapshot: map<string, Time>, until: Time, i: nat,
    next: Time -> Time, p: Time)
    requires AllCaughtUp(execs, hash, lib, Bootstrapped(hash, lib, map[], rows, snapshot), until)
    requires i < |rows| && StartsFirst(hash, lib, rows, i, ScheduleName(hash, rows[i].id))
    requires rows[i].schedule.cronExpression != "" && forall t :: next(t) == lib.next(rows[i].schedule.cronExpression, t)
    requires NextIsLeast(next) && IsFiringPoint(next, p) && rows[i].updatedAt < p <= until
    requires ScheduleName(hash, rows[i].id) in snapshot ==> snapshot[ScheduleName(hash, rows[i].id)] < p
    ensures RequestKey(hash, rows[i].id, p) in execs
  {
    var n := ScheduleName(hash, rows[i].id);
    BootstrapIsExact(hash, lib, map[], rows, snapshot, n);
    var job := Bootstrapped(hash, lib, map[], rows, snapshot)[n];
    var from := job.catchupFrom.value;
    assert CaughtUp(execs, hash, lib, job.row, from, until);
    AdvancingHasCatchUp(next, from, until);
    var times :| IsCatchUp(next, from, until, times);
    CatchUpIsExact(next, from, until, times, p);
    CronFollowsLibrary(lib, rows[i].schedule, next, from, until, times);
  }

  /** What a fire of a row stores under a free name that nobody else asks for: the launch of that row at that time, with
      the time under the row's kickoff argument where it has a cron expression. */
  lemma FireStoresLaunch(
    execs: Executions, hash: Hash, row: Row, t: Time, faults: nat -> Fault, others: nat -> seq<Call>)
    requires var key := RequestKey(hash, row.id, t); key !in execs && forall j, c :: c in others(j) ==> c.key != key
    requires Attempts(execs, RequestKey(hash, row.id, t), RequestLaunch(ToEntity(row), t), faults, others, 0).1
    ensures var key := RequestKey(hash, row.id, t);
            var execs' := Attempts(execs, key, RequestLaunch(ToEntity(row), t), faults, others, 0).0;
            && key in execs' && execs'[key].Scheduled? && execs'[key].id == row.id && execs'[key].scheduledAt == t
            && (row.schedule.cronExpression != "" ==> execs'[key].inputs == map[row.kickoffTimeInputArg := t])
            && (row.schedule.cronExpression == "" ==> execs'[key].inputs == map[])
  {
    LaunchCarriesFireTime(execs, RequestKey(hash, row.id, t), ToEntity(row), t, faults, others, 0);
  }

  /** The first row, from `l` on, that starts a job of this name. */
  ghost predicate StartsFirstFrom(hash: Hash, lib: CronLibrary, rows: seq<Row>, l: int, i: int, n: string) {
    l <= i && Starts(hash, lib, rows, i, n) && forall j :: l <= j < i ==> !Starts(hash, lib, rows, j, n)
  }

  /** No row from `l` on stops a job of this name. */
  ghost predicate NoneStops(hash: Hash, rows: seq<Row>, l: int, n: string) {
    forall j :: l <= j < |rows| && 0 <= j && ScheduleName(hash, rows[j].id) == n ==> rows[j].active
  }

  lemma {:induction false} UpdateWithoutStops(hash: Hash, lib: CronLibrary, jobs: map<string, JobView>, rows: seq<Row>, n: string)
    requires NoneStops(hash, rows, 0, n)
    ensures var after := UpdatedWith(hash, lib, jobs, rows);
            if n in jobs then n in after && after[n] == jobs[n]
            else
              && (n in after <==> exists i :: Starts(hash, lib, rows, i, n))
              && forall i :: StartsFirst(hash, lib, rows, i, n) ==> n in after && after[n] == JobView(rows[i], None, None)
    decreases |rows|
  {
    if rows != [] {
      StartsInRest(hash, lib, rows, n);
      hide Supported, ScheduleName;
      assert forall j :: 0 <= j < |rows| - 1 ==> rows[1..][j] == rows[j + 1];
      var row := rows[0];
      var jobs1 := if row.active then Registered(hash, lib, jobs, row, None) else jobs - {ScheduleName(hash, row.id)};
      UpdateWithoutStops(hash, lib, jobs1, rows[1..], n);
    }
  }

  lemma {:induction false} UpdateInTwo(hash: Hash, lib: CronLibrary, jobs: map<string, JobView>, a: seq<Row>, b: seq<Row>)
    ensures UpdatedWith(hash, lib, jobs, a + b) == UpdatedWith(hash, lib, UpdatedWith(hash, lib, jobs, a), b)
    decreases |a|
  {
    if a == [] {
      assert a + b == b;
    } else {
      assert (a + b)[0] == a[0] && (a + b)[1..] == a[1..] + b;
      var row := a[0];
      var jobs1 := if row.active then Registered(hash, lib, jobs, row, None) else jobs - {ScheduleName(hash, row.id)};
      UpdateInTwo(hash, lib, jobs1, a[1..], b);
    }
  }

  /** A round of the updater, for the jobs of one name: where no row is inactive the running job stays as it is, or else
      the first well-formed row starts one, without any catch-up. Where some row is inactive, only the rows after the last
      such row count, and the job that ran is gone. */
  lemma UpdateIsExact(hash: Hash, lib: CronLibrary, jobs: map<string, JobView>, rows: seq<Row>, n: string, l: nat)
    requires l <= |rows| && NoneStops(hash, rows, l, n)
    requires l > 0 ==> !rows[l - 1].active && ScheduleName(hash, rows[l - 1].id) == n
    ensures var after := UpdatedWith(hash, lib, jobs, rows);
            if l == 0 && n in jobs then n in after && after[n] == jobs[n]
            else
              && (n in after <==> exists i :: l <= i && Starts(hash, lib, rows, i, n))
              && forall i :: StartsFirstFrom(hash, lib, rows, l, i, n) ==> n in after && after[n] == JobView(rows[i], None, None)
  {
    hide UpdatedWith, Starts, NoneStops;
    assert rows == rows[..l] + rows[l..];
    UpdateInTwo(hash, lib, jobs, rows[..l], rows[l..]);
    var jobs1 := UpdatedWith(hash, lib, jobs, rows[..l]);
    if l == 0 {
      UpdateWithNothing(hash, lib, jobs);
      assert rows[..l] == [];
    } else {
      UpdateDropsLast(hash, lib, jobs, rows[..l], n);
    }
    StartsInSuffix(hash, lib, rows, l, n);
    UpdateWithoutStops(hash, lib, jobs1, rows[l..], n);
    forall i | StartsFirstFrom(hash, lib, rows, l, i, n) ensures StartsFirst(hash, lib, rows[l..], i - l, n) {
    }
  }

  lemma UpdateWithNothing(hash: Hash, lib: CronLibrary, jobs: map<string, JobView>)
    ensures UpdatedWith(hash, lib, jobs, []) == jobs
  {
  }

  lemma UpdateDropsLast(hash: Hash, lib: CronLibrary, jobs: map<string, JobView>, rows: seq<Row>, n: string)
    requires rows != [] && !rows[|rows| - 1].active && ScheduleName(hash, rows[|rows| - 1].id) == n
    ensures n !in UpdatedWith(hash, lib, jobs, rows)
  {
    hide ScheduleName;
    var front, last := rows[..|rows| - 1], rows[|rows| - 1];
    assert rows == front + [last];
    UpdateInTwo(hash, lib, jobs, front, [last]);
    assert [last][1..] == [];
  }

  lemma StartsInSuffix(hash: Hash, lib: CronLibrary, rows: seq<Row>, l: nat, n: string)
    requires l <= |rows|
    ensures forall i {:trigger Starts(hash, lib, rows[l..], i, n)} ::
      Starts(hash, lib, rows[l..], i, n) <==> i >= 0 && Starts(hash, lib, rows, l + i, n)
    ensures (exists i :: Starts(hash, lib, rows[l..], i, n)) <==> exists i :: l <= i && Starts(hash, lib, rows, i, n)
    ensures NoneStops(hash, rows, l, n) ==> NoneStops(hash, rows[l..], 0, n)
  {
    hide Supported, ScheduleName;
    var b := rows[l..];
    assert forall j :: 0 <= j < |b| ==> b[j] == rows[l + j];
    if i :| l <= i && Starts(hash, lib, rows, i, n) {
      assert Starts(hash, lib, b, i - l, n);
    }
    if i :| Starts(hash, lib, b, i, n) {
      assert Starts(hash, lib, rows, l + i, n);
    }
  }
}
