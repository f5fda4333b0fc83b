/**
 The native scheduler as a crash-and-restart protocol, for cron expressions.

 Any number of scheduler processes share the schedule table, the stored snapshot and admin. A process boots from the
 snapshot, catches up to the time it came back, and only then writes snapshots; meanwhile cron fires its jobs and an
 updater adds and removes them. A process may crash between any two steps.

 A schedule is known by the name it has in the job store; `Naming.ScheduleNameCollides` says when that is sound. An
 execution is known by its schedule and its firing point; `Executor` shows that admin keeps at most one for each.
 `next(k, t)` is the least firing point of schedule `k` after `t`. The clock is common to the processes and the
 database, and cron hands over every firing point that falls due, in order.
 */
module SchedulerProtocol {
  import opened Wrappers
  import CatchUp
  import GoCron

  type Key = string
  type Pid = nat

  datatype Point = Point(key: Key, time: Time)

  datatype ScheduleRow = ScheduleRow(active: bool, updatedAt: Time)

  /** A job of a running process. `caught` is how far catch-up has come, `fired` the last point cron handed over,
      `pending` the live calls that have not returned. `base` is where the record of this schedule begins: no step
      reads it. */
  datatype Job = Job(
    base: Time, catchupFrom: Option<Time>, caught: Time, registeredAt: Time, fired: Time, pending: set<Time>, lastTime: Option<Time>)

  datatype Proc = Proc(jobs: map<Key, Job>, until: Option<Time>, caughtUp: bool)

  /** An entry of the stored snapshot, with the base of the job it was taken from. */
  datatype Mark = Mark(time: Time, base: Time)

  /** `unacked` are the points that cron handed over while admin did not hold them and for which no call has returned
      success since, `late` the schedules that, since they were last changed, an updater registered when a firing point
      had already passed: no step reads them. */
  datatype State = State(
    clock: Time, rows: map<Key, ScheduleRow>, admin: set<Point>, stored: map<Key, Mark>, procs: map<Pid, Proc>,
    unacked: set<Point>, late: set<Key>)

  datatype Step =
    | Tick(now: Time)
    | Activate(key: Key)
    | Deactivate(key: Key)
    | Boot(pid: Pid)
    | TakeUntil(pid: Pid)
    | CatchUpFire(pid: Pid, key: Key)
    | CatchUpDone(pid: Pid)
    | LiveFire(pid: Pid, key: Key)
    | LiveReturn(pid: Pid, key: Key, time: Time, ok: bool)
    | DetachedReturn(point: Point)
    | Update(pid: Pid, key: Key)
    | WriteSnapshot(pid: Pid)
    | Crash(pid: Pid)
    | OthersCreate(points: set<Point>)

  type Cron = (Key, Time) -> Time

  function Init(now: Time): State { State(now, map[], {}, map[], map[], {}, {}) }

  function SnapshotTime(s: State, k: Key): Option<Time> { if k in s.stored then Some(s.stored[k].time) else None }

  function BootedJob(s: State, k: Key): Job
    requires k in s.rows
  {
    var updatedAt := s.rows[k].updatedAt;
    var from := GoCron.CatchupFrom(updatedAt, SnapshotTime(s, k));
    Job(if from > updatedAt then s.stored[k].base else updatedAt, Some(from), from, s.clock, s.clock, {}, None)
  }

  /** A firing point of the schedule has passed since its last change. */
  predicate HasFired(next: Cron, s: State, k: Key)
    requires k in s.rows
  {
    next(k, s.rows[k].updatedAt) <= s.clock
  }

  function AddedJob(next: Cron, s: State, k: Key): Job
    requires k in s.rows
  {
    Job(if HasFired(next, s, k) then s.clock else s.rows[k].updatedAt, None, s.clock, s.clock, s.clock, {}, None)
  }

  function WithJob(s: State, pid: Pid, k: Key, j: Job): State
    requires pid in s.procs
  {
    s.(procs := s.procs[pid := s.procs[pid].(jobs := s.procs[pid].jobs[k := j])])
  }

  predicate Enabled(next: Cron, s: State, step: Step) {
    match step
    case Tick(now) => s.clock <= now
    case Activate(k) => true
    case Deactivate(k) => k in s.rows
    case Boot(pid) => pid !in s.procs
    case TakeUntil(pid) => pid in s.procs && s.procs[pid].until.None?
    case CatchUpFire(pid, k) =>
      && pid in s.procs && k in s.procs[pid].jobs
      && s.procs[pid].until.Some? && s.procs[pid].jobs[k].catchupFrom.Some?
      && s.procs[pid].jobs[k].caught < s.procs[pid].until.value
    case CatchUpDone(pid) =>
      && pid in s.procs && s.procs[pid].until.Some?
      && forall k :: k in s.procs[pid].jobs && s.procs[pid].jobs[k].catchupFrom.Some? ==>
           s.procs[pid].until.value <= s.procs[pid].jobs[k].caught
    case LiveFire(pid, k) =>
      pid in s.procs && k in s.procs[pid].jobs && next(k, s.procs[pid].jobs[k].fired) <= s.clock
    case LiveReturn(pid, k, t, ok) => pid in s.procs && k in s.procs[pid].jobs && t in s.procs[pid].jobs[k].pending
    case DetachedReturn(pt) => pt in s.unacked
    case Update(pid, k) => pid in s.procs && k in s.rows
    case WriteSnapshot(pid) => pid in s.procs && s.procs[pid].caughtUp
    case Crash(pid) => pid in s.procs
    case OthersCreate(points) => true
  }

  /** One step; a step that is not enabled changes nothing, so that every sequence of steps is a run. */
  function Apply(next: Cron, s: State, step: Step): State {
    if !Enabled(next, s, step) then s else
    match step
    case Tick(now) => s.(clock := now)
    case Activate(k) => s.(rows := s.rows[k := ScheduleRow(true, s.clock)], late := s.late - {k})
    case Deactivate(k) => s.(rows := s.rows[k := ScheduleRow(false, s.clock)], late := s.late - {k})
    case Boot(pid) =>
      var jobs := map k | k in s.rows && s.rows[k].active :: BootedJob(s, k);
      s.(procs := s.procs[pid := Proc(jobs, None, false)])
    case TakeUntil(pid) => s.(procs := s.procs[pid := s.procs[pid].(until := Some(s.clock))])
    case CatchUpFire(pid, k) =>
      var j := s.procs[pid].jobs[k];
      var t := next(k, j.caught);
      WithJob(s, pid, k, j.(caught := t)).(admin := s.admin + {Point(k, t)})
    case CatchUpDone(pid) => s.(procs := s.procs[pid := s.procs[pid].(caughtUp := true)])
    case LiveFire(pid, k) =>
      var j := s.procs[pid].jobs[k];
      var t := next(k, j.fired);
      WithJob(s, pid, k, j.(fired := t, pending := j.pending + {t})).(
        unacked := s.unacked + (if Point(k, t) in s.admin then {} else {Point(k, t)}))
    case LiveReturn(pid, k, t, ok) =>
      var j := s.procs[pid].jobs[k];
      var s1 := WithJob(s, pid, k, j.(pending := j.pending - {t}, lastTime := GoCron.LaterOf(j.lastTime, t)));
      if ok then s1.(admin := s.admin + {Point(k, t)}, unacked := s.unacked - {Point(k, t)}) else s1
    case DetachedReturn(pt) => s.(admin := s.admin + {pt}, unacked := s.unacked - {pt})
    case Update(pid, k) =>
      var jobs := s.procs[pid].jobs;
      if !s.rows[k].active then s.(procs := s.procs[pid := s.procs[pid].(jobs := jobs - {k})])
      else if k in jobs then s
      else WithJob(s, pid, k, AddedJob(next, s, k)).(late := if HasFired(next, s, k) then s.late + {k} else s.late)
    case WriteSnapshot(pid) =>
      var jobs := s.procs[pid].jobs;
      var times := GoCron.SnapshotOf(map k | k in jobs :: jobs[k].lastTime);
      if times == map[] then s
      else s.(stored := map k | k in times :: Mark(times[k], jobs[k].base))
    case Crash(pid) => s.(procs := s.procs - {pid})
    case OthersCreate(points) => s.(admin := s.admin + points)
  }

  function Run(next: Cron, s: State, steps: seq<Step>): State
    decreases |steps|
  {
    if steps == [] then s else Run(next, Apply(next, s, steps[0]), steps[1..])
  }

  // ------------------------------------------------------------------------------------------------------------
  // Firing points and what covers them
  // ------------------------------------------------------------------------------------------------------------

  ghost predicate IsCron(next: Cron) {
    && (forall k, t {:trigger next(k, t)} :: next(k, t) > t)
    && (forall k, t, u {:trigger next(k, t), next(k, u)} :: t < next(k, u) ==> next(k, t) <= next(k, u))
  }

  ghost predicate Fires(next: Cron, k: Key, p: Time) { exists t :: next(k, t) == p }

  /** Every firing point of `k` in `(a, b]` is among the given points. */
  ghost predicate Covered(next: Cron, points: set<Point>, k: Key, a: Time, b: Time) {
    forall p :: Fires(next, k, p) && a < p <= b ==> Point(k, p) in points
  }

  lemma CoveredStep(next: Cron, points: set<Point>, k: Key, a: Time, b: Time)
    requires IsCron(next) && Covered(next, points, k, a, b) && Point(k, next(k, b)) in points
    ensures Covered(next, points, k, a, next(k, b))
  {
  }

  /** Nothing fires between a point and the next. */
  lemma NothingBetween(next: Cron, k: Key, a: Time, p: Time)
    requires IsCron(next) && Fires(next, k, p) && a < p
    ensures next(k, a) <= p
  {
  }

  // ------------------------------------------------------------------------------------------------------------
  // The invariant
  // ------------------------------------------------------------------------------------------------------------

  function Accounted(s: State): set<Point> { s.admin + s.unacked }

  ghost predicate JobOk(next: Cron, s: State, proc: Proc, k: Key, j: Job) {
    && k in s.rows
    && j.base <= j.registeredAt <= j.fired <= s.clock
    && Covered(next, Accounted(s), k, j.registeredAt, j.fired)
    && (forall t :: t in j.pending ==> j.registeredAt < t <= j.fired)
    && (j.lastTime.Some? ==> j.registeredAt < j.lastTime.value <= j.fired)
    && (j.catchupFrom.None? ==> Covered(next, Accounted(s), k, j.base, j.registeredAt))
    && (j.catchupFrom.Some? ==>
          && j.catchupFrom.value <= j.caught
          && Covered(next, Accounted(s), k, j.base, j.catchupFrom.value)
          && Covered(next, s.admin, k, j.catchupFrom.value, j.caught)
          && (proc.until.Some? ==> j.registeredAt <= proc.until.value)
          && (proc.caughtUp ==> proc.until.Some? && proc.until.value <= j.caught))
    && (k !in s.late ==> j.base <= s.rows[k].updatedAt)
  }

  ghost predicate StoredOk(next: Cron, s: State, k: Key)
    requires k in s.stored
  {
    && k in s.rows
    && s.stored[k].base <= s.stored[k].time <= s.clock
    && Covered(next, Accounted(s), k, s.stored[k].base, s.stored[k].time)
    && (k !in s.late ==> s.stored[k].base <= s.rows[k].updatedAt)
  }

  ghost predicate Inv(next: Cron, s: State) {
    && (forall k :: k in s.rows ==> s.rows[k].updatedAt <= s.clock)
    && (forall k :: k in s.late ==> k in s.rows && HasFired(next, s, k))
    && (forall k :: k in s.stored ==> StoredOk(next, s, k))
    && (forall pid, k :: pid in s.procs && k in s.procs[pid].jobs ==> JobOk(next, s, s.procs[pid], k, s.procs[pid].jobs[k]))
  }

  /** What every step does to the shared state: nothing recorded is ever lost. */
  ghost predicate Grows(s: State, s': State) {
    && s.clock <= s'.clock
    && s.admin <= s'.admin
    && Accounted(s) <= Accounted(s')
    && (forall k :: k in s.rows ==> k in s'.rows && s.rows[k].updatedAt <= s'.rows[k].updatedAt)
    && (forall k :: k in s.late && k in s.rows ==> k in s'.late || s.clock <= s'.rows[k].updatedAt)
  }

  lemma ApplyGrows(next: Cron, s: State, step: Step)
    requires forall k :: k in s.rows ==> s.rows[k].updatedAt <= s.clock
    ensures Grows(s, Apply(next, s, step))
  {
  }

  lemma JobOkIsKept(next: Cron, s: State, s': State, proc: Proc, k: Key, j: Job)
    requires JobOk(next, s, proc, k, j) && Grows(s, s')
    ensures JobOk(next, s', proc, k, j)
  {
  }

  lemma StoredOkIsKept(next: Cron, s: State, s': State, k: Key)
    requires k in s.stored && StoredOk(next, s, k) && Grows(s, s')
    requires k in s'.stored && s'.stored[k] == s.stored[k]
    ensures StoredOk(next, s', k)
  {
  }

  /** The invariant survives a step that grows the shared state and leaves at most one process not yet accounted for. */
  lemma InvByFrame(next: Cron, s: State, s': State, pid: Pid)
    requires Inv(next, s) && Grows(s, s')
    requires s'.stored == s.stored
    requires forall k :: k in s'.rows ==> s'.rows[k].updatedAt <= s'.clock
    requires forall k :: k in s'.late ==> k in s'.rows && HasFired(next, s', k)
    requires forall q :: q in s'.procs && q != pid ==> q in s.procs && s'.procs[q] == s.procs[q]
    requires pid in s'.procs ==>
      forall k :: k in s'.procs[pid].jobs ==> JobOk(next, s', s'.procs[pid], k, s'.procs[pid].jobs[k])
    ensures Inv(next, s')
  {
    hide JobOk, StoredOk, Grows, Accounted, HasFired;
    forall k | k in s'.stored ensures StoredOk(next, s', k) {
      StoredOkIsKept(next, s, s', k);
    }
    forall q, k | q in s'.procs && k in s'.procs[q].jobs ensures JobOk(next, s', s'.procs[q], k, s'.procs[q].jobs[k]) {
      if q != pid {
        JobOkIsKept(next, s, s', s.procs[q], k, s.procs[q].jobs[k]);
      }
    }
  }

  /** The same when one job of one process changed. */
  lemma InvByJob(next: Cron, s: State, s': State, pid: Pid, k: Key)
    requires Inv(next, s) && Grows(s, s')
    requires pid in s.procs && s'.procs.Keys == s.procs.Keys
    requires s'.stored == s.stored && s'.rows == s.rows && s'.late == s.late
    requires forall q :: q in s'.procs && q != pid ==> s'.procs[q] == s.procs[q]
    requires (s'.procs[pid].until, s'.procs[pid].caughtUp) == (s.procs[pid].until, s.procs[pid].caughtUp)
    requires k in s'.procs[pid].jobs && s'.procs[pid].jobs == s.procs[pid].jobs[k := s'.procs[pid].jobs[k]]
    requires JobOk(next, s', s'.procs[pid], k, s'.procs[pid].jobs[k])
    ensures Inv(next, s')
  {
    assert forall i :: i in s'.rows ==> s'.rows[i].updatedAt <= s'.clock by {
      hide JobOk, StoredOk, Accounted;
    }
    assert forall i :: i in s'.late ==> i in s'.rows && HasFired(next, s', i) by {
      hide JobOk, StoredOk, Accounted;
    }
    hide StoredOk, Accounted, HasFired;
    forall i | i in s'.procs[pid].jobs ensures JobOk(next, s', s'.procs[pid], i, s'.procs[pid].jobs[i]) {
      if i != k {
        JobOkIsKept(next, s, s', s.procs[pid], i, s.procs[pid].jobs[i]);
      }
    }
    hide JobOk, Grows;
    InvByFrame(next, s, s', pid);
  }

  lemma BootKeepsInv(next: Cron, s: State, pid: Pid)
    requires Inv(next, s) && Enabled(next, s, Boot(pid))
    ensures Inv(next, Apply(next, s, Boot(pid)))
  {
    var s' := Apply(next, s, Boot(pid));
    ApplyGrows(next, s, Boot(pid));
    forall k | k in s'.procs[pid].jobs ensures JobOk(next, s', s'.procs[pid], k, s'.procs[pid].jobs[k]) {
      assert k in s.stored ==> StoredOk(next, s, k);
    }
    InvByFrame(next, s, s', pid);
  }

  lemma TakeUntilKeepsInv(next: Cron, s: State, pid: Pid)
    requires Inv(next, s) && Enabled(next, s, TakeUntil(pid))
    ensures Inv(next, Apply(next, s, TakeUntil(pid)))
  {
  }

  lemma CatchUpFireKeepsInv(next: Cron, s: State, pid: Pid, k: Key)
    requires IsCron(next) && Inv(next, s) && Enabled(next, s, CatchUpFire(pid, k))
    ensures Inv(next, Apply(next, s, CatchUpFire(pid, k)))
  {
    var s' := Apply(next, s, CatchUpFire(pid, k));
    ApplyGrows(next, s, CatchUpFire(pid, k));
    var j, j' := s.procs[pid].jobs[k], s'.procs[pid].jobs[k];
    JobOkIsKept(next, s, s', s.procs[pid], k, j);
    CoveredStep(next, s'.admin, k, j.catchupFrom.value, j.caught);
    assert JobOk(next, s', s'.procs[pid], k, j');
    InvByJob(next, s, s', pid, k);
  }

  lemma CatchUpDoneKeepsInv(next: Cron, s: State, pid: Pid)
    requires Inv(next, s) && Enabled(next, s, CatchUpDone(pid))
    ensures Inv(next, Apply(next, s, CatchUpDone(pid)))
  {
  }

  lemma LiveFireKeepsInv(next: Cron, s: State, pid: Pid, k: Key)
    requires IsCron(next) && Inv(next, s) && Enabled(next, s, LiveFire(pid, k))
    ensures Inv(next, Apply(next, s, LiveFire(pid, k)))
  {
    var s' := Apply(next, s, LiveFire(pid, k));
    ApplyGrows(next, s, LiveFire(pid, k));
    var j, j' := s.procs[pid].jobs[k], s'.procs[pid].jobs[k];
    JobOkIsKept(next, s, s', s.procs[pid], k, j);
    CoveredStep(next, Accounted(s'), k, j.registeredAt, j.fired);
    assert JobOk(next, s', s'.procs[pid], k, j');
    InvByJob(next, s, s', pid, k);
  }

  lemma LiveReturnKeepsInv(next: Cron, s: State, pid: Pid, k: Key, t: Time, ok: bool)
    requires Inv(next, s) && Enabled(next, s, LiveReturn(pid, k, t, ok))
    ensures Inv(next, Apply(next, s, LiveReturn(pid, k, t, ok)))
  {
    var s' := Apply(next, s, LiveReturn(pid, k, t, ok));
    ApplyGrows(next, s, LiveReturn(pid, k, t, ok));
    var j, j' := s.procs[pid].jobs[k], s'.procs[pid].jobs[k];
    JobOkIsKept(next, s, s', s.procs[pid], k, j);
    assert JobOk(next, s', s'.procs[pid], k, j');
    InvByJob(next, s, s', pid, k);
  }

  /** Where no firing point has passed since the schedule's last change, there is nothing to cover. */
  lemma NothingPassed(next: Cron, s: State, points: set<Point>, k: Key)
    requires IsCron(next) && k in s.rows && !HasFired(next, s, k)
    ensures Covered(next, points, k, s.rows[k].updatedAt, s.clock)
  {
    forall p | Fires(next, k, p) && s.rows[k].updatedAt < p ensures s.clock < p {
      NothingBetween(next, k, s.rows[k].updatedAt, p);
    }
  }

  lemma AddedJobOk(next: Cron, s: State, s': State, proc: Proc, k: Key)
    requires IsCron(next) && Inv(next, s) && k in s.rows
    requires s'.clock == s.clock && s'.rows == s.rows && (k !in s'.late ==> !HasFired(next, s, k))
    ensures JobOk(next, s', proc, k, AddedJob(next, s, k))
  {
    if !HasFired(next, s, k) {
      NothingPassed(next, s, Accounted(s'), k);
    }
  }

  lemma UpdateKeepsInv(next: Cron, s: State, pid: Pid, k: Key)
    requires IsCron(next) && Inv(next, s) && Enabled(next, s, Update(pid, k))
    ensures Inv(next, Apply(next, s, Update(pid, k)))
  {
    var s' := Apply(next, s, Update(pid, k));
    ApplyGrows(next, s, Update(pid, k));
    if s.rows[k].active && k !in s.procs[pid].jobs {
      AddedJobOk(next, s, s', s'.procs[pid], k);
    }
    hide AddedJob, Accounted;
    forall i | i in s'.procs[pid].jobs ensures JobOk(next, s', s'.procs[pid], i, s'.procs[pid].jobs[i]) {
      if i in s.procs[pid].jobs {
        JobOkIsKept(next, s, s', s.procs[pid], i, s.procs[pid].jobs[i]);
      }
    }
    hide JobOk, Grows;
    InvByFrame(next, s, s', pid);
  }

  /** A caught-up process has accounted for every firing point from the base of a job to its watermark: catch-up reached
      past the moment the job was registered, and cron handed over everything since. */
  lemma WatermarkIsCovered(next: Cron, s: State, proc: Proc, k: Key, j: Job)
    requires JobOk(next, s, proc, k, j) && proc.caughtUp && j.lastTime.Some?
    ensures Covered(next, Accounted(s), k, j.base, j.lastTime.value)
  {
  }

  lemma WriteSnapshotKeepsInv(next: Cron, s: State, pid: Pid)
    requires Inv(next, s) && Enabled(next, s, WriteSnapshot(pid))
    ensures Inv(next, Apply(next, s, WriteSnapshot(pid)))
  {
    var s' := Apply(next, s, WriteSnapshot(pid));
    if s' != s {
      ApplyGrows(next, s, WriteSnapshot(pid));
      var jobs := s.procs[pid].jobs;
      forall k | k in s'.stored ensures StoredOk(next, s', k) {
        assert JobOk(next, s, s.procs[pid], k, jobs[k]);
        WatermarkIsCovered(next, s, s.procs[pid], k, jobs[k]);
      }
      forall q, k | q in s'.procs && k in s'.procs[q].jobs ensures JobOk(next, s', s'.procs[q], k, s'.procs[q].jobs[k]) {
        JobOkIsKept(next, s, s', s.procs[q], k, s.procs[q].jobs[k]);
      }
    }
  }

  lemma ApplyKeepsInv(next: Cron, s: State, step: Step)
    requires IsCron(next) && Inv(next, s)
    ensures Inv(next, Apply(next, s, step))
  {
    var s' := Apply(next, s, step);
    if Enabled(next, s, step) {
      match step
      case Boot(pid) => BootKeepsInv(next, s, pid);
      case TakeUntil(pid) => TakeUntilKeepsInv(next, s, pid);
      case CatchUpFire(pid, k) => CatchUpFireKeepsInv(next, s, pid, k);
      case CatchUpDone(pid) => CatchUpDoneKeepsInv(next, s, pid);
      case LiveFire(pid, k) => LiveFireKeepsInv(next, s, pid, k);
      case LiveReturn(pid, k, t, ok) => LiveReturnKeepsInv(next, s, pid, k, t, ok);
      case Update(pid, k) => UpdateKeepsInv(next, s, pid, k);
      case WriteSnapshot(pid) => WriteSnapshotKeepsInv(next, s, pid);
      case Crash(pid) =>
        ApplyGrows(next, s, step);
        InvByFrame(next, s, s', pid);
      case _ => SharedStepKeepsInv(next, s, step);
    }
  }

  lemma SharedStepKeepsInv(next: Cron, s: State, step: Step)
    requires Inv(next, s)
    requires step.Tick? || step.Activate? || step.Deactivate? || step.DetachedReturn? || step.OthersCreate?
    ensures Inv(next, Apply(next, s, step))
  {
    var s' := Apply(next, s, step);
    ApplyGrows(next, s, step);
    forall k | k in s'.stored ensures StoredOk(next, s', k) {
      StoredOkIsKept(next, s, s', k);
    }
    forall q, k | q in s'.procs && k in s'.procs[q].jobs ensures JobOk(next, s', s'.procs[q], k, s'.procs[q].jobs[k]) {
      JobOkIsKept(next, s, s', s.procs[q], k, s.procs[q].jobs[k]);
    }
  }

  lemma {:induction false} RunKeepsInv(next: Cron, s: State, steps: seq<Step>)
    requires IsCron(next) && Inv(next, s)
    ensures Inv(next, Run(next, s, steps))
    decreases |steps|
  {
    if steps != [] {
      ApplyKeepsInv(next, s, steps[0]);
      RunKeepsInv(next, Apply(next, s, steps[0]), steps[1..]);
    }
  }

  // ------------------------------------------------------------------------------------------------------------
  // Snapshot soundness
  // ------------------------------------------------------------------------------------------------------------

  /** In every reachable state: a stored snapshot that holds time t for a schedule has every firing point of the
      schedule in `(UpdatedAt, t]` accounted for, unless an updater registered it late. So the snapshot is sound for it
      exactly when no live call at or before t is both unanswered and without an execution; in particular when every
      live call up to t returned success. */
  lemma SnapshotSoundness(next: Cron, now: Time, steps: seq<Step>, k: Key)
    requires IsCron(next)
    requires var s := Run(next, Init(now), steps); k in s.stored && k !in s.late
    ensures var s := Run(next, Init(now), steps);
            && k in s.rows
            && (Covered(next, s.admin, k, s.rows[k].updatedAt, s.stored[k].time)
                <==> forall p :: Point(k, p) in s.unacked && Fires(next, k, p) && s.rows[k].updatedAt < p <= s.stored[k].time
                           ==> Point(k, p) in s.admin)
            && ((forall p :: Point(k, p) in s.unacked ==> s.stored[k].time < p)
                ==> Covered(next, s.admin, k, s.rows[k].updatedAt, s.stored[k].time))
  {
    RunKeepsInv(next, Init(now), steps);
    var s := Run(next, Init(now), steps);
    assert StoredOk(next, s, k);
    var from, t := s.rows[k].updatedAt, s.stored[k].time;
    assert forall p :: Fires(next, k, p) && from < p <= t ==> Point(k, p) in s.admin || Point(k, p) in s.unacked;
  }

  /** For any schedule, registered late or not, the same holds from the base kept with the snapshot: the moment of the
      late registration, where there was one. */
  lemma SnapshotSoundnessFromBase(next: Cron, now: Time, steps: seq<Step>, k: Key)
    requires IsCron(next)
    requires k in Run(next, Init(now), steps).stored
    ensures var s := Run(next, Init(now), steps);
            Covered(next, s.admin, k, s.stored[k].base, s.stored[k].time)
            <==> forall p :: Point(k, p) in s.unacked && Fires(next, k, p) && s.stored[k].base < p <= s.stored[k].time
                       ==> Point(k, p) in s.admin
  {
    RunKeepsInv(next, Init(now), steps);
    var s := Run(next, Init(now), steps);
    assert StoredOk(next, s, k);
    assert forall p :: Fires(next, k, p) && s.stored[k].base < p <= s.stored[k].time ==>
      Point(k, p) in s.admin || Point(k, p) in s.unacked;
  }

  // ------------------------------------------------------------------------------------------------------------
  // Registration by an updater
  // ------------------------------------------------------------------------------------------------------------

  /** What a snapshot holds for the schedule, if anything, is accounted for from `from` on. */
  ghost predicate SoundFrom(next: Cron, s: State, k: Key, from: Time) {
    k in s.stored ==> Covered(next, Accounted(s), k, from, s.stored[k].time)
  }

  /** Nobody runs without the active schedule, so no updater registers it again. */
  ghost predicate RunsEverywhere(s: State, k: Key, updatedAt: Time) {
    && k in s.rows && s.rows[k] == ScheduleRow(true, updatedAt)
    && k !in s.late && forall pid :: pid in s.procs ==> k in s.procs[pid].jobs
  }

  ghost predicate Leaves(step: Step, k: Key) { step != Activate(k) && step != Deactivate(k) }

  lemma ApplyKeepsRunning(next: Cron, s: State, step: Step, k: Key, updatedAt: Time)
    requires RunsEverywhere(s, k, updatedAt) && Leaves(step, k)
    ensures RunsEverywhere(Apply(next, s, step), k, updatedAt)
  {
    hide BootedJob, AddedJob, GoCron.SnapshotOf, GoCron.LaterOf, HasFired;
  }

  lemma {:induction false} RunKeepsRunning(next: Cron, s: State, steps: seq<Step>, k: Key, updatedAt: Time)
    requires RunsEverywhere(s, k, updatedAt) && forall step :: step in steps ==> Leaves(step, k)
    ensures RunsEverywhere(Run(next, s, steps), k, updatedAt)
    decreases |steps|
  {
    if steps != [] {
      ApplyKeepsRunning(next, s, steps[0], k, updatedAt);
      hide Apply, RunsEverywhere;
      RunKeepsRunning(next, Apply(next, s, steps[0]), steps[1..], k, updatedAt);
    }
  }

  /** Process `pid` is the only one, and both its catch-up and its cron are past the point, which admin does not hold. */
  ghost predicate Passed(s: State, pid: Pid, k: Key, p: Time) {
    && s.procs.Keys <= {pid} && p <= s.clock && Point(k, p) !in s.admin
    && (pid in s.procs && k in s.procs[pid].jobs ==>
          var j := s.procs[pid].jobs[k];
          && p <= j.fired && p !in j.pending
          && (j.catchupFrom.Some? ==> p <= j.caught))
  }

  /** No other process and no other client asks for the point, and no call for it that a crash left behind gets through. */
  ghost predicate BringsNothing(step: Step, k: Key, p: Time) {
    !step.Boot? && !step.OthersCreate? && step != DetachedReturn(Point(k, p))
  }

  lemma ApplyKeepsPassed(next: Cron, s: State, step: Step, pid: Pid, k: Key, p: Time)
    requires IsCron(next) && Passed(s, pid, k, p) && BringsNothing(step, k, p)
    ensures Passed(Apply(next, s, step), pid, k, p)
  {
    hide GoCron.SnapshotOf, GoCron.LaterOf, HasFired;
  }

  lemma {:induction false} RunKeepsPassed(next: Cron, s: State, steps: seq<Step>, pid: Pid, k: Key, p: Time)
    requires IsCron(next) && Passed(s, pid, k, p)
    requires forall step :: step in steps ==> BringsNothing(step, k, p)
    ensures Passed(Run(next, s, steps), pid, k, p)
    decreases |steps|
  {
    if steps != [] {
      ApplyKeepsPassed(next, s, steps[0], pid, k, p);
      hide Apply, Passed, BringsNothing;
      assert forall step :: step in steps[1..] ==> step in steps;
      RunKeepsPassed(next, Apply(next, s, steps[0]), steps[1..], pid, k, p);
    }
  }

  /** Nor is a call for it on its way that a crash left behind. */
  ghost predicate IsLost(s: State, pid: Pid, k: Key, p: Time) {
    Passed(s, pid, k, p) && Point(k, p) !in s.unacked
  }

  lemma ApplyKeepsLost(next: Cron, s: State, step: Step, pid: Pid, k: Key, p: Time)
    requires IsCron(next) && IsLost(s, pid, k, p) && !step.Boot? && !step.OthersCreate?
    ensures IsLost(Apply(next, s, step), pid, k, p)
  {
    hide GoCron.SnapshotOf, GoCron.LaterOf, HasFired;
    if step != DetachedReturn(Point(k, p)) {
      ApplyKeepsPassed(next, s, step, pid, k, p);
    }
  }

  /** A point that had passed when the updater registered its schedule, and that nobody had asked for, is never fired by
      that process, whatever else happens, short of another process that boots or another client. */
  lemma {:induction false} LatePointIsNeverFired(next: Cron, s: State, steps: seq<Step>, pid: Pid, k: Key, p: Time)
    requires IsCron(next) && IsLost(s, pid, k, p)
    requires forall step :: step in steps ==> !step.Boot? && !step.OthersCreate?
    ensures IsLost(Run(next, s, steps), pid, k, p)
    decreases |steps|
  {
    if steps != [] {
      ApplyKeepsLost(next, s, steps[0], pid, k, p);
      hide Apply, IsLost;
      LatePointIsNeverFired(next, Apply(next, s, steps[0]), steps[1..], pid, k, p);
    }
  }

  /** The updater of the only process may register a schedule. */
  ghost predicate Registers(s: State, pid: Pid, k: Key) {
    && s.procs.Keys == {pid} && s.procs[pid].caughtUp
    && k in s.rows && s.rows[k].active && k !in s.procs[pid].jobs
  }

  lemma OnTimeRegistrationIsSafe(next: Cron, s: State, pid: Pid, k: Key, after: seq<Step>)
    requires IsCron(next) && Inv(next, s) && Registers(s, pid, k) && !HasFired(next, s, k)
    requires forall step :: step in after ==> Leaves(step, k)
    ensures SoundFrom(next, Run(next, Apply(next, s, Update(pid, k)), after), k, s.rows[k].updatedAt)
  {
    var s1, updatedAt := Apply(next, s, Update(pid, k)), s.rows[k].updatedAt;
    assert RunsEverywhere(s1, k, updatedAt);
    UpdateKeepsInv(next, s, pid, k);
    RunKeepsInv(next, s1, after);
    RunKeepsRunning(next, s1, after, k, updatedAt);
    var s' := Run(next, s1, after);
    if k in s'.stored {
      assert StoredOk(next, s', k);
    }
  }

  /** After a late registration the next fire and a snapshot suffice for the snapshot to pass the lost point. */
  lemma LateRegistrationIsUnsafe(next: Cron, s: State, pid: Pid, k: Key) returns (after: seq<Step>)
    requires IsCron(next) && Inv(next, s) && Registers(s, pid, k) && HasFired(next, s, k)
    requires Point(k, next(k, s.rows[k].updatedAt)) !in Accounted(s)
    ensures forall step :: step in after ==> Leaves(step, k)
    ensures !SoundFrom(next, Run(next, Apply(next, s, Update(pid, k)), after), k, s.rows[k].updatedAt)
  {
    var p, t := next(k, s.rows[k].updatedAt), next(k, s.clock);
    var s1 := Apply(next, s, Update(pid, k));
    assert IsLost(s1, pid, k, p) && s1.procs[pid].caughtUp && s1.clock == s.clock;
    assert k in s1.procs[pid].jobs && s1.procs[pid].jobs[k] == AddedJob(next, s, k);
    hide Apply, IsCron;
    after := [Tick(t), LiveFire(pid, k), LiveReturn(pid, k, t, true), WriteSnapshot(pid)];
    LatePointIsNeverFired(next, s1, after, pid, k, p);
    FiresIntoSnapshot(next, s1, pid, k);
    assert Fires(next, k, p);
  }

  /** The clock reaches the next point of a job, cron hands it over, and the call succeeds: the watermark is there. */
  lemma MovesWatermark(next: Cron, s: State, pid: Pid, k: Key)
    requires IsCron(next) && pid in s.procs && k in s.procs[pid].jobs
    requires s.procs[pid].jobs[k].fired == s.clock && s.procs[pid].jobs[k].lastTime == None
    ensures var t := next(k, s.clock);
            var s' := Apply3(next, s, Tick(t), LiveFire(pid, k), LiveReturn(pid, k, t, true));
            && pid in s'.procs && s'.procs[pid].caughtUp == s.procs[pid].caughtUp
            && k in s'.procs[pid].jobs && s'.procs[pid].jobs[k].lastTime == Some(t)
  {
    var t := next(k, s.clock);
    var s1 := Apply(next, s, Tick(t));
    var s2 := Apply(next, s1, LiveFire(pid, k));
    assert s2.procs[pid] == s.procs[pid].(jobs := s2.procs[pid].jobs) && s2.procs[pid].jobs[k].lastTime == None;
    assert t in s2.procs[pid].jobs[k].pending;
  }

  lemma FiresIntoSnapshot(next: Cron, s: State, pid: Pid, k: Key)
    requires IsCron(next) && pid in s.procs && s.procs[pid].caughtUp && k in s.procs[pid].jobs
    requires s.procs[pid].jobs[k].fired == s.clock && s.procs[pid].jobs[k].lastTime == None
    ensures var t := next(k, s.clock);
            var s' := Run(next, s, [Tick(t), LiveFire(pid, k), LiveReturn(pid, k, t, true), WriteSnapshot(pid)]);
            k in s'.stored && s'.stored[k].time == t
  {
    var t := next(k, s.clock);
    MovesWatermark(next, s, pid, k);
    hide Apply, Apply3;
    RunThree(next, s, [], Tick(t), LiveFire(pid, k), LiveReturn(pid, k, t, true));
    var steps := [] + [Tick(t), LiveFire(pid, k), LiveReturn(pid, k, t, true)];
    var s3 := Run(next, s, steps);
    WritesWatermark(next, s3, pid, k);
    RunAppend(next, s, steps, [WriteSnapshot(pid)]);
    assert [WriteSnapshot(pid)][1..] == [];
    assert steps + [WriteSnapshot(pid)] == [Tick(t), LiveFire(pid, k), LiveReturn(pid, k, t, true), WriteSnapshot(pid)];
  }

  lemma WritesWatermark(next: Cron, s: State, pid: Pid, k: Key)
    requires Enabled(next, s, WriteSnapshot(pid)) && k in s.procs[pid].jobs && s.procs[pid].jobs[k].lastTime.Some?
    ensures var s' := Apply(next, s, WriteSnapshot(pid));
            && s' == s.(stored := s'.stored)
            && k in s'.stored && s'.stored[k].time == s.procs[pid].jobs[k].lastTime.value
  {
    var jobs := s.procs[pid].jobs;
    var times := GoCron.SnapshotOf(map i | i in jobs :: jobs[i].lastTime);
    assert k in times && times[k] == jobs[k].lastTime.value;
  }

  /** The updater registers without catch-up, so snapshots stay sound for the schedule from its last change on, in every
      continuation in which it is not changed again, exactly when no firing point has passed by then. (A point that
      somebody else asked for already is not lost either.) */
  lemma RegistrationIsSafeIff(next: Cron, now: Time, before: seq<Step>, pid: Pid, k: Key)
    requires IsCron(next) && Registers(Run(next, Init(now), before), pid, k)
    requires var s := Run(next, Init(now), before); Point(k, next(k, s.rows[k].updatedAt)) !in Accounted(s)
    ensures var s := Run(next, Init(now), before);
            (forall after :: (forall step :: step in after ==> Leaves(step, k)) ==>
               SoundFrom(next, Run(next, Apply(next, s, Update(pid, k)), after), k, s.rows[k].updatedAt))
            <==> next(k, s.rows[k].updatedAt) > s.clock
  {
    var s := Run(next, Init(now), before);
    RunKeepsInv(next, Init(now), before);
    if HasFired(next, s, k) {
      var after := LateRegistrationIsUnsafe(next, s, pid, k);
    } else {
      forall after | forall step :: step in after ==> Leaves(step, k)
        ensures SoundFrom(next, Run(next, Apply(next, s, Update(pid, k)), after), k, s.rows[k].updatedAt)
      {
        OnTimeRegistrationIsSafe(next, s, pid, k, after);
      }
    }
  }

  // ------------------------------------------------------------------------------------------------------------
  // Deactivation
  // ------------------------------------------------------------------------------------------------------------

  /** The schedule is not active and no process runs it. */
  ghost predicate IsStopped(s: State, k: Key) {
    k in s.rows && !s.rows[k].active && forall pid :: pid in s.procs ==> k !in s.procs[pid].jobs
  }

  lemma ApplyKeepsStopped(next: Cron, s: State, step: Step, k: Key, p: Time)
    requires IsStopped(s, k) && step != Activate(k) && !step.OthersCreate? && Point(k, p) !in Accounted(s)
    ensures IsStopped(Apply(next, s, step), k) && Point(k, p) !in Accounted(Apply(next, s, step))
  {
    hide GoCron.SnapshotOf, GoCron.LaterOf, HasFired;
  }

  /** A stopped schedule stays stopped until it is activated again: no process, not even one that boots, hands over or
      asks for a point of it that was not asked for before. */
  lemma {:induction false} StoppedScheduleIsSilent(next: Cron, s: State, steps: seq<Step>, k: Key, p: Time)
    requires IsStopped(s, k) && Point(k, p) !in Accounted(s)
    requires forall step :: step in steps ==> step != Activate(k) && !step.OthersCreate?
    ensures IsStopped(Run(next, s, steps), k) && Point(k, p) !in Accounted(Run(next, s, steps))
    decreases |steps|
  {
    if steps != [] {
      assert steps[0] in steps;
      ApplyKeepsStopped(next, s, steps[0], k, p);
      hide Apply, IsStopped, Accounted;
      assert forall step :: step in steps[1..] ==> step in steps;
      StoppedScheduleIsSilent(next, Apply(next, s, steps[0]), steps[1..], k, p);
    }
  }

  /** Deactivation takes effect with the next round of the updater: in every run, once the only process has seen the row,
      no point of the schedule that was not asked for by then is ever asked for, until it is activated again. */
  lemma DeactivationStopsSchedule(next: Cron, now: Time, before: seq<Step>, pid: Pid, k: Key, after: seq<Step>, p: Time)
    requires var s := Run(next, Init(now), before); k in s.rows && s.procs.Keys == {pid} && Point(k, p) !in Accounted(s)
    requires forall step :: step in after ==> step != Activate(k) && !step.OthersCreate?
    ensures var s := Run(next, Init(now), before + [Deactivate(k), Update(pid, k)] + after);
            IsStopped(s, k) && Point(k, p) !in Accounted(s)
  {
    var s := Run(next, Init(now), before);
    var s1 := Apply(next, s, Deactivate(k));
    var s2 := Apply(next, s1, Update(pid, k));
    RunAppend(next, Init(now), before + [Deactivate(k), Update(pid, k)], after);
    RunAppend(next, Init(now), before, [Deactivate(k), Update(pid, k)]);
    assert [Deactivate(k), Update(pid, k)][1..] == [Update(pid, k)] && [Update(pid, k)][1..] == [];
    assert Run(next, s, [Deactivate(k), Update(pid, k)]) == Run(next, s1, [Update(pid, k)]) == s2;
    assert IsStopped(s2, k) && Point(k, p) !in Accounted(s2);
    StoppedScheduleIsSilent(next, s2, after, k, p);
  }

  // ------------------------------------------------------------------------------------------------------------
  // Recovery
  // ------------------------------------------------------------------------------------------------------------

  /** Once catch-up is done, every firing point from where it started up to `until` is in admin, and no firing point lies
      between what catch-up and cron have taken care of and what cron will hand over next. */
  lemma CatchUpLeavesNoGap(next: Cron, now: Time, steps: seq<Step>, pid: Pid, k: Key, p: Time)
    requires IsCron(next)
    requires var s := Run(next, Init(now), steps);
             pid in s.procs && s.procs[pid].caughtUp && k in s.procs[pid].jobs && s.procs[pid].jobs[k].catchupFrom.Some?
    ensures var s := Run(next, Init(now), steps);
            var proc := s.procs[pid];
            var j := proc.jobs[k];
            && proc.until.Some? && j.registeredAt <= proc.until.value
            && (Fires(next, k, p) && j.catchupFrom.value < p <= proc.until.value ==> Point(k, p) in s.admin)
            && (Fires(next, k, p) && j.catchupFrom.value < p ==>
                  Point(k, p) in s.admin || Point(k, p) in s.unacked || next(k, j.fired) <= p)
  {
    RunKeepsInv(next, Init(now), steps);
    var s := Run(next, Init(now), steps);
    var j := s.procs[pid].jobs[k];
    assert JobOk(next, s, s.procs[pid], k, j);
    if Fires(next, k, p) && j.fired < p {
      NothingBetween(next, k, j.fired, p);
    }
  }

  /** What `p` started from when it booted, as long as it keeps running. */
  ghost predicate BootedFrom(s0: State, s: State, pid: Pid) {
    pid in s.procs ==>
      forall k :: k in s.procs[pid].jobs && s.procs[pid].jobs[k].catchupFrom.Some? ==>
        && k in s0.rows && s0.rows[k].active
        && s.procs[pid].jobs[k].catchupFrom == Some(GoCron.CatchupFrom(s0.rows[k].updatedAt, SnapshotTime(s0, k)))
        && s.procs[pid].jobs[k].registeredAt == s0.clock
  }

  lemma {:induction false} RunKeepsBootedFrom(next: Cron, s0: State, s: State, steps: seq<Step>, pid: Pid)
    requires BootedFrom(s0, s, pid) && pid in s.procs
    requires Crash(pid) !in steps
    ensures pid in Run(next, s, steps).procs && BootedFrom(s0, Run(next, s, steps), pid)
    decreases |steps|
  {
    if steps != [] {
      ApplyKeepsBootedFrom(next, s0, s, steps[0], pid);
      RunKeepsBootedFrom(next, s0, Apply(next, s, steps[0]), steps[1..], pid);
    }
  }

  /** Where a job catches up from, and when it was registered, does not change while it runs. */
  lemma ApplyKeepsCatchupFrom(next: Cron, s: State, step: Step, pid: Pid, k: Key)
    requires pid in s.procs && step != Crash(pid)
    ensures var s' := Apply(next, s, step);
            && pid in s'.procs
            && (k in s'.procs[pid].jobs && s'.procs[pid].jobs[k].catchupFrom.Some? ==>
                  && k in s.procs[pid].jobs && s'.procs[pid].jobs[k].catchupFrom == s.procs[pid].jobs[k].catchupFrom
                  && s'.procs[pid].jobs[k].registeredAt == s.procs[pid].jobs[k].registeredAt)
  {
    hide GoCron.LaterOf, GoCron.SnapshotOf, BootedJob, HasFired;
  }

  lemma ApplyKeepsBootedFrom(next: Cron, s0: State, s: State, step: Step, pid: Pid)
    requires BootedFrom(s0, s, pid) && pid in s.procs && step != Crash(pid)
    ensures pid in Apply(next, s, step).procs && BootedFrom(s0, Apply(next, s, step), pid)
  {
    hide Apply, GoCron.CatchupFrom, SnapshotTime;
    ApplyKeepsCatchupFrom(next, s, step, pid, "");
    forall k { ApplyKeepsCatchupFrom(next, s, step, pid, k); }
  }

  lemma {:induction false} RunAppend(next: Cron, s: State, a: seq<Step>, b: seq<Step>)
    ensures Run(next, s, a + b) == Run(next, Run(next, s, a), b)
    decreases |a|
  {
    if a == [] {
      assert a + b == b;
    } else {
      assert (a + b)[1..] == a[1..] + b;
      RunAppend(next, Apply(next, s, a[0]), a[1..], b);
    }
  }

  lemma RunAfterBoot(next: Cron, now: Time, before: seq<Step>, pid: Pid, after: seq<Step>)
    ensures Run(next, Init(now), before + [Boot(pid)] + after)
         == Run(next, Apply(next, Run(next, Init(now), before), Boot(pid)), after)
  {
    var s0 := Run(next, Init(now), before);
    RunAppend(next, Init(now), before + [Boot(pid)], after);
    RunAppend(next, Init(now), before, [Boot(pid)]);
    assert [Boot(pid)][1..] == [];
    assert Run(next, s0, [Boot(pid)]) == Apply(next, s0, Boot(pid));
  }

  /** Recovery is complete: take any run up to the boot of a process, and any run of the system after it in which that
      process does not crash. Once its catch-up is done, every schedule it still runs from boot has in admin every
      firing point after the later of its update time and its snapshot time at boot, up to `until`. */
  lemma RecoveryIsComplete(next: Cron, now: Time, before: seq<Step>, pid: Pid, after: seq<Step>, k: Key, p: Time)
    requires IsCron(next)
    requires pid !in Run(next, Init(now), before).procs && Crash(pid) !in after
    requires var s := Run(next, Init(now), before + [Boot(pid)] + after);
             && pid in s.procs && s.procs[pid].caughtUp
             && k in s.procs[pid].jobs && s.procs[pid].jobs[k].catchupFrom.Some?
    ensures var s0 := Run(next, Init(now), before);
            var s := Run(next, Init(now), before + [Boot(pid)] + after);
            && k in s0.rows && s0.rows[k].active && s.procs[pid].until.Some? && s0.clock <= s.procs[pid].until.value
            && (Fires(next, k, p) && s0.rows[k].updatedAt < p <= s.procs[pid].until.value
                && (k in s0.stored ==> s0.stored[k].time < p)
                ==> Point(k, p) in s.admin)
  {
    var s0 := Run(next, Init(now), before);
    var s1 := Apply(next, s0, Boot(pid));
    RunAfterBoot(next, now, before, pid, after);
    RunKeepsBootedFrom(next, s0, s1, after, pid);
    CatchUpLeavesNoGap(next, now, before + [Boot(pid)] + after, pid, k, p);
  }

  /** What a restart retries, exactly. Take any run that leaves no process, a point of an active schedule that has passed
      and is not in admin, and any run of a process that boots then. Once its catch-up is done, the point is in admin if
      and only if it is after both the last change of the schedule and the time the stored snapshot has for it. */
  lemma RestartRetriesIff(next: Cron, now: Time, before: seq<Step>, pid: Pid, after: seq<Step>, k: Key, p: Time)
    requires IsCron(next) && Fires(next, k, p)
    requires var s0 := Run(next, Init(now), before);
             s0.procs == map[] && k in s0.rows && s0.rows[k].active && p <= s0.clock && Point(k, p) !in s0.admin
    requires forall step :: step in after ==> BringsNothing(step, k, p) && step != Crash(pid)
    requires var s := Run(next, Init(now), before + [Boot(pid)] + after);
             && pid in s.procs && s.procs[pid].caughtUp
             && k in s.procs[pid].jobs && s.procs[pid].jobs[k].catchupFrom.Some?
    ensures var s0 := Run(next, Init(now), before);
            var s := Run(next, Init(now), before + [Boot(pid)] + after);
            Point(k, p) in s.admin <==> s0.rows[k].updatedAt < p && (k in s0.stored ==> s0.stored[k].time < p)
  {
    var s0 := Run(next, Init(now), before);
    var s1 := Apply(next, s0, Boot(pid));
    RunAfterBoot(next, now, before, pid, after);
    if s0.rows[k].updatedAt < p && (k in s0.stored ==> s0.stored[k].time < p) {
      RecoveryIsComplete(next, now, before, pid, after, k, p);
    } else {
      assert Passed(s1, pid, k, p);
      RunKeepsPassed(next, s1, after, pid, k, p);
    }
  }

  lemma {:induction false} RunMovesUpdatedAt(next: Cron, s: State, steps: seq<Step>, k: Key)
    requires IsCron(next) && Inv(next, s) && k in s.rows
    ensures k in Run(next, s, steps).rows && s.rows[k].updatedAt <= Run(next, s, steps).rows[k].updatedAt
    decreases |steps|
  {
    if steps != [] {
      ApplyKeepsInv(next, s, steps[0]);
      ApplyGrows(next, s, steps[0]);
      hide Apply, Inv;
      RunMovesUpdatedAt(next, Apply(next, s, steps[0]), steps[1..], k);
    }
  }

  /** Enabling a schedule again, though it is active already, moves its time of last change: a point that had passed by
      then and is not in admin is retried by no restart, whatever the stored snapshot says. */
  lemma ReactivationForgets(
    next: Cron, now: Time, a: seq<Step>, b: seq<Step>, pid: Pid, after: seq<Step>, k: Key, p: Time)
    requires IsCron(next) && Fires(next, k, p) && p <= Run(next, Init(now), a).clock
    requires var s0 := Run(next, Init(now), a + [Activate(k)] + b);
             s0.procs == map[] && k in s0.rows && s0.rows[k].active && p <= s0.clock && Point(k, p) !in s0.admin
    requires forall step :: step in after ==> BringsNothing(step, k, p) && step != Crash(pid)
    requires var s := Run(next, Init(now), a + [Activate(k)] + b + [Boot(pid)] + after);
             && pid in s.procs && s.procs[pid].caughtUp
             && k in s.procs[pid].jobs && s.procs[pid].jobs[k].catchupFrom.Some?
    ensures Point(k, p) !in Run(next, Init(now), a + [Activate(k)] + b + [Boot(pid)] + after).admin
  {
    var s := Run(next, Init(now), a);
    var s1 := Apply(next, s, Activate(k));
    RunAppend(next, Init(now), a + [Activate(k)], b);
    RunAppend(next, Init(now), a, [Activate(k)]);
    assert [Activate(k)][1..] == [];
    assert Run(next, s, [Activate(k)]) == s1;
    assert s1.rows[k].updatedAt == s.clock;
    RunKeepsInv(next, Init(now), a + [Activate(k)]);
    RunMovesUpdatedAt(next, s1, b, k);
    RestartRetriesIff(next, now, a + [Activate(k)] + b, pid, after, k, p);
  }

  /** Some job of the process has run since it was registered. */
  ghost predicate HasRun(proc: Proc) { exists k :: k in proc.jobs && proc.jobs[k].lastTime.Some? }

  /** What a snapshot stores for a schedule, exactly: the watermark of the writer's own job. A process none of whose jobs
      has run since it booted writes nothing; otherwise the entry of a schedule whose job has not run yet is gone. */
  lemma SnapshotKeepsEntryIff(next: Cron, s: State, pid: Pid, k: Key)
    requires Enabled(next, s, WriteSnapshot(pid))
    ensures var s' := Apply(next, s, WriteSnapshot(pid));
            var proc := s.procs[pid];
            && (!HasRun(proc) ==> s' == s)
            && (HasRun(proc) ==> (k in s'.stored <==> k in proc.jobs && proc.jobs[k].lastTime.Some?))
            && (HasRun(proc) && k in s'.stored ==> Some(s'.stored[k].time) == proc.jobs[k].lastTime)
  {
    var jobs := s.procs[pid].jobs;
    var times := GoCron.SnapshotOf(map i | i in jobs :: jobs[i].lastTime);
    if HasRun(s.procs[pid]) {
      var i :| i in jobs && jobs[i].lastTime.Some?;
      assert i in times;
    }
  }

  /** So a point that one restart passes over, a later one retries: once a process has written a snapshot before its job
      of that schedule ran, and crashed, the next process asks for every point since the last change of the schedule. */
  lemma DroppedEntryIsRetried(next: Cron, now: Time, before: seq<Step>, pid: Pid, pid': Pid, after: seq<Step>, k: Key, p: Time)
    requires IsCron(next) && Fires(next, k, p)
    requires var s0 := Run(next, Init(now), before);
             && s0.procs.Keys == {pid} && s0.procs[pid].caughtUp && HasRun(s0.procs[pid])
             && k in s0.procs[pid].jobs && s0.procs[pid].jobs[k].lastTime == None
             && k in s0.rows && s0.rows[k].active && s0.rows[k].updatedAt < p <= s0.clock && Point(k, p) !in s0.admin
    requires forall step :: step in after ==> BringsNothing(step, k, p) && step != Crash(pid')
    requires var s := Run(next, Init(now), before + [WriteSnapshot(pid), Crash(pid)] + [Boot(pid')] + after);
             && pid' in s.procs && s.procs[pid'].caughtUp
             && k in s.procs[pid'].jobs && s.procs[pid'].jobs[k].catchupFrom.Some?
    ensures Point(k, p) in Run(next, Init(now), before + [WriteSnapshot(pid), Crash(pid)] + [Boot(pid')] + after).admin
  {
    var s0 := Run(next, Init(now), before);
    var s1 := Apply(next, s0, WriteSnapshot(pid));
    SnapshotKeepsEntryIff(next, s0, pid, k);
    RunAppend(next, Init(now), before, [WriteSnapshot(pid), Crash(pid)]);
    assert [WriteSnapshot(pid), Crash(pid)][1..] == [Crash(pid)] && [Crash(pid)][1..] == [];
    assert Run(next, s0, [WriteSnapshot(pid), Crash(pid)]) == Run(next, s1, [Crash(pid)]) == Apply(next, s1, Crash(pid));
    WriteThenCrash(next, s0, pid);
    RestartRetriesIff(next, now, before + [WriteSnapshot(pid), Crash(pid)], pid', after, k, p);
  }

  lemma WriteThenCrash(next: Cron, s: State, pid: Pid)
    requires s.procs.Keys == {pid} && s.procs[pid].caughtUp
    ensures var s1 := Apply(next, s, WriteSnapshot(pid));
            Apply(next, s1, Crash(pid)) == s.(procs := map[], stored := s1.stored)
  {
    SnapshotIsStored(next, s, pid);
    hide GoCron.SnapshotOf;
    assert s.procs - {pid} == map[];
  }

  /** The catch-up steps of a job fire the catch-up list, front to back, and stop when it is used up. */
  lemma CatchUpFireFollowsList(next: Cron, s: State, pid: Pid, k: Key, times: seq<Time>)
    requires pid in s.procs && k in s.procs[pid].jobs
    requires s.procs[pid].until.Some? && s.procs[pid].jobs[k].catchupFrom.Some?
    requires CatchUp.IsCatchUp(t => next(k, t), s.procs[pid].jobs[k].caught, s.procs[pid].until.value, times)
    ensures Enabled(next, s, CatchUpFire(pid, k)) <==> times != []
    ensures times != [] ==>
      var s' := Apply(next, s, CatchUpFire(pid, k));
      && Point(k, times[0]) in s'.admin
      && CatchUp.IsCatchUp(t => next(k, t), s'.procs[pid].jobs[k].caught, s.procs[pid].until.value, times[1..])
  {
    if times != [] {
      CatchUp.IsCatchUpStep(t => next(k, t), s.procs[pid].jobs[k].caught, s.procs[pid].until.value, times);
    }
  }

  // ------------------------------------------------------------------------------------------------------------
  // What the hypotheses are for
  // ------------------------------------------------------------------------------------------------------------

  function EveryTick(): (next: Cron)
    ensures IsCron(next)
  {
    (k, t) => t + 1
  }

  const A_ROWS := map["a" := ScheduleRow(true, 0)]

  /** Process `pid` runs schedule "a" and no other, with catch-up up to `until` done. */
  ghost predicate Solo(s: State, pid: Pid, j: Job, until: Time) {
    && pid in s.procs
    && s.procs[pid].jobs.Keys == {"a"} && s.procs[pid].jobs["a"] == j
    && s.procs[pid].until == Some(until) && s.procs[pid].caughtUp
  }

  function Apply3(next: Cron, s: State, a: Step, b: Step, c: Step): State {
    Apply(next, Apply(next, Apply(next, s, a), b), c)
  }

  lemma RunThree(next: Cron, start: State, steps: seq<Step>, a: Step, b: Step, c: Step)
    ensures Run(next, start, steps + [a, b, c]) == Apply3(next, Run(next, start, steps), a, b, c)
  {
    hide Apply;
    var s := Run(next, start, steps);
    RunAppend(next, start, steps, [a, b, c]);
    assert [a, b, c][1..] == [b, c] && [b, c][1..] == [c] && [c][1..] == [];
    assert Run(next, s, [a, b, c]) == Run(next, Apply(next, s, a), [b, c]);
    assert Run(next, Apply(next, s, a), [b, c]) == Run(next, Apply(next, Apply(next, s, a), b), [c]);
    assert Run(next, Apply(next, Apply(next, s, a), b), [c]) == Run(next, Apply3(next, s, a, b, c), []);
  }

  /** A process boots with nothing to catch up on and is done. */
  lemma BootsAndCatchesUp(next: Cron, s: State, pid: Pid)
    requires s.rows == A_ROWS && pid !in s.procs
    requires s.clock == if "a" in s.stored then s.stored["a"].time else 0
    requires "a" in s.stored ==> s.stored["a"].time > 0
    ensures var s' := Apply3(next, s, Boot(pid), TakeUntil(pid), CatchUpDone(pid));
            && s' == s.(procs := s'.procs) && s'.procs.Keys == s.procs.Keys + {pid}
            && Solo(s', pid, BootedJob(s, "a"), s.clock)
            && BootedJob(s, "a").fired == s.clock && BootedJob(s, "a").lastTime == None
  {
    var s1 := Apply(next, s, Boot(pid));
    assert s1.procs[pid].jobs.Keys == {"a"};
  }

  /** The clock reaches the next point of schedule "a", cron hands it over, and the call returns. */
  lemma FiresAndReturns(next: Cron, s: State, pid: Pid, j: Job, until: Time, ok: bool)
    requires IsCron(next) && Solo(s, pid, j, until) && j.lastTime == None && s.clock == j.fired
    requires Point("a", next("a", j.fired)) !in s.admin
    ensures var t := next("a", j.fired);
            var s' := Apply3(next, s, Tick(t), LiveFire(pid, "a"), LiveReturn(pid, "a", t, ok));
            && s' == s.(clock := t, admin := s.admin + (if ok then {Point("a", t)} else {}), unacked := s'.unacked, procs := s'.procs)
            && s'.procs.Keys == s.procs.Keys
            && s'.unacked == (if ok then s.unacked - {Point("a", t)} else s.unacked + {Point("a", t)})
            && Solo(s', pid, j.(fired := t, pending := j.pending + {t} - {t}, lastTime := Some(t)), until)
  {
    var t := next("a", j.fired);
    var s1 := Apply(next, s, Tick(t));
    var s2 := Apply(next, s1, LiveFire(pid, "a"));
    assert Solo(s2, pid, j.(fired := t, pending := j.pending + {t}), until);
  }

  lemma WritesSnapshot(next: Cron, s: State, pid: Pid, j: Job, until: Time)
    requires Solo(s, pid, j, until) && j.lastTime.Some?
    ensures var s' := Apply3(next, s, WriteSnapshot(pid), Crash(pid), Tick(s.clock));
            && s' == s.(stored := s'.stored, procs := s.procs - {pid})
            && "a" in s'.stored && s'.stored["a"].time == j.lastTime.value
  {
    WritesWatermark(next, s, pid, "a");
    hide GoCron.SnapshotOf;
  }

  /** The watermark moves past a failed call, and the next boot starts from it: after the whole recovery of a second
      process the point is still missing, though the snapshot claims it. */
  lemma FailedCallIsForgotten() returns (steps: seq<Step>)
    ensures var s := Run(EveryTick(), Init(0), steps);
            && "a" in s.stored && s.stored["a"].time == 1 && s.late == {} && s.rows == A_ROWS && s.clock == 1
            && s.procs.Keys == {1} && (exists j :: Solo(s, 1, j, 1) && j.lastTime == None)
            && Fires(EveryTick(), "a", 1) && Point("a", 1) !in s.admin
  {
    var next := EveryTick();
    var s1 := Init(0).(rows := A_ROWS);
    ActivatesFirst(next);
    hide Apply, Apply3;
    RunThree(next, Init(0), [], Tick(0), Activate("a"), Tick(0));
    BootsAndCatchesUp(next, s1, 0);
    var s2 := Apply3(next, s1, Boot(0), TakeUntil(0), CatchUpDone(0));
    var j := BootedJob(s1, "a");
    FiresAndReturns(next, s2, 0, j, 0, false);
    var s3 := Apply3(next, s2, Tick(1), LiveFire(0, "a"), LiveReturn(0, "a", 1, false));
    WritesSnapshot(next, s3, 0, j.(fired := 1, pending := j.pending + {1} - {1}, lastTime := Some(1)), 0);
    var s4 := Apply3(next, s3, WriteSnapshot(0), Crash(0), Tick(1));
    BootsAndCatchesUp(next, s4, 1);
    var a := [] + [Tick(0), Activate("a"), Tick(0)];
    var b := a + [Boot(0), TakeUntil(0), CatchUpDone(0)];
    var c := b + [Tick(1), LiveFire(0, "a"), LiveReturn(0, "a", 1, false)];
    var d := c + [WriteSnapshot(0), Crash(0), Tick(1)];
    RunThree(next, Init(0), a, Boot(0), TakeUntil(0), CatchUpDone(0));
    RunThree(next, Init(0), b, Tick(1), LiveFire(0, "a"), LiveReturn(0, "a", 1, false));
    RunThree(next, Init(0), c, WriteSnapshot(0), Crash(0), Tick(1));
    RunThree(next, Init(0), d, Boot(1), TakeUntil(1), CatchUpDone(1));
    steps := d + [Boot(1), TakeUntil(1), CatchUpDone(1)];
    assert next("a", 0) == 1;
  }

  /** The same run goes on: schedule "b" fires in the second process, whose snapshot drops the entry of "a", and the third
      process asks for the point that the second passed over. No other client and no belated call is needed. */
  lemma FailedCallIsRetriedLater() returns (before: seq<Step>, after: seq<Step>)
    ensures var s := Run(EveryTick(), Init(0), before);
            && "a" in s.stored && s.stored["a"].time == 1 && Point("a", 1) !in s.admin
            && s.procs.Keys == {1} && s.procs[1].caughtUp
    ensures forall step :: step in after ==> !step.OthersCreate? && !step.DetachedReturn?
    ensures Point("a", 1) in Run(EveryTick(), Init(0), before + after).admin
  {
    var next := EveryTick();
    before := FailedCallIsForgotten();
    var s := Run(next, Init(0), before);
    var j :| Solo(s, 1, j, 1) && j.lastTime == None;
    after := RegisterAndDrop() + RestartAndRetry();
    hide RegisterAndDrop, RestartAndRetry;
    DropsThenRetries(next, s, j);
    RunAppend(next, Init(0), before, after);
  }

  function RegisterAndDrop(): (steps: seq<Step>)
    ensures forall step :: step in steps ==> !step.OthersCreate? && !step.DetachedReturn?
  {
    [Activate("b"), Update(1, "b"), Tick(2)] + [LiveFire(1, "b"), LiveReturn(1, "b", 2, true), WriteSnapshot(1)]
  }

  function RestartAndRetry(): (steps: seq<Step>)
    ensures forall step :: step in steps ==> !step.OthersCreate? && !step.DetachedReturn?
  {
    [Crash(1), Boot(2), TakeUntil(2)] + [CatchUpFire(2, "a"), Tick(2), Tick(2)]
  }

  lemma RunSix(next: Cron, s: State, a: Step, b: Step, c: Step, d: Step, e: Step, f: Step)
    ensures Run(next, s, [a, b, c] + [d, e, f]) == Apply3(next, Apply3(next, s, a, b, c), d, e, f)
  {
    hide Apply, Apply3;
    RunThree(next, s, [], a, b, c);
    RunThree(next, s, [a, b, c], d, e, f);
    assert [] + [a, b, c] == [a, b, c];
  }

  lemma DropsThenRetries(next: Cron, s: State, j: Job)
    requires next == EveryTick() && s.rows == A_ROWS && s.clock == 1
    requires s.procs.Keys == {1} && Solo(s, 1, j, 1) && j.lastTime == None
    ensures Point("a", 1) in Run(next, s, RegisterAndDrop() + RestartAndRetry()).admin
  {
    hide Apply, Apply3;
    RegistersAnother(next, s, j);
    var s1 := Apply3(next, s, Activate("b"), Update(1, "b"), Tick(2));
    DropsEntry(next, s1);
    var s2 := Apply3(next, s1, LiveFire(1, "b"), LiveReturn(1, "b", 2, true), WriteSnapshot(1));
    StartsOver(next, s2);
    RetriesFirst(next, Apply3(next, s2, Crash(1), Boot(2), TakeUntil(2)));
    RunSix(next, s, Activate("b"), Update(1, "b"), Tick(2), LiveFire(1, "b"), LiveReturn(1, "b", 2, true), WriteSnapshot(1));
    RunSix(next, s2, Crash(1), Boot(2), TakeUntil(2), CatchUpFire(2, "a"), Tick(2), Tick(2));
    RunAppend(next, s, RegisterAndDrop(), RestartAndRetry());
  }

  /** The one process runs "a", which has not fired, and from now on "b", whose next point is due. */
  ghost predicate Duo(s: State) {
    && s.procs.Keys == {1} && s.procs[1].caughtUp && s.clock == 2
    && "a" in s.rows && s.rows["a"] == ScheduleRow(true, 0)
    && s.procs[1].jobs.Keys == {"a", "b"}
    && s.procs[1].jobs["a"].lastTime == None && s.procs[1].jobs["b"].lastTime == None && s.procs[1].jobs["b"].fired == 1
  }

  lemma RegistersAnother(next: Cron, s: State, j: Job)
    requires next == EveryTick() && s.rows == A_ROWS && s.clock == 1
    requires s.procs.Keys == {1} && Solo(s, 1, j, 1) && j.lastTime == None
    ensures Duo(Apply3(next, s, Activate("b"), Update(1, "b"), Tick(2)))
  {
    var s1 := Apply(next, s, Activate("b"));
    var s2 := Apply(next, s1, Update(1, "b"));
    assert s2.procs[1].jobs.Keys == {"a", "b"};
  }

  lemma FiresAnother(next: Cron, s: State)
    requires next == EveryTick() && Duo(s)
    ensures var s' := Apply(next, Apply(next, s, LiveFire(1, "b")), LiveReturn(1, "b", 2, true));
            && s'.rows == s.rows && s'.clock == 2 && s'.procs.Keys == {1} && s'.procs[1].caughtUp && HasRun(s'.procs[1])
            && "a" in s'.procs[1].jobs && s'.procs[1].jobs["a"].lastTime == None
  {
    var s1 := Apply(next, s, LiveFire(1, "b"));
    assert s1.procs[1].jobs["b"].fired == 2 && 2 in s1.procs[1].jobs["b"].pending;
    var s2 := Apply(next, s1, LiveReturn(1, "b", 2, true));
    assert "b" in s2.procs[1].jobs && s2.procs[1].jobs["b"].lastTime.Some?;
  }

  lemma DropsEntry(next: Cron, s: State)
    requires next == EveryTick() && Duo(s)
    ensures var s' := Apply3(next, s, LiveFire(1, "b"), LiveReturn(1, "b", 2, true), WriteSnapshot(1));
            && "a" !in s'.stored && s'.rows == s.rows && s'.clock == 2 && s'.procs.Keys == {1}
  {
    FiresAnother(next, s);
    ThreeSteps(next, s, LiveFire(1, "b"), LiveReturn(1, "b", 2, true), WriteSnapshot(1));
    hide Apply, Apply3, HasRun;
    var s2 := Apply(next, Apply(next, s, LiveFire(1, "b")), LiveReturn(1, "b", 2, true));
    SnapshotKeepsEntryIff(next, s2, 1, "a");
    SnapshotIsStored(next, s2, 1);
  }

  lemma SnapshotIsStored(next: Cron, s: State, pid: Pid)
    ensures Apply(next, s, WriteSnapshot(pid)) == s.(stored := Apply(next, s, WriteSnapshot(pid)).stored)
  {
    hide GoCron.SnapshotOf;
  }

  lemma StartsOver(next: Cron, s: State)
    requires "a" in s.rows && s.rows["a"] == ScheduleRow(true, 0) && "a" !in s.stored && s.clock == 2 && s.procs.Keys == {1}
    ensures var s' := Apply3(next, s, Crash(1), Boot(2), TakeUntil(2));
            && 2 in s'.procs && s'.procs[2].until == Some(2) && "a" in s'.procs[2].jobs
            && s'.procs[2].jobs["a"].catchupFrom == Some(0) && s'.procs[2].jobs["a"].caught == 0
  {
    var s1 := Apply(next, s, Crash(1));
    var s2 := Apply(next, s1, Boot(2));
    assert s2.procs[2].jobs["a"] == BootedJob(s1, "a");
  }

  lemma RetriesFirst(next: Cron, s: State)
    requires next == EveryTick() && 2 in s.procs && s.procs[2].until == Some(2) && "a" in s.procs[2].jobs
    requires s.procs[2].jobs["a"].catchupFrom == Some(0) && s.procs[2].jobs["a"].caught == 0
    ensures Point("a", 1) in Apply3(next, s, CatchUpFire(2, "a"), Tick(2), Tick(2)).admin
  {
    assert next("a", 0) == 1;
  }

  lemma ActivatesFirst(next: Cron)
    ensures Apply3(next, Init(0), Tick(0), Activate("a"), Tick(0)) == Init(0).(rows := A_ROWS)
  {
  }

  /** A process boots with no schedules at all; then "a" is activated, and one tick later the updater registers it. */
  lemma UpdaterRegisters(next: Cron)
    requires next("a", 0) <= 1
    ensures var s1 := Apply3(next, Init(0), Boot(0), TakeUntil(0), CatchUpDone(0));
            var s := Apply3(next, s1, Activate("a"), Tick(1), Update(0, "a"));
            && s == Init(0).(clock := 1, rows := A_ROWS, procs := s.procs, late := {"a"})
            && Solo(s, 0, Job(1, None, 1, 1, 1, {}, None), 0)
  {
    EmptyBoot(next);
    hide Apply3;
    var s1 := Apply3(next, Init(0), Boot(0), TakeUntil(0), CatchUpDone(0));
    var s2 := Apply(next, Apply(next, s1, Activate("a")), Tick(1));
    assert s2 == s1.(clock := 1, rows := A_ROWS);
    var s3 := Apply(next, s2, Update(0, "a"));
    assert s3.procs[0].jobs == map["a" := Job(1, None, 1, 1, 1, {}, None)];
    ThreeSteps(next, s1, Activate("a"), Tick(1), Update(0, "a"));
  }

  lemma ThreeSteps(next: Cron, s: State, a: Step, b: Step, c: Step)
    ensures Apply3(next, s, a, b, c) == Apply(next, Apply(next, Apply(next, s, a), b), c)
  {
  }

  lemma EmptyBoot(next: Cron)
    ensures Apply3(next, Init(0), Boot(0), TakeUntil(0), CatchUpDone(0)) == Init(0).(procs := map[0 := Proc(map[], Some(0), true)])
  {
    var s1 := Apply(next, Init(0), Boot(0));
    assert s1.procs[0] == Proc(map[], None, false);
    var s3 := Apply3(next, Init(0), Boot(0), TakeUntil(0), CatchUpDone(0));
    assert s3.procs == map[0 := Proc(map[], Some(0), true)];
  }

  /** A schedule activated while the scheduler runs is registered by the updater without catch-up: a point that falls
      between the activation and the registration is skipped though every call succeeded, and the snapshot passes it. */
  lemma UpdaterSkipsAPoint() returns (steps: seq<Step>)
    ensures var s := Run(EveryTick(), Init(0), steps);
            && "a" in s.stored && s.stored["a"].time == 2 && s.unacked == {} && s.rows == A_ROWS
            && Fires(EveryTick(), "a", 1) && Point("a", 1) !in s.admin
  {
    var next := EveryTick();
    hide Apply, Apply3;
    var s1 := Apply3(next, Init(0), Boot(0), TakeUntil(0), CatchUpDone(0));
    var s2 := Apply3(next, s1, Activate("a"), Tick(1), Update(0, "a"));
    UpdaterRegisters(next);
    var j := Job(1, None, 1, 1, 1, {}, None);
    FiresAndReturns(next, s2, 0, j, 0, true);
    var s3 := Apply3(next, s2, Tick(2), LiveFire(0, "a"), LiveReturn(0, "a", 2, true));
    WritesSnapshot(next, s3, 0, j.(fired := 2, pending := j.pending + {2} - {2}, lastTime := Some(2)), 0);
    var a := [] + [Boot(0), TakeUntil(0), CatchUpDone(0)];
    var b := a + [Activate("a"), Tick(1), Update(0, "a")];
    var c := b + [Tick(2), LiveFire(0, "a"), LiveReturn(0, "a", 2, true)];
    RunThree(next, Init(0), [], Boot(0), TakeUntil(0), CatchUpDone(0));
    RunThree(next, Init(0), a, Activate("a"), Tick(1), Update(0, "a"));
    RunThree(next, Init(0), b, Tick(2), LiveFire(0, "a"), LiveReturn(0, "a", 2, true));
    RunThree(next, Init(0), c, WriteSnapshot(0), Crash(0), Tick(2));
    steps := c + [WriteSnapshot(0), Crash(0), Tick(2)];
    assert next("a", 0) == 1;
  }
}
