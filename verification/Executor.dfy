/**
 Firing one scheduled execution: the executor names it after the schedule and the second, and asks admin to create it
 up to thirty times. Admin refuses a name it already holds, so repeated, concurrent and half-reported attempts leave
 one execution.

 Admin is any number of clients calling `CreateExecution`; a call may fail before it takes effect or after.
 */
module Executor {
  import opened Wrappers
  import opened CatchUp
  import opened Naming

  const MAX_ATTEMPTS: nat := 30

  datatype Entity = Entity(id: Identifier, cronExpression: string, kickoffTimeInputArg: string, active: bool)

  datatype ExecutionKey = ExecutionKey(project: string, domain: string, name: string)

  datatype Launch =
    | Scheduled(id: Identifier, scheduledAt: Time, inputs: map<string, Time>)
    | Manual(request: string)

  /** Where a call to admin is cut off: not at all, before the execution is stored, or before the reply is sent. */
  datatype Fault = NoFault | BeforeCommit | AfterCommit

  datatype Code = OK | AlreadyExists | Unavailable

  datatype Call = Call(key: ExecutionKey, launch: Launch, fault: Fault)

  type Executions = map<ExecutionKey, Launch>

  function AdminCreate(execs: Executions, c: Call): (Executions, Code) {
    if c.fault.BeforeCommit? then (execs, Unavailable)
    else if c.key in execs then (execs, if c.fault.NoFault? then AlreadyExists else Unavailable)
    else (execs[c.key := c.launch], if c.fault.NoFault? then OK else Unavailable)
  }

  function AdminRun(execs: Executions, calls: seq<Call>): Executions
    decreases |calls|
  {
    if calls == [] then execs else AdminRun(AdminCreate(execs, calls[0]).0, calls[1..])
  }

  function RequestKey(hash: Hash, id: Identifier, t: Time): ExecutionKey {
    ExecutionKey(id.project, id.domain, ScheduledExecutionName(hash, id, Unix(t)))
  }

  function RequestLaunch(s: Entity, t: Time): Launch {
    Scheduled(s.id, t, if |s.cronExpression| > 0 then map[s.kickoffTimeInputArg := t] else map[])
  }

  class Admin {
    var executions: Executions

    constructor ()
      ensures executions == map[]
    {
      executions := map[];
    }

    method CreateExecution(c: Call) returns (code: Code)
      modifies this
      ensures (executions, code) == AdminCreate(old(executions), c)
    {
      if c.fault.BeforeCommit? {
        return Unavailable;
      }
      if c.key in executions {
        code := AlreadyExists;
      } else {
        executions := executions[c.key := c.launch];
        code := OK;
      }
      if c.fault.AfterCommit? {
        code := Unavailable;
      }
    }

    /** What other clients do to admin between two attempts. */
    method Serve(calls: seq<Call>)
      modifies this
      ensures executions == AdminRun(old(executions), calls)
    {
      var i := 0;
      while i < |calls|
        invariant 0 <= i <= |calls|
        invariant AdminRun(executions, calls[i..]) == AdminRun(old(executions), calls)
      {
        assert calls[i..][1..] == calls[i + 1..];
        var _ := CreateExecution(calls[i]);
        i := i + 1;
      }
    }
  }

  /** The state of admin and the verdict of `Execute` when attempt `i` is about to be made: `faults(i)` is what befalls
      attempt `i`, `others(i)` what other clients do just before it. */
  function Attempts(execs: Executions, key: ExecutionKey, launch: Launch, faults: nat -> Fault, others: nat -> seq<Call>, i: nat)
    : (Executions, bool)
    requires i <= MAX_ATTEMPTS
    decreases MAX_ATTEMPTS - i
  {
    if i == MAX_ATTEMPTS then (execs, false)
    else
      var (execs', code) := AdminCreate(AdminRun(execs, others(i)), Call(key, launch, faults(i)));
      if code.Unavailable? then Attempts(execs', key, launch, faults, others, i + 1) else (execs', true)
  }

  /** The request for one fire of a schedule. Only cron schedules pass the fire time on as an input. */
  method CreateRequest(hash: Hash, s: Entity, t: Time) returns (key: ExecutionKey, launch: Launch)
    ensures key == RequestKey(hash, s.id, t) && launch == RequestLaunch(s, t)
  {
    hide LittleEndian, Zeros, Hex, RemoveDashes, UuidText, ExecutionPreimage;
    var inputs: map<string, Time> := map[];
    if |s.cronExpression| > 0 {
      inputs := inputs[s.kickoffTimeInputArg := t];
    }
    var uuid := GetExecutionIdentifier(hash(ExecutionPreimage(s.id, Unix(t))));
    UuidTextWithoutDashes(uuid);
    key := ExecutionKey(s.id.project, s.id.domain, "f" + RemoveDashes(UuidText(uuid))[..19]);
    launch := Scheduled(s.id, t, inputs);
  }

  method Execute(admin: Admin, hash: Hash, s: Entity, t: Time, faults: nat -> Fault, others: nat -> seq<Call>)
    returns (ok: bool)
    modifies admin
    ensures !s.active ==> ok && admin.executions == old(admin.executions)
    ensures s.active ==>
      (admin.executions, ok) == Attempts(old(admin.executions), RequestKey(hash, s.id, t), RequestLaunch(s, t), faults, others, 0)
  {
    hide RequestKey, RequestLaunch;
    var key, launch := CreateRequest(hash, s, t);
    if !s.active {
      return true;
    }
    var i := 0;
    while i < MAX_ATTEMPTS
      invariant 0 <= i <= MAX_ATTEMPTS
      invariant Attempts(admin.executions, key, launch, faults, others, i)
             == Attempts(old(admin.executions), key, launch, faults, others, 0)
    {
      admin.Serve(others(i));
      var code := admin.CreateExecution(Call(key, launch, faults(i)));
      if !code.Unavailable? {
        return true;
      }
      i := i + 1;
    }
    return false;
  }

  // ------------------------------------------------------------------------------------------------------------
  // Not lost
  // ------------------------------------------------------------------------------------------------------------

  ghost predicate Keeps(before: Executions, after: Executions) {
    forall k :: k in before ==> k in after && after[k] == before[k]
  }

  lemma {:induction false} AdminRunKeeps(execs: Executions, calls: seq<Call>)
    ensures Keeps(execs, AdminRun(execs, calls))
    decreases |calls|
  {
    if calls != [] {
      AdminRunKeeps(AdminCreate(execs, calls[0]).0, calls[1..]);
    }
  }

  /** Whatever else happens to admin, nothing stored is replaced or removed, and an `Execute` that reports success
      leaves an execution under the name it asked for. */
  lemma {:induction false} ExecuteNilMeansStored(
    execs: Executions, key: ExecutionKey, launch: Launch, faults: nat -> Fault, others: nat -> seq<Call>, i: nat)
    requires i <= MAX_ATTEMPTS
    ensures var (execs', ok) := Attempts(execs, key, launch, faults, others, i);
            Keeps(execs, execs') && (ok ==> key in execs')
    decreases MAX_ATTEMPTS - i
  {
    if i < MAX_ATTEMPTS {
      AdminRunKeeps(execs, others(i));
      var (execs1, code) := AdminCreate(AdminRun(execs, others(i)), Call(key, launch, faults(i)));
      if code.Unavailable? {
        ExecuteNilMeansStored(execs1, key, launch, faults, others, i + 1);
      }
    }
  }

  /** `Execute` gives up exactly when every one of the thirty attempts was cut off. */
  lemma {:induction false} ExecuteFailsIffAllCutOff(
    execs: Executions, key: ExecutionKey, launch: Launch, faults: nat -> Fault, others: nat -> seq<Call>, i: nat)
    requires i <= MAX_ATTEMPTS
    ensures !Attempts(execs, key, launch, faults, others, i).1
       <==> forall j :: i <= j < MAX_ATTEMPTS ==> !faults(j).NoFault?
    decreases MAX_ATTEMPTS - i
  {
    if i < MAX_ATTEMPTS {
      var (execs1, code) := AdminCreate(AdminRun(execs, others(i)), Call(key, launch, faults(i)));
      assert code.Unavailable? <==> !faults(i).NoFault?;
      ExecuteFailsIffAllCutOff(execs1, key, launch, faults, others, i + 1);
    }
  }

  /** So thirty failing attempts are needed, and enough. */
  lemma ThirtyAttempts(
    execs: Executions, key: ExecutionKey, launch: Launch, faults: nat -> Fault, others: nat -> seq<Call>)
    ensures Attempts(execs, key, launch, faults, others, 0).1 <==> exists j :: 0 <= j < 30 && faults(j).NoFault?
  {
    ExecuteFailsIffAllCutOff(execs, key, launch, faults, others, 0);
  }

  /** What a reply of admin tells: OK, that this call stored its launch; AlreadyExists, that the name was taken; anything
      else, nothing. */
  lemma ReplyTells(execs: Executions, c: Call)
    ensures var (execs', code) := AdminCreate(execs, c);
            && (code.OK? ==> c.key !in execs && c.key in execs' && execs'[c.key] == c.launch)
            && (code.AlreadyExists? ==> c.key in execs && execs' == execs)
            && (code.Unavailable? <==> !c.fault.NoFault?)
  {
  }

  /** A launch of the schedule for the n-th second. */
  ghost predicate IsLaunchOf(launch: Launch, id: Identifier, second: int) {
    launch.Scheduled? && launch.id == id && InSecond(launch.scheduledAt, second)
  }

  /** All calls that reach admin until `Execute` is done, its own and those of other clients, in their order. */
  function CallsMade(execs: Executions, key: ExecutionKey, launch: Launch, faults: nat -> Fault, others: nat -> seq<Call>, i: nat): seq<Call>
    requires i <= MAX_ATTEMPTS
    decreases MAX_ATTEMPTS - i
  {
    if i == MAX_ATTEMPTS then []
    else
      var call := Call(key, launch, faults(i));
      var (execs', code) := AdminCreate(AdminRun(execs, others(i)), call);
      others(i) + [call] + if code.Unavailable? then CallsMade(execs', key, launch, faults, others, i + 1) else []
  }

  lemma {:induction false} AttemptsMakeTheCalls(
    execs: Executions, key: ExecutionKey, launch: Launch, faults: nat -> Fault, others: nat -> seq<Call>, i: nat)
    requires i <= MAX_ATTEMPTS
    ensures Attempts(execs, key, launch, faults, others, i).0 == AdminRun(execs, CallsMade(execs, key, launch, faults, others, i))
    decreases MAX_ATTEMPTS - i
  {
    if i < MAX_ATTEMPTS {
      var call := Call(key, launch, faults(i));
      var before := AdminRun(execs, others(i));
      var (execs', code) := AdminCreate(before, call);
      var rest := if code.Unavailable? then CallsMade(execs', key, launch, faults, others, i + 1) else [];
      if code.Unavailable? {
        AttemptsMakeTheCalls(execs', key, launch, faults, others, i + 1);
      }
      AdminRunAppend(execs, others(i) + [call], rest);
      AdminRunAppend(execs, others(i), [call]);
      assert AdminRun(before, [call]) == execs' by {
        assert [call][1..] == [];
      }
    }
  }

  /** Who has the name: whoever had it, or else the first of the calls that asks for it and gets through. */
  function Holder(execs: Executions, calls: seq<Call>, key: ExecutionKey): Option<Launch>
    decreases |calls|
  {
    if key in execs then Some(execs[key])
    else if calls == [] then None
    else if calls[0].key == key && !calls[0].fault.BeforeCommit? then Some(calls[0].launch)
    else Holder(execs, calls[1..], key)
  }

  lemma {:induction false} HolderIsFirst(execs: Executions, calls: seq<Call>, key: ExecutionKey)
    ensures var after := AdminRun(execs, calls);
            if key in after then Holder(execs, calls, key) == Some(after[key]) else Holder(execs, calls, key) == None
    decreases |calls|
  {
    if calls != [] {
      var execs1 := AdminCreate(execs, calls[0]).0;
      HolderIsFirst(execs1, calls[1..], key);
      if key in execs1 {
        AdminRunKeeps(execs1, calls[1..]);
      } else {
        SameHolder(execs, execs1, calls[1..], key);
      }
    }
  }

  lemma {:induction false} SameHolder(a: Executions, b: Executions, calls: seq<Call>, key: ExecutionKey)
    requires key !in a && key !in b
    ensures Holder(a, calls, key) == Holder(b, calls, key)
    decreases |calls|
  {
    if calls != [] {
      SameHolder(a, b, calls[1..], key);
    }
  }

  /** Among any calls of other clients, a successful `Execute` has launched its schedule for its second exactly when
      whoever had the name, or else the first call to take it, is such a launch: a name held by something else is taken
      for a duplicate and the fire is lost. */
  lemma ExecuteLaunchesIff(
    execs: Executions, key: ExecutionKey, s: Entity, t: Time, second: int, faults: nat -> Fault, others: nat -> seq<Call>)
    requires InSecond(t, second) && Attempts(execs, key, RequestLaunch(s, t), faults, others, 0).1
    ensures var execs' := Attempts(execs, key, RequestLaunch(s, t), faults, others, 0).0;
            var holder := Holder(execs, CallsMade(execs, key, RequestLaunch(s, t), faults, others, 0), key);
            key in execs' && holder.Some? && (IsLaunchOf(execs'[key], s.id, second) <==> IsLaunchOf(holder.value, s.id, second))
  {
    var launch := RequestLaunch(s, t);
    ExecuteNilMeansStored(execs, key, launch, faults, others, 0);
    AttemptsMakeTheCalls(execs, key, launch, faults, others, 0);
    HolderIsFirst(execs, CallsMade(execs, key, launch, faults, others, 0), key);
  }

  /** With admin to itself: exactly when the name was free or already held by that launch. */
  lemma {:induction false} AloneExecuteLaunchesIff(
    execs: Executions, key: ExecutionKey, s: Entity, t: Time, second: int, faults: nat -> Fault, i: nat)
    requires InSecond(t, second) && i <= MAX_ATTEMPTS
    requires Attempts(execs, key, RequestLaunch(s, t), faults, _ => [], i).1
    ensures var execs' := Attempts(execs, key, RequestLaunch(s, t), faults, _ => [], i).0;
            key in execs' && (IsLaunchOf(execs'[key], s.id, second) <==> key !in execs || IsLaunchOf(execs[key], s.id, second))
    decreases MAX_ATTEMPTS - i
  {
    var launch := RequestLaunch(s, t);
    var none: nat -> seq<Call> := _ => [];
    assert AdminRun(execs, none(i)) == execs;
    var (execs1, code) := AdminCreate(execs, Call(key, launch, faults(i)));
    if code.Unavailable? {
      AloneExecuteLaunchesIff(execs1, key, s, t, second, faults, i + 1);
    }
  }

  /** A free name that nobody else asks for goes to the launch of this fire: it has the schedule and the time, and under
      the kickoff argument of a cron schedule, and only there, the time again. */
  lemma {:induction false} LaunchCarriesFireTime(
    execs: Executions, key: ExecutionKey, s: Entity, t: Time, faults: nat -> Fault, others: nat -> seq<Call>, i: nat)
    requires i <= MAX_ATTEMPTS && Attempts(execs, key, RequestLaunch(s, t), faults, others, i).1
    requires key !in execs || execs[key] == RequestLaunch(s, t)
    requires forall j, c :: c in others(j) ==> c.key != key
    ensures var execs' := Attempts(execs, key, RequestLaunch(s, t), faults, others, i).0;
            && key in execs'
            && execs'[key] == Scheduled(s.id, t, if s.cronExpression == "" then map[] else map[s.kickoffTimeInputArg := t])
    decreases MAX_ATTEMPTS - i
  {
    var launch := RequestLaunch(s, t);
    var before := AdminRun(execs, others(i));
    OthersLeaveName(execs, others(i), key);
    var (execs1, code) := AdminCreate(before, Call(key, launch, faults(i)));
    if code.Unavailable? {
      LaunchCarriesFireTime(execs1, key, s, t, faults, others, i + 1);
    }
  }

  lemma {:induction false} OthersLeaveName(execs: Executions, calls: seq<Call>, key: ExecutionKey)
    requires forall c :: c in calls ==> c.key != key
    ensures key in AdminRun(execs, calls) <==> key in execs
    ensures key in execs ==> AdminRun(execs, calls)[key] == execs[key]
    decreases |calls|
  {
    if calls != [] {
      assert calls[0] in calls;
      OthersLeaveName(AdminCreate(execs, calls[0]).0, calls[1..], key);
    }
  }

  // ------------------------------------------------------------------------------------------------------------
  // At most one
  // ------------------------------------------------------------------------------------------------------------

  /** Every scheduler, whichever replica it runs in, names its requests the same way. */
  ghost predicate WellNamed(hash: Hash, c: Call) {
    c.launch.Scheduled? ==> c.key == RequestKey(hash, c.launch.id, c.launch.scheduledAt)
  }

  ghost predicate AllWellNamed(hash: Hash, execs: Executions) {
    forall k :: k in execs && execs[k].Scheduled? ==> k == RequestKey(hash, execs[k].id, execs[k].scheduledAt)
  }

  lemma {:induction false} AdminRunWellNamed(hash: Hash, execs: Executions, calls: seq<Call>)
    requires AllWellNamed(hash, execs) && forall c :: c in calls ==> WellNamed(hash, c)
    ensures AllWellNamed(hash, AdminRun(execs, calls))
    decreases |calls|
  {
    hide RequestKey;
    if calls != [] {
      assert calls[0] in calls;
      AdminRunWellNamed(hash, AdminCreate(execs, calls[0]).0, calls[1..]);
    }
  }

  /** The hash tells the texts of these two fires apart. */
  ghost predicate NoCollision(hash: Hash, a: Identifier, s: Time, b: Identifier, t: Time) {
    forall m, n :: InSecond(s, m) && InSecond(t, n) && hash(ExecutionPreimage(a, m)) == hash(ExecutionPreimage(b, n)) ==>
      ExecutionPreimage(a, m) == ExecutionPreimage(b, n)
  }

  /** The text behind a name holds the identifier and the second the time falls in. */
  lemma NameHoldsTheSecond(hash: Hash, id: Identifier, t: Time, n: int)
    requires Splittable(id) && InSecond(t, n)
    ensures RequestKey(hash, id, t).name == ScheduledExecutionName(hash, id, n)
    ensures ParseExecution(ExecutionPreimage(id, n)) == (id, n)
  {
    hide ScheduledExecutionName;
    UnixIsTheSecond(t, n);
    ExecutionPreimageRoundTrip(id, n);
  }

  /** Requests of different schedules, or for different seconds, go to different names, unless the hash confuses them; so
      two fires of a schedule that lie a second or more apart do. */
  lemma RequestKeysAreApart(hash: Hash, a: Identifier, s: Time, b: Identifier, t: Time)
    requires Splittable(a) && Splittable(b) && NoCollision(hash, a, s, b, t)
    ensures RequestKey(hash, a, s) == RequestKey(hash, b, t) <==> a == b && FloorSecond(s) == FloorSecond(t)
    ensures s - t >= NANOS_PER_SECOND || t - s >= NANOS_PER_SECOND ==> RequestKey(hash, a, s) != RequestKey(hash, b, t)
    ensures RequestKey(hash, a, s).project == a.project && RequestKey(hash, a, s).domain == a.domain
  {
    UnixIsTheSecond(s, Unix(s));
    UnixIsTheSecond(t, Unix(t));
    SameSecondIff(s, t);
    hide Unix, FloorSecond, InSecond, ScheduledExecutionName, ExecutionPreimage;
    ScheduledExecutionNameCollides(hash, a, Unix(s), b, Unix(t));
  }

  /** After any interleaving of calls, admin holds at most one execution per schedule and second. */
  lemma AtMostOnePerSecond(hash: Hash, calls: seq<Call>, k1: ExecutionKey, k2: ExecutionKey, id: Identifier, second: int)
    requires forall c :: c in calls ==> WellNamed(hash, c)
    requires var execs := AdminRun(map[], calls);
             k1 in execs && k2 in execs && IsLaunchOf(execs[k1], id, second) && IsLaunchOf(execs[k2], id, second)
    ensures k1 == k2
  {
    var execs := AdminRun(map[], calls);
    AdminRunWellNamed(hash, map[], calls);
    UnixIsTheSecond(execs[k1].scheduledAt, second);
    UnixIsTheSecond(execs[k2].scheduledAt, second);
  }

  lemma {:induction false} AdminRunAppend(execs: Executions, a: seq<Call>, b: seq<Call>)
    ensures AdminRun(execs, a + b) == AdminRun(AdminRun(execs, a), b)
    decreases |a|
  {
    if a == [] {
      assert a + b == b;
    } else {
      assert (a + b)[1..] == a[1..] + b;
      AdminRunAppend(AdminCreate(execs, a[0]).0, a[1..], b);
    }
  }

  /** A call that was not cut off is never undone: after every continuation of the run the name is held, and held by
      what held it right after the call. Where the hash tells this schedule's second apart from every other one in the
      run, and no hand-made execution uses the name, the holder is this schedule's launch. */
  lemma AnsweredCallIsNeverLost(hash: Hash, before: seq<Call>, c: Call, after: seq<Call>, id: Identifier, second: int)
    requires forall d :: d in before + [c] + after ==> WellNamed(hash, d)
    requires AdminCreate(AdminRun(map[], before), c).1 != Unavailable
    ensures c.key in AdminRun(map[], before + [c] + after)
    ensures (forall d :: d in before + [c] && d.key == c.key ==> IsLaunchOf(d.launch, id, second)) ==>
      IsLaunchOf(AdminRun(map[], before + [c] + after)[c.key], id, second)
  {
    var execs := AdminRun(map[], before);
    var execs1 := AdminCreate(execs, c).0;
    AdminRunAppend(map[], before + [c], after);
    AdminRunAppend(map[], before, [c]);
    assert AdminRun(execs, [c]) == execs1 by {
      assert [c][1..] == [];
    }
    AdminRunKeeps(execs1, after);
    HolderWasAsked(map[], before + [c], c.key);
  }

  /** An execution that admin holds was asked for by one of the calls. */
  lemma {:induction false} HolderWasAsked(execs: Executions, calls: seq<Call>, k: ExecutionKey)
    requires k in AdminRun(execs, calls)
    ensures (k in execs && AdminRun(execs, calls)[k] == execs[k])
         || exists d :: d in calls && d.key == k && d.launch == AdminRun(execs, calls)[k]
    decreases |calls|
  {
    if calls != [] {
      var execs1 := AdminCreate(execs, calls[0]).0;
      HolderWasAsked(execs1, calls[1..], k);
      assert calls[0] in calls;
    }
  }
}
