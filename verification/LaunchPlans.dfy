/**
 Enabling and disabling launch plan versions, with the schedule row each version may own.

 Enabling makes several separate calls (remove the old schedule, add the new one, switch the versions in a transaction)
 and any of them can fail; requests do not overlap.
 */
module LaunchPlans {
  import opened Wrappers

  datatype Expression =
    | NoExpression
    | CronExpression(text: string) // deprecated
    | Rate(value: nat, unit: string)
    | CronSchedule(text: string)

  datatype Schedule = Schedule(expression: Expression, kickoffArg: string)

  datatype Name = Name(project: string, domain: string, name: string)

  datatype Key = Key(name: Name, version: string)

  /** A version of a launch plan. Its schedule never changes. */
  datatype Plan = Plan(schedule: Option<Schedule>, active: bool)

  datatype ScheduleRow = ScheduleRow(cron: string, rateValue: nat, unit: string, kickoffArg: string, active: bool)

  /** The emptiness test does not look at the cron schedule variant. */
  predicate IsScheduleEmpty(schedule: Option<Schedule>) {
    schedule.None?
    || (&& schedule.value.kickoffArg == ""
        && !(schedule.value.expression.CronExpression? && schedule.value.expression.text != "")
        && !(schedule.value.expression.Rate? && schedule.value.expression.value != 0))
  }

  /** The scheduler takes rates and cron schedules only. */
  predicate IsAddable(schedule: Option<Schedule>) {
    schedule.Some? && (schedule.value.expression.Rate? || schedule.value.expression.CronSchedule?)
  }

  function RowFor(schedule: Schedule): ScheduleRow {
    match schedule.expression
    case Rate(value, unit) => ScheduleRow("", value, unit, schedule.kickoffArg, true)
    case CronSchedule(text) => ScheduleRow(text, 0, "", schedule.kickoffArg, true)
    case _ => ScheduleRow("", 0, "", schedule.kickoffArg, true)
  }

  type Plans = map<Key, Plan>
  type Schedules = map<Key, ScheduleRow>

  datatype State = State(plans: Plans, schedules: Schedules)

  /** Where a request meets a failing call, if it gets that far. */
  datatype Fault = NoFault | AtRemoveSchedule | AtAddSchedule | AtSetState

  datatype Reply = Done | NotFound | Exists | Failed

  predicate IsActive(plans: Plans, k: Key) { k in plans && plans[k].active }

  ghost predicate AtMostOneActive(plans: Plans) {
    forall k, k' :: IsActive(plans, k) && IsActive(plans, k') && k.name == k'.name ==> k == k'
  }

  /** The version of this name that is active. */
  ghost function ActiveVersion(plans: Plans, name: Name): (former: Option<Key>)
    ensures former.Some? ==> IsActive(plans, former.value) && former.value.name == name
    ensures former.None? ==> forall k :: IsActive(plans, k) ==> k.name != name
  {
    if k :| IsActive(plans, k) && k.name == name then Some(k) else None
  }

  // ------------------------------------------------------------------------------------------------------------
  // Requests
  // ------------------------------------------------------------------------------------------------------------

  /** A row that exists is only switched on. */
  function Activated(schedules: Schedules, k: Key, row: ScheduleRow): Schedules {
    schedules[k := if k in schedules then schedules[k].(active := true) else row]
  }

  /** A row that does not exist is not missed. */
  function Deactivated(schedules: Schedules, k: Key): Schedules {
    if k in schedules then schedules[k := schedules[k].(active := false)] else schedules
  }

  function WithState(plans: Plans, k: Key, active: bool): Plans
    requires k in plans
  {
    plans[k := plans[k].(active := active)]
  }

  function SetActive(plans: Plans, toEnable: Key, toDisable: Option<Key>): Plans
    requires toEnable in plans && (toDisable.Some? ==> toDisable.value in plans)
  {
    WithState(if toDisable.Some? then WithState(plans, toDisable.value, false) else plans, toEnable, true)
  }

  function OnCreate(s: State, k: Key, schedule: Option<Schedule>): (State, Reply) {
    if k in s.plans then (s, Exists) else (s.(plans := s.plans[k := Plan(schedule, false)]), Done)
  }

  /** The schedules once the formerly active version's has been removed. */
  ghost function OldRemoved(s: State, k: Key): Schedules {
    var former := ActiveVersion(s.plans, k.name);
    if former.Some? && !IsScheduleEmpty(s.plans[former.value].schedule) then Deactivated(s.schedules, former.value) else s.schedules
  }

  ghost function OnEnable(s: State, k: Key, fault: Fault): (State, Reply) {
    if k !in s.plans then (s, NotFound)
    else
      var former := ActiveVersion(s.plans, k.name);
      var removes := former.Some? && !IsScheduleEmpty(s.plans[former.value].schedule);
      var adds := !IsScheduleEmpty(s.plans[k].schedule);
      if removes && fault.AtRemoveSchedule? then (s, Failed)
      else
        var s1 := s.(schedules := OldRemoved(s, k));
        if adds && (fault.AtAddSchedule? || !IsAddable(s.plans[k].schedule)) then (s1, Failed)
        else
          var s2 := if adds then s1.(schedules := Activated(s1.schedules, k, RowFor(s.plans[k].schedule.value))) else s1;
          if fault.AtSetState? then (s2, Failed) else (s2.(plans := SetActive(s.plans, k, former)), Done)
  }

  function OnDisable(s: State, k: Key, fault: Fault): (State, Reply) {
    if k !in s.plans then (s, NotFound)
    else if s.plans[k].schedule.Some? && fault.AtRemoveSchedule? then (s, Failed)
    else
      var s1 := if s.plans[k].schedule.Some? then s.(schedules := Deactivated(s.schedules, k)) else s;
      if fault.AtSetState? then (s1, Failed) else (s1.(plans := WithState(s.plans, k, false)), Done)
  }

  class LaunchPlanManager {
    var plans: Plans
    var schedules: Schedules

    ghost function Contents(): State
      reads this
    {
      State(plans, schedules)
    }

    constructor ()
      ensures Contents() == EMPTY
    {
      plans := map[];
      schedules := map[];
    }

    method AddSchedule(k: Key, schedule: Schedule, fails: bool) returns (ok: bool)
      modifies `schedules
      ensures ok <==> !fails && IsAddable(Some(schedule))
      ensures schedules == if ok then Activated(old(schedules), k, RowFor(schedule)) else old(schedules)
    {
      var cron, rateValue, unit := "", 0, "";
      match schedule.expression {
        case Rate(value, u) =>
          rateValue := value;
          unit := u;
        case CronSchedule(text) =>
          cron := text;
        case _ =>
          return false;
      }
      if fails {
        return false;
      }
      if k !in schedules {
        schedules := schedules[k := ScheduleRow(cron, rateValue, unit, schedule.kickoffArg, true)];
      } else {
        schedules := schedules[k := schedules[k].(active := true)];
      }
      return true;
    }

    method RemoveSchedule(k: Key, fails: bool) returns (ok: bool)
      modifies `schedules
      ensures ok <==> !fails
      ensures schedules == if ok then Deactivated(old(schedules), k) else old(schedules)
    {
      if fails {
        return false;
      }
      if k in schedules {
        schedules := schedules[k := schedules[k].(active := false)];
      }
      return true;
    }

    method CreateLaunchPlan(k: Key, schedule: Option<Schedule>) returns (reply: Reply)
      modifies this
      ensures (Contents(), reply) == OnCreate(old(Contents()), k, schedule)
    {
      if k in plans {
        return Exists;
      }
      plans := plans[k := Plan(schedule, false)];
      return Done;
    }

    method UpdateSchedules(k: Key, former: Option<Key>, fault: Fault) returns (ok: bool)
      requires k in plans && (former.Some? ==> former.value in plans)
      requires AtMostOneActive(plans) && former == ActiveVersion(plans, k.name)
      modifies `schedules
      ensures !ok ==> OnEnable(old(Contents()), k, fault) == (Contents(), Failed)
      ensures ok && fault.AtSetState? ==> OnEnable(old(Contents()), k, fault) == (Contents(), Failed)
      ensures ok && !fault.AtSetState? ==>
        OnEnable(old(Contents()), k, fault) == (State(SetActive(plans, k, former), schedules), Done)
    {
      if former.Some? && !IsScheduleEmpty(plans[former.value].schedule) {
        ok := RemoveSchedule(former.value, fault.AtRemoveSchedule?);
        if !ok {
          return;
        }
      }
      if !IsScheduleEmpty(plans[k].schedule) {
        ok := AddSchedule(k, plans[k].schedule.value, fault.AtAddSchedule?);
        if !ok {
          return;
        }
      }
      ok := true;
    }

    method EnableLaunchPlan(k: Key, fault: Fault) returns (reply: Reply)
      requires AtMostOneActive(plans)
      modifies this
      ensures (Contents(), reply) == OnEnable(old(Contents()), k, fault)
    {
      if k !in plans {
        return NotFound;
      }
      var former := None;
      if exists f :: f in plans && plans[f].active && f.name == k.name {
        var f :| f in plans && plans[f].active && f.name == k.name;
        former := Some(f);
        assert IsActive(plans, f);
      }
      assert former == ActiveVersion(plans, k.name);
      var ok := UpdateSchedules(k, former, fault);
      if !ok {
        return Failed;
      }
      if fault.AtSetState? {
        return Failed;
      }
      if former.Some? {
        plans := plans[former.value := plans[former.value].(active := false)];
      }
      plans := plans[k := plans[k].(active := true)];
      return Done;
    }

    method DisableLaunchPlan(k: Key, fault: Fault) returns (reply: Reply)
      modifies this
      ensures (Contents(), reply) == OnDisable(old(Contents()), k, fault)
    {
      if k !in plans {
        return NotFound;
      }
      if plans[k].schedule.Some? {
        var ok := RemoveSchedule(k, fault.AtRemoveSchedule?);
        if !ok {
          return Failed;
        }
      }
      if fault.AtSetState? {
        return Failed;
      }
      plans := plans[k := plans[k].(active := false)];
      return Done;
    }
  }

  const EMPTY := State(map[], map[])

  datatype Request =
    | Create(key: Key, schedule: Option<Schedule>)
    | Enable(key: Key, fault: Fault)
    | Disable(key: Key, fault: Fault)

  ghost function Apply(s: State, r: Request): (State, Reply) {
    match r
    case Create(k, schedule) => OnCreate(s, k, schedule)
    case Enable(k, fault) => OnEnable(s, k, fault)
    case Disable(k, fault) => OnDisable(s, k, fault)
  }

  ghost function Run(s: State, requests: seq<Request>): State
    decreases |requests|
  {
    if requests == [] then s else Run(Apply(s, requests[0]).0, requests[1..])
  }

  /** No request of the run failed. */
  ghost predicate NoneFails(s: State, requests: seq<Request>)
    decreases |requests|
  {
    requests == [] || (!Apply(s, requests[0]).1.Failed? && NoneFails(Apply(s, requests[0]).0, requests[1..]))
  }

  // ------------------------------------------------------------------------------------------------------------
  // Every run, whatever fails
  // ------------------------------------------------------------------------------------------------------------

  /** Every schedule row belongs to a version and holds that version's schedule, which is not empty. */
  ghost predicate RowsMatch(s: State) {
    forall k :: k in s.schedules ==>
      && k in s.plans && IsAddable(s.plans[k].schedule) && !IsScheduleEmpty(s.plans[k].schedule)
      && s.schedules[k].(active := true) == RowFor(s.plans[k].schedule.value)
  }

  lemma StepKeepsOneActive(s: State, r: Request)
    requires AtMostOneActive(s.plans)
    ensures AtMostOneActive(Apply(s, r).0.plans)
  {
  }

  lemma AddedRowMatches(s: State, k: Key)
    requires RowsMatch(s) && k in s.plans && IsAddable(s.plans[k].schedule) && !IsScheduleEmpty(s.plans[k].schedule)
    ensures RowsMatch(s.(schedules := Activated(s.schedules, k, RowFor(s.plans[k].schedule.value))))
  {
  }

  lemma RemovedRowMatches(s: State, k: Key)
    requires RowsMatch(s)
    ensures RowsMatch(s.(schedules := Deactivated(s.schedules, k)))
  {
  }

  lemma SameSchedulesMatch(s: State, plans: Plans)
    requires RowsMatch(s)
    requires forall k :: k in s.plans ==> k in plans && plans[k].schedule == s.plans[k].schedule
    ensures RowsMatch(s.(plans := plans))
  {
  }

  lemma StepKeepsRows(s: State, r: Request)
    requires RowsMatch(s)
    ensures RowsMatch(Apply(s, r).0)
  {
    hide RowsMatch, RowFor, IsScheduleEmpty, Activated, Deactivated;
    var k, s' := r.key, Apply(s, r).0;
    if r.Enable? && k in s.plans {
      var former := ActiveVersion(s.plans, k.name);
      if former.Some? {
        RemovedRowMatches(s, former.value);
      }
      var s1 := s.(schedules := OldRemoved(s, k));
      if IsAddable(s.plans[k].schedule) && !IsScheduleEmpty(s.plans[k].schedule) {
        AddedRowMatches(s1, k);
      }
    } else if r.Disable? {
      RemovedRowMatches(s, k);
    }
    SameSchedulesMatch(s.(schedules := s'.schedules), s'.plans);
  }

  lemma {:induction false} RunKeepsOneActive(s: State, requests: seq<Request>)
    requires AtMostOneActive(s.plans) && RowsMatch(s)
    ensures AtMostOneActive(Run(s, requests).plans) && RowsMatch(Run(s, requests))
    decreases |requests|
  {
    hide Apply, AtMostOneActive, RowsMatch;
    if requests != [] {
      StepKeepsOneActive(s, requests[0]);
      StepKeepsRows(s, requests[0]);
      RunKeepsOneActive(Apply(s, requests[0]).0, requests[1..]);
    }
  }

  /** In every run at most one version of a name is active, even when calls fail half way through requests. */
  lemma AtMostOneVersionIsActive(requests: seq<Request>)
    ensures AtMostOneActive(Run(EMPTY, requests).plans)
  {
    RunKeepsOneActive(EMPTY, requests);
  }

  /** In every run a stored schedule row holds what its version was created with: the rate and its unit, or the cron text,
      and the kickoff argument. */
  lemma StoredRowHoldsSchedule(requests: seq<Request>, k: Key)
    requires k in Run(EMPTY, requests).schedules
    ensures var s := Run(EMPTY, requests);
            && k in s.plans && s.plans[k].schedule.Some?
            && s.schedules[k].kickoffArg == s.plans[k].schedule.value.kickoffArg
            && match s.plans[k].schedule.value.expression
               case Rate(value, unit) =>
                 s.schedules[k].rateValue == value && s.schedules[k].unit == unit && s.schedules[k].cron == ""
               case CronSchedule(text) =>
                 s.schedules[k].cron == text && s.schedules[k].rateValue == 0 && s.schedules[k].unit == ""
               case _ => false
  {
    RunKeepsOneActive(EMPTY, requests);
  }

  /** A version keeps the schedule it was created with. */
  lemma {:induction false} PlanKeepsSchedule(s: State, requests: seq<Request>, k: Key)
    requires k in s.plans
    ensures k in Run(s, requests).plans && Run(s, requests).plans[k].schedule == s.plans[k].schedule
    decreases |requests|
  {
    if requests != [] {
      PlanKeepsSchedule(Apply(s, requests[0]).0, requests[1..], k);
    }
  }

  /** A schedule counts as empty when it has neither a kickoff argument nor a deprecated cron text nor a rate above zero,
      whatever cron schedule it has; the scheduler takes rates and cron schedules. The two tests do not fit together: the
      schedules that count as something but cannot be added are the deprecated expressions and the bare kickoff
      arguments, and those that could be added but count as nothing are the cron schedules and zero rates without a
      kickoff argument. */
  lemma EmptyAndAddable(schedule: Schedule)
    ensures IsScheduleEmpty(None) && !IsAddable(None)
    ensures IsScheduleEmpty(Some(schedule)) <==>
              schedule.kickoffArg == "" && match schedule.expression
                                           case CronExpression(text) => text == ""
                                           case Rate(value, _) => value == 0
                                           case _ => true
    ensures !IsScheduleEmpty(Some(schedule)) && !IsAddable(Some(schedule)) <==>
              match schedule.expression
              case NoExpression => schedule.kickoffArg != ""
              case CronExpression(text) => text != "" || schedule.kickoffArg != ""
              case _ => false
    ensures IsScheduleEmpty(Some(schedule)) && IsAddable(Some(schedule)) <==>
              match schedule.expression
              case Rate(value, _) => value == 0 && schedule.kickoffArg == ""
              case CronSchedule(_) => schedule.kickoffArg == ""
              case _ => false
  {
  }

  /** A cron schedule without a kickoff argument counts as empty, so no run ever starts it. */
  lemma PlainCronScheduleNeverRuns(requests: seq<Request>, k: Key, text: string)
    requires var plans := Run(EMPTY, requests).plans; k in plans && plans[k].schedule == Some(Schedule(CronSchedule(text), ""))
    ensures !IsRunning(Run(EMPTY, requests), k)
  {
    RunKeepsOneActive(EMPTY, requests);
  }

  /** Enabling is done exactly when the version exists, no call fails, and its schedule is empty or can be added. */
  lemma EnableDoneIff(s: State, k: Key)
    ensures OnEnable(s, k, NoFault).1.Done? <==>
              k in s.plans && (IsScheduleEmpty(s.plans[k].schedule) || IsAddable(s.plans[k].schedule))
    ensures OnEnable(s, k, NoFault).1.NotFound? <==> k !in s.plans
    ensures OnDisable(s, k, NoFault).1 == if k in s.plans then Done else NotFound
  {
  }

  /** Which requests fail: a call that fails is met only where it is made. The schedule of the formerly active version is
      removed, and the version's own is added, only if it is not empty. */
  lemma RequestFailsIff(s: State, k: Key, fault: Fault)
    requires AtMostOneActive(s.plans)
    ensures OnEnable(s, k, fault).1.Failed? <==>
              && k in s.plans
              && (|| fault.AtSetState?
                  || (fault.AtRemoveSchedule? &&
                        exists k' :: IsActive(s.plans, k') && k'.name == k.name && !IsScheduleEmpty(s.plans[k'].schedule))
                  || (!IsScheduleEmpty(s.plans[k].schedule) && (fault.AtAddSchedule? || !IsAddable(s.plans[k].schedule))))
    ensures OnDisable(s, k, fault).1.Failed? <==>
              k in s.plans && (fault.AtSetState? || (fault.AtRemoveSchedule? && s.plans[k].schedule.Some?))
    ensures OnEnable(s, k, fault).1.Failed? ==> OnEnable(s, k, fault).0.plans == s.plans
    ensures OnDisable(s, k, fault).1.Failed? ==> OnDisable(s, k, fault).0.plans == s.plans
  {
  }

  /** A version that is enabled is afterwards the one active version of its name, also when it already was; and its
      schedule is running exactly when it is not empty, or was left running. */
  lemma EnableEffect(s: State, k: Key)
    requires AtMostOneActive(s.plans) && OnEnable(s, k, NoFault).1.Done?
    ensures var s' := OnEnable(s, k, NoFault).0;
            && (forall k' :: IsActive(s'.plans, k') && k'.name == k.name <==> k' == k)
            && (forall k' :: k' in s.plans && k'.name != k.name ==> k' in s'.plans && s'.plans[k'] == s.plans[k'])
            && (forall k': Key :: k'.name != k.name ==> (IsRunning(s', k') <==> IsRunning(s, k')))
            && (IsRunning(s', k) <==> !IsScheduleEmpty(s.plans[k].schedule) || IsRunning(s, k))
  {
  }

  // ------------------------------------------------------------------------------------------------------------
  // Runs in which nothing fails
  // ------------------------------------------------------------------------------------------------------------

  predicate IsRunning(s: State, k: Key) { k in s.schedules && s.schedules[k].active }

  /** The schedules that run are exactly the non-empty ones of active versions. */
  ghost predicate Agrees(s: State) {
    forall k :: IsRunning(s, k) <==> IsActive(s.plans, k) && !IsScheduleEmpty(s.plans[k].schedule)
  }

  ghost predicate Inv(s: State) { AtMostOneActive(s.plans) && RowsMatch(s) && Agrees(s) }

  lemma EnableKeepsAgreement(s: State, k: Key)
    requires Inv(s) && OnEnable(s, k, NoFault).1.Done?
    ensures Agrees(OnEnable(s, k, NoFault).0)
  {
    var s' := OnEnable(s, k, NoFault).0;
    forall k' ensures IsRunning(s', k') <==> IsActive(s'.plans, k') && !IsScheduleEmpty(s'.plans[k'].schedule) {
      assert IsRunning(s, k') <==> IsActive(s.plans, k') && !IsScheduleEmpty(s.plans[k'].schedule);
      if k'.name == k.name {
        assert IsActive(s.plans, k') ==> ActiveVersion(s.plans, k.name) == Some(k');
      }
    }
  }

  lemma CreateKeepsAgreement(s: State, k: Key, schedule: Option<Schedule>)
    requires RowsMatch(s) && Agrees(s)
    ensures Agrees(OnCreate(s, k, schedule).0)
  {
  }

  lemma DisableKeepsAgreement(s: State, k: Key, fault: Fault)
    requires RowsMatch(s) && Agrees(s) && !OnDisable(s, k, fault).1.Failed?
    ensures Agrees(OnDisable(s, k, fault).0)
  {
  }

  lemma StepKeepsInv(s: State, r: Request)
    requires Inv(s) && !Apply(s, r).1.Failed?
    ensures Inv(Apply(s, r).0)
  {
    hide AtMostOneActive, RowsMatch, Agrees, OnCreate, OnDisable;
    StepKeepsOneActive(s, r);
    StepKeepsRows(s, r);
    match r
    case Create(k, schedule) => CreateKeepsAgreement(s, k, schedule);
    case Disable(k, fault) => DisableKeepsAgreement(s, k, fault);
    case Enable(k, fault) =>
      if Apply(s, r).1.Done? {
        SameWithoutFault(s, k, fault);
        EnableKeepsAgreement(s, k);
      }
  }

  /** A fault that was not met made no difference. */
  lemma SameWithoutFault(s: State, k: Key, fault: Fault)
    requires OnEnable(s, k, fault).1.Done?
    ensures OnEnable(s, k, NoFault) == OnEnable(s, k, fault)
  {
  }

  /** While no request fails, at most one version of a name is active, and the running schedules of a name are exactly
      that version's, when it is not empty. */
  lemma {:induction false} RunKeepsInv(s: State, requests: seq<Request>)
    requires Inv(s) && NoneFails(s, requests)
    ensures Inv(Run(s, requests))
    decreases |requests|
  {
    hide Inv, Apply;
    if requests != [] {
      StepKeepsInv(s, requests[0]);
      RunKeepsInv(Apply(s, requests[0]).0, requests[1..]);
    }
  }

  lemma SchedulesFollowActiveVersions(requests: seq<Request>)
    requires NoneFails(EMPTY, requests)
    ensures AtMostOneActive(Run(EMPTY, requests).plans) && Agrees(Run(EMPTY, requests))
  {
    RunKeepsInv(EMPTY, requests);
  }

  /** Without failing calls, an enable request still breaks the agreement exactly when its version's schedule is neither
      empty nor addable and the version it would replace has a running schedule: that schedule is removed first. */
  lemma EnableAgreesIff(s: State, k: Key)
    requires Inv(s) && k in s.plans
    ensures Agrees(OnEnable(s, k, NoFault).0) <==>
              || IsScheduleEmpty(s.plans[k].schedule) || IsAddable(s.plans[k].schedule)
              || forall k' :: IsActive(s.plans, k') && k'.name == k.name ==> IsScheduleEmpty(s.plans[k'].schedule)
  {
    var s' := OnEnable(s, k, NoFault).0;
    var former := ActiveVersion(s.plans, k.name);
    if IsScheduleEmpty(s.plans[k].schedule) || IsAddable(s.plans[k].schedule) {
      EnableKeepsAgreement(s, k);
    } else if former.Some? && !IsScheduleEmpty(s.plans[former.value].schedule) {
      assert IsRunning(s, former.value) && !IsRunning(s', former.value) && IsActive(s'.plans, former.value);
    } else {
      assert s' == s;
    }
  }

  // ------------------------------------------------------------------------------------------------------------
  // Interrupted requests
  // ------------------------------------------------------------------------------------------------------------

  lemma RemoveTwice(schedules: Schedules, k: Key)
    ensures Deactivated(Deactivated(schedules, k), k) == Deactivated(schedules, k)
  {
  }

  lemma AddTwice(schedules: Schedules, k: Key, row: ScheduleRow)
    requires row.active
    ensures Activated(Activated(schedules, k, row), k, row) == Activated(schedules, k, row)
  {
  }

  lemma RemoveAndAddTwice(schedules: Schedules, former: Key, k: Key, row: ScheduleRow)
    requires row.active
    ensures var once := Activated(Deactivated(schedules, former), k, row); Activated(Deactivated(once, former), k, row) == once
  {
  }

  lemma InterruptionIsRepaired(s: State, k: Key, fault: Fault)
    requires OnEnable(s, k, fault).1.Failed?
    ensures OnEnable(s, k, fault).0.plans == s.plans
    ensures OnEnable(OnEnable(s, k, fault).0, k, NoFault) == OnEnable(s, k, NoFault)
  {
    hide Activated, Deactivated, SetActive, IsScheduleEmpty;
    var former := ActiveVersion(s.plans, k.name);
    if former.Some? {
      RemoveTwice(s.schedules, former.value);
    }
    if IsAddable(s.plans[k].schedule) {
      var row := RowFor(s.plans[k].schedule.value);
      AddTwice(s.schedules, k, row);
      if former.Some? {
        RemoveAndAddTwice(s.schedules, former.value, k, row);
      }
    }
  }

  ghost function Repeated(s: State, k: Key, faults: seq<Fault>): State
    decreases |faults|
  {
    if faults == [] then s else Repeated(OnEnable(s, k, faults[0]).0, k, faults[1..])
  }

  ghost predicate AllFail(s: State, k: Key, faults: seq<Fault>)
    decreases |faults|
  {
    faults == [] || (OnEnable(s, k, faults[0]).1.Failed? && AllFail(OnEnable(s, k, faults[0]).0, k, faults[1..]))
  }

  /** However often enabling a version is interrupted, and wherever, repeating the request to completion leaves what an
      uninterrupted request would have left. */
  lemma {:induction false} RepeatedRequestRepairs(s: State, k: Key, faults: seq<Fault>)
    requires AllFail(s, k, faults)
    ensures OnEnable(Repeated(s, k, faults), k, NoFault) == OnEnable(s, k, NoFault)
    decreases |faults|
  {
    if faults != [] {
      InterruptionIsRepaired(s, k, faults[0]);
      hide OnEnable;
      RepeatedRequestRepairs(OnEnable(s, k, faults[0]).0, k, faults[1..]);
    }
  }

  /** Which schedules run after a completed request. */
  lemma EnabledRunning(s: State, k: Key, k': Key)
    requires AtMostOneActive(s.plans) && OnEnable(s, k, NoFault).1.Done?
    ensures IsRunning(OnEnable(s, k, NoFault).0, k') <==>
              if k' == k then !IsScheduleEmpty(s.plans[k].schedule) || IsRunning(s, k)
              else IsRunning(s, k') && !(k'.name == k.name && IsActive(s.plans, k') && !IsScheduleEmpty(s.plans[k'].schedule))
  {
  }

  /** The request had come as far as starting its version's schedule. */
  predicate Started(s: State, k: Key, fault: Fault) {
    k in s.plans && fault.AtSetState? && !IsScheduleEmpty(s.plans[k].schedule) && IsAddable(s.plans[k].schedule)
  }

  /** Which schedules run after a request that failed. */
  lemma InterruptedRunning(s: State, k: Key, fault: Fault, k': Key)
    requires AtMostOneActive(s.plans) && OnEnable(s, k, fault).1.Failed?
    ensures IsRunning(OnEnable(s, k, fault).0, k') ==> IsRunning(s, k') || (k' == k && Started(s, k, fault))
    ensures k' == k && Started(s, k, fault) ==> IsRunning(OnEnable(s, k, fault).0, k')
    ensures IsRunning(s, k') && !IsRunning(OnEnable(s, k, fault).0, k') ==> k'.name == k.name && IsActive(s.plans, k')
  {
  }

  lemma AgreesByKey(s: State)
    requires forall k :: IsRunning(s, k) <==> IsActive(s.plans, k) && !IsScheduleEmpty(s.plans[k].schedule)
    ensures Agrees(s)
  {
  }

  lemma EnableKeepsSchedule(s: State, k: Key, k': Key)
    ensures var s' := OnEnable(s, k, NoFault).0;
            (k' in s'.plans <==> k' in s.plans) && (k' in s.plans ==> s'.plans[k'].schedule == s.plans[k'].schedule)
  {
  }

  lemma RepairedAt(s: State, k1: Key, fault: Fault, k2: Key, k': Key)
    requires Inv(s) && k1.name == k2.name && OnEnable(s, k1, fault).1.Failed?
    requires OnEnable(OnEnable(s, k1, fault).0, k2, NoFault).1.Done?
    requires k1 == k2 || IsActive(s.plans, k1) || !Started(s, k1, fault)
    ensures var s2 := OnEnable(OnEnable(s, k1, fault).0, k2, NoFault).0;
            IsRunning(s2, k') <==> IsActive(s2.plans, k') && !IsScheduleEmpty(s2.plans[k'].schedule)
  {
    hide OnEnable, RowsMatch, IsScheduleEmpty;
    InterruptionIsRepaired(s, k1, fault);
    RequestFailsIff(s, k1, fault);
    var s1 := OnEnable(s, k1, fault).0;
    EnableDoneIff(s1, k2);
    EnableEffect(s1, k2);
    EnableKeepsSchedule(s1, k2, k');
    InterruptedRunning(s, k1, fault, k');
    EnabledRunning(s1, k2, k');
    assert IsRunning(s, k') <==> IsActive(s.plans, k') && !IsScheduleEmpty(s.plans[k'].schedule);
  }

  /** Enabling another version of the name after an interruption brings schedules and versions into agreement exactly
      unless the interrupted request had come as far as starting the schedule of a version that was not active. */
  lemma AnotherRequestRepairsIff(s: State, k1: Key, fault: Fault, k2: Key)
    requires Inv(s) && k1.name == k2.name && OnEnable(s, k1, fault).1.Failed?
    requires OnEnable(OnEnable(s, k1, fault).0, k2, NoFault).1.Done?
    ensures Agrees(OnEnable(OnEnable(s, k1, fault).0, k2, NoFault).0) <==>
              k1 == k2 || IsActive(s.plans, k1) || !Started(s, k1, fault)
  {
    InterruptionIsRepaired(s, k1, fault);
    var s1 := OnEnable(s, k1, fault).0;
    EnableEffect(s1, k2);
    assert k2 in s1.plans && k1 in s.plans;
    hide OnEnable, RowsMatch, IsScheduleEmpty, Started;
    var s2 := OnEnable(s1, k2, NoFault).0;
    if k1 != k2 && !IsActive(s.plans, k1) && Started(s, k1, fault) {
      InterruptedRunning(s, k1, fault, k1);
      EnabledRunning(s1, k2, k1);
      assert IsRunning(s2, k1) && !IsActive(s2.plans, k1);
    } else {
      hide IsRunning, Agrees, AtMostOneActive;
      forall k' ensures IsRunning(s2, k') <==> IsActive(s2.plans, k') && !IsScheduleEmpty(s2.plans[k'].schedule) {
        RepairedAt(s, k1, fault, k2, k');
      }
      AgreesByKey(s2);
    }
  }

  /** Only the same request repairs: when another version is enabled instead, the schedule added by the interrupted
      request keeps running for a version that is not active. */
  lemma AnotherRequestLeavesAStraySchedule(name: Name)
    ensures var v := (version: string) => Key(name, version);
            var plan := Some(Schedule(Rate(1, "DAY"), ""));
            var s := Run(EMPTY, [Create(v("1"), plan), Create(v("2"), plan), Enable(v("1"), AtSetState), Enable(v("2"), NoFault)]);
            IsRunning(s, v("1")) && !IsActive(s.plans, v("1")) && IsRunning(s, v("2")) && IsActive(s.plans, v("2"))
  {
    var k1, k2 := Key(name, "1"), Key(name, "2");
    var plan := Some(Schedule(Rate(1, "DAY"), ""));
    var r1, r2, r3, r4 := Create(k1, plan), Create(k2, plan), Enable(k1, AtSetState), Enable(k2, NoFault);
    var s1 := Apply(EMPTY, r1).0;
    var s2 := Apply(s1, r2).0;
    assert s2 == State(map[k1 := Plan(plan, false), k2 := Plan(plan, false)], map[]);
    var s3 := Apply(s2, r3).0;
    assert s3 == s2.(schedules := map[k1 := RowFor(plan.value)]);
    var s4 := Apply(s3, r4).0;
    assert s4.schedules == map[k1 := RowFor(plan.value), k2 := RowFor(plan.value)];
    assert [r1, r2, r3, r4][1..] == [r2, r3, r4] && [r2, r3, r4][1..] == [r3, r4] && [r3, r4][1..] == [r4];
    hide Apply;
    assert Run(s3, [r4]) == s4;
    assert Run(s2, [r3, r4]) == s4;
    assert Run(s1, [r2, r3, r4]) == s4;
  }

  /** Disabling a version stops its schedule and its activity, whatever state earlier failures left, and touches no other
      version. */
  lemma DisableStopsVersion(s: State, k: Key)
    requires RowsMatch(s) && k in s.plans
    ensures var (s', reply) := OnDisable(s, k, NoFault);
            && reply.Done? && !IsRunning(s', k) && !IsActive(s'.plans, k)
            && s'.plans.Keys == s.plans.Keys && s'.schedules.Keys == s.schedules.Keys
            && (forall k' :: k' in s.plans && k' != k ==> s'.plans[k'] == s.plans[k'])
            && (forall k' :: k' in s.schedules && k' != k ==> s'.schedules[k'] == s.schedules[k'])
  {
  }
}
