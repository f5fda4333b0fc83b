/**
 The life of a task execution row: created by the first event for an attempt, moved by later phases and by later
 versions of a phase.
 */
module TaskExecution {
  import opened Wrappers
  import opened TaskLogs
  import W = WorkflowExecution
  import N = NodeExecution

  datatype Phase =
    | Undefined | Queued | Initializing | WaitingForResources | Running | Succeeded | Aborted | Failed | Unknown(number: int)

  predicate IsTerminal(p: Phase) { p.Succeeded? || p.Failed? || p.Aborted? }

  /** The phases from which entering RUNNING marks the start. */
  predicate IsBeforeStart(p: Phase) { p.Queued? || p.Undefined? }

  datatype Closure = Closure(
    phase: Phase, createdAt: Time, updatedAt: Time, logs: seq<TaskLog>, reason: string, taskType: string,
    startedAt: Option<Time>, duration: Option<int>, output: N.Output)

  datatype Row = Row(
    phase: Phase, version: nat, inputUri: string, closure: Closure, startedAt: Option<Time>, createdAt: Time,
    updatedAt: Time, duration: int)

  datatype Event = Event(
    phase: Phase, version: nat, occurredAt: Option<Time>, producer: string, inputUri: string, taskType: string,
    logs: seq<TaskLog>, reason: string, result: W.EventResult)

  /** What the handler finds: the cluster recorded for the workflow execution, whether the node exists, and what becomes
      of inline outputs. */
  datatype Found = Found(cluster: Option<string>, nodeExists: bool, policy: W.Policy)

  datatype Reply =
    | Accepted | MissingExecution | IncompatibleCluster | MissingNode | AlreadyRecorded | AlreadyTerminal | BadTimestamp
    | OffloadFailed

  // ------------------------------------------------------------------------------------------------------------
  // Transformers
  // ------------------------------------------------------------------------------------------------------------

  class TaskModel {
    var row: Row

    constructor (row: Row)
      ensures this.row == row
    {
      this.row := row;
    }

    method AddTaskStartedState(e: Event, closure: Closure) returns (closure': Closure, reply: Reply)
      modifies this
      ensures reply == (if e.occurredAt.None? then BadTimestamp else Accepted)
      ensures reply.Accepted? ==> row == old(row).(startedAt := e.occurredAt) && closure' == closure.(startedAt := e.occurredAt)
    {
      if e.occurredAt.None? {
        return closure, BadTimestamp;
      }
      row := row.(startedAt := e.occurredAt);
      return closure.(startedAt := e.occurredAt), Accepted;
    }

    method AddTaskTerminalState(e: Event, closure: Closure, policy: W.Policy) returns (closure': Closure, reply: Reply)
      modifies this
      ensures reply == TerminalReply(old(row).startedAt, e, policy)
      ensures reply.Accepted? ==>
        && row == old(row).(duration := EndDuration(old(row).startedAt, e, old(row).duration))
        && closure' == Closed(old(row).startedAt, closure, e, policy)
    {
      closure' := closure;
      if row.startedAt.Some? {
        if e.occurredAt.None? {
          return closure', BadTimestamp;
        }
        closure' := closure'.(startedAt := row.startedAt);
        row := row.(duration := e.occurredAt.value - row.startedAt.value);
        closure' := closure'.(duration := Some(row.duration));
      }
      if e.result.ResultUri? && e.result.uri != "" {
        closure' := closure'.(output := N.OutputUri(e.result.uri));
      } else if e.result.ResultData? {
        match policy
        case StoreInline =>
          closure' := closure'.(output := N.OutputData(e.result.data));
        case Offload(uri) =>
          if uri.None? {
            return closure', OffloadFailed;
          }
          closure' := closure'.(output := N.OutputUri(uri.value));
      } else if e.result.ResultError? {
        closure' := closure'.(output := N.Failure(e.result.error));
      }
      reply := Accepted;
    }

    method UpdateTaskExecutionModel(e: Event, policy: W.Policy) returns (reply: Reply)
      modifies this
      ensures reply == UpdateReply(old(row), e, policy)
      ensures reply.Accepted? ==> row == Updated(old(row), e, policy)
    {
      var closure := row.closure;
      var existingPhase := row.phase;
      row := row.(phase := e.phase);
      row := row.(version := e.version);
      closure := closure.(phase := e.phase);
      var logs := MergeLogs(closure.logs, e.logs);
      closure := closure.(logs := logs);
      if |e.reason| > 0 {
        closure := closure.(reason := e.reason);
      }
      if IsBeforeStart(existingPhase) && row.phase.Running? {
        closure, reply := AddTaskStartedState(e, closure);
        if !reply.Accepted? {
          return;
        }
      }
      if IsTerminal(e.phase) {
        closure, reply := AddTaskTerminalState(e, closure, policy);
        if !reply.Accepted? {
          return;
        }
      }
      if e.occurredAt.None? {
        return BadTimestamp;
      }
      closure := closure.(updatedAt := e.occurredAt.value);
      row := row.(closure := closure);
      row := row.(updatedAt := e.occurredAt.value);
      reply := Accepted;
    }
  }

  method CreateTaskExecutionModel(e: Event, policy: W.Policy) returns (model: Option<TaskModel>, reply: Reply)
    ensures reply == CreateReply(e, policy) && (model.Some? <==> reply.Accepted?)
    ensures model.Some? ==> fresh(model.value) && model.value.row == Created(e, policy)
  {
    var at := if e.occurredAt.Some? then e.occurredAt.value else 0;
    var closure := Closure(e.phase, at, at, e.logs, e.reason, e.taskType, None, None, N.NoOutput);
    var m := new TaskModel(Row(e.phase, e.version, e.inputUri, closure, None, at, at, 0));
    if e.phase.Running? {
      closure, reply := m.AddTaskStartedState(e, closure);
      if !reply.Accepted? {
        return None, reply;
      }
    }
    if IsTerminal(e.phase) {
      closure, reply := m.AddTaskTerminalState(e, closure, policy);
      if !reply.Accepted? {
        return None, reply;
      }
    }
    m.row := m.row.(closure := closure);
    if e.occurredAt.None? {
      return None, BadTimestamp;
    }
    return Some(m), Accepted;
  }

  function TerminalReply(startedAt: Option<Time>, e: Event, policy: W.Policy): Reply {
    if startedAt.Some? && e.occurredAt.None? then BadTimestamp
    else if e.result.ResultData? && policy == W.Offload(None) then OffloadFailed
    else Accepted
  }

  function EndDuration(startedAt: Option<Time>, e: Event, current: int): int {
    if startedAt.Some? && e.occurredAt.Some? then e.occurredAt.value - startedAt.value else current
  }

  function Closed(startedAt: Option<Time>, closure: Closure, e: Event, policy: W.Policy): Closure {
    closure.(
      startedAt := if startedAt.Some? then startedAt else closure.startedAt,
      duration := if startedAt.Some? && e.occurredAt.Some? then Some(e.occurredAt.value - startedAt.value) else closure.duration,
      output := N.ResultOutput(e.result, policy, closure.output))
  }

  function UpdateReply(r: Row, e: Event, policy: W.Policy): Reply {
    if IsTerminal(e.phase) && !TerminalReply(r.startedAt, e, policy).Accepted? then TerminalReply(r.startedAt, e, policy)
    else if e.occurredAt.None? then BadTimestamp
    else Accepted
  }

  /** The row an update asks for. */
  function Updated(r: Row, e: Event, policy: W.Policy): Row {
    var t := if e.occurredAt.Some? then e.occurredAt.value else r.updatedAt;
    var starts := IsBeforeStart(r.phase) && e.phase.Running?;
    var c := if IsTerminal(e.phase) then Closed(r.startedAt, r.closure, e, policy) else r.closure;
    r.(phase := e.phase, version := e.version, updatedAt := t,
       startedAt := if starts then e.occurredAt else r.startedAt,
       duration := if IsTerminal(e.phase) then EndDuration(r.startedAt, e, r.duration) else r.duration,
       closure := c.(
         phase := e.phase, updatedAt := t, logs := Merged(r.closure.logs, e.logs),
         reason := if e.reason != "" then e.reason else r.closure.reason,
         startedAt := if starts then e.occurredAt else c.startedAt))
  }

  function CreateReply(e: Event, policy: W.Policy): Reply {
    if e.phase.Running? && e.occurredAt.None? then BadTimestamp
    else if IsTerminal(e.phase) && e.result.ResultData? && policy == W.Offload(None) then OffloadFailed
    else if e.occurredAt.None? then BadTimestamp
    else Accepted
  }

  /** The row the first event asks for. */
  function Created(e: Event, policy: W.Policy): Row {
    var at := if e.occurredAt.Some? then e.occurredAt.value else 0;
    var started := if e.phase.Running? then e.occurredAt else None;
    Row(e.phase, e.version, e.inputUri,
        Closure(e.phase, at, at, e.logs, e.reason, e.taskType, started, None,
                if IsTerminal(e.phase) then N.ResultOutput(e.result, policy, N.NoOutput) else N.NoOutput),
        started, at, at, 0)
  }

  // ------------------------------------------------------------------------------------------------------------
  // The manager. An update writes the whole row.
  // ------------------------------------------------------------------------------------------------------------

  datatype Key = Key(task: string, node: N.Key, retryAttempt: nat)

  type Tasks = map<Key, Row>

  function Precheck(e: Event, f: Found): Reply {
    if f.cluster.None? then MissingExecution
    else if !N.ClusterAllowed(f.cluster.value, e.producer) then IncompatibleCluster
    else Accepted
  }

  function LaterEventReply(r: Row, e: Event, f: Found): Reply {
    if r.phase == e.phase && r.version >= e.version then AlreadyRecorded
    else if IsTerminal(r.phase) then AlreadyTerminal
    else UpdateReply(r, e, f.policy)
  }

  function EventReply(tasks: Tasks, k: Key, e: Event, f: Found): Reply {
    if !Precheck(e, f).Accepted? then Precheck(e, f)
    else if k in tasks then LaterEventReply(tasks[k], e, f)
    else if !f.nodeExists then MissingNode
    else CreateReply(e, f.policy)
  }

  function OnEvent(tasks: Tasks, k: Key, e: Event, f: Found): Tasks {
    if !EventReply(tasks, k, e, f).Accepted? then tasks
    else tasks[k := if k in tasks then Updated(tasks[k], e, f.policy) else Created(e, f.policy)]
  }

  class TaskExecutionManager {
    var tasks: Tasks

    constructor ()
      ensures tasks == map[]
    {
      tasks := map[];
    }

    method CreateTaskExecutionEvent(k: Key, e: Event, f: Found) returns (reply: Reply)
      modifies this
      ensures reply == EventReply(old(tasks), k, e, f) && tasks == OnEvent(old(tasks), k, e, f)
    {
      if f.cluster.None? {
        return MissingExecution;
      }
      if W.IsRealProducer(e.producer) && f.cluster.value != e.producer {
        return IncompatibleCluster;
      }
      if k !in tasks {
        if !f.nodeExists {
          return MissingNode;
        }
        var model;
        model, reply := CreateTaskExecutionModel(e, f.policy);
        if model.Some? {
          tasks := tasks[k := model.value.row];
        }
        return;
      }
      var model := new TaskModel(tasks[k]);
      if model.row.phase == e.phase && model.row.version >= e.version {
        return AlreadyRecorded;
      }
      if IsTerminal(model.row.phase) {
        return AlreadyTerminal;
      }
      reply := model.UpdateTaskExecutionModel(e, f.policy);
      if reply.Accepted? {
        tasks := tasks[k := model.row];
      }
    }
  }

  // ------------------------------------------------------------------------------------------------------------
  // A row is a function of its history
  // ------------------------------------------------------------------------------------------------------------

  datatype Entry = Entry(event: Event, policy: W.Policy)

  function At(e: Entry): Time { if e.event.occurredAt.Some? then e.event.occurredAt.value else 0 }

  /** Event i marks the start: it enters RUNNING, as the first event or from a phase before the start. */
  predicate Starts(log: seq<Entry>, i: int)
    requires 0 <= i < |log|
  {
    log[i].event.phase.Running? && (i == 0 || IsBeforeStart(log[i - 1].event.phase))
  }

  function LastStart(log: seq<Entry>): Option<Time> {
    if log == [] then None else if Starts(log, |log| - 1) then Some(At(Last(log))) else LastStart(Front(log))
  }

  /** From the latest start to the terminal event, which is last. */
  function RunTime(log: seq<Entry>): Option<int> {
    if log != [] && IsTerminal(Last(log).event.phase) && LastStart(log).Some? then Some(At(Last(log)) - LastStart(log).value)
    else None
  }

  function LastReason(log: seq<Entry>): string {
    if log == [] then "" else if Last(log).event.reason != "" then Last(log).event.reason else LastReason(Front(log))
  }

  function LogLists(log: seq<Entry>): seq<seq<TaskLog>> { seq(|log|, i requires 0 <= i < |log| => log[i].event.logs) }

  function RowOf(log: seq<Entry>): Row
    requires log != []
  {
    var first, last := log[0], Last(log);
    Row(last.event.phase, last.event.version, first.event.inputUri,
        Closure(last.event.phase, At(first), At(last), Stored(LogLists(log)), LastReason(log), first.event.taskType,
                LastStart(log), RunTime(log),
                if IsTerminal(last.event.phase) then N.ResultOutput(last.event.result, last.policy, N.NoOutput) else N.NoOutput),
        LastStart(log), At(first), At(last),
        if RunTime(log).Some? then RunTime(log).value else 0)
  }

  /** Every accepted event carries a time; nothing follows a terminal event; and within a phase versions grow. */
  ghost predicate LogOk(log: seq<Entry>) {
    && log != []
    && (forall i :: 0 <= i < |log| ==> log[i].event.occurredAt.Some?)
    && (forall i :: 0 <= i < |log| - 1 ==> !IsTerminal(log[i].event.phase))
    && (forall i :: 0 <= i < |log| - 1 && log[i].event.phase == log[i + 1].event.phase ==>
          log[i].event.version < log[i + 1].event.version)
  }

  ghost predicate IsHistory(r: Row, log: seq<Entry>) { LogOk(log) && r == RowOf(log) }

  lemma FirstEventIsHistory(e: Event, policy: W.Policy)
    requires CreateReply(e, policy).Accepted?
    ensures IsHistory(Created(e, policy), [Entry(e, policy)])
  {
    var log := [Entry(e, policy)];
    assert Front(log) == [] && Last(log) == log[0];
    assert LastStart(log) == if e.phase.Running? then e.occurredAt else None;
    assert LastReason(log) == e.reason;
    assert LogLists(log)[..0] == [] && Stored([]) == [] && Merged([], e.logs) == e.logs;
  }

  /** An accepted event extends the history, and the row it leaves is the row of the longer history. */
  lemma EventExtendsRow(r: Row, log: seq<Entry>, e: Event, f: Found)
    requires IsHistory(r, log) && LaterEventReply(r, e, f).Accepted?
    ensures IsHistory(Updated(r, e, f.policy), log + [Entry(e, f.policy)])
  {
    hide Merged;
    var log' := log + [Entry(e, f.policy)];
    assert Front(log') == log && Last(log') == Entry(e, f.policy) && log'[0] == log[0];
    assert log'[|log| - 1] == Last(log);
    assert LogLists(log')[..|log|] == LogLists(log);
    assert RunTime(log) == None;
    assert Updated(r, e, f.policy).closure == RowOf(log').closure;
  }

  datatype Step = Step(key: Key, event: Event, found: Found)

  datatype Traced = Traced(tasks: Tasks, log: map<Key, seq<Entry>>)

  function Apply(t: Traced, s: Step): Traced {
    if EventReply(t.tasks, s.key, s.event, s.found).Accepted? then
      var before := if s.key in t.log then t.log[s.key] else [];
      Traced(OnEvent(t.tasks, s.key, s.event, s.found), t.log[s.key := before + [Entry(s.event, s.found.policy)]])
    else t
  }

  function Run(t: Traced, steps: seq<Step>): Traced
    decreases |steps|
  {
    if steps == [] then t else Run(Apply(t, steps[0]), steps[1..])
  }

  const EMPTY := Traced(map[], map[])

  ghost predicate Inv(t: Traced) {
    t.log.Keys == t.tasks.Keys && forall k :: k in t.log ==> IsHistory(t.tasks[k], t.log[k])
  }

  lemma StepKeepsInv(t: Traced, s: Step)
    requires Inv(t)
    ensures Inv(Apply(t, s))
  {
    hide IsHistory, Created, Updated;
    var k := s.key;
    if EventReply(t.tasks, k, s.event, s.found).Accepted? {
      if k in t.tasks {
        EventExtendsRow(t.tasks[k], t.log[k], s.event, s.found);
      } else {
        assert [] + [Entry(s.event, s.found.policy)] == [Entry(s.event, s.found.policy)];
        FirstEventIsHistory(s.event, s.found.policy);
      }
    }
  }

  lemma {:induction false} RunKeepsInv(t: Traced, steps: seq<Step>)
    requires Inv(t)
    ensures Inv(Run(t, steps))
    decreases |steps|
  {
    hide Inv, Apply;
    if steps != [] {
      StepKeepsInv(t, steps[0]);
      RunKeepsInv(Apply(t, steps[0]), steps[1..]);
    }
  }

  /** Every stored row is determined by the events accepted for it, among which a repeated phase always comes with a
      higher version. */
  lemma StoredRowIsItsHistory(steps: seq<Step>, k: Key)
    requires k in Run(EMPTY, steps).tasks
    ensures var t := Run(EMPTY, steps); k in t.log && LogOk(t.log[k]) && t.tasks[k] == RowOf(t.log[k])
  {
    RunKeepsInv(EMPTY, steps);
  }

  lemma DuplicatedFactsAgree(steps: seq<Step>, k: Key)
    requires k in Run(EMPTY, steps).tasks
    ensures var r := Run(EMPTY, steps).tasks[k];
            && r.phase == r.closure.phase
            && r.startedAt == r.closure.startedAt
            && r.createdAt == r.closure.createdAt && r.updatedAt == r.closure.updatedAt
            && r.duration == (if r.closure.duration.Some? then r.closure.duration.value else 0)
  {
    StoredRowIsItsHistory(steps, k);
  }

  /** A log link is stored exactly when an accepted event brought it and no later accepted event overwrote it. */
  lemma StoredLogsAreTheStandingOnes(steps: seq<Step>, k: Key, log: TaskLog)
    requires k in Run(EMPTY, steps).tasks
    ensures var t := Run(EMPTY, steps);
            && k in t.log
            && (log in t.tasks[k].closure.logs <==> exists i :: StandsFrom(LogLists(t.log[k]), i, log))
  {
    StoredRowIsItsHistory(steps, k);
    StoredIff(LogLists(Run(EMPTY, steps).log[k]), log);
  }

  /** If no event's own links share a uri or a name, no two stored links do. */
  lemma StoredLogsAreDistinct(steps: seq<Step>, k: Key)
    requires var t := Run(EMPTY, steps);
             k in t.tasks && k in t.log && forall i :: 0 <= i < |t.log[k]| ==> Distinct(t.log[k][i].event.logs)
    ensures Distinct(Run(EMPTY, steps).tasks[k].closure.logs)
  {
    StoredRowIsItsHistory(steps, k);
    StoredDistinct(LogLists(Run(EMPTY, steps).log[k]));
  }

  lemma {:induction false} StartedIff(log: seq<Entry>)
    ensures LastStart(log).Some? <==> exists i :: 0 <= i < |log| && Starts(log, i)
  {
    if log != [] {
      StartedIff(Front(log));
      assert forall i :: 0 <= i < |log| - 1 ==> (Starts(Front(log), i) <==> Starts(log, i));
    }
  }

  /** A finished task has a duration exactly when one of its RUNNING events came first or straight after QUEUED or
      UNDEFINED. */
  lemma DurationIff(steps: seq<Step>, k: Key)
    requires k in Run(EMPTY, steps).tasks && IsTerminal(Run(EMPTY, steps).tasks[k].phase)
    ensures var t := Run(EMPTY, steps);
            && k in t.log
            && t.tasks[k].closure.duration == RunTime(t.log[k])
            && (t.tasks[k].closure.duration.Some? <==> exists i :: 0 <= i < |t.log[k]| && Starts(t.log[k], i))
  {
    StoredRowIsItsHistory(steps, k);
    StartedIff(Run(EMPTY, steps).log[k]);
  }

  /** A task that passes through INITIALIZING on its way to RUNNING never gets a start time. */
  lemma InitializedTaskHasNoStart(k: Key, e0: Event, f: Found)
    requires e0.phase == Queued && !W.IsRealProducer(e0.producer) && e0.occurredAt.Some? && e0.result.NoResult?
    requires f.cluster.Some? && f.nodeExists
    ensures var steps := [Step(k, e0, f), Step(k, e0.(phase := Initializing), f), Step(k, e0.(phase := Running), f),
                          Step(k, e0.(phase := Succeeded), f)];
            var t := Run(EMPTY, steps);
            && k in t.tasks && t.tasks[k].phase.Succeeded?
            && t.tasks[k].startedAt == None && t.tasks[k].closure.duration == None
  {
    hide Merged;
    var e1, e2, e3 := e0.(phase := Initializing), e0.(phase := Running), e0.(phase := Succeeded);
    var t1 := Apply(EMPTY, Step(k, e0, f));
    assert t1.tasks[k] == Created(e0, f.policy);
    var t2 := Apply(t1, Step(k, e1, f));
    assert t2.tasks[k].phase == Initializing && t2.tasks[k].startedAt == None;
    var t3 := Apply(t2, Step(k, e2, f));
    assert t3.tasks[k].phase == Running && t3.tasks[k].startedAt == None && t3.tasks[k].closure.duration == None;
    var t4 := Apply(t3, Step(k, e3, f));
    RunOfFour(EMPTY, Step(k, e0, f), Step(k, e1, f), Step(k, e2, f), Step(k, e3, f));
  }

  lemma RunOfFour(t: Traced, s0: Step, s1: Step, s2: Step, s3: Step)
    ensures Run(t, [s0, s1, s2, s3]) == Apply(Apply(Apply(Apply(t, s0), s1), s2), s3)
  {
    hide Apply;
    var t1 := Apply(t, s0);
    var t2 := Apply(t1, s1);
    var t3 := Apply(t2, s2);
    assert [s0, s1, s2, s3][1..] == [s1, s2, s3];
    assert [s1, s2, s3][1..] == [s2, s3];
    assert [s2, s3][1..] == [s3];
    assert Run(t3, [s3]) == Apply(t3, s3);
    assert Run(t2, [s2, s3]) == Run(t3, [s3]);
    assert Run(t1, [s1, s2, s3]) == Run(t2, [s2, s3]);
  }

  /** A finished task's row never changes again. */
  lemma {:induction false} TerminalIsAbsorbing(t: Traced, steps: seq<Step>, k: Key)
    requires k in t.tasks && IsTerminal(t.tasks[k].phase)
    ensures k in Run(t, steps).tasks && Run(t, steps).tasks[k] == t.tasks[k]
    decreases |steps|
  {
    if steps != [] {
      hide Updated;
      TerminalIsAbsorbing(Apply(t, steps[0]), steps[1..], k);
    }
  }

  // ------------------------------------------------------------------------------------------------------------
  // One event
  // ------------------------------------------------------------------------------------------------------------

  /** Delivering the latest accepted event once more, or an earlier version of its phase, changes nothing. */
  lemma RedeliveryIsHarmless(tasks: Tasks, k: Key, e: Event, f: Found, version: nat, f': Found)
    requires EventReply(tasks, k, e, f).Accepted? && version <= e.version
    ensures var tasks1 := OnEvent(tasks, k, e, f);
            && OnEvent(tasks1, k, e.(version := version), f') == tasks1
            && (Precheck(e, f').Accepted? ==> EventReply(tasks1, k, e.(version := version), f') == AlreadyRecorded)
  {
  }

  /** An event is accepted exactly when the workflow execution exists and its cluster may report, the event carries a
      time, its outputs could be stored, and it is the first for an existing node, or moves an unfinished task to
      another phase or to a higher version of its phase. */
  lemma EventAcceptedIff(tasks: Tasks, k: Key, e: Event, f: Found)
    ensures EventReply(tasks, k, e, f).Accepted? <==>
              && f.cluster.Some? && (e.producer in {"", "propeller"} || f.cluster == Some(e.producer))
              && e.occurredAt.Some?
              && !(e.phase in {Succeeded, Failed, Aborted} && e.result.ResultData? && f.policy == W.Offload(None))
              && (if k in tasks then
                    && tasks[k].phase !in {Succeeded, Failed, Aborted}
                    && (tasks[k].phase == e.phase ==> tasks[k].version < e.version)
                  else f.nodeExists)
  {
  }

  /** Why an event is refused. */
  lemma RefusalTells(tasks: Tasks, k: Key, e: Event, f: Found)
    ensures var reply := EventReply(tasks, k, e, f);
            && (reply.MissingExecution? <==> f.cluster.None?)
            && (reply.IncompatibleCluster? <==> f.cluster.Some? && e.producer !in {"", "propeller"} && f.cluster.value != e.producer)
            && (reply.MissingNode? ==> k !in tasks && !f.nodeExists)
            && (reply.AlreadyRecorded? ==> k in tasks && tasks[k].phase == e.phase && tasks[k].version >= e.version)
            && (reply.AlreadyTerminal? ==> k in tasks && tasks[k].phase in {Succeeded, Failed, Aborted})
            && (reply.BadTimestamp? ==> e.occurredAt.None?)
            && (reply.OffloadFailed? ==> e.result.ResultData? && f.policy == W.Offload(None))
  {
  }

  /** An event that is refused changes nothing, and an accepted one only the row of its task: phase, version and times are
      its own, RUNNING marks the start only as the first event or straight after QUEUED or UNDEFINED, and an empty reason
      is not recorded over another. */
  lemma EventEffect(tasks: Tasks, k: Key, e: Event, f: Found)
    ensures var tasks' := OnEvent(tasks, k, e, f);
            && (!EventReply(tasks, k, e, f).Accepted? ==> tasks' == tasks)
            && (EventReply(tasks, k, e, f).Accepted? ==>
                  && k in tasks' && tasks' == tasks[k := tasks'[k]]
                  && var r' := tasks'[k];
                     && r'.phase == r'.closure.phase == e.phase && r'.version == e.version
                     && e.occurredAt == Some(r'.updatedAt) && e.occurredAt == Some(r'.closure.updatedAt)
                     && (k in tasks ==>
                           var r := tasks[k];
                           && r'.startedAt == (if e.phase == Running && r.phase in {Queued, Undefined} then e.occurredAt else r.startedAt)
                           && r'.closure.reason == (if e.reason == "" then r.closure.reason else e.reason)
                           && (r'.inputUri, r'.createdAt) == (r.inputUri, r.createdAt)
                           && (r'.closure.createdAt, r'.closure.taskType) == (r.closure.createdAt, r.closure.taskType))
                     && (k !in tasks ==>
                           && r'.startedAt == (if e.phase == Running then e.occurredAt else None)
                           && (r'.closure.reason, r'.closure.logs, r'.closure.taskType) == (e.reason, e.logs, e.taskType)
                           && r'.inputUri == e.inputUri
                           && e.occurredAt == Some(r'.createdAt) && e.occurredAt == Some(r'.closure.createdAt)))
  {
    hide Merged;
  }

  /** Only an event that ends the task leaves an output or a duration, and they come from its own result and time. */
  lemma EndingEventEffect(tasks: Tasks, k: Key, e: Event, f: Found)
    requires EventReply(tasks, k, e, f).Accepted?
    ensures var tasks' := OnEvent(tasks, k, e, f);
            && k in tasks'
            && var r' := tasks'[k];
               var (output, duration, started) :=
                 if k in tasks then (tasks[k].closure.output, tasks[k].closure.duration, tasks[k].startedAt)
                 else (N.NoOutput, None, None);
               if e.phase in {Succeeded, Failed, Aborted} then
                 && r'.closure.duration == (if started.Some? then Some(e.occurredAt.value - started.value) else duration)
                 && r'.closure.output == (match e.result
                                          case ResultError(error) => N.Failure(error)
                                          case ResultData(data) =>
                                            if f.policy.StoreInline? then N.OutputData(data) else N.OutputUri(f.policy.uri.value)
                                          case ResultUri(uri) => if uri == "" then output else N.OutputUri(uri)
                                          case NoResult => output)
               else
                 r'.closure.duration == duration && r'.closure.output == output
  {
    hide Merged;
  }

  /** The task's row changes no more, whatever happens. */
  ghost predicate IsFinal(t: Traced, k: Key) {
    k in t.tasks && forall steps :: k in Run(t, steps).tasks && Run(t, steps).tasks[k] == t.tasks[k]
  }

  /** Exactly an event that says SUCCEEDED, FAILED or ABORTED is final. */
  lemma EndingIsFinalIff(t: Traced, k: Key, e: Event, f: Found)
    requires EventReply(t.tasks, k, e, f).Accepted?
    ensures IsFinal(Apply(t, Step(k, e, f)), k) <==> e.phase in {Succeeded, Failed, Aborted}
  {
    hide OnEvent, EventReply;
    var t1 := Apply(t, Step(k, e, f));
    EventEffect(t.tasks, k, e, f);
    EventAcceptedIff(t.tasks, k, e, f);
    if e.phase in {Succeeded, Failed, Aborted} {
      forall steps ensures k in Run(t1, steps).tasks && Run(t1, steps).tasks[k] == t1.tasks[k] {
        TerminalIsAbsorbing(t1, steps, k);
      }
    } else {
      var failed := e.(phase := Failed, result := W.NoResult);
      EventAcceptedIff(t1.tasks, k, failed, f);
      OneStep(t1, Step(k, failed, f));
      EventEffect(t1.tasks, k, failed, f);
      assert Run(t1, [Step(k, failed, f)]).tasks[k] != t1.tasks[k];
    }
  }

  lemma OneStep(t: Traced, s: Step)
    ensures Run(t, [s]) == Apply(t, s)
  {
    assert [s][1..] == [];
  }
}
