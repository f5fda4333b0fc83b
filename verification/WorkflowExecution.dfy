/**
 The life of a workflow execution row: created, moved by events, aborted.

 Serialising a message and reading it back is taken to give the message; each handler is one step, although the
 source reads, checks and writes without a transaction. A row keeps several facts twice, as a column and inside its
 serialised closure or spec.
 */
module WorkflowExecution {
  import opened Wrappers

  datatype Phase =
    | Undefined | Queued | Running | Succeeding | Succeeded | Failing | Failed | Aborted | TimedOut
    | Unknown(number: int)

  /** The phase column holds a name. A number without a name is stored all the same, and is read back as UNDEFINED. */
  function ReadBack(stored: Phase): Phase { if stored.Unknown? then Undefined else stored }

  predicate IsTerminal(p: Phase) { p.Succeeded? || p.Failed? || p.TimedOut? || p.Aborted? }

  const DEFAULT_PRODUCER := "propeller"

  predicate IsRealProducer(producer: string) { producer != "" && producer != DEFAULT_PRODUCER }

  /** The phases in which an event may move the execution to another cluster. */
  predicate IsReassignable(p: Phase) { p.Undefined? || p.Queued? }

  datatype ExecutionError = ExecutionError(kind: string, code: string, message: string)

  datatype Output =
    | NoOutput
    | Outputs(uri: string)
    | OutputData(data: string)
    | Failure(error: ExecutionError)
    | AbortMetadata(cause: string, principal: string)

  datatype Closure = Closure(
    phase: Phase, createdAt: Time, updatedAt: Time, startedAt: Option<Time>, duration: Option<int>, output: Output,
    notifications: seq<string>)

  /** The parts of the stored spec that are also columns, and the rest of it. */
  datatype Spec = Spec(cluster: string, principal: string, mode: int, request: string)

  datatype Row = Row(
    phase: Phase, closure: Closure, spec: Spec, startedAt: Option<Time>, createdAt: Time, updatedAt: Time, duration: int,
    abortCause: string, mode: int, cluster: string, errorKind: Option<string>, errorCode: Option<string>, user: string)

  datatype EventResult = NoResult | ResultUri(uri: string) | ResultData(data: string) | ResultError(error: ExecutionError)

  datatype Event = Event(phase: Phase, occurredAt: Option<Time>, producer: string, result: EventResult)

  /** What becomes of inline outputs: kept in the closure, or written to storage, which may fail. */
  datatype Policy = StoreInline | Offload(uri: Option<string>)

  datatype EventError = BadTimestamp | IncompatibleCluster(expected: string) | OffloadFailed

  // ------------------------------------------------------------------------------------------------------------
  // Transformers
  // ------------------------------------------------------------------------------------------------------------

  datatype Created = Created(request: string, principal: string, mode: int, cluster: string, at: Time, notifications: seq<string>)

  function CreateExecutionModel(c: Created, phase: Phase): Row {
    Row(phase,
        Closure(phase, c.at, c.at, if phase.Running? then Some(c.at) else None, None, NoOutput, c.notifications),
        Spec(c.cluster, c.principal, c.mode, c.request),
        None, c.at, c.at, 0, "", c.mode, c.cluster, None, None, c.principal)
  }

  /** The row held in memory while a handler works on it. */
  class ExecutionModel {
    var row: Row

    constructor (row: Row)
      ensures this.row == row
    {
      this.row := row;
    }

    method ReassignCluster(cluster: string)
      modifies this
      ensures row == old(row).(cluster := cluster, spec := old(row).spec.(cluster := cluster))
    {
      row := row.(cluster := cluster);
      var spec := row.spec;
      spec := spec.(cluster := cluster);
      row := row.(spec := spec);
    }

    /** Applies an event to the model. On an error the model is left half changed. */
    method UpdateExecutionModelState(e: Event, policy: Policy) returns (err: Option<EventError>)
      modifies this
      ensures err.None? ==> Updated(old(row), e, policy) == Ok(row)
      ensures err.Some? ==> Updated(old(row), e, policy) == Err(err.value) && row.phase == e.phase
    {
      var closure := row.closure.(phase := e.phase);
      row := row.(phase := e.phase);
      if e.occurredAt.None? {
        return Some(BadTimestamp);
      }
      var occurredAt := e.occurredAt.value;
      closure := closure.(updatedAt := occurredAt);
      row := row.(updatedAt := occurredAt);
      if e.phase.Running? {
        row := row.(startedAt := Some(occurredAt));
        closure := closure.(startedAt := Some(occurredAt));
      } else if IsTerminal(e.phase) {
        if row.startedAt.Some? {
          row := row.(duration := occurredAt - row.startedAt.value);
          closure := closure.(duration := Some(row.duration));
        }
      }
      if IsRealProducer(e.producer) {
        if IsReassignable(row.phase) {
          ReassignCluster(e.producer);
        } else if row.cluster != e.producer {
          return Some(IncompatibleCluster(row.cluster));
        }
      }
      if e.result.ResultUri? && e.result.uri != "" {
        closure := closure.(output := Outputs(e.result.uri));
      } else if e.result.ResultData? {
        match policy
        case StoreInline =>
          closure := closure.(output := OutputData(e.result.data));
        case Offload(uri) =>
          if uri.None? {
            return Some(OffloadFailed);
          }
          closure := closure.(output := Outputs(uri.value));
      } else if e.result.ResultError? {
        closure := closure.(output := Failure(e.result.error));
        row := row.(errorKind := Some(e.result.error.kind), errorCode := Some(e.result.error.code));
      }
      row := row.(closure := closure);
      return None;
    }

    method SetExecutionAborted(cause: string, principal: string)
      modifies this
      ensures row.closure.output == AbortMetadata(cause, principal) && row.abortCause == cause
      ensures row.(closure := row.closure.(output := old(row).closure.output), abortCause := old(row).abortCause) == old(row)
    {
      var closure := row.closure;
      closure := closure.(output := AbortMetadata(cause, principal));
      row := row.(closure := closure);
      row := row.(abortCause := cause);
    }
  }

  function EventOutput(e: Event, policy: Policy, current: Output): Result<Output, EventError> {
    match e.result
    case NoResult => Ok(current)
    case ResultUri(uri) => Ok(if uri != "" then Outputs(uri) else current)
    case ResultData(data) =>
      if policy.StoreInline? then Ok(OutputData(data))
      else if policy.uri.None? then Err(OffloadFailed) else Ok(Outputs(policy.uri.value))
    case ResultError(error) => Ok(Failure(error))
  }

  /** The row an event asks for. */
  function Updated(r: Row, e: Event, policy: Policy): Result<Row, EventError> {
    if e.occurredAt.None? then Err(BadTimestamp)
    else if IsRealProducer(e.producer) && !IsReassignable(e.phase) && r.cluster != e.producer then
      Err(IncompatibleCluster(r.cluster))
    else
      match EventOutput(e, policy, r.closure.output)
      case Err(error) => Err(error)
      case Ok(output) =>
        var t := e.occurredAt.value;
        var moves := IsRealProducer(e.producer) && IsReassignable(e.phase);
        var ends := IsTerminal(e.phase) && r.startedAt.Some?;
        var closure := r.closure.(
          phase := e.phase, updatedAt := t, output := output,
          startedAt := if e.phase.Running? then Some(t) else r.closure.startedAt,
          duration := if ends then Some(t - r.startedAt.value) else r.closure.duration);
        Ok(r.(
          phase := e.phase, updatedAt := t, closure := closure,
          startedAt := if e.phase.Running? then Some(t) else r.startedAt,
          duration := if ends then t - r.startedAt.value else r.duration,
          cluster := if moves then e.producer else r.cluster,
          spec := if moves then r.spec.(cluster := e.producer) else r.spec,
          errorKind := if e.result.ResultError? then Some(e.result.error.kind) else r.errorKind,
          errorCode := if e.result.ResultError? then Some(e.result.error.code) else r.errorCode))
  }

  function WithAbort(r: Row, cause: string, principal: string): Row {
    r.(closure := r.closure.(output := AbortMetadata(cause, principal)), abortCause := cause)
  }

  // ------------------------------------------------------------------------------------------------------------
  // The repository and the manager
  // ------------------------------------------------------------------------------------------------------------

  /** An update writes the non-empty columns of the model over the stored row. A phase name, a closure and a spec are
      never empty. */
  function WriteNonEmpty(stored: Row, r: Row): Row {
    Row(r.phase, r.closure, r.spec,
        if r.startedAt.Some? then r.startedAt else stored.startedAt,
        r.createdAt, r.updatedAt,
        if r.duration != 0 then r.duration else stored.duration,
        if r.abortCause != "" then r.abortCause else stored.abortCause,
        if r.mode != 0 then r.mode else stored.mode,
        if r.cluster != "" then r.cluster else stored.cluster,
        if r.errorKind.Some? then r.errorKind else stored.errorKind,
        if r.errorCode.Some? then r.errorCode else stored.errorCode,
        if r.user != "" then r.user else stored.user)
  }

  datatype Key = Key(project: string, domain: string, name: string)

  datatype Reply =
    | Accepted
    | Missing
    | Exists
    | AlreadyRecorded
    | AlreadyTerminal
    | CannotRequeue
    | Refused(error: EventError)
    | AbortFailed

  /** The executions table, the gauge of active executions, and the executions that reached the notification step. */
  datatype Store = Store(executions: map<Key, Row>, active: int, notified: seq<Key>)

  function PhaseCheck(stored: Phase, event: Phase): Reply {
    if ReadBack(stored) == event && !event.Queued? then AlreadyRecorded
    else if IsTerminal(stored) then AlreadyTerminal
    else if stored.Running? && event.Queued? then CannotRequeue
    else Accepted
  }

  function OnCreate(st: Store, k: Key, c: Created): (Store, Reply) {
    if k in st.executions then (st, Exists)
    else (st.(executions := st.executions[k := CreateExecutionModel(c, Undefined)], active := st.active + 1), Accepted)
  }

  function OnEvent(st: Store, k: Key, e: Event, policy: Policy): (Store, Reply) {
    if k !in st.executions then (st, Missing)
    else
      var stored := st.executions[k];
      var check := PhaseCheck(stored.phase, e.phase);
      if !check.Accepted? then (st, check)
      else
        match Updated(stored, e, policy)
        case Err(error) => (st, Refused(error))
        case Ok(r) =>
          var st1 := st.(executions := st.executions[k := WriteNonEmpty(stored, r)]);
          (if IsTerminal(e.phase) then st1.(active := st.active - 1, notified := st.notified + [k]) else st1, Accepted)
  }

  function OnTerminate(st: Store, k: Key, cause: string, principal: string, abortOk: bool): (Store, Reply) {
    if k !in st.executions then (st, Missing)
    else if !abortOk then (st, AbortFailed)
    else
      var stored := st.executions[k];
      (st.(executions := st.executions[k := WriteNonEmpty(stored, WithAbort(stored, cause, principal))]), Accepted)
  }

  class ExecutionManager {
    var executions: map<Key, Row>
    var activeExecutions: int
    var notified: seq<Key>

    ghost function Contents(): Store
      reads this
    {
      Store(executions, activeExecutions, notified)
    }

    constructor ()
      ensures Contents() == Store(map[], 0, [])
    {
      executions := map[];
      activeExecutions := 0;
      notified := [];
    }

    method CreateExecution(k: Key, c: Created) returns (reply: Reply)
      modifies this
      ensures (Contents(), reply) == OnCreate(old(Contents()), k, c)
    {
      var model := CreateExecutionModel(c, Undefined);
      if k in executions {
        return Exists;
      }
      executions := executions[k := model];
      activeExecutions := activeExecutions + 1;
      return Accepted;
    }

    method CreateWorkflowEvent(k: Key, e: Event, policy: Policy) returns (reply: Reply)
      modifies this
      ensures (Contents(), reply) == OnEvent(old(Contents()), k, e, policy)
    {
      if k !in executions {
        return Missing;
      }
      var model := new ExecutionModel(executions[k]);
      var phase := ReadBack(model.row.phase);
      if phase == e.phase && e.phase != Queued {
        return AlreadyRecorded;
      } else if IsTerminal(phase) {
        return AlreadyTerminal;
      } else if phase.Running? && e.phase.Queued? {
        return CannotRequeue;
      }
      var err := model.UpdateExecutionModelState(e, policy);
      if err.Some? {
        return Refused(err.value);
      }
      executions := executions[k := WriteNonEmpty(executions[k], model.row)];
      if IsTerminal(e.phase) {
        activeExecutions := activeExecutions - 1;
        notified := notified + [k];
      }
      return Accepted;
    }

    method TerminateExecution(k: Key, cause: string, principal: string, abortOk: bool) returns (reply: Reply)
      modifies this
      ensures (Contents(), reply) == OnTerminate(old(Contents()), k, cause, principal, abortOk)
    {
      if k !in executions {
        return Missing;
      }
      var model := new ExecutionModel(executions[k]);
      if !abortOk {
        return AbortFailed;
      }
      model.SetExecutionAborted(cause, principal);
      executions := executions[k := WriteNonEmpty(executions[k], model.row)];
      return Accepted;
    }
  }

  // ------------------------------------------------------------------------------------------------------------
  // A row is a function of its history
  // ------------------------------------------------------------------------------------------------------------

  datatype Entry = Took(event: Event, policy: Policy) | Abort(cause: string, principal: string)

  function LastPhase(log: seq<Entry>): Phase {
    if log == [] then Undefined else if Last(log).Took? then Last(log).event.phase else LastPhase(Front(log))
  }

  function LastUpdate(c: Created, log: seq<Entry>): Time {
    if log == [] then c.at
    else if Last(log).Took? && Last(log).event.occurredAt.Some? then Last(log).event.occurredAt.value
    else LastUpdate(c, Front(log))
  }

  /** The time of the latest accepted RUNNING event. */
  function LastRunning(log: seq<Entry>): Option<Time> {
    if log == [] then None
    else if Last(log).Took? && Last(log).event.phase.Running? then Last(log).event.occurredAt
    else LastRunning(Front(log))
  }

  /** The time of the accepted terminal event. */
  function TerminalAt(log: seq<Entry>): Option<Time> {
    if log == [] then None
    else if Last(log).Took? && IsTerminal(Last(log).event.phase) then Last(log).event.occurredAt
    else TerminalAt(Front(log))
  }

  function RunTime(log: seq<Entry>): Option<int> {
    if TerminalAt(log).Some? && LastRunning(log).Some? then Some(TerminalAt(log).value - LastRunning(log).value) else None
  }

  /** The cluster of the latest accepted event that named a real one while the execution could still move. */
  function LastCluster(c: Created, log: seq<Entry>): string {
    if log == [] then c.cluster
    else if Last(log).Took? && IsReassignable(Last(log).event.phase) && IsRealProducer(Last(log).event.producer) then
      Last(log).event.producer
    else LastCluster(c, Front(log))
  }

  predicate HasOutput(e: Event) { !e.result.NoResult? && e.result != ResultUri("") }

  function LastOutput(log: seq<Entry>): Output {
    if log == [] then NoOutput
    else match Last(log)
    case Abort(cause, principal) => AbortMetadata(cause, principal)
    case Took(e, policy) =>
      match EventOutput(e, policy, NoOutput)
      case Ok(output) => if HasOutput(e) then output else LastOutput(Front(log))
      case Err(_) => LastOutput(Front(log))
  }

  function LastError(log: seq<Entry>): Option<ExecutionError> {
    if log == [] then None
    else if Last(log).Took? && Last(log).event.result.ResultError? then Some(Last(log).event.result.error)
    else LastError(Front(log))
  }

  /** The latest abort cause that was not empty. */
  function LastCause(log: seq<Entry>): string {
    if log == [] then "" else if Last(log).Abort? && Last(log).cause != "" then Last(log).cause else LastCause(Front(log))
  }

  function RowOf(c: Created, log: seq<Entry>): Row {
    var phase, cluster, started, error := LastPhase(log), LastCluster(c, log), LastRunning(log), LastError(log);
    Row(phase,
        Closure(phase, c.at, LastUpdate(c, log), started, RunTime(log), LastOutput(log), c.notifications),
        Spec(cluster, c.principal, c.mode, c.request),
        started, c.at, LastUpdate(c, log),
        if RunTime(log).Some? then RunTime(log).value else 0,
        LastCause(log), c.mode, cluster,
        if error.Some? then Some(error.value.kind) else None,
        if error.Some? then Some(error.value.code) else None,
        c.principal)
  }

  datatype Step =
    | Create(key: Key, created: Created)
    | Deliver(key: Key, event: Event, policy: Policy)
    | Terminate(key: Key, cause: string, principal: string, abortOk: bool)

  /** The store together with what was accepted for each execution, which no handler reads. */
  datatype Traced = Traced(store: Store, created: map<Key, Created>, log: map<Key, seq<Entry>>)

  function Logged(t: Traced, k: Key, entry: Entry): map<Key, seq<Entry>> {
    t.log[k := (if k in t.log then t.log[k] else []) + [entry]]
  }

  function Apply(t: Traced, step: Step): Traced {
    match step
    case Create(k, c) =>
      var (store, reply) := OnCreate(t.store, k, c);
      if reply.Accepted? then Traced(store, t.created[k := c], t.log[k := []]) else t.(store := store)
    case Deliver(k, e, policy) =>
      var (store, reply) := OnEvent(t.store, k, e, policy);
      if reply.Accepted? then Traced(store, t.created, Logged(t, k, Took(e, policy))) else t.(store := store)
    case Terminate(k, cause, principal, abortOk) =>
      var (store, reply) := OnTerminate(t.store, k, cause, principal, abortOk);
      if reply.Accepted? then Traced(store, t.created, Logged(t, k, Abort(cause, principal))) else t.(store := store)
  }

  function Run(t: Traced, steps: seq<Step>): Traced
    decreases |steps|
  {
    if steps == [] then t else Run(Apply(t, steps[0]), steps[1..])
  }

  const EMPTY := Traced(Store(map[], 0, []), map[], map[])

  function ActiveKeys(executions: map<Key, Row>): set<Key> { set k | k in executions && !IsTerminal(executions[k].phase) }

  ghost predicate LogOk(log: seq<Entry>) {
    && (forall i :: 0 <= i < |log| && log[i].Took? ==> log[i].event.occurredAt.Some?)
    && (TerminalAt(log).Some? <==> IsTerminal(LastPhase(log)))
  }

  ghost predicate IsHistory(r: Row, c: Created, log: seq<Entry>) { LogOk(log) && r == RowOf(c, log) }

  ghost predicate RowsOk(t: Traced) {
    && t.created.Keys == t.store.executions.Keys
    && t.log.Keys == t.store.executions.Keys
    && (forall k :: k in t.log ==> IsHistory(t.store.executions[k], t.created[k], t.log[k]))
  }

  ghost predicate CountsOk(st: Store) {
    && st.active == |ActiveKeys(st.executions)|
    && (forall k :: k in st.notified <==> k in st.executions && IsTerminal(st.executions[k].phase))
    && (forall i, j :: 0 <= i < j < |st.notified| ==> st.notified[i] != st.notified[j])
  }

  ghost predicate Inv(t: Traced) { RowsOk(t) && CountsOk(t.store) }

  /** What one more accepted event does to each part of the history. */
  lemma TookExtends(c: Created, log: seq<Entry>, e: Event, policy: Policy)
    requires LogOk(log) && !IsTerminal(LastPhase(log)) && e.occurredAt.Some?
    ensures var log' := log + [Took(e, policy)];
            && LogOk(log')
            && LastPhase(log') == e.phase
            && LastUpdate(c, log') == e.occurredAt.value
            && LastRunning(log') == (if e.phase.Running? then e.occurredAt else LastRunning(log))
            && TerminalAt(log') == (if IsTerminal(e.phase) then e.occurredAt else None)
            && LastCluster(c, log') ==
                 (if IsReassignable(e.phase) && IsRealProducer(e.producer) then e.producer else LastCluster(c, log))
            && LastError(log') == (if e.result.ResultError? then Some(e.result.error) else LastError(log))
            && LastCause(log') == LastCause(log)
            && (EventOutput(e, policy, NoOutput).Ok? ==>
                  LastOutput(log') == if HasOutput(e) then EventOutput(e, policy, NoOutput).value else LastOutput(log))
            && RunTime(log) == None
  {
    var log' := log + [Took(e, policy)];
    assert Front(log') == log && Last(log') == Took(e, policy);
  }

  /** An accepted event extends the history, and the row it leaves is the row of the longer history. */
  lemma EventExtendsRow(r: Row, c: Created, log: seq<Entry>, e: Event, policy: Policy)
    requires IsHistory(r, c, log) && PhaseCheck(r.phase, e.phase).Accepted? && Updated(r, e, policy).Ok?
    ensures IsHistory(WriteNonEmpty(r, Updated(r, e, policy).value), c, log + [Took(e, policy)])
  {
    OutputOfEvent(e, policy, r.closure.output);
    TookExtends(c, log, e, policy);
    hide LogOk, LastPhase, LastUpdate, LastRunning, TerminalAt, LastCluster, LastError, LastCause, LastOutput;
    hide EventOutput, HasOutput, IsRealProducer, IsReassignable, PhaseCheck;
    var r', want := WriteNonEmpty(r, Updated(r, e, policy).value), RowOf(c, log + [Took(e, policy)]);
    assert r'.closure == want.closure;
    assert r'.spec == want.spec && r'.cluster == want.cluster;
    assert r'.errorKind == want.errorKind && r'.errorCode == want.errorCode;
  }

  lemma OutputOfEvent(e: Event, policy: Policy, current: Output)
    ensures EventOutput(e, policy, current).Ok? <==> EventOutput(e, policy, NoOutput).Ok?
    ensures EventOutput(e, policy, current).Ok? ==>
      EventOutput(e, policy, current).value == if HasOutput(e) then EventOutput(e, policy, NoOutput).value else current
  {
  }

  lemma AbortExtendsRow(r: Row, c: Created, log: seq<Entry>, cause: string, principal: string)
    requires IsHistory(r, c, log)
    ensures IsHistory(WriteNonEmpty(r, WithAbort(r, cause, principal)), c, log + [Abort(cause, principal)])
  {
  }

  lemma WriteKeepsRows(t: Traced, k: Key, store: Store, c: Created, log: seq<Entry>)
    requires RowsOk(t) && k in store.executions && IsHistory(store.executions[k], c, log)
    requires store.executions == t.store.executions[k := store.executions[k]]
    ensures RowsOk(Traced(store, t.created[k := c], t.log[k := log]))
  {
  }

  lemma FreshRowIsHistory(c: Created)
    ensures IsHistory(CreateExecutionModel(c, Undefined), c, [])
  {
  }

  lemma StepKeepsRows(t: Traced, step: Step)
    requires RowsOk(t)
    ensures RowsOk(Apply(t, step))
  {
    hide IsHistory, CreateExecutionModel, Updated, WithAbort, WriteNonEmpty;
    var t', k := Apply(t, step), step.key;
    if t' != t {
      match step {
        case Create(_, c) =>
          FreshRowIsHistory(c);
          WriteKeepsRows(t, k, t'.store, c, []);
        case Deliver(_, e, policy) =>
          EventExtendsRow(t.store.executions[k], t.created[k], t.log[k], e, policy);
          WriteKeepsRows(t, k, t'.store, t.created[k], t'.log[k]);
        case Terminate(_, cause, principal, _) =>
          AbortExtendsRow(t.store.executions[k], t.created[k], t.log[k], cause, principal);
          WriteKeepsRows(t, k, t'.store, t.created[k], t'.log[k]);
      }
      assert step.Create? || t.created[k := t.created[k]] == t.created;
    }
  }

  /** Writing a row that has not ended over one that has not, or over none. */
  lemma ActiveRowKeepsCounts(st: Store, k: Key, r: Row)
    requires CountsOk(st) && !IsTerminal(r.phase)
    requires k in st.executions ==> !IsTerminal(st.executions[k].phase)
    ensures CountsOk(Store(st.executions[k := r], if k in st.executions then st.active else st.active + 1, st.notified))
  {
    var executions := st.executions[k := r];
    assert ActiveKeys(executions) == ActiveKeys(st.executions) + {k};
    assert k in st.executions ==> k in ActiveKeys(st.executions);
  }

  lemma EndedRowKeepsCounts(st: Store, k: Key, r: Row)
    requires CountsOk(st) && IsTerminal(r.phase) && k in st.executions && !IsTerminal(st.executions[k].phase)
    ensures CountsOk(Store(st.executions[k := r], st.active - 1, st.notified + [k]))
  {
    assert ActiveKeys(st.executions[k := r]) == ActiveKeys(st.executions) - {k};
    assert k in ActiveKeys(st.executions);
  }

  lemma SamePhaseKeepsCounts(st: Store, k: Key, r: Row)
    requires CountsOk(st) && k in st.executions && r.phase == st.executions[k].phase
    ensures CountsOk(st.(executions := st.executions[k := r]))
  {
    assert ActiveKeys(st.executions[k := r]) == ActiveKeys(st.executions);
  }

  lemma StepKeepsCounts(t: Traced, step: Step)
    requires CountsOk(t.store)
    ensures CountsOk(Apply(t, step).store)
  {
    var st, k := t.store, step.key;
    match step
    case Create(_, c) =>
      hide CountsOk;
      if k !in st.executions {
        ActiveRowKeepsCounts(st, k, CreateExecutionModel(c, Undefined));
      }
    case Deliver(_, e, policy) =>
      hide CountsOk;
      if OnEvent(st, k, e, policy).1.Accepted? {
        var r := WriteNonEmpty(st.executions[k], Updated(st.executions[k], e, policy).value);
        if IsTerminal(e.phase) {
          EndedRowKeepsCounts(st, k, r);
        } else {
          ActiveRowKeepsCounts(st, k, r);
        }
      }
    case Terminate(_, cause, principal, _) =>
      hide CountsOk;
      if k in st.executions {
        SamePhaseKeepsCounts(st, k, WriteNonEmpty(st.executions[k], WithAbort(st.executions[k], cause, principal)));
      }
  }

  lemma {:induction false} RunKeepsInv(t: Traced, steps: seq<Step>)
    requires Inv(t)
    ensures Inv(Run(t, steps))
    decreases |steps|
  {
    hide RowsOk, CountsOk, Apply;
    if steps != [] {
      StepKeepsRows(t, steps[0]);
      StepKeepsCounts(t, steps[0]);
      RunKeepsInv(Apply(t, steps[0]), steps[1..]);
    }
  }

  // ------------------------------------------------------------------------------------------------------------
  // What holds in every reachable state
  // ------------------------------------------------------------------------------------------------------------

  /** Every stored row is determined by how it was created and by what was accepted for it since. */
  lemma StoredRowIsItsHistory(steps: seq<Step>, k: Key)
    requires k in Run(EMPTY, steps).store.executions
    ensures var t := Run(EMPTY, steps);
            k in t.created && k in t.log && t.store.executions[k] == RowOf(t.created[k], t.log[k])
  {
    RunKeepsInv(EMPTY, steps);
  }

  /** A fact kept twice is kept the same. */
  lemma DuplicatedFactsAgree(steps: seq<Step>, k: Key)
    requires k in Run(EMPTY, steps).store.executions
    ensures var r := Run(EMPTY, steps).store.executions[k];
            && r.phase == r.closure.phase
            && r.cluster == r.spec.cluster
            && r.startedAt == r.closure.startedAt
            && r.updatedAt == r.closure.updatedAt && r.createdAt == r.closure.createdAt
            && r.duration == (if r.closure.duration.Some? then r.closure.duration.value else 0)
            && r.user == r.spec.principal && r.mode == r.spec.mode
  {
    StoredRowIsItsHistory(steps, k);
  }

  /** Of a fresh row only the start time can disagree, and it does exactly when the row is created running: the column
      is left empty. Every handler creates rows in phase UNDEFINED. */
  lemma FreshRowAgreesIff(c: Created, phase: Phase)
    ensures CreateExecutionModel(c, phase).startedAt == CreateExecutionModel(c, phase).closure.startedAt <==> !phase.Running?
  {
  }

  /** The duration of a finished execution runs from its latest accepted RUNNING event to its terminal event; without a
      RUNNING event there is none, and an unfinished execution has none. */
  lemma DurationIsRunTime(steps: seq<Step>, k: Key)
    requires k in Run(EMPTY, steps).store.executions
    ensures var t := Run(EMPTY, steps);
            var r := t.store.executions[k];
            && k in t.log
            && r.closure.duration == RunTime(t.log[k])
            && (IsTerminal(r.phase) && LastRunning(t.log[k]).Some? ==>
                  TerminalAt(t.log[k]).Some? && r.duration == TerminalAt(t.log[k]).value - LastRunning(t.log[k]).value)
            && (!IsTerminal(r.phase) || LastRunning(t.log[k]).None? ==> r.closure.duration == None && r.duration == 0)
  {
    RunKeepsInv(EMPTY, steps);
  }

  /** The gauge counts exactly the stored executions that have not ended. */
  lemma GaugeIsConserved(steps: seq<Step>)
    ensures var store := Run(EMPTY, steps).store; store.active == |ActiveKeys(store.executions)|
  {
    RunKeepsInv(EMPTY, steps);
  }

  /** The executions that reached the notification step are exactly the ended ones, each once. */
  lemma NotifiedOnce(steps: seq<Step>, k: Key)
    ensures var store := Run(EMPTY, steps).store;
            multiset(store.notified)[k] == if k in store.executions && IsTerminal(store.executions[k].phase) then 1 else 0
  {
    RunKeepsInv(EMPTY, steps);
    DistinctCount(Run(EMPTY, steps).store.notified, k);
  }

  lemma {:induction false} DistinctCount(ks: seq<Key>, k: Key)
    requires forall i, j :: 0 <= i < j < |ks| ==> ks[i] != ks[j]
    ensures multiset(ks)[k] == if k in ks then 1 else 0
  {
    if ks != [] {
      assert ks == [ks[0]] + ks[1..];
      DistinctCount(ks[1..], k);
    }
  }

  /** An ended execution stays as it ended: no step of any kind moves its phase, its times or its cluster. */
  lemma {:induction false} TerminalIsAbsorbing(t: Traced, steps: seq<Step>, k: Key)
    requires k in t.store.executions && IsTerminal(t.store.executions[k].phase)
    ensures k in Run(t, steps).store.executions
    ensures var r, r' := t.store.executions[k], Run(t, steps).store.executions[k];
            r'.(closure := r'.closure.(output := r.closure.output), abortCause := r.abortCause) == r
    decreases |steps|
  {
    if steps != [] {
      TerminalIsAbsorbingStep(t, steps[0], k);
      TerminalIsAbsorbing(Apply(t, steps[0]), steps[1..], k);
    }
  }

  lemma TerminalIsAbsorbingStep(t: Traced, step: Step, k: Key)
    requires k in t.store.executions && IsTerminal(t.store.executions[k].phase)
    ensures k in Apply(t, step).store.executions
    ensures var r, r' := t.store.executions[k], Apply(t, step).store.executions[k];
            r'.(closure := r'.closure.(output := r.closure.output), abortCause := r.abortCause) == r
  {
  }

  // ------------------------------------------------------------------------------------------------------------
  // One event
  // ------------------------------------------------------------------------------------------------------------

  /** What an event can do: refused, it changes nothing; accepted, it sets the phase and the times of its own row, it
      moves the execution to another cluster only while UNDEFINED or QUEUED, and if it came from a real producer that
      producer is now the cluster. */
  lemma EventEffect(st: Store, k: Key, e: Event, policy: Policy)
    ensures var (st', reply) := OnEvent(st, k, e, policy);
            && (!reply.Accepted? ==> st' == st)
            && (reply.Accepted? ==>
                  && k in st.executions && k in st'.executions
                  && st'.executions == st.executions[k := st'.executions[k]]
                  && var r, r' := st.executions[k], st'.executions[k];
                     && r'.phase == e.phase && r'.closure.phase == e.phase
                     && e.occurredAt == Some(r'.updatedAt) && e.occurredAt == Some(r'.closure.updatedAt)
                     && r'.startedAt == (if e.phase == Running then e.occurredAt else r.startedAt)
                     && r'.closure.startedAt == (if e.phase == Running then e.occurredAt else r.closure.startedAt)
                     && (e.producer !in {"", "propeller"} ==> r'.cluster == e.producer)
                     && (r'.cluster != r.cluster || r'.spec != r.spec ==>
                           e.phase in {Undefined, Queued} && r'.cluster == r'.spec.cluster == e.producer)
                     && r'.spec.(cluster := r.spec.cluster) == r.spec
                     && r'.createdAt == r.createdAt && r'.closure.createdAt == r.closure.createdAt
                     && r'.closure.notifications == r.closure.notifications
                     && (r'.user, r'.mode, r'.abortCause) == (r.user, r.mode, r.abortCause))
  {
  }

  /** What an accepted event leaves as output comes from its own result, and an error also fills the error columns;
      without a result nothing changes. */
  lemma EventOutputIs(st: Store, k: Key, e: Event, policy: Policy)
    requires OnEvent(st, k, e, policy).1.Accepted?
    ensures var st' := OnEvent(st, k, e, policy).0;
            && k in st.executions && k in st'.executions
            && var r, r' := st.executions[k], st'.executions[k];
               match e.result
               case ResultError(error) =>
                 r'.closure.output == Failure(error) && r'.errorKind == Some(error.kind) && r'.errorCode == Some(error.code)
               case ResultData(data) =>
                 && r'.closure.output == (if policy.StoreInline? then OutputData(data) else Outputs(policy.uri.value))
                 && (r'.errorKind, r'.errorCode) == (r.errorKind, r.errorCode)
               case ResultUri(uri) =>
                 && r'.closure.output == (if uri == "" then r.closure.output else Outputs(uri))
                 && (r'.errorKind, r'.errorCode) == (r.errorKind, r.errorCode)
               case NoResult =>
                 && r'.closure.output == r.closure.output
                 && (r'.errorKind, r'.errorCode) == (r.errorKind, r.errorCode)
  {
  }

  /** An accepted event that says SUCCEEDED, FAILED, ABORTED or TIMED_OUT lowers the gauge by one, notifies once and sets
      the duration of an execution that had started; any other does none of this. */
  lemma EndingCountsOnce(st: Store, k: Key, e: Event, policy: Policy)
    requires OnEvent(st, k, e, policy).1.Accepted?
    ensures var st' := OnEvent(st, k, e, policy).0;
            && k in st.executions && k in st'.executions
            && var r, r' := st.executions[k], st'.executions[k];
               if e.phase in {Succeeded, Failed, Aborted, TimedOut} then
                 && st'.active == st.active - 1 && st'.notified == st.notified + [k]
                 && r'.closure.duration ==
                      (if r.startedAt.Some? then Some(e.occurredAt.value - r.startedAt.value) else r.closure.duration)
                 && (r.startedAt.Some? && e.occurredAt != r.startedAt ==> r'.closure.duration == Some(r'.duration))
               else
                 && st'.active == st.active && st'.notified == st.notified
                 && r'.closure.duration == r.closure.duration && r'.duration == r.duration
  {
  }

  /** No event is accepted for the execution any more, whatever happens. */
  ghost predicate IsFinal(t: Traced, k: Key) {
    forall steps, e, policy :: !OnEvent(Run(t, steps).store, k, e, policy).1.Accepted?
  }

  /** Exactly such an event is final. */
  lemma EndingIsFinalIff(t: Traced, k: Key, e: Event, policy: Policy)
    requires OnEvent(t.store, k, e, policy).1.Accepted?
    ensures IsFinal(Apply(t, Deliver(k, e, policy)), k) <==> e.phase in {Succeeded, Failed, Aborted, TimedOut}
  {
    var t1 := Apply(t, Deliver(k, e, policy));
    EventEffect(t.store, k, e, policy);
    if e.phase in {Succeeded, Failed, Aborted, TimedOut} {
      forall steps, e', policy' ensures !OnEvent(Run(t1, steps).store, k, e', policy').1.Accepted? {
        TerminalIsAbsorbing(t1, steps, k);
        EventAcceptedIff(Run(t1, steps).store, k, e', policy');
      }
    } else {
      var failed := Event(Failed, Some(0), "", NoResult);
      EventAcceptedIff(t1.store, k, failed, StoreInline);
      assert OnEvent(Run(t1, []).store, k, failed, StoreInline).1.Accepted?;
    }
  }

  /** An event is accepted exactly when its execution exists and has not ended, it does not repeat a phase other than
      QUEUED nor take a running execution back to QUEUED, it carries a time, it comes from a cluster that may report, and
      its outputs could be stored. A phase that is not known counts as UNDEFINED. */
  lemma EventAcceptedIff(st: Store, k: Key, e: Event, policy: Policy)
    ensures OnEvent(st, k, e, policy).1.Accepted? <==>
              && k in st.executions
              && st.executions[k].phase !in {Succeeded, Failed, Aborted, TimedOut}
              && (st.executions[k].phase == e.phase ==> e.phase == Queued || e.phase.Unknown?)
              && !(st.executions[k].phase.Unknown? && e.phase == Undefined)
              && !(st.executions[k].phase == Running && e.phase == Queued)
              && e.occurredAt.Some?
              && (e.producer in {"", "propeller"} || e.phase in {Undefined, Queued} || st.executions[k].cluster == e.producer)
              && !(e.result.ResultData? && policy == Offload(None))
  {
  }

  /** Why an event is refused. */
  lemma RefusalTells(st: Store, k: Key, e: Event, policy: Policy)
    ensures var reply := OnEvent(st, k, e, policy).1;
            && (reply.Missing? <==> k !in st.executions)
            && (k in st.executions ==>
                  var phase := st.executions[k].phase;
                  && (reply.AlreadyRecorded? <==>
                        (phase == e.phase && e.phase != Queued && !e.phase.Unknown?) || (phase.Unknown? && e.phase == Undefined))
                  && (reply.AlreadyTerminal? <==> phase in {Succeeded, Failed, Aborted, TimedOut} && phase != e.phase)
                  && (reply.CannotRequeue? <==> phase == Running && e.phase == Queued)
                  && (reply == Refused(BadTimestamp) ==> e.occurredAt.None?)
                  && (reply == Refused(OffloadFailed) ==> e.result.ResultData? && policy == Offload(None))
                  && (reply.Refused? && reply.error.IncompatibleCluster? ==>
                        reply.error.expected == st.executions[k].cluster != e.producer))
            && !reply.Exists? && !reply.AbortFailed?
  {
  }

  /** A new execution is UNDEFINED, has what was asked for and nothing more, and raises the gauge; one that exists stays. */
  lemma CreateEffect(st: Store, k: Key, c: Created)
    ensures var (st', reply) := OnCreate(st, k, c);
            && (reply.Accepted? <==> k !in st.executions) && (reply.Exists? <==> k in st.executions)
            && (k in st.executions ==> st' == st)
            && (k !in st.executions ==>
                  && st'.active == st.active + 1 && st'.notified == st.notified
                  && k in st'.executions && st'.executions == st.executions[k := st'.executions[k]]
                  && var r := st'.executions[k];
                     && r.phase == Undefined && r.closure.phase == Undefined
                     && r.createdAt == r.updatedAt == r.closure.createdAt == r.closure.updatedAt == c.at
                     && r.startedAt == r.closure.startedAt == None && r.closure.duration == None && r.duration == 0
                     && r.closure.output == NoOutput && r.errorKind == r.errorCode == None && r.abortCause == ""
                     && r.closure.notifications == c.notifications && r.spec.request == c.request
                     && r.user == r.spec.principal == c.principal && r.mode == r.spec.mode == c.mode
                     && r.cluster == r.spec.cluster == c.cluster)
  {
  }

  /** Only the direct step is refused: a running execution can be queued again by way of UNDEFINED, and moves clusters. */
  lemma RunningCanBeRequeued(st: Store, k: Key, producer: string, at: Time)
    requires k in st.executions && st.executions[k].phase.Running? && IsRealProducer(producer)
    ensures var st1 := OnEvent(st, k, Event(Undefined, Some(at), producer, NoResult), StoreInline).0;
            var (st2, reply) := OnEvent(st1, k, Event(Queued, Some(at), producer, NoResult), StoreInline);
            reply.Accepted? && st2.executions[k].phase.Queued? && st2.executions[k].cluster == producer
  {
    var e1, e2 := Event(Undefined, Some(at), producer, NoResult), Event(Queued, Some(at), producer, NoResult);
    EventAcceptedIff(st, k, e1, StoreInline);
    EventEffect(st, k, e1, StoreInline);
    var st1 := OnEvent(st, k, e1, StoreInline).0;
    hide OnEvent;
    EventAcceptedIff(st1, k, e2, StoreInline);
    EventEffect(st1, k, e2, StoreInline);
  }

  /** The events that are accepted when they come again. */
  predicate IsTakenAgain(p: Phase) { p.Queued? || p.Unknown? }

  /** The row says what the event says, its output apart. */
  predicate Reflects(r: Row, e: Event) {
    && e.occurredAt == Some(r.updatedAt) && r.closure.updatedAt == r.updatedAt
    && r.phase == e.phase && r.closure.phase == e.phase
    && (IsRealProducer(e.producer) ==> r.cluster == e.producer && (IsReassignable(e.phase) ==> r.spec.cluster == e.producer))
    && (e.result.ResultError? ==> r.errorKind == Some(e.result.error.kind) && r.errorCode == Some(e.result.error.code))
  }

  lemma EventIsReflected(r: Row, e: Event, policy: Policy)
    requires Updated(r, e, policy).Ok?
    ensures EventOutput(e, policy, r.closure.output).Ok?
    ensures var r' := WriteNonEmpty(r, Updated(r, e, policy).value);
            Reflects(r', e) && r'.closure.output == EventOutput(e, policy, r.closure.output).value
  {
  }

  lemma RepeatWritesOutputOnly(r: Row, e: Event, policy: Policy)
    requires Reflects(r, e) && IsTakenAgain(e.phase) && EventOutput(e, policy, r.closure.output).Ok?
    ensures PhaseCheck(r.phase, e.phase).Accepted? && Updated(r, e, policy).Ok?
    ensures WriteNonEmpty(r, Updated(r, e, policy).value)
         == r.(closure := r.closure.(output := EventOutput(e, policy, r.closure.output).value))
  {
  }

  /** Delivering the latest accepted event once more changes nothing that is stored; only QUEUED, and a phase that is not
      known, is accepted again. */
  lemma RedeliveryIsHarmless(st: Store, k: Key, e: Event, policy: Policy)
    requires OnEvent(st, k, e, policy).1.Accepted?
    ensures var st1 := OnEvent(st, k, e, policy).0;
            var (st2, reply) := OnEvent(st1, k, e, policy);
            st2 == st1 && reply == if IsTakenAgain(e.phase) then Accepted else AlreadyRecorded
  {
    AcceptedIsRecorded(st, k, e, policy);
    RepeatedEvent(OnEvent(st, k, e, policy).0, k, e, policy, policy);
  }

  /** The row says what the event says, its output included. */
  predicate Records(r: Row, e: Event, policy: Policy) {
    Reflects(r, e) && EventOutput(e, policy, r.closure.output) == Ok(r.closure.output)
  }

  /** Where the latest thing accepted for an execution is an event, the row records it. */
  ghost predicate LatestIsRecorded(t: Traced) {
    && t.log.Keys == t.store.executions.Keys
    && forall k :: k in t.log && t.log[k] != [] && Last(t.log[k]).Took? ==>
         Records(t.store.executions[k], Last(t.log[k]).event, Last(t.log[k]).policy)
  }

  lemma AcceptedIsRecorded(st: Store, k: Key, e: Event, policy: Policy)
    requires OnEvent(st, k, e, policy).1.Accepted?
    ensures var st' := OnEvent(st, k, e, policy).0;
            && k in st.executions && k in st'.executions && Records(st'.executions[k], e, policy)
            && st'.executions == st.executions[k := st'.executions[k]]
  {
    EventIsReflected(st.executions[k], e, policy);
    hide Updated, WriteNonEmpty, Reflects;
  }

  lemma StepKeepsLatest(t: Traced, step: Step)
    requires LatestIsRecorded(t)
    ensures LatestIsRecorded(Apply(t, step))
  {
    hide Records, CreateExecutionModel, Updated, WithAbort, WriteNonEmpty;
    if step.Deliver? && OnEvent(t.store, step.key, step.event, step.policy).1.Accepted? {
      AcceptedIsRecorded(t.store, step.key, step.event, step.policy);
      hide OnEvent;
      assert Last(Apply(t, step).log[step.key]) == Took(step.event, step.policy);
    }
  }

  lemma {:induction false} RunKeepsLatest(t: Traced, steps: seq<Step>)
    requires LatestIsRecorded(t)
    ensures LatestIsRecorded(Run(t, steps))
    decreases |steps|
  {
    if steps != [] {
      StepKeepsLatest(t, steps[0]);
      hide Apply, LatestIsRecorded;
      RunKeepsLatest(Apply(t, steps[0]), steps[1..]);
    }
  }

  /** Storing the data of an event under another policy gives the same output only where the policies agree. */
  lemma PolicyDecidesOutput(r: Row, e: Event, policy: Policy, policy': Policy)
    requires Records(r, e, policy)
    ensures EventOutput(e, policy', r.closure.output) == Ok(r.closure.output) <==> !e.result.ResultData? || policy' == policy
    ensures EventOutput(e, policy', r.closure.output).Err? <==> e.result.ResultData? && policy' == Offload(None)
  {
  }

  /** Redelivery over every run: in any reachable state in which the latest thing accepted for an execution is an event,
      whatever was refused for it or happened to others since, the same event under any policy is answered as recorded,
      or taken again, or refused because its data cannot be offloaded. The store stays as it is exactly where the event
      is not taken again, or does not carry data, or its data is stored as before, or not at all. */
  lemma RedeliveryIsHarmlessIff(steps: seq<Step>, k: Key, e: Event, policy: Policy, policy': Policy)
    requires var t := Run(EMPTY, steps); k in t.log && t.log[k] != [] && Last(t.log[k]) == Took(e, policy)
    ensures var st := Run(EMPTY, steps).store;
            var (st', reply) := OnEvent(st, k, e, policy');
            && reply == (if !IsTakenAgain(e.phase) then AlreadyRecorded
                         else if e.result.ResultData? && policy' == Offload(None) then Refused(OffloadFailed)
                         else Accepted)
            && (st' == st <==>
                  !IsTakenAgain(e.phase) || !e.result.ResultData? || policy' == policy || policy' == Offload(None))
  {
    RunKeepsLatest(EMPTY, steps);
    var st := Run(EMPTY, steps).store;
    var r := st.executions[k];
    assert Records(r, e, policy);
    PolicyDecidesOutput(r, e, policy, policy');
    RepeatedEvent(st, k, e, policy, policy');
  }

  lemma RepeatedEvent(st: Store, k: Key, e: Event, policy: Policy, policy': Policy)
    requires k in st.executions && Records(st.executions[k], e, policy)
    ensures var (st', reply) := OnEvent(st, k, e, policy');
            var output := EventOutput(e, policy', st.executions[k].closure.output);
            && reply == (if !IsTakenAgain(e.phase) then AlreadyRecorded else if output.Err? then Refused(OffloadFailed) else Accepted)
            && (st' == st <==> !IsTakenAgain(e.phase) || output.Err? || output.value == st.executions[k].closure.output)
  {
    var r := st.executions[k];
    var output := EventOutput(e, policy', r.closure.output);
    if IsTakenAgain(e.phase) && output.Ok? {
      RepeatWritesOutputOnly(r, e, policy');
      hide Updated, WriteNonEmpty;
      var r' := r.(closure := r.closure.(output := output.value));
      assert OnEvent(st, k, e, policy').0.executions == st.executions[k := r'];
      assert st.executions[k := r'] == st.executions <==> r' == r;
      assert st.executions[k := r][k] == r;
    }
  }

  /** An event whose data was stored in the row, delivered again when data is offloaded, changes the output. */
  lemma OtherPolicyChangesOutput(k: Key, c: Created, at: Time) returns (steps: seq<Step>, e: Event)
    ensures var st := Run(EMPTY, steps).store;
            var (st', reply) := OnEvent(st, k, e, Offload(Some("uri")));
            && k in st.executions && k in st'.executions && reply.Accepted? && st' != st
            && e.phase == st.executions[k].phase && e.occurredAt == Some(st.executions[k].updatedAt)
  {
    e := Event(Queued, Some(at), "", ResultData("data"));
    steps := [Create(k, c), Deliver(k, e, StoreInline)];
    var t1 := Apply(EMPTY, steps[0]);
    var t2 := Apply(t1, steps[1]);
    assert steps[1..][1..] == [];
    assert Run(EMPTY, steps) == Run(t1, steps[1..]) == t2;
    assert Last(t2.log[k]) == Took(e, StoreInline);
    AcceptedIsRecorded(t1.store, k, e, StoreInline);
    RedeliveryIsHarmlessIff(steps, k, e, StoreInline, Offload(Some("uri")));
  }

  /** With an abort in between, redelivery still changes nothing, except that an event that is taken again and carries an
      output writes it over the abort metadata. */
  lemma RedeliveryAfterAbort(st: Store, k: Key, e: Event, policy: Policy, cause: string, principal: string)
    requires OnEvent(st, k, e, policy).1.Accepted?
    ensures var st1 := OnEvent(st, k, e, policy).0;
            var st2 := OnTerminate(st1, k, cause, principal, true).0;
            var st3 := OnEvent(st2, k, e, policy).0;
            st3 == st2 <==> !(IsTakenAgain(e.phase) && HasOutput(e))
  {
    EventIsReflected(st.executions[k], e, policy);
    var st1 := OnEvent(st, k, e, policy).0;
    var st2 := OnTerminate(st1, k, cause, principal, true).0;
    var r := st2.executions[k];
    assert Reflects(r, e) && r.closure.output == AbortMetadata(cause, principal);
    hide Updated, WriteNonEmpty, OnTerminate;
    if IsTakenAgain(e.phase) {
      RepeatWritesOutputOnly(r, e, policy);
      var output := EventOutput(e, policy, r.closure.output).value;
      var r' := r.(closure := r.closure.(output := output));
      assert OnEvent(st2, k, e, policy).0.executions == st2.executions[k := r'];
      assert r' == r <==> output == r.closure.output;
      assert st2.executions[k := r'] == st2.executions <==> r' == r;
    }
  }

  /** An abort that goes through needs no particular phase and changes nothing but the output and the cause: neither the
      phase nor the gauge; one that fails changes nothing. */
  lemma AbortEffect(st: Store, k: Key, cause: string, principal: string, abortOk: bool)
    ensures var (st', reply) := OnTerminate(st, k, cause, principal, abortOk);
            && (reply.Accepted? <==> k in st.executions && abortOk) && (reply.Missing? <==> k !in st.executions)
            && (!reply.Accepted? ==> st' == st && (reply.Missing? || reply.AbortFailed?))
            && (reply.Accepted? ==>
                  && k in st'.executions && st' == st.(executions := st.executions[k := st'.executions[k]])
                  && var r, r' := st.executions[k], st'.executions[k];
                     r'.(closure := r'.closure.(output := r.closure.output), abortCause := r.abortCause) == r)
  {
  }

  /** After an abort the column and the abort metadata name the same cause, unless an earlier cause was recorded and the
      new one is empty: an empty column is not written. */
  lemma AbortCauseAgreesIff(st: Store, k: Key, cause: string, principal: string)
    requires k in st.executions
    ensures var r := OnTerminate(st, k, cause, principal, true).0.executions[k];
            && r.closure.output == AbortMetadata(cause, principal)
            && (r.abortCause == cause <==> cause != "" || st.executions[k].abortCause == "")
  {
  }
}
