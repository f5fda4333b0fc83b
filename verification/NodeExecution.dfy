/**
 The life of a node execution row: created by the first event for the node, moved by later ones.

 What an event handler looks up or writes elsewhere (the workflow execution, parents, blob storage) is a parameter of
 each event, so the results hold however those answers change from one event to the next.
 */
module NodeExecution {
  import opened Wrappers
  import W = WorkflowExecution

  datatype Phase =
    | Undefined | Queued | Running | Succeeded | Failing | Failed | Aborted | Skipped | TimedOut | Recovered
    | Unknown(number: int)

  /** A stored phase that has no name is read back as UNDEFINED. */
  function ReadBack(stored: Phase): Phase { if stored.Unknown? then Undefined else stored }

  predicate IsTerminal(p: Phase) {
    p.Succeeded? || p.Failed? || p.TimedOut? || p.Aborted? || p.Skipped? || p.Recovered?
  }

  datatype Output = NoOutput | OutputUri(uri: string) | OutputData(data: string) | Failure(error: W.ExecutionError)

  /** What the node stands for: a launched workflow execution, or a task with its cache entry. */
  datatype Target = NoTarget | WorkflowNode(execution: string) | TaskNode(cacheStatus: string, catalogKey: string)

  datatype Closure = Closure(
    phase: Phase, createdAt: Time, updatedAt: Time, startedAt: Option<Time>, duration: Option<int>, output: Output,
    target: Target)

  datatype Row = Row(
    phase: Phase, inputUri: string, closure: Closure, startedAt: Option<Time>, createdAt: Time, updatedAt: Time,
    duration: int, metadata: string, parentId: Option<nat>, parentTaskId: Option<nat>,
    errorKind: Option<string>, errorCode: Option<string>, cacheStatus: Option<string>, dynamicClosure: string)

  datatype EventTarget =
    | NoMetadata
    | Workflow(execution: string)
    | Task(cacheStatus: string, catalogKey: Option<string>, isDynamic: bool)

  datatype Event = Event(
    phase: Phase, occurredAt: Option<Time>, producer: string, inputUri: string, metadata: string, result: W.EventResult,
    target: EventTarget, namesParentNode: bool, namesParentTask: bool)

  /** What the handler finds: the cluster recorded for the workflow execution, the parents' ids, whether the launched
      execution exists, where the dynamic workflow closure was written, and what becomes of inline outputs. */
  datatype Found = Found(
    cluster: Option<string>, parentNode: Option<nat>, parentTask: Option<nat>, childExists: bool, upload: Option<string>,
    policy: W.Policy)

  datatype Reply =
    | Accepted
    | MissingExecution
    | IncompatibleCluster
    | UploadFailed
    | MissingParent
    | MissingChild
    | AlreadyRecorded
    | AlreadyTerminal
    | BadTimestamp
    | OffloadFailed

  /** The default producer speaks for every cluster; any other only for the recorded one. */
  predicate ClusterAllowed(recorded: string, producer: string) {
    W.IsRealProducer(producer) ==> recorded == producer
  }

  predicate IsDynamic(e: Event) { e.target.Task? && e.target.isDynamic }

  function DynamicClosure(e: Event, f: Found): string {
    if IsDynamic(e) && f.upload.Some? then f.upload.value else ""
  }

  // ------------------------------------------------------------------------------------------------------------
  // Transformers
  // ------------------------------------------------------------------------------------------------------------

  class NodeModel {
    var row: Row

    constructor (row: Row)
      ensures this.row == row
    {
      this.row := row;
    }

    method AddNodeRunningState(e: Event, closure: Closure) returns (closure': Closure, reply: Reply)
      modifies this
      ensures reply == (if e.occurredAt.None? then BadTimestamp else Accepted)
      ensures reply.Accepted? ==> row == old(row).(startedAt := e.occurredAt) && closure' == closure.(startedAt := e.occurredAt)
    {
      if e.occurredAt.None? {
        return closure, BadTimestamp;
      }
      row := row.(startedAt := e.occurredAt);
      return closure.(startedAt := e.occurredAt), Accepted;
    }

    /** The guard looks at the closure's start time, the subtraction at the column's: the caller has to know that the
        second is there whenever the first is. */
    method AddTerminalState(e: Event, closure: Closure, policy: W.Policy) returns (closure': Closure, reply: Reply)
      requires closure.startedAt.Some? ==> row.startedAt.Some?
      modifies this
      ensures reply == TerminalReply(closure, e, policy)
      ensures reply.Accepted? ==> row == WithEnd(old(row), closure, e) && closure' == ClosedWith(old(row), closure, e, policy)
    {
      closure' := closure;
      if closure.startedAt.Some? {
        if e.occurredAt.None? {
          return closure', BadTimestamp;
        }
        row := row.(duration := e.occurredAt.value - row.startedAt.value);
        closure' := closure'.(duration := Some(row.duration));
      }
      if e.result.ResultUri? && e.result.uri != "" {
        closure' := closure'.(output := OutputUri(e.result.uri));
      } else if e.result.ResultData? {
        match policy
        case StoreInline =>
          closure' := closure'.(output := OutputData(e.result.data));
        case Offload(uri) =>
          if uri.None? {
            return closure', OffloadFailed;
          }
          closure' := closure'.(output := OutputUri(uri.value));
      } else if e.result.ResultError? {
        closure' := closure'.(output := Failure(e.result.error));
        row := row.(errorKind := Some(e.result.error.kind), errorCode := Some(e.result.error.code));
      }
      reply := Accepted;
    }

    method UpdateNodeExecutionModel(e: Event, f: Found) returns (reply: Reply)
      requires row.closure.startedAt.Some? ==> row.startedAt.Some?
      modifies this
      ensures reply == UpdateReply(old(row), e, f)
      ensures reply.Accepted? ==> row == Updated(old(row), e, f)
    {
      var closure := row.closure;
      row := row.(phase := e.phase);
      closure := closure.(phase := e.phase);
      if e.phase.Running? {
        closure, reply := AddNodeRunningState(e, closure);
        if !reply.Accepted? {
          return;
        }
      }
      if IsTerminal(e.phase) {
        closure, reply := AddTerminalState(e, closure, f.policy);
        if !reply.Accepted? {
          return;
        }
      }
      if e.target.Workflow? && !closure.target.WorkflowNode? {
        closure := closure.(target := WorkflowNode(e.target.execution));
      }
      if e.target.Task? && e.target.catalogKey.Some? {
        closure := closure.(target := TaskNode(e.target.cacheStatus, e.target.catalogKey.value));
        row := row.(cacheStatus := Some(e.target.cacheStatus));
      }
      if e.occurredAt.None? {
        return BadTimestamp;
      }
      closure := closure.(updatedAt := e.occurredAt.value);
      row := row.(closure := closure);
      row := row.(updatedAt := e.occurredAt.value);
      row := row.(dynamicClosure := DynamicClosure(e, f));
      reply := Accepted;
    }
  }

  method CreateNodeExecutionModel(e: Event, f: Found) returns (model: Option<NodeModel>, reply: Reply)
    ensures reply == CreateReply(e, f) && (model.Some? <==> reply.Accepted?)
    ensures model.Some? ==> fresh(model.value) && model.value.row == Created(e, f)
  {
    var at := if e.occurredAt.Some? then e.occurredAt.value else 0;
    var closure := Closure(e.phase, at, at, None, None, NoOutput, NoTarget);
    var m := new NodeModel(Row(e.phase, e.inputUri, closure, None, at, at, 0, e.metadata, None, None, None, None, None, ""));
    if e.phase.Running? {
      closure, reply := m.AddNodeRunningState(e, closure);
      if !reply.Accepted? {
        return None, reply;
      }
    }
    if IsTerminal(e.phase) {
      closure, reply := m.AddTerminalState(e, closure, f.policy);
      if !reply.Accepted? {
        return None, reply;
      }
    }
    m.row := m.row.(closure := closure);
    if e.occurredAt.None? {
      return None, BadTimestamp;
    }
    if e.namesParentTask {
      m.row := m.row.(parentTaskId := f.parentTask);
    }
    m.row := m.row.(parentId := if e.namesParentNode then f.parentNode else None);
    m.row := m.row.(dynamicClosure := DynamicClosure(e, f));
    return Some(m), Accepted;
  }

  function TerminalReply(closure: Closure, e: Event, policy: W.Policy): Reply {
    if closure.startedAt.Some? && e.occurredAt.None? then BadTimestamp
    else if e.result.ResultData? && policy == W.Offload(None) then OffloadFailed
    else Accepted
  }

  function EndDuration(r: Row, closure: Closure, e: Event): Option<int> {
    if closure.startedAt.Some? && r.startedAt.Some? && e.occurredAt.Some? then Some(e.occurredAt.value - r.startedAt.value)
    else None
  }

  function WithEnd(r: Row, closure: Closure, e: Event): Row {
    var d := EndDuration(r, closure, e);
    r.(duration := if d.Some? then d.value else r.duration,
       errorKind := if e.result.ResultError? then Some(e.result.error.kind) else r.errorKind,
       errorCode := if e.result.ResultError? then Some(e.result.error.code) else r.errorCode)
  }

  /** The output a result leaves: given, kept inline, written to storage, or the one that was there. */
  function ResultOutput(result: W.EventResult, policy: W.Policy, current: Output): Output {
    match result
    case NoResult => current
    case ResultUri(uri) => if uri != "" then OutputUri(uri) else current
    case ResultData(data) =>
      if policy.StoreInline? then OutputData(data) else if policy.uri.Some? then OutputUri(policy.uri.value) else current
    case ResultError(error) => Failure(error)
  }

  function ClosedWith(r: Row, closure: Closure, e: Event, policy: W.Policy): Closure {
    var d := EndDuration(r, closure, e);
    closure.(duration := if d.Some? then d else closure.duration, output := ResultOutput(e.result, policy, closure.output))
  }

  function UpdateReply(r: Row, e: Event, f: Found): Reply {
    if IsTerminal(e.phase) && !TerminalReply(r.closure, e, f.policy).Accepted? then TerminalReply(r.closure, e, f.policy)
    else if e.occurredAt.None? then BadTimestamp
    else Accepted
  }

  function NextTarget(current: Target, e: EventTarget): Target {
    match e
    case NoMetadata => current
    case Workflow(execution) => if current.WorkflowNode? then current else WorkflowNode(execution)
    case Task(status, key, _) => if key.Some? then TaskNode(status, key.value) else current
  }

  predicate HasCatalogKey(e: Event) { e.target.Task? && e.target.catalogKey.Some? }

  /** The row an update asks for. */
  function Updated(r: Row, e: Event, f: Found): Row {
    var t := if e.occurredAt.Some? then e.occurredAt.value else r.updatedAt;
    var ends := IsTerminal(e.phase);
    var closed := if ends then ClosedWith(r, r.closure, e, f.policy) else r.closure;
    var ended := if ends then WithEnd(r, r.closure, e) else r;
    ended.(
      phase := e.phase, updatedAt := t,
      startedAt := if e.phase.Running? then e.occurredAt else r.startedAt,
      cacheStatus := if HasCatalogKey(e) then Some(e.target.cacheStatus) else r.cacheStatus,
      dynamicClosure := DynamicClosure(e, f),
      closure := closed.(
        phase := e.phase, updatedAt := t,
        startedAt := if e.phase.Running? then e.occurredAt else r.closure.startedAt,
        target := NextTarget(r.closure.target, e.target)))
  }

  function CreateReply(e: Event, f: Found): Reply {
    if e.phase.Running? && e.occurredAt.None? then BadTimestamp
    else if IsTerminal(e.phase) && e.result.ResultData? && f.policy == W.Offload(None) then OffloadFailed
    else if e.occurredAt.None? then BadTimestamp
    else Accepted
  }

  /** The row the first event asks for: it is never given a duration or a target. */
  function Created(e: Event, f: Found): Row {
    var at := if e.occurredAt.Some? then e.occurredAt.value else 0;
    var started := if e.phase.Running? then e.occurredAt else None;
    var fails := IsTerminal(e.phase) && e.result.ResultError?;
    Row(e.phase, e.inputUri,
        Closure(e.phase, at, at, started, None, if IsTerminal(e.phase) then ResultOutput(e.result, f.policy, NoOutput) else NoOutput, NoTarget),
        started, at, at, 0, e.metadata,
        if e.namesParentNode then f.parentNode else None, if e.namesParentTask then f.parentTask else None,
        if fails then Some(e.result.error.kind) else None, if fails then Some(e.result.error.code) else None, None,
        DynamicClosure(e, f))
  }

  // ------------------------------------------------------------------------------------------------------------
  // The repository and the manager
  // ------------------------------------------------------------------------------------------------------------

  /** An update writes the non-empty columns of the model over the stored row. */
  function WriteNonEmpty(stored: Row, r: Row): Row {
    Row(r.phase,
        if r.inputUri != "" then r.inputUri else stored.inputUri,
        r.closure,
        if r.startedAt.Some? then r.startedAt else stored.startedAt,
        r.createdAt, r.updatedAt,
        if r.duration != 0 then r.duration else stored.duration,
        if r.metadata != "" then r.metadata else stored.metadata,
        if r.parentId.Some? then r.parentId else stored.parentId,
        if r.parentTaskId.Some? then r.parentTaskId else stored.parentTaskId,
        if r.errorKind.Some? then r.errorKind else stored.errorKind,
        if r.errorCode.Some? then r.errorCode else stored.errorCode,
        if r.cacheStatus.Some? then r.cacheStatus else stored.cacheStatus,
        if r.dynamicClosure != "" then r.dynamicClosure else stored.dynamicClosure)
  }

  datatype Key = Key(execution: W.Key, node: string)

  type Nodes = map<Key, Row>

  function Precheck(e: Event, f: Found): Reply {
    if f.cluster.None? then MissingExecution
    else if !ClusterAllowed(f.cluster.value, e.producer) then IncompatibleCluster
    else if IsDynamic(e) && f.upload.None? then UploadFailed
    else Accepted
  }

  function FirstEventReply(e: Event, f: Found): Reply {
    if (e.namesParentTask && f.parentTask.None?) || (e.namesParentNode && f.parentNode.None?) then MissingParent
    else CreateReply(e, f)
  }

  function LaterEventReply(r: Row, e: Event, f: Found): Reply {
    if ReadBack(r.phase) == e.phase then AlreadyRecorded
    else if IsTerminal(r.phase) then AlreadyTerminal
    else if e.target.Workflow? && !f.childExists then MissingChild
    else UpdateReply(r, e, f)
  }

  function EventReply(nodes: Nodes, k: Key, e: Event, f: Found): Reply {
    if !Precheck(e, f).Accepted? then Precheck(e, f)
    else if k !in nodes then FirstEventReply(e, f)
    else LaterEventReply(nodes[k], e, f)
  }

  function OnEvent(nodes: Nodes, k: Key, e: Event, f: Found): Nodes {
    if !EventReply(nodes, k, e, f).Accepted? then nodes
    else if k !in nodes then nodes[k := Created(e, f)]
    else nodes[k := WriteNonEmpty(nodes[k], Updated(nodes[k], e, f))]
  }

  /** The start time is in the column exactly when it is in the closure, and is the same. */
  ghost predicate StartsAgree(nodes: Nodes) { forall k :: k in nodes ==> nodes[k].startedAt == nodes[k].closure.startedAt }

  class NodeExecutionManager {
    var nodes: Nodes

    constructor ()
      ensures nodes == map[] && StartsAgree(nodes)
    {
      nodes := map[];
    }

    /** No call reads a start time that is not there. */
    method CreateNodeEvent(k: Key, e: Event, f: Found) returns (reply: Reply)
      requires StartsAgree(nodes)
      modifies this
      ensures StartsAgree(nodes)
      ensures reply == EventReply(old(nodes), k, e, f) && nodes == OnEvent(old(nodes), k, e, f)
    {
      if f.cluster.None? {
        return MissingExecution;
      }
      if W.IsRealProducer(e.producer) && f.cluster.value != e.producer {
        return IncompatibleCluster;
      }
      if IsDynamic(e) && f.upload.None? {
        return UploadFailed;
      }
      if k !in nodes {
        reply := CreateNodeExecutionWithEvent(k, e, f);
      } else {
        reply := UpdateNodeExecutionWithEvent(k, e, f);
      }
    }

    method CreateNodeExecutionWithEvent(k: Key, e: Event, f: Found) returns (reply: Reply)
      requires StartsAgree(nodes) && k !in nodes
      modifies this
      ensures StartsAgree(nodes) && reply == FirstEventReply(e, f)
      ensures nodes == if reply.Accepted? then old(nodes)[k := Created(e, f)] else old(nodes)
    {
      if e.namesParentTask && f.parentTask.None? {
        return MissingParent;
      }
      if e.namesParentNode && f.parentNode.None? {
        return MissingParent;
      }
      var model;
      model, reply := CreateNodeExecutionModel(e, f);
      if model.Some? {
        nodes := nodes[k := model.value.row];
      }
    }

    method UpdateNodeExecutionWithEvent(k: Key, e: Event, f: Found) returns (reply: Reply)
      requires StartsAgree(nodes) && k in nodes
      modifies this
      ensures StartsAgree(nodes) && reply == LaterEventReply(old(nodes)[k], e, f)
      ensures nodes == if reply.Accepted? then old(nodes)[k := WriteNonEmpty(old(nodes)[k], Updated(old(nodes)[k], e, f))] else old(nodes)
    {
      var model := new NodeModel(nodes[k]);
      var phase := ReadBack(model.row.phase);
      if phase == e.phase {
        return AlreadyRecorded;
      } else if IsTerminal(phase) {
        return AlreadyTerminal;
      }
      if e.target.Workflow? && !f.childExists {
        return MissingChild;
      }
      reply := model.UpdateNodeExecutionModel(e, f);
      if reply.Accepted? {
        nodes := nodes[k := WriteNonEmpty(nodes[k], model.row)];
      }
    }
  }

  // ------------------------------------------------------------------------------------------------------------
  // A row is a function of its history
  // ------------------------------------------------------------------------------------------------------------

  datatype Entry = Entry(event: Event, found: Found)

  function At(e: Entry): Time { if e.event.occurredAt.Some? then e.event.occurredAt.value else 0 }

  function LastRunning(log: seq<Entry>): Option<Time> {
    if log == [] then None else if Last(log).event.phase.Running? then Some(At(Last(log))) else LastRunning(Front(log))
  }

  /** From the latest accepted RUNNING event to the terminal one, which is last. */
  function RunTime(log: seq<Entry>): Option<int> {
    if log != [] && IsTerminal(Last(log).event.phase) && LastRunning(log).Some? then Some(At(Last(log)) - LastRunning(log).value)
    else None
  }

  /** The first event's target is not recorded. */
  function LastTarget(log: seq<Entry>): Target {
    if |log| <= 1 then NoTarget else NextTarget(LastTarget(Front(log)), Last(log).event.target)
  }

  function LastCacheStatus(log: seq<Entry>): Option<string> {
    if |log| <= 1 then None
    else if HasCatalogKey(Last(log).event) then Some(Last(log).event.target.cacheStatus)
    else LastCacheStatus(Front(log))
  }

  function LastDynamicClosure(log: seq<Entry>): string {
    if log == [] then ""
    else if DynamicClosure(Last(log).event, Last(log).found) != "" then DynamicClosure(Last(log).event, Last(log).found)
    else LastDynamicClosure(Front(log))
  }

  /** Only a terminal event, which is last, leaves an output or an error. */
  function RowOf(log: seq<Entry>): Row
    requires log != []
  {
    var first, last := log[0], Last(log);
    var e, f := first.event, first.found;
    var ends := IsTerminal(last.event.phase);
    var fails := ends && last.event.result.ResultError?;
    Row(last.event.phase, e.inputUri,
        Closure(last.event.phase, At(first), At(last), LastRunning(log), RunTime(log),
                if ends then ResultOutput(last.event.result, last.found.policy, NoOutput) else NoOutput, LastTarget(log)),
        LastRunning(log), At(first), At(last),
        if RunTime(log).Some? then RunTime(log).value else 0,
        e.metadata,
        if e.namesParentNode then f.parentNode else None, if e.namesParentTask then f.parentTask else None,
        if fails then Some(last.event.result.error.kind) else None,
        if fails then Some(last.event.result.error.code) else None,
        LastCacheStatus(log), LastDynamicClosure(log))
  }

  /** Every accepted event carries a time, no phase is repeated at once, and nothing follows a terminal event. */
  ghost predicate LogOk(log: seq<Entry>) {
    && log != []
    && (forall i :: 0 <= i < |log| ==> log[i].event.occurredAt.Some?)
    && (forall i :: 0 <= i < |log| - 1 ==> !IsTerminal(log[i].event.phase) && ReadBack(log[i].event.phase) != log[i + 1].event.phase)
  }

  ghost predicate IsHistory(r: Row, log: seq<Entry>) { LogOk(log) && r == RowOf(log) }

  lemma FirstEventIsHistory(e: Event, f: Found)
    requires CreateReply(e, f).Accepted?
    ensures IsHistory(Created(e, f), [Entry(e, f)])
  {
    var log := [Entry(e, f)];
    assert Front(log) == [] && Last(log) == log[0];
    assert LastRunning(log) == if e.phase.Running? then e.occurredAt else None;
    assert LastDynamicClosure(log) == DynamicClosure(e, f);
  }

  /** What one more accepted event does to each part of the history. */
  lemma EventExtends(log: seq<Entry>, e: Event, f: Found)
    requires LogOk(log) && !IsTerminal(Last(log).event.phase) && ReadBack(Last(log).event.phase) != e.phase && e.occurredAt.Some?
    ensures var log' := log + [Entry(e, f)];
            && LogOk(log') && log'[0] == log[0] && Last(log') == Entry(e, f)
            && LastRunning(log') == (if e.phase.Running? then e.occurredAt else LastRunning(log))
            && LastTarget(log') == NextTarget(LastTarget(log), e.target)
            && LastCacheStatus(log') == (if HasCatalogKey(e) then Some(e.target.cacheStatus) else LastCacheStatus(log))
            && LastDynamicClosure(log') == (if DynamicClosure(e, f) != "" then DynamicClosure(e, f) else LastDynamicClosure(log))
            && RunTime(log) == None
  {
    var log' := log + [Entry(e, f)];
    assert Front(log') == log && Last(log') == Entry(e, f);
  }

  /** An accepted event extends the history, and the row it leaves is the row of the longer history. */
  lemma EventExtendsRow(r: Row, log: seq<Entry>, e: Event, f: Found)
    requires IsHistory(r, log) && LaterEventReply(r, e, f).Accepted?
    ensures IsHistory(WriteNonEmpty(r, Updated(r, e, f)), log + [Entry(e, f)])
  {
    EventExtends(log, e, f);
    hide LogOk, LastRunning, LastTarget, LastCacheStatus, LastDynamicClosure, NextTarget;
    assert WriteNonEmpty(r, Updated(r, e, f)).closure == RowOf(log + [Entry(e, f)]).closure;
  }

  datatype Step = Step(key: Key, event: Event, found: Found)

  datatype Traced = Traced(nodes: Nodes, log: map<Key, seq<Entry>>)

  function Apply(t: Traced, s: Step): Traced {
    if EventReply(t.nodes, s.key, s.event, s.found).Accepted? then
      var before := if s.key in t.log then t.log[s.key] else [];
      Traced(OnEvent(t.nodes, s.key, s.event, s.found), t.log[s.key := before + [Entry(s.event, s.found)]])
    else t
  }

  function Run(t: Traced, steps: seq<Step>): Traced
    decreases |steps|
  {
    if steps == [] then t else Run(Apply(t, steps[0]), steps[1..])
  }

  const EMPTY := Traced(map[], map[])

  ghost predicate Inv(t: Traced) {
    t.log.Keys == t.nodes.Keys && forall k :: k in t.log ==> IsHistory(t.nodes[k], t.log[k])
  }

  lemma StepKeepsInv(t: Traced, s: Step)
    requires Inv(t)
    ensures Inv(Apply(t, s))
  {
    hide IsHistory, Created, Updated, WriteNonEmpty;
    var k := s.key;
    if EventReply(t.nodes, k, s.event, s.found).Accepted? {
      if k in t.nodes {
        EventExtendsRow(t.nodes[k], t.log[k], s.event, s.found);
      } else {
        assert [] + [Entry(s.event, s.found)] == [Entry(s.event, s.found)];
        FirstEventIsHistory(s.event, s.found);
      }
    }
  }

  lemma {:induction false} RunKeepsInv(t: Traced, steps: seq<Step>)
    requires Inv(t)
    ensures Inv(Run(t, steps))
    decreases |steps|
  {
    hide Inv, Apply;
    if steps != [] {
      StepKeepsInv(t, steps[0]);
      RunKeepsInv(Apply(t, steps[0]), steps[1..]);
    }
  }

  /** Every stored row is determined by the events accepted for it. */
  lemma StoredRowIsItsHistory(steps: seq<Step>, k: Key)
    requires k in Run(EMPTY, steps).nodes
    ensures var t := Run(EMPTY, steps); k in t.log && LogOk(t.log[k]) && t.nodes[k] == RowOf(t.log[k])
  {
    RunKeepsInv(EMPTY, steps);
  }

  /** A fact kept twice is kept the same; in particular the two start times the duration code mixes. */
  lemma DuplicatedFactsAgree(steps: seq<Step>, k: Key)
    requires k in Run(EMPTY, steps).nodes
    ensures var r := Run(EMPTY, steps).nodes[k];
            && r.phase == r.closure.phase
            && r.startedAt == r.closure.startedAt
            && r.createdAt == r.closure.createdAt && r.updatedAt == r.closure.updatedAt
            && r.duration == (if r.closure.duration.Some? then r.closure.duration.value else 0)
  {
    StoredRowIsItsHistory(steps, k);
  }

  /** The duration of a finished node runs from its latest accepted RUNNING event to its terminal event; a node that
      never ran, or is not finished, has none. */
  lemma DurationIsRunTime(steps: seq<Step>, k: Key)
    requires k in Run(EMPTY, steps).nodes
    ensures var t := Run(EMPTY, steps);
            var r := t.nodes[k];
            && k in t.log && t.log[k] != []
            && (if IsTerminal(r.phase) && LastRunning(t.log[k]).Some? then
                  r.closure.duration == Some(At(Last(t.log[k])) - LastRunning(t.log[k]).value)
                else
                  r.closure.duration == None && r.duration == 0)
  {
    StoredRowIsItsHistory(steps, k);
  }

  /** A finished node's row never changes again. */
  lemma {:induction false} TerminalIsAbsorbing(t: Traced, steps: seq<Step>, k: Key)
    requires k in t.nodes && IsTerminal(t.nodes[k].phase)
    ensures k in Run(t, steps).nodes && Run(t, steps).nodes[k] == t.nodes[k]
    decreases |steps|
  {
    if steps != [] {
      hide Updated, WriteNonEmpty;
      TerminalIsAbsorbing(Apply(t, steps[0]), steps[1..], k);
    }
  }

  /** A launched execution recorded for a node stays recorded until a cache entry replaces it. */
  lemma {:induction false} LaunchedExecutionIsKept(t: Traced, steps: seq<Step>, k: Key)
    requires k in t.nodes && t.nodes[k].closure.target.WorkflowNode?
    requires forall i :: 0 <= i < |steps| ==> !HasCatalogKey(steps[i].event)
    ensures k in Run(t, steps).nodes && Run(t, steps).nodes[k].closure.target == t.nodes[k].closure.target
    decreases |steps|
  {
    if steps != [] {
      var t' := Apply(t, steps[0]);
      assert !HasCatalogKey(steps[0].event);
      assert t'.nodes[k].closure.target == t.nodes[k].closure.target;
      LaunchedExecutionIsKept(t', steps[1..], k);
    }
  }

  // ------------------------------------------------------------------------------------------------------------
  // One event
  // ------------------------------------------------------------------------------------------------------------

  /** The row already has the target, the cache status and the dynamic closure that the event brings. */
  predicate HasAll(r: Row, e: Event, f: Found) {
    && (e.target.Workflow? ==> r.closure.target.WorkflowNode?)
    && (HasCatalogKey(e) ==>
          r.closure.target == TaskNode(e.target.cacheStatus, e.target.catalogKey.value) && r.cacheStatus == Some(e.target.cacheStatus))
    && (DynamicClosure(e, f) == "" || DynamicClosure(e, f) == r.dynamicClosure)
  }

  /** Delivering the latest accepted event once more, whatever is found then, is refused and changes nothing. Only a phase
      that is not known is taken again, and then it changes the row exactly when it brings something the row has not:
      the first event of a node leaves no target. */
  lemma RedeliveryIsHarmlessIff(nodes: Nodes, k: Key, e: Event, f: Found, f': Found)
    requires EventReply(nodes, k, e, f).Accepted?
    ensures var nodes1 := OnEvent(nodes, k, e, f);
            && (!e.phase.Unknown? && Precheck(e, f').Accepted? ==> EventReply(nodes1, k, e, f') == AlreadyRecorded)
            && (OnEvent(nodes1, k, e, f') == nodes1 <==>
                  !e.phase.Unknown? || !EventReply(nodes1, k, e, f').Accepted? || HasAll(nodes1[k], e, f'))
  {
    var nodes1 := OnEvent(nodes, k, e, f);
    var r := nodes1[k];
    assert r.phase == e.phase && r.closure.phase == e.phase;
    assert r.updatedAt == r.closure.updatedAt == e.occurredAt.value;
    if e.phase.Unknown? && EventReply(nodes1, k, e, f').Accepted? {
      var r' := WriteNonEmpty(r, Updated(r, e, f'));
      assert OnEvent(nodes1, k, e, f') == nodes1[k := r'];
      assert r'.closure == r.closure <==> r'.closure.target == r.closure.target;
      assert r' == r <==> r'.closure == r.closure && r'.cacheStatus == r.cacheStatus && r'.dynamicClosure == r.dynamicClosure;
      assert nodes1[k := r'] == nodes1 <==> r' == r;
    }
  }

  /** An event is accepted exactly when the workflow execution exists and its cluster may report, what the event names
      exists, what it brings could be stored, it carries a time, and it moves an unfinished node to another phase. A phase
      that is not known counts as UNDEFINED. */
  lemma EventAcceptedIff(nodes: Nodes, k: Key, e: Event, f: Found)
    requires StartsAgree(nodes)
    ensures EventReply(nodes, k, e, f).Accepted? <==>
              && f.cluster.Some? && (e.producer in {"", "propeller"} || f.cluster == Some(e.producer))
              && (e.target.Task? && e.target.isDynamic ==> f.upload.Some?)
              && e.occurredAt.Some?
              && !(e.phase in {Succeeded, Failed, TimedOut, Aborted, Skipped, Recovered}
                   && e.result.ResultData? && f.policy == W.Offload(None))
              && (if k in nodes then
                    && nodes[k].phase !in {Succeeded, Failed, TimedOut, Aborted, Skipped, Recovered}
                    && (nodes[k].phase == e.phase ==> e.phase.Unknown?) && !(nodes[k].phase.Unknown? && e.phase == Undefined)
                    && (e.target.Workflow? ==> f.childExists)
                  else
                    (e.namesParentTask ==> f.parentTask.Some?) && (e.namesParentNode ==> f.parentNode.Some?))
  {
  }

  /** Why an event is refused. */
  lemma RefusalTells(nodes: Nodes, k: Key, e: Event, f: Found)
    ensures var reply := EventReply(nodes, k, e, f);
            && (reply.MissingExecution? <==> f.cluster.None?)
            && (reply.IncompatibleCluster? <==> f.cluster.Some? && e.producer !in {"", "propeller"} && f.cluster.value != e.producer)
            && (reply.UploadFailed? ==> e.target.Task? && e.target.isDynamic && f.upload.None?)
            && (reply.MissingParent? ==> k !in nodes && ((e.namesParentTask && f.parentTask.None?) || (e.namesParentNode && f.parentNode.None?)))
            && (reply.MissingChild? ==> k in nodes && e.target.Workflow? && !f.childExists)
            && (reply.AlreadyRecorded? ==> k in nodes && (nodes[k].phase == e.phase || (nodes[k].phase.Unknown? && e.phase == Undefined)))
            && (reply.AlreadyTerminal? ==> k in nodes && nodes[k].phase in {Succeeded, Failed, TimedOut, Aborted, Skipped, Recovered})
            && (reply.BadTimestamp? ==> e.occurredAt.None?)
            && (reply.OffloadFailed? ==> e.result.ResultData? && f.policy == W.Offload(None))
  {
  }

  /** An event that is refused changes nothing, and an accepted one only the row of its node: phase and times are its own,
      and what the first event said of the node stays. */
  lemma EventEffect(nodes: Nodes, k: Key, e: Event, f: Found)
    ensures var nodes' := OnEvent(nodes, k, e, f);
            && (!EventReply(nodes, k, e, f).Accepted? ==> nodes' == nodes)
            && (EventReply(nodes, k, e, f).Accepted? ==>
                  && k in nodes' && nodes' == nodes[k := nodes'[k]]
                  && var r' := nodes'[k];
                     && r'.phase == r'.closure.phase == e.phase
                     && e.occurredAt == Some(r'.updatedAt) && e.occurredAt == Some(r'.closure.updatedAt)
                     && (e.phase == Running ==> r'.startedAt == r'.closure.startedAt == e.occurredAt)
                     && (k in nodes ==>
                           var r := nodes[k];
                           && (e.phase != Running ==> r'.startedAt == r.startedAt && r'.closure.startedAt == r.closure.startedAt)
                           && (r'.inputUri, r'.metadata, r'.createdAt) == (r.inputUri, r.metadata, r.createdAt)
                           && (r'.parentId, r'.parentTaskId, r'.closure.createdAt) == (r.parentId, r.parentTaskId, r.closure.createdAt))
                     && (k !in nodes ==>
                           && (e.phase != Running ==> r'.startedAt == r'.closure.startedAt == None)
                           && r'.inputUri == e.inputUri && r'.metadata == e.metadata
                           && e.occurredAt == Some(r'.createdAt) && e.occurredAt == Some(r'.closure.createdAt)
                           && r'.parentId == (if e.namesParentNode then f.parentNode else None)
                           && r'.parentTaskId == (if e.namesParentTask then f.parentTask else None)))
  {
  }

  /** Only an event that ends the node leaves an output, an error or a duration, and they come from its own result and
      time. */
  lemma EndingEventEffect(nodes: Nodes, k: Key, e: Event, f: Found)
    requires StartsAgree(nodes) && EventReply(nodes, k, e, f).Accepted?
    ensures var nodes' := OnEvent(nodes, k, e, f);
            && k in nodes'
            && var r' := nodes'[k];
               var (output, duration, errorKind, errorCode, started) :=
                 if k in nodes then
                   (nodes[k].closure.output, nodes[k].closure.duration, nodes[k].errorKind, nodes[k].errorCode, nodes[k].startedAt)
                 else (NoOutput, None, None, None, None);
               if e.phase in {Succeeded, Failed, TimedOut, Aborted, Skipped, Recovered} then
                 && r'.closure.duration == (if started.Some? then Some(e.occurredAt.value - started.value) else duration)
                 && match e.result
                    case ResultError(error) =>
                      r'.closure.output == Failure(error) && r'.errorKind == Some(error.kind) && r'.errorCode == Some(error.code)
                    case ResultData(data) =>
                      && r'.closure.output == (if f.policy.StoreInline? then OutputData(data) else OutputUri(f.policy.uri.value))
                      && (r'.errorKind, r'.errorCode) == (errorKind, errorCode)
                    case ResultUri(uri) =>
                      && r'.closure.output == (if uri == "" then output else OutputUri(uri))
                      && (r'.errorKind, r'.errorCode) == (errorKind, errorCode)
                    case NoResult => r'.closure.output == output && (r'.errorKind, r'.errorCode) == (errorKind, errorCode)
               else
                 && r'.closure.duration == duration && r'.closure.output == output
                 && (r'.errorKind, r'.errorCode) == (errorKind, errorCode)
  {
  }

  /** What a node stands for: a later event records the execution it names, unless one is recorded, or the cache entry it
      names, and the closure of the dynamic workflow it brings; the first event leaves no target. */
  lemma TargetIs(nodes: Nodes, k: Key, e: Event, f: Found)
    requires EventReply(nodes, k, e, f).Accepted?
    ensures var nodes' := OnEvent(nodes, k, e, f);
            && k in nodes'
            && var r' := nodes'[k];
               && (k !in nodes ==> r'.closure.target == NoTarget && r'.cacheStatus == None)
               && (k in nodes ==>
                     var r := nodes[k];
                     match e.target
                     case Workflow(execution) =>
                       && (r.closure.target.WorkflowNode? ==> r'.closure.target == r.closure.target)
                       && (!r.closure.target.WorkflowNode? ==> r'.closure.target == WorkflowNode(execution))
                       && r'.cacheStatus == r.cacheStatus
                     case Task(status, Some(key), _) => r'.closure.target == TaskNode(status, key) && r'.cacheStatus == Some(status)
                     case _ => r'.closure.target == r.closure.target && r'.cacheStatus == r.cacheStatus)
               && r'.dynamicClosure ==
                    if e.target.Task? && e.target.isDynamic && f.upload != Some("") then f.upload.value
                    else if k in nodes then nodes[k].dynamicClosure else ""
  {
  }

  /** The node's row changes no more, whatever happens. */
  ghost predicate IsFinal(t: Traced, k: Key) {
    k in t.nodes && forall steps :: k in Run(t, steps).nodes && Run(t, steps).nodes[k] == t.nodes[k]
  }

  /** Exactly an event that says SUCCEEDED, FAILED, TIMED_OUT, ABORTED, SKIPPED or RECOVERED is final. */
  lemma EndingIsFinalIff(t: Traced, k: Key, e: Event, f: Found)
    requires StartsAgree(t.nodes) && EventReply(t.nodes, k, e, f).Accepted?
    ensures IsFinal(Apply(t, Step(k, e, f)), k) <==> e.phase in {Succeeded, Failed, TimedOut, Aborted, Skipped, Recovered}
  {
    hide OnEvent, EventReply;
    var t1 := Apply(t, Step(k, e, f));
    EventEffect(t.nodes, k, e, f);
    EventAcceptedIff(t.nodes, k, e, f);
    if e.phase in {Succeeded, Failed, TimedOut, Aborted, Skipped, Recovered} {
      forall steps ensures k in Run(t1, steps).nodes && Run(t1, steps).nodes[k] == t1.nodes[k] {
        TerminalIsAbsorbing(t1, steps, k);
      }
    } else {
      var failed := e.(phase := Failed, result := W.NoResult, target := NoMetadata);
      EventAcceptedIff(t1.nodes, k, failed, f);
      OneStep(t1, Step(k, failed, f));
      EventEffect(t1.nodes, k, failed, f);
      assert Run(t1, [Step(k, failed, f)]).nodes[k] != t1.nodes[k];
    }
  }

  lemma OneStep(t: Traced, s: Step)
    ensures Run(t, [s]) == Apply(t, s)
  {
    assert [s][1..] == [];
  }
}
