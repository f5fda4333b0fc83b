/**
 The links between workflow, node and task executions: which node launched an execution, which node or task a node
 belongs to, and what a launched execution inherits.

 Only the parts of the three managers that set or follow links are here. No handler deletes a row or changes a link, so
 an event for a row that exists already is no step.
 */
module Lineage {
  import opened Wrappers
  import W = WorkflowExecution
  import N = NodeExecution
  import T = TaskExecution

  /** Nesting is an unsigned 32-bit number. */
  const NESTING_VALUES := 0x1_0000_0000

  type Nesting = n: int | 0 <= n < NESTING_VALUES

  /** Row ids count from 1 in each table, so 0 is no link. Births count rows over all tables and are not read by any
      handler. */
  datatype ExecutionRow = ExecutionRow(id: nat, parentNode: nat, source: nat, user: string, nesting: Nesting, birth: nat)
  datatype NodeRow = NodeRow(id: nat, parent: Option<nat>, parentTask: Option<nat>, birth: nat)
  datatype TaskRow = TaskRow(id: nat, birth: nat)

  datatype Tables = Tables(
    executions: map<W.Key, ExecutionRow>, nodes: map<N.Key, NodeRow>, tasks: map<T.Key, TaskRow>,
    lastExecution: nat, lastNode: nat, lastTask: nat, births: nat)

  datatype Reply = Created | MissingExecution | MissingNode | MissingTask | MissingSource | Exists

  // ------------------------------------------------------------------------------------------------------------
  // Handlers
  // ------------------------------------------------------------------------------------------------------------

  /** What a new execution gets from the node that launched it. */
  datatype Inherited = Inherited(parentNode: nat, source: nat, user: string, nesting: Nesting)

  function GetInheritedExecMetadata(t: Tables, user: string, nesting: Nesting, parent: Option<N.Key>): Result<Inherited, Reply> {
    if parent.None? then Ok(Inherited(0, 0, user, nesting))
    else if parent.value !in t.nodes then Err(MissingNode)
    else if parent.value.execution !in t.executions then Err(MissingSource)
    else
      var source := t.executions[parent.value.execution];
      Ok(Inherited(t.nodes[parent.value].id, source.id, source.user, (source.nesting + 1) % NESTING_VALUES))
  }

  function OnCreateExecution(t: Tables, k: W.Key, user: string, nesting: Nesting, parent: Option<N.Key>): (Tables, Reply) {
    match GetInheritedExecMetadata(t, user, nesting, parent)
    case Err(reply) => (t, reply)
    case Ok(i) =>
      if k in t.executions then (t, Exists)
      else
        var row := ExecutionRow(t.lastExecution + 1, i.parentNode, i.source, i.user, i.nesting, t.births);
        (t.(executions := t.executions[k := row], lastExecution := row.id, births := t.births + 1), Created)
  }

  /** The parent node is named within the node's own execution; the parent task by its full identifier. */
  function OnFirstNodeEvent(t: Tables, k: N.Key, parent: Option<string>, parentTask: Option<T.Key>): (Tables, Reply) {
    if k.execution !in t.executions then (t, MissingExecution)
    else if k in t.nodes then (t, Exists)
    else if parentTask.Some? && parentTask.value !in t.tasks then (t, MissingTask)
    else if parent.Some? && N.Key(k.execution, parent.value) !in t.nodes then (t, MissingNode)
    else
      var row := NodeRow(
        t.lastNode + 1,
        if parent.Some? then Some(t.nodes[N.Key(k.execution, parent.value)].id) else None,
        if parentTask.Some? then Some(t.tasks[parentTask.value].id) else None,
        t.births);
      (t.(nodes := t.nodes[k := row], lastNode := row.id, births := t.births + 1), Created)
  }

  function OnFirstTaskEvent(t: Tables, k: T.Key): (Tables, Reply) {
    if k.node.execution !in t.executions then (t, MissingExecution)
    else if k in t.tasks then (t, Exists)
    else if k.node !in t.nodes then (t, MissingNode)
    else
      var row := TaskRow(t.lastTask + 1, t.births);
      (t.(tasks := t.tasks[k := row], lastTask := row.id, births := t.births + 1), Created)
  }

  class Managers {
    var tables: Tables

    constructor ()
      ensures tables == EMPTY
    {
      tables := EMPTY;
    }

    method CreateExecution(k: W.Key, user: string, nesting: Nesting, parent: Option<N.Key>) returns (reply: Reply)
      modifies this
      ensures (tables, reply) == OnCreateExecution(old(tables), k, user, nesting, parent)
    {
      var parentNode, source, principal, depth := 0, 0, user, nesting;
      if parent.Some? {
        if parent.value !in tables.nodes {
          return MissingNode;
        }
        parentNode := tables.nodes[parent.value].id;
        if parent.value.execution !in tables.executions {
          return MissingSource;
        }
        var sourceModel := tables.executions[parent.value.execution];
        source := sourceModel.id;
        principal := sourceModel.user;
        depth := (sourceModel.nesting + 1) % NESTING_VALUES;
      }
      if k in tables.executions {
        return Exists;
      }
      var id := tables.lastExecution + 1;
      var row := ExecutionRow(id, parentNode, source, principal, depth, tables.births);
      tables := tables.(executions := tables.executions[k := row], lastExecution := id, births := tables.births + 1);
      return Created;
    }

    method CreateNodeExecutionWithEvent(k: N.Key, parent: Option<string>, parentTask: Option<T.Key>) returns (reply: Reply)
      modifies this
      ensures (tables, reply) == OnFirstNodeEvent(old(tables), k, parent, parentTask)
    {
      if k.execution !in tables.executions {
        return MissingExecution;
      }
      if k in tables.nodes {
        return Exists;
      }
      var taskId, nodeId := None, None;
      if parentTask.Some? {
        if parentTask.value !in tables.tasks {
          return MissingTask;
        }
        taskId := Some(tables.tasks[parentTask.value].id);
      }
      if parent.Some? {
        var parentKey := N.Key(k.execution, parent.value);
        if parentKey !in tables.nodes {
          return MissingNode;
        }
        nodeId := Some(tables.nodes[parentKey].id);
      }
      var id := tables.lastNode + 1;
      tables := tables.(
        nodes := tables.nodes[k := NodeRow(id, nodeId, taskId, tables.births)], lastNode := id, births := tables.births + 1);
      return Created;
    }

    method CreateTaskExecution(k: T.Key) returns (reply: Reply)
      modifies this
      ensures (tables, reply) == OnFirstTaskEvent(old(tables), k)
    {
      if k.node.execution !in tables.executions {
        return MissingExecution;
      }
      if k in tables.tasks {
        return Exists;
      }
      if k.node !in tables.nodes {
        return MissingNode;
      }
      var id := tables.lastTask + 1;
      tables := tables.(tasks := tables.tasks[k := TaskRow(id, tables.births)], lastTask := id, births := tables.births + 1);
      return Created;
    }
  }

  const EMPTY := Tables(map[], map[], map[], 0, 0, 0, 0)

  datatype Step =
    | CreateExecution(execution: W.Key, user: string, nesting: Nesting, parent: Option<N.Key>)
    | FirstNodeEvent(node: N.Key, parentNode: Option<string>, parentTask: Option<T.Key>)
    | FirstTaskEvent(task: T.Key)

  function Apply(t: Tables, s: Step): Tables {
    match s
    case CreateExecution(k, user, nesting, parent) => OnCreateExecution(t, k, user, nesting, parent).0
    case FirstNodeEvent(k, parent, parentTask) => OnFirstNodeEvent(t, k, parent, parentTask).0
    case FirstTaskEvent(k) => OnFirstTaskEvent(t, k).0
  }

  function Run(t: Tables, steps: seq<Step>): Tables
    decreases |steps|
  {
    if steps == [] then t else Run(Apply(t, steps[0]), steps[1..])
  }

  // ------------------------------------------------------------------------------------------------------------
  // Links as the tables hold them
  // ------------------------------------------------------------------------------------------------------------

  datatype Ref = Execution(execution: W.Key) | Node(node: N.Key) | Task(task: T.Key)

  predicate Stored(t: Tables, r: Ref) {
    match r
    case Execution(k) => k in t.executions
    case Node(k) => k in t.nodes
    case Task(k) => k in t.tasks
  }

  function Birth(t: Tables, r: Ref): nat
    requires Stored(t, r)
  {
    match r
    case Execution(k) => t.executions[k].birth
    case Node(k) => t.nodes[k].birth
    case Task(k) => t.tasks[k].birth
  }

  predicate LaunchedBy(t: Tables, k: W.Key, n: N.Key) {
    k in t.executions && n in t.nodes && t.executions[k].parentNode == t.nodes[n].id
  }

  predicate HasSource(t: Tables, k: W.Key, source: W.Key) {
    k in t.executions && source in t.executions && t.executions[k].source == t.executions[source].id
  }

  predicate HasParent(t: Tables, k: N.Key, parent: N.Key) {
    k in t.nodes && parent in t.nodes && t.nodes[k].parent == Some(t.nodes[parent].id)
  }

  predicate HasParentTask(t: Tables, k: N.Key, parent: T.Key) {
    k in t.nodes && parent in t.tasks && t.nodes[k].parentTask == Some(t.tasks[parent].id)
  }

  /** Every way a row names another: by id, or by the other's key inside its own. */
  predicate Links(t: Tables, r: Ref, to: Ref) {
    match (r, to)
    case (Execution(k), Node(n)) => LaunchedBy(t, k, n)
    case (Execution(k), Execution(source)) => HasSource(t, k, source)
    case (Node(k), Execution(e)) => k in t.nodes && k.execution == e
    case (Node(k), Node(p)) => HasParent(t, k, p)
    case (Node(k), Task(p)) => HasParentTask(t, k, p)
    case (Task(k), Node(n)) => k in t.tasks && k.node == n
    case _ => false
  }

  // ------------------------------------------------------------------------------------------------------------
  // The invariant
  // ------------------------------------------------------------------------------------------------------------

  ghost predicate ExecutionIdsOk(t: Tables) {
    && (forall k :: k in t.executions ==> 1 <= t.executions[k].id <= t.lastExecution && t.executions[k].birth < t.births)
    && (forall k, k' :: k in t.executions && k' in t.executions && t.executions[k].id == t.executions[k'].id ==> k == k')
  }

  ghost predicate NodeIdsOk(t: Tables) {
    && (forall k :: k in t.nodes ==> 1 <= t.nodes[k].id <= t.lastNode && t.nodes[k].birth < t.births)
    && (forall k, k' :: k in t.nodes && k' in t.nodes && t.nodes[k].id == t.nodes[k'].id ==> k == k')
  }

  ghost predicate TaskIdsOk(t: Tables) {
    && (forall k :: k in t.tasks ==> 1 <= t.tasks[k].id <= t.lastTask && t.tasks[k].birth < t.births)
    && (forall k, k' :: k in t.tasks && k' in t.tasks && t.tasks[k].id == t.tasks[k'].id ==> k == k')
  }

  ghost predicate IdsOk(t: Tables) { ExecutionIdsOk(t) && NodeIdsOk(t) && TaskIdsOk(t) }

  /** The launching node is there, its execution is the source, and user and nesting come from the source. */
  ghost predicate LaunchOk(t: Tables, k: W.Key, n: N.Key)
    requires k in t.executions
  {
    && LaunchedBy(t, k, n) && HasSource(t, k, n.execution)
    && t.nodes[n].birth < t.executions[k].birth
    && t.executions[k].user == t.executions[n.execution].user
    && t.executions[k].nesting == (t.executions[n.execution].nesting + 1) % NESTING_VALUES
  }

  ghost predicate ExecutionOk(t: Tables, k: W.Key)
    requires k in t.executions
  {
    (t.executions[k].parentNode == 0 && t.executions[k].source == 0) || exists n :: LaunchOk(t, k, n)
  }

  ghost predicate NodeOk(t: Tables, k: N.Key)
    requires k in t.nodes
  {
    && k.execution in t.executions && t.executions[k.execution].birth < t.nodes[k].birth
    && (t.nodes[k].parent.Some? ==>
          exists p :: HasParent(t, k, p) && p.execution == k.execution && t.nodes[p].birth < t.nodes[k].birth)
    && (t.nodes[k].parentTask.Some? ==> exists p :: HasParentTask(t, k, p) && t.tasks[p].birth < t.nodes[k].birth)
  }

  ghost predicate TaskOk(t: Tables, k: T.Key)
    requires k in t.tasks
  {
    k.node in t.nodes && t.nodes[k.node].birth < t.tasks[k].birth
  }

  ghost predicate RowsOk(t: Tables) {
    && (forall k :: k in t.executions ==> ExecutionOk(t, k))
    && (forall k :: k in t.nodes ==> NodeOk(t, k))
    && (forall k :: k in t.tasks ==> TaskOk(t, k))
  }

  ghost predicate Inv(t: Tables) { IdsOk(t) && RowsOk(t) }

  ghost predicate Grows(t: Tables, t': Tables) {
    && (forall k :: k in t.executions ==> k in t'.executions && t'.executions[k] == t.executions[k])
    && (forall k :: k in t.nodes ==> k in t'.nodes && t'.nodes[k] == t.nodes[k])
    && (forall k :: k in t.tasks ==> k in t'.tasks && t'.tasks[k] == t.tasks[k])
  }

  lemma ExecutionStaysOk(t: Tables, t': Tables, k: W.Key)
    requires Grows(t, t') && k in t.executions && ExecutionOk(t, k)
    ensures ExecutionOk(t', k)
  {
    if n :| LaunchOk(t, k, n) {
      assert LaunchOk(t', k, n);
    }
  }

  lemma NodeStaysOk(t: Tables, t': Tables, k: N.Key)
    requires Grows(t, t') && k in t.nodes && NodeOk(t, k)
    ensures NodeOk(t', k)
  {
  }

  /** Rows that were there stay right, so a step has to answer only for the row it adds. */
  lemma NewRowKeepsRows(t: Tables, t': Tables, r: Ref)
    requires RowsOk(t) && Grows(t, t') && Stored(t', r)
    requires forall k :: k in t'.executions ==> k in t.executions || r == Execution(k)
    requires forall k :: k in t'.nodes ==> k in t.nodes || r == Node(k)
    requires forall k :: k in t'.tasks ==> k in t.tasks || r == Task(k)
    requires match r
             case Execution(k) => ExecutionOk(t', k)
             case Node(k) => NodeOk(t', k)
             case Task(k) => TaskOk(t', k)
    ensures RowsOk(t')
  {
    forall k | k in t'.executions ensures ExecutionOk(t', k) {
      if k in t.executions {
        ExecutionStaysOk(t, t', k);
      }
    }
    forall k | k in t'.nodes ensures NodeOk(t', k) {
      if k in t.nodes {
        NodeStaysOk(t, t', k);
      }
    }
  }

  lemma StepKeepsIds(t: Tables, s: Step)
    requires IdsOk(t)
    ensures IdsOk(Apply(t, s)) && Grows(t, Apply(t, s))
  {
    hide IdsOk;
    var t' := Apply(t, s);
    if t' != t {
      match s {
        case CreateExecution(k, _, _, _) => NewExecutionKeepsIds(t, k, t'.executions[k]);
        case FirstNodeEvent(k, _, _) => NewNodeKeepsIds(t, k, t'.nodes[k]);
        case FirstTaskEvent(k) => NewTaskKeepsIds(t, k, t'.tasks[k]);
      }
    }
  }

  lemma NewExecutionKeepsIds(t: Tables, k: W.Key, row: ExecutionRow)
    requires IdsOk(t) && row.id == t.lastExecution + 1 && row.birth == t.births
    ensures IdsOk(t.(executions := t.executions[k := row], lastExecution := row.id, births := t.births + 1))
  {
  }

  lemma NewNodeKeepsIds(t: Tables, k: N.Key, row: NodeRow)
    requires IdsOk(t) && row.id == t.lastNode + 1 && row.birth == t.births
    ensures IdsOk(t.(nodes := t.nodes[k := row], lastNode := row.id, births := t.births + 1))
  {
  }

  lemma NewTaskKeepsIds(t: Tables, k: T.Key, row: TaskRow)
    requires IdsOk(t) && row.id == t.lastTask + 1 && row.birth == t.births
    ensures IdsOk(t.(tasks := t.tasks[k := row], lastTask := row.id, births := t.births + 1))
  {
  }

  lemma NewExecutionIsOk(t: Tables, k: W.Key, user: string, nesting: Nesting, parent: Option<N.Key>)
    requires NodeIdsOk(t) && OnCreateExecution(t, k, user, nesting, parent).1.Created?
    ensures ExecutionOk(OnCreateExecution(t, k, user, nesting, parent).0, k)
  {
    if parent.Some? {
      assert LaunchOk(OnCreateExecution(t, k, user, nesting, parent).0, k, parent.value);
    }
  }

  lemma NewNodeIsOk(t: Tables, k: N.Key, parent: Option<string>, parentTask: Option<T.Key>)
    requires IdsOk(t) && OnFirstNodeEvent(t, k, parent, parentTask).1.Created?
    ensures NodeOk(OnFirstNodeEvent(t, k, parent, parentTask).0, k)
  {
  }

  lemma StepKeepsRows(t: Tables, s: Step)
    requires Inv(t)
    ensures RowsOk(Apply(t, s))
  {
    hide RowsOk, ExecutionOk, NodeOk;
    var t' := Apply(t, s);
    StepKeepsIds(t, s);
    if t' != t {
      match s {
        case CreateExecution(k, user, nesting, parent) =>
          NewExecutionIsOk(t, k, user, nesting, parent);
          NewRowKeepsRows(t, t', Execution(k));
        case FirstNodeEvent(k, parent, parentTask) =>
          NewNodeIsOk(t, k, parent, parentTask);
          NewRowKeepsRows(t, t', Node(k));
        case FirstTaskEvent(k) =>
          NewRowKeepsRows(t, t', Task(k));
      }
    }
  }

  lemma {:induction false} RunKeepsInv(t: Tables, steps: seq<Step>)
    requires Inv(t)
    ensures Inv(Run(t, steps))
    decreases |steps|
  {
    hide IdsOk, RowsOk, Grows, Apply;
    if steps != [] {
      StepKeepsIds(t, steps[0]);
      StepKeepsRows(t, steps[0]);
      RunKeepsInv(Apply(t, steps[0]), steps[1..]);
    }
  }

  lemma EveryRunKeepsInv(steps: seq<Step>)
    ensures Inv(Run(EMPTY, steps))
  {
    RunKeepsInv(EMPTY, steps);
  }

  // ------------------------------------------------------------------------------------------------------------
  // What holds in every reachable state
  // ------------------------------------------------------------------------------------------------------------

  /** No link dangles: every id a row holds is the id of exactly one row, and every key inside a key is stored. A parent
      node is a node of the same execution, and the source of a launched execution is the launching node's execution. */
  lemma NoDanglingLinks(steps: seq<Step>)
    ensures var t := Run(EMPTY, steps);
            && (forall k :: k in t.executions && t.executions[k].parentNode != 0 ==>
                  exists n :: LaunchedBy(t, k, n) && HasSource(t, k, n.execution))
            && (forall k, n, n' :: LaunchedBy(t, k, n) && LaunchedBy(t, k, n') ==> n == n')
            && (forall k :: k in t.executions ==> (t.executions[k].parentNode == 0 <==> t.executions[k].source == 0))
            && (forall k :: k in t.nodes ==> k.execution in t.executions)
            && (forall k :: k in t.nodes && t.nodes[k].parent.Some? ==> exists p :: HasParent(t, k, p) && p.execution == k.execution)
            && (forall k, p, p' :: HasParent(t, k, p) && HasParent(t, k, p') ==> p == p')
            && (forall k :: k in t.nodes && t.nodes[k].parentTask.Some? ==> exists p :: HasParentTask(t, k, p))
            && (forall k, p, p' :: HasParentTask(t, k, p) && HasParentTask(t, k, p') ==> p == p')
            && (forall k :: k in t.tasks ==> k.node in t.nodes)
  {
    EveryRunKeepsInv(steps);
    var t := Run(EMPTY, steps);
    forall k | k in t.executions && t.executions[k].parentNode != 0
      ensures exists n :: LaunchedBy(t, k, n) && HasSource(t, k, n.execution)
    {
      var n :| LaunchOk(t, k, n);
    }
    forall k | k in t.executions
      ensures t.executions[k].parentNode == 0 <==> t.executions[k].source == 0
    {
      if n :| LaunchOk(t, k, n) {
        assert t.nodes[n].id >= 1 && t.executions[n.execution].id >= 1;
      }
    }
  }

  /** A new execution is linked to the node named for it and to no other; without one it keeps what was asked for. */
  lemma NewExecutionLinks(t: Tables, k: W.Key, user: string, nesting: Nesting, parent: Option<N.Key>)
    requires NodeIdsOk(t) && OnCreateExecution(t, k, user, nesting, parent).1.Created?
    ensures var t' := OnCreateExecution(t, k, user, nesting, parent).0;
            && k !in t.executions && t'.executions == t.executions[k := t'.executions[k]] && t'.nodes == t.nodes && t'.tasks == t.tasks
            && (forall n :: LaunchedBy(t', k, n) <==> parent == Some(n))
            && (parent.None? ==> t'.executions[k].user == user && t'.executions[k].nesting == nesting)
  {
  }

  /** What each handler asks for: a free key, and every row it is to link to. */
  lemma CreatedIff(steps: seq<Step>, user: string, nesting: Nesting, e: W.Key, launcher: Option<N.Key>,
                   n: N.Key, parent: Option<string>, parentTask: Option<T.Key>, k: T.Key)
    ensures var t := Run(EMPTY, steps);
            && (OnCreateExecution(t, e, user, nesting, launcher).1.Created? <==>
                  e !in t.executions && (launcher.Some? ==> launcher.value in t.nodes))
            && (OnFirstNodeEvent(t, n, parent, parentTask).1.Created? <==>
                  && n !in t.nodes && n.execution in t.executions
                  && (parent.Some? ==> N.Key(n.execution, parent.value) in t.nodes)
                  && (parentTask.Some? ==> parentTask.value in t.tasks))
            && (OnFirstTaskEvent(t, k).1.Created? <==> k !in t.tasks && k.node in t.nodes)
  {
    NoDanglingLinks(steps);
  }

  /** A handler that does not create a row changes nothing, and says what it missed. */
  lemma RefusalTells(t: Tables, user: string, nesting: Nesting, e: W.Key, launcher: Option<N.Key>,
                     n: N.Key, parent: Option<string>, parentTask: Option<T.Key>, k: T.Key)
    ensures var (t', reply) := OnCreateExecution(t, e, user, nesting, launcher);
            && (!reply.Created? ==> t' == t)
            && (reply.Exists? ==> e in t.executions) && (reply.MissingNode? ==> launcher.Some? && launcher.value !in t.nodes)
            && (reply.MissingSource? ==> launcher.Some? && launcher.value.execution !in t.executions)
            && reply in {Created, Exists, MissingNode, MissingSource}
    ensures var (t', reply) := OnFirstNodeEvent(t, n, parent, parentTask);
            && (!reply.Created? ==> t' == t)
            && (reply.Exists? ==> n in t.nodes) && (reply.MissingExecution? <==> n.execution !in t.executions)
            && (reply.MissingTask? ==> parentTask.Some? && parentTask.value !in t.tasks)
            && (reply.MissingNode? ==> parent.Some? && N.Key(n.execution, parent.value) !in t.nodes)
            && !reply.MissingSource?
    ensures var (t', reply) := OnFirstTaskEvent(t, k);
            && (!reply.Created? ==> t' == t)
            && (reply.Exists? ==> k in t.tasks) && (reply.MissingExecution? <==> k.node.execution !in t.executions)
            && (reply.MissingNode? ==> k.node !in t.nodes) && !reply.MissingSource? && !reply.MissingTask?
  {
  }

  /** A new node is linked to the parent node and the parent task named for it, and to no others. */
  lemma NewNodeLinks(t: Tables, k: N.Key, parent: Option<string>, parentTask: Option<T.Key>)
    requires NodeIdsOk(t) && TaskIdsOk(t) && OnFirstNodeEvent(t, k, parent, parentTask).1.Created?
    ensures var t' := OnFirstNodeEvent(t, k, parent, parentTask).0;
            && k !in t.nodes && t'.nodes == t.nodes[k := t'.nodes[k]] && t'.executions == t.executions && t'.tasks == t.tasks
            && (forall p :: HasParent(t', k, p) <==> p.execution == k.execution && parent == Some(p.node))
            && (forall p :: HasParentTask(t', k, p) <==> parentTask == Some(p))
  {
  }

  /** The second lookup cannot fail: once the launching node is found, so is its execution. */
  lemma SourceIsAlwaysFound(steps: seq<Step>, user: string, nesting: Nesting, parent: Option<N.Key>)
    ensures GetInheritedExecMetadata(Run(EMPTY, steps), user, nesting, parent) != Err(MissingSource)
  {
    NoDanglingLinks(steps);
  }

  /** A link leads to a stored row born earlier. */
  lemma LinkLeadsBack(t: Tables, r: Ref, to: Ref)
    requires Inv(t) && Links(t, r, to)
    ensures Stored(t, r) && Stored(t, to) && Birth(t, to) < Birth(t, r)
  {
  }

  ghost predicate IsPath(t: Tables, path: seq<Ref>) {
    |path| >= 2 && forall i :: 0 <= i < |path| - 1 ==> Links(t, path[i], path[i + 1])
  }

  lemma {:induction false} PathLeadsBack(t: Tables, path: seq<Ref>)
    requires Inv(t) && IsPath(t, path)
    ensures Stored(t, path[0]) && Stored(t, path[|path| - 1]) && Birth(t, path[|path| - 1]) < Birth(t, path[0])
  {
    LinkLeadsBack(t, path[0], path[1]);
    if |path| > 2 {
      var rest := path[1..];
      forall i | 0 <= i < |rest| - 1 ensures Links(t, rest[i], rest[i + 1]) {
        assert Links(t, path[i + 1], path[i + 2]);
      }
      PathLeadsBack(t, rest);
    }
  }

  /** No chain of links, of any length and over any of the three tables, returns to where it began. */
  lemma LinksAreAcyclic(steps: seq<Step>, path: seq<Ref>)
    requires IsPath(Run(EMPTY, steps), path)
    ensures path[0] != path[|path| - 1]
  {
    EveryRunKeepsInv(steps);
    PathLeadsBack(Run(EMPTY, steps), path);
  }

  /** The execution whose node launched this one. */
  ghost function SourceOf(t: Tables, k: W.Key): (source: W.Key)
    requires Inv(t) && k in t.executions && t.executions[k].source != 0
    ensures HasSource(t, k, source) && t.executions[source].birth < t.executions[k].birth
    ensures t.executions[k].user == t.executions[source].user
    ensures t.executions[k].nesting == (t.executions[source].nesting + 1) % NESTING_VALUES
  {
    var n :| LaunchOk(t, k, n);
    assert NodeOk(t, n);
    n.execution
  }

  /** The executions from this one up to the one nobody launched. */
  ghost function Ancestry(t: Tables, k: W.Key): (keys: seq<W.Key>)
    requires Inv(t) && k in t.executions
    ensures keys != [] && keys[0] == k && keys[|keys| - 1] in t.executions && t.executions[keys[|keys| - 1]].source == 0
    decreases t.executions[k].birth
  {
    if t.executions[k].source == 0 then [k] else [k] + Ancestry(t, SourceOf(t, k))
  }

  lemma OneMore(n: nat)
    ensures (n % NESTING_VALUES + 1) % NESTING_VALUES == (n + 1) % NESTING_VALUES
  {
  }

  /** An execution's user is the user at the root of its chain, and its nesting is the root's plus the number of launches
      in between, in 32 bits. */
  lemma {:induction false} InheritedFromRoot(t: Tables, k: W.Key)
    requires Inv(t) && k in t.executions
    ensures var keys := Ancestry(t, k);
            var root := t.executions[keys[|keys| - 1]];
            && t.executions[k].user == root.user
            && t.executions[k].nesting == (root.nesting + |keys| - 1) % NESTING_VALUES
    decreases t.executions[k].birth
  {
    hide Inv, SourceOf;
    if t.executions[k].source != 0 {
      InheritedFromRoot(t, SourceOf(t, k));
      var keys := Ancestry(t, SourceOf(t, k));
      assert Ancestry(t, k) == [k] + keys;
      OneMore(t.executions[keys[|keys| - 1]].nesting + |keys| - 1);
    }
  }

  lemma RunInheritsFromRoot(steps: seq<Step>, k: W.Key)
    requires k in Run(EMPTY, steps).executions
    ensures var t := Run(EMPTY, steps);
            && Inv(t)
            && var keys := Ancestry(t, k);
               var root := t.executions[keys[|keys| - 1]];
               t.executions[k].user == root.user && t.executions[k].nesting == (root.nesting + |keys| - 1) % NESTING_VALUES
  {
    hide IdsOk, RowsOk, Ancestry, Run;
    EveryRunKeepsInv(steps);
    InheritedFromRoot(Run(EMPTY, steps), k);
  }

  /** A child's nesting is its parent's plus one exactly when the parent's is not the largest number there is. */
  lemma NestingGrowsByOneIff(t: Tables, k: W.Key)
    requires Inv(t) && k in t.executions && t.executions[k].source != 0
    ensures t.executions[k].nesting == t.executions[SourceOf(t, k)].nesting + 1 <==>
              t.executions[SourceOf(t, k)].nesting != 0xffff_ffff
  {
  }
}
