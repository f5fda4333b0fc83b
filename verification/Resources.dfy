/**
 The table of matchable attributes: one row per launch plan, workflow, project-domain or domain, of which a lookup
 returns the most specific.

 The table is a sequence in the order of the rows' ids.
 */
module Resources {
  import opened Wrappers

  const DOMAIN_LEVEL := 1
  const PROJECT_DOMAIN_LEVEL := 10
  const WORKFLOW_LEVEL := 100
  const LAUNCH_PLAN_LEVEL := 1000

  /** Empty fields stand for everything. */
  datatype Key = Key(project: string, domain: string, workflow: string, launchPlan: string, resourceType: string)

  datatype Resource = Resource(key: Key, priority: int, attributes: string)

  type Table = seq<Resource>

  /** A launch plan is named within a workflow, a workflow within a project, a project within a domain. */
  predicate IsValid(k: Key) {
    && k.domain != "" && k.resourceType != ""
    && (k.project == "" ==> k.workflow == "" && k.launchPlan == "")
    && (k.workflow == "" ==> k.launchPlan == "")
  }

  function Level(k: Key): int {
    if k.launchPlan != "" then LAUNCH_PLAN_LEVEL
    else if k.workflow != "" then WORKFLOW_LEVEL
    else if k.project != "" then PROJECT_DOMAIN_LEVEL
    else DOMAIN_LEVEL
  }

  /** A condition on a field is only posed when the field is not empty. */
  predicate Covers(id: Key, k: Key) {
    && (id.project != "" ==> k.project == id.project)
    && (id.domain != "" ==> k.domain == id.domain)
    && (id.workflow != "" ==> k.workflow == id.workflow)
    && (id.launchPlan != "" ==> k.launchPlan == id.launchPlan)
    && (id.resourceType != "" ==> k.resourceType == id.resourceType)
  }

  /** The first row that the key covers and that has the priority, if one is asked for. */
  function FirstCovered(table: Table, id: Key, priority: Option<int>): (i: Option<nat>)
    ensures i.Some? ==> i.value < |table| && Covers(id, table[i.value].key)
                        && (priority.Some? ==> table[i.value].priority == priority.value)
    ensures i.Some? ==> forall j :: 0 <= j < i.value && Covers(id, table[j].key) ==>
              priority.Some? && table[j].priority != priority.value
    ensures i.None? ==> forall j :: 0 <= j < |table| && Covers(id, table[j].key) ==>
              priority.Some? && table[j].priority != priority.value
  {
    if table == [] then None
    else
      var n := |table| - 1;
      var i := FirstCovered(table[..n], id, priority);
      if i.Some? then i
      else if Covers(id, table[n].key) && (priority.Some? ==> table[n].priority == priority.value) then Some(n)
      else None
  }

  datatype Error = InvalidKey | InvalidPriority

  function Upserted(table: Table, input: Resource): Result<Table, Error> {
    if !IsValid(input.key) then Err(InvalidKey)
    else if input.priority == 0 then Err(InvalidPriority)
    else
      var i := FirstCovered(table, input.key, Some(input.priority));
      Ok(if i.Some? then table[i.value := table[i.value].(attributes := input.attributes)] else table + [input])
  }

  function Kept(table: Table, id: Key): Table {
    if table == [] then []
    else
      var n := |table| - 1;
      Kept(table[..n], id) + if Covers(id, table[n].key) then [] else [table[n]]
  }

  /** The candidates of a lookup: the asked field, or the empty one. */
  predicate Matches(id: Key, k: Key) {
    && k.resourceType == id.resourceType && k.domain == id.domain
    && (k.project == "" || k.project == id.project)
    && (k.workflow == "" || k.workflow == id.workflow)
    && (k.launchPlan == "" || k.launchPlan == id.launchPlan)
  }

  /** The candidate that comes first by falling priority. */
  function Best(table: Table, id: Key): (r: Option<Resource>)
    ensures r.Some? ==> r.value in table && Matches(id, r.value.key)
    ensures r.Some? ==> forall r' :: r' in table && Matches(id, r'.key) ==> r'.priority <= r.value.priority
    ensures r.None? ==> forall r' :: r' in table ==> !Matches(id, r'.key)
  {
    if table == [] then None
    else
      var n := |table| - 1;
      assert table == table[..n] + [table[n]];
      var r := Best(table[..n], id);
      if Matches(id, table[n].key) && (r.None? || table[n].priority > r.value.priority) then Some(table[n]) else r
  }

  class ResourceRepo {
    var table: Table

    constructor ()
      ensures table == []
    {
      table := [];
    }

    method CreateOrUpdate(input: Resource) returns (err: Option<Error>)
      modifies this
      ensures err.None? ==> Upserted(old(table), input) == Ok(table)
      ensures err.Some? ==> Upserted(old(table), input) == Err(err.value) && table == old(table)
    {
      if !IsValid(input.key) {
        return Some(InvalidKey);
      }
      if input.priority == 0 {
        return Some(InvalidPriority);
      }
      var record := FirstCovered(table, input.key, Some(input.priority));
      if record.None? {
        table := table + [Resource(input.key, input.priority, "")];
        record := Some(|table| - 1);
        assert table[record.value := input] == old(table) + [input];
      }
      table := table[record.value := table[record.value].(attributes := input.attributes)];
      return None;
    }

    /** Every row the key covers goes; the others stay, in their order. */
    method Delete(id: Key)
      modifies this
      ensures table == Kept(old(table), id)
      ensures forall r :: r in table <==> r in old(table) && !Covers(id, r.key)
    {
      var kept: Table := [];
      for i := 0 to |table|
        invariant table == old(table) && kept == Kept(table[..i], id)
      {
        if !Covers(id, table[i].key) {
          kept := kept + [table[i]];
        }
        assert table[..i + 1][..i] == table[..i];
      }
      assert table[..|table|] == table;
      forall r ensures r in kept <==> r in table && !Covers(id, r.key) {
        KeptContains(table, id, r);
      }
      table := kept;
    }
  }

  // ------------------------------------------------------------------------------------------------------------
  // The table invariant
  // ------------------------------------------------------------------------------------------------------------

  predicate RowOk(r: Resource) { IsValid(r.key) && r.priority == Level(r.key) }

  /** Valid keys, the priority of the key's level, and one row per key. */
  ghost predicate TableOk(table: Table) {
    && (forall i :: 0 <= i < |table| ==> RowOk(table[i]))
    && (forall i, j :: 0 <= i < j < |table| ==> table[i].key != table[j].key)
  }

  /** The row with exactly this key. */
  function Lookup(table: Table, k: Key): (r: Option<Resource>)
    ensures r.Some? ==> r.value in table && r.value.key == k
    ensures r.None? ==> forall r' :: r' in table ==> r'.key != k
  {
    if table == [] then None
    else
      var n := |table| - 1;
      assert table == table[..n] + [table[n]];
      if table[n].key == k then Some(table[n]) else Lookup(table[..n], k)
  }

  lemma LookupIs(table: Table, r: Resource)
    requires TableOk(table) && r in table
    ensures Lookup(table, r.key) == Some(r)
  {
  }

  /** The lookup leaves out conditions on empty fields, but among rows of the input's own level it still finds only the
      row with the input's key. */
  lemma PriorityPinsTheKey(id: Key, r: Resource)
    requires IsValid(id) && RowOk(r) && Covers(id, r.key) && r.priority == Level(id)
    ensures r.key == id
  {
  }

  /** Written with its level's priority, a resource replaces the row with its key or is added, and no other row changes. */
  lemma UpsertIsExact(table: Table, input: Resource)
    requires TableOk(table) && RowOk(input)
    ensures var result := Upserted(table, input);
            && result.Ok? && TableOk(result.value)
            && forall k :: Lookup(result.value, k) == if k == input.key then Some(input) else Lookup(table, k)
  {
    var table' := Upserted(table, input).value;
    var i := FirstCovered(table, input.key, Some(input.priority));
    if i.Some? {
      PriorityPinsTheKey(input.key, table[i.value]);
      assert table'[i.value] == input;
    } else {
      assert table'[|table|] == input;
    }
    assert TableOk(table');
    forall r: Resource | r.key != input.key ensures r in table <==> r in table' {
      if r in table {
        var j :| 0 <= j < |table| && table[j] == r;
        assert table'[j] == r;
      }
      if r in table' {
        var j :| 0 <= j < |table'| && table'[j] == r;
        assert table[j] == r;
      }
    }
    forall k ensures Lookup(table', k) == if k == input.key then Some(input) else Lookup(table, k) {
      UpsertedAt(table, table', input, k);
    }
  }

  lemma UpsertedAt(table: Table, table': Table, input: Resource, k: Key)
    requires TableOk(table) && TableOk(table') && input in table'
    requires forall r: Resource :: r.key != input.key ==> (r in table <==> r in table')
    ensures Lookup(table', k) == if k == input.key then Some(input) else Lookup(table, k)
  {
  }

  /** Which rows are refused: those without a domain or a resource type, those that name something within what they do not
      name, and those without a priority. */
  lemma WriteIsRefusedIff(table: Table, input: Resource)
    ensures Upserted(table, input) == Err(InvalidKey) <==>
              || input.key.domain == "" || input.key.resourceType == ""
              || (input.key.project == "" && (input.key.workflow != "" || input.key.launchPlan != ""))
              || (input.key.workflow == "" && input.key.launchPlan != "")
    ensures Upserted(table, input) == Err(InvalidPriority) <==> input.priority == 0 && Upserted(table, input) != Err(InvalidKey)
  {
  }

  /** Only the level's priority is safe: written with any other, a resource breaks the invariant of some table. */
  lemma UpsertIsSafeIff(input: Resource)
    requires IsValid(input.key) && input.priority != 0
    ensures (forall table :: TableOk(table) ==> Upserted(table, input).Ok? && TableOk(Upserted(table, input).value)) <==>
              input.priority == Level(input.key)
  {
    if input.priority == Level(input.key) {
      forall table | TableOk(table) ensures Upserted(table, input).Ok? && TableOk(Upserted(table, input).value) {
        UpsertIsExact(table, input);
      }
    } else {
      assert TableOk([]);
      assert [] + [input] == [input];
      assert [input][0] == input && !RowOk(input);
    }
  }

  // The two builders of rows.

  function WorkflowAttributesToResourceModel(project: string, domain: string, workflow: string, resourceType: string, attributes: string): Resource {
    Resource(Key(project, domain, workflow, "", resourceType), WORKFLOW_LEVEL, attributes)
  }

  function ProjectDomainAttributesToResourceModel(project: string, domain: string, resourceType: string, attributes: string): Resource {
    Resource(Key(project, domain, "", "", resourceType), PROJECT_DOMAIN_LEVEL, attributes)
  }

  /** The builders give a row of its level exactly when the names they are given are not empty, which the managers check
      beforehand. */
  lemma BuildersFixTheLevel(project: string, domain: string, workflow: string, resourceType: string, attributes: string)
    ensures RowOk(WorkflowAttributesToResourceModel(project, domain, workflow, resourceType, attributes)) <==>
              project != "" && domain != "" && workflow != "" && resourceType != ""
    ensures RowOk(ProjectDomainAttributesToResourceModel(project, domain, resourceType, attributes)) <==>
              project != "" && domain != "" && resourceType != ""
    ensures WorkflowAttributesToResourceModel(project, domain, workflow, resourceType, attributes).priority == 100
    ensures ProjectDomainAttributesToResourceModel(project, domain, resourceType, attributes).priority == 10
  {
  }

  /** With an empty workflow name, the workflow builder's row would be written over some workflow's. */
  lemma EmptyWorkflowOverwritesAnother(workflow: string, attributes: string)
    requires workflow != ""
    ensures var row := WorkflowAttributesToResourceModel("p", "d", workflow, "t", "old");
            TableOk([row]) &&
            Upserted([row], WorkflowAttributesToResourceModel("p", "d", "", "t", attributes)) == Ok([row.(attributes := attributes)])
  {
    var row := WorkflowAttributesToResourceModel("p", "d", workflow, "t", "old");
    assert [row][0] == row;
    assert [row][0 := row.(attributes := attributes)] == [row.(attributes := attributes)];
  }

  // ------------------------------------------------------------------------------------------------------------
  // Lookups
  // ------------------------------------------------------------------------------------------------------------

  function Or(a: Option<Resource>, b: Option<Resource>): Option<Resource> { if a.Some? then a else b }

  /** The launch plan's row, else the workflow's, else the project-domain's, else the domain's. */
  function Chain(table: Table, id: Key): Option<Resource> {
    Or(Lookup(table, id),
       Or(Lookup(table, id.(launchPlan := "")),
          Or(Lookup(table, id.(launchPlan := "", workflow := "")),
             Lookup(table, id.(launchPlan := "", workflow := "", project := "")))))
  }

  function Get(table: Table, id: Key): Result<Option<Resource>, Error> {
    if !IsValid(id) then Err(InvalidKey) else Ok(Best(table, id))
  }

  /** The single ordered query gives what the chain of four lookups gives. */
  lemma GetIsChain(table: Table, id: Key)
    requires TableOk(table)
    ensures Get(table, id) == if IsValid(id) then Ok(Chain(table, id)) else Err(InvalidKey)
  {
  }

  // ------------------------------------------------------------------------------------------------------------
  // Deleting, and merging into an existing row
  // ------------------------------------------------------------------------------------------------------------

  lemma {:induction false} KeptContains(table: Table, id: Key, r: Resource)
    ensures r in Kept(table, id) <==> r in table && !Covers(id, r.key)
  {
    if table != [] {
      var n := |table| - 1;
      assert table == table[..n] + [table[n]];
      KeptContains(table[..n], id, r);
    }
  }

  lemma {:induction false} DeleteKeepsTable(table: Table, id: Key)
    requires TableOk(table)
    ensures TableOk(Kept(table, id))
  {
    if table != [] {
      var n := |table| - 1;
      DeleteKeepsTable(table[..n], id);
      forall r | r in Kept(table[..n], id) ensures r.key != table[n].key {
        KeptContains(table[..n], id, r);
      }
    }
  }

  /** Deleting removes the row with the key and every row below it. */
  lemma DeleteRemovesAllBelow(table: Table, id: Key, k: Key)
    requires TableOk(table)
    ensures Lookup(Kept(table, id), k) == if Covers(id, k) then None else Lookup(table, k)
  {
    DeleteKeepsTable(table, id);
    var kept, found := Lookup(Kept(table, id), k), Lookup(table, k);
    if kept.Some? {
      KeptContains(table, id, kept.value);
      LookupIs(table, kept.value);
    } else if found.Some? {
      KeptContains(table, id, found.value);
    }
  }

  /** A row goes exactly when it has the key's value in every field that the key fills. */
  lemma DeletedIff(table: Table, id: Key, r: Resource)
    ensures r in Kept(table, id) <==>
              && r in table
              && !(&& id.project in {"", r.key.project} && id.domain in {"", r.key.domain} && id.workflow in {"", r.key.workflow}
                   && id.launchPlan in {"", r.key.launchPlan} && id.resourceType in {"", r.key.resourceType})
  {
    KeptContains(table, id, r);
  }

  /** Updating plugin overrides: the attributes are merged into the row found for the key, which is then written; a new
      row is written when none is found. */
  function MergeUpdated(table: Table, input: Resource, merge: (string, string) -> string): Result<Table, Error> {
    var i := FirstCovered(table, input.key, None);
    if i.None? then Upserted(table, input)
    else Upserted(table, table[i.value].(attributes := merge(table[i.value].attributes, input.attributes)))
  }

  function MergedOwn(table: Table, input: Resource, merge: (string, string) -> string): Resource {
    var own := Lookup(table, input.key);
    if own.None? then input else input.(attributes := merge(own.value.attributes, input.attributes))
  }

  /** The invariant survives, but the update reaches the row it names exactly when the oldest row at or below that key is
      that row itself, or there is none. */
  lemma MergeReachesItsRowIff(table: Table, input: Resource, merge: (string, string) -> string)
    requires TableOk(table) && RowOk(input)
    ensures MergeUpdated(table, input, merge).Ok? && TableOk(MergeUpdated(table, input, merge).value)
    ensures var i := FirstCovered(table, input.key, None);
            Lookup(MergeUpdated(table, input, merge).value, input.key) ==
              if i.None? || table[i.value].key == input.key then Some(MergedOwn(table, input, merge)) else Lookup(table, input.key)
  {
    var i := FirstCovered(table, input.key, None);
    if i.None? {
      UpsertIsExact(table, input);
      assert Lookup(table, input.key).Some? ==> Covers(input.key, Lookup(table, input.key).value.key);
    } else {
      LookupIs(table, table[i.value]);
      UpsertIsExact(table, table[i.value].(attributes := merge(table[i.value].attributes, input.attributes)));
    }
  }

  /** A workflow's row that is older than its project-domain's takes the project-domain's update. */
  lemma OlderWorkflowTakesTheUpdate(attributes: string, merge: (string, string) -> string)
    ensures var older := WorkflowAttributesToResourceModel("p", "d", "w", "PLUGIN_OVERRIDE", "a");
            var input := ProjectDomainAttributesToResourceModel("p", "d", "PLUGIN_OVERRIDE", attributes);
            && TableOk([older])
            && MergeUpdated([older], input, merge) == Ok([older.(attributes := merge("a", attributes))])
  {
    var older := WorkflowAttributesToResourceModel("p", "d", "w", "PLUGIN_OVERRIDE", "a");
    assert [older][0] == older;
    var updated := older.(attributes := merge("a", attributes));
    assert [older][0 := updated] == [updated];
  }

  // ------------------------------------------------------------------------------------------------------------
  // Every run
  // ------------------------------------------------------------------------------------------------------------

  datatype Step =
    | UpdateWorkflow(project: string, domain: string, workflow: string, resourceType: string, attributes: string, merges: bool)
    | UpdateProjectDomain(project: string, domain: string, resourceType: string, attributes: string, merges: bool)
    | Delete(id: Key)

  function Written(table: Table, input: Resource, merges: bool, merge: (string, string) -> string): Table {
    var result := if merges then MergeUpdated(table, input, merge) else Upserted(table, input);
    if result.Ok? then result.value else table
  }

  /** The managers refuse a request with an empty name. */
  function Apply(table: Table, s: Step, merge: (string, string) -> string): Table {
    match s
    case UpdateWorkflow(p, d, w, t, a, merges) =>
      if p == "" || d == "" || w == "" || t == "" then table
      else Written(table, WorkflowAttributesToResourceModel(p, d, w, t, a), merges, merge)
    case UpdateProjectDomain(p, d, t, a, merges) =>
      if p == "" || d == "" || t == "" then table
      else Written(table, ProjectDomainAttributesToResourceModel(p, d, t, a), merges, merge)
    case Delete(id) => Kept(table, id)
  }

  function Run(table: Table, steps: seq<Step>, merge: (string, string) -> string): Table
    decreases |steps|
  {
    if steps == [] then table else Run(Apply(table, steps[0], merge), steps[1..], merge)
  }

  lemma WriteKeepsTable(table: Table, input: Resource, merges: bool, merge: (string, string) -> string)
    requires TableOk(table) && RowOk(input)
    ensures TableOk(Written(table, input, merges, merge))
  {
    if merges {
      MergeReachesItsRowIff(table, input, merge);
    } else {
      UpsertIsExact(table, input);
    }
  }

  lemma {:induction false} RunKeepsTable(table: Table, steps: seq<Step>, merge: (string, string) -> string)
    requires TableOk(table)
    ensures TableOk(Run(table, steps, merge))
    decreases |steps|
  {
    hide TableOk, Written, Kept;
    if steps != [] {
      match steps[0] {
        case UpdateWorkflow(p, d, w, t, a, merges) =>
          if p != "" && d != "" && w != "" && t != "" {
            WriteKeepsTable(table, WorkflowAttributesToResourceModel(p, d, w, t, a), merges, merge);
          }
        case UpdateProjectDomain(p, d, t, a, merges) =>
          if p != "" && d != "" && t != "" {
            WriteKeepsTable(table, ProjectDomainAttributesToResourceModel(p, d, t, a), merges, merge);
          }
        case Delete(id) => DeleteKeepsTable(table, id);
      }
      RunKeepsTable(Apply(table, steps[0], merge), steps[1..], merge);
    }
  }

  /** What was written for a workflow is found for it, and for each of its launch plans that has no row of its own. */
  lemma WorkflowUpdateIsSeen(table: Table, k: Key, attributes: string, merge: (string, string) -> string)
    requires TableOk(table) && IsValid(k) && k.workflow != "" && (k.launchPlan == "" || Lookup(table, k).None?)
    ensures Get(Apply(table, UpdateWorkflow(k.project, k.domain, k.workflow, k.resourceType, attributes, false), merge), k)
         == Ok(Some(Resource(k.(launchPlan := ""), WORKFLOW_LEVEL, attributes)))
  {
    var row := Resource(k.(launchPlan := ""), WORKFLOW_LEVEL, attributes);
    assert RowOk(row);
    hide TableOk, RowOk, Upserted, Lookup, Best;
    UpsertIsExact(table, row);
    GetIsChain(Upserted(table, row).value, k);
  }

  /** What was written for a project and domain is found for each of its workflows and launch plans without a row
      more specific than that. */
  lemma ProjectDomainUpdateIsSeen(table: Table, k: Key, attributes: string, merge: (string, string) -> string)
    requires TableOk(table) && IsValid(k) && k.project != ""
    requires k.launchPlan == "" || Lookup(table, k).None?
    requires k.workflow == "" || Lookup(table, k.(launchPlan := "")).None?
    ensures Get(Apply(table, UpdateProjectDomain(k.project, k.domain, k.resourceType, attributes, false), merge), k)
         == Ok(Some(Resource(k.(launchPlan := "", workflow := ""), PROJECT_DOMAIN_LEVEL, attributes)))
  {
    var row := Resource(k.(launchPlan := "", workflow := ""), PROJECT_DOMAIN_LEVEL, attributes);
    assert RowOk(row);
    hide TableOk, RowOk, Upserted, Lookup, Best;
    UpsertIsExact(table, row);
    GetIsChain(Upserted(table, row).value, k);
  }

  /** After any run of updates, merges and deletions, the query gives the most specific row. */
  lemma GetIsChainInEveryRun(steps: seq<Step>, merge: (string, string) -> string, id: Key)
    requires IsValid(id)
    ensures var table := Run([], steps, merge); TableOk(table) && Get(table, id) == Ok(Chain(table, id))
  {
    RunKeepsTable([], steps, merge);
    GetIsChain(Run([], steps, merge), id);
  }

  // ------------------------------------------------------------------------------------------------------------
  // Plugin overrides
  // ------------------------------------------------------------------------------------------------------------

  datatype PluginOverride = PluginOverride(taskType: string, pluginIds: seq<string>)

  /** The last override for its task type. */
  ghost predicate IsLast(overrides: seq<PluginOverride>, o: PluginOverride) {
    exists i :: 0 <= i < |overrides| && overrides[i] == o &&
                forall j :: i < j < |overrides| ==> overrides[j].taskType != o.taskType
  }

  predicate DistinctTypes(overrides: seq<PluginOverride>) {
    forall i, j :: 0 <= i < j < |overrides| ==> overrides[i].taskType != overrides[j].taskType
  }

  ghost predicate IsTable(m: map<string, PluginOverride>, overrides: seq<PluginOverride>) {
    && (forall t :: t in m ==> m[t].taskType == t && IsLast(overrides, m[t]))
    && (forall i :: 0 <= i < |overrides| ==> overrides[i].taskType in m)
  }

  lemma TableGrows(m: map<string, PluginOverride>, overrides: seq<PluginOverride>, o: PluginOverride)
    requires IsTable(m, overrides)
    ensures IsTable(m[o.taskType := o], overrides + [o])
  {
    var m', overrides' := m[o.taskType := o], overrides + [o];
    forall t | t in m' ensures m'[t].taskType == t && IsLast(overrides', m'[t]) {
      if t == o.taskType {
        assert overrides'[|overrides|] == o;
      } else {
        var i :| 0 <= i < |overrides| && overrides[i] == m[t] && forall j :: i < j < |overrides| ==> overrides[j].taskType != t;
        assert overrides'[i] == m[t];
      }
    }
  }

  /** One override per task type: the new one, or else the existing one; of several the last. The order is the map's. */
  method MergeUpdatePluginOverrides(existing: seq<PluginOverride>, latest: seq<PluginOverride>) returns (merged: seq<PluginOverride>)
    ensures DistinctTypes(merged)
    ensures forall o :: o in merged <==> IsLast(existing + latest, o)
  {
    var byType: map<string, PluginOverride> := map[];
    for i := 0 to |existing|
      invariant IsTable(byType, existing[..i])
    {
      TableGrows(byType, existing[..i], existing[i]);
      assert existing[..i] + [existing[i]] == existing[..i + 1];
      byType := byType[existing[i].taskType := existing[i]];
    }
    assert existing + latest[..0] == existing[..|existing|];
    for i := 0 to |latest|
      invariant IsTable(byType, existing + latest[..i])
    {
      TableGrows(byType, existing + latest[..i], latest[i]);
      assert existing + latest[..i] + [latest[i]] == existing + latest[..i + 1];
      byType := byType[latest[i].taskType := latest[i]];
    }
    assert latest[..|latest|] == latest;
    merged := [];
    var left := byType.Keys;
    while left != {}
      invariant left <= byType.Keys && DistinctTypes(merged)
      invariant forall o :: o in merged <==> o.taskType in byType && o == byType[o.taskType] && o.taskType !in left
    {
      var t :| t in left;
      merged := merged + [byType[t]];
      left := left - {t};
    }
    forall o ensures o in merged <==> IsLast(existing + latest, o) {
      TableHoldsTheLast(byType, existing + latest, o);
    }
  }

  lemma TableHoldsTheLast(m: map<string, PluginOverride>, overrides: seq<PluginOverride>, o: PluginOverride)
    requires IsTable(m, overrides)
    ensures o.taskType in m && m[o.taskType] == o <==> IsLast(overrides, o)
  {
  }
}
