/**
 Merging the log links a task event brings into those already stored.
 */
module TaskLogs {
  datatype TaskLog = TaskLog(uri: string, name: string, format: string)

  predicate Overwrites(latest: TaskLog, log: TaskLog) {
    latest.uri == log.uri || (latest.name != "" && latest.name == log.name)
  }

  predicate Overwritten(latest: seq<TaskLog>, log: TaskLog) {
    exists i :: 0 <= i < |latest| && Overwrites(latest[i], log)
  }

  /** The logs that no latest log overwrites, in order. */
  function Survivors(existing: seq<TaskLog>, latest: seq<TaskLog>): seq<TaskLog> {
    if existing == [] then []
    else
      var front, last := existing[..|existing| - 1], existing[|existing| - 1];
      Survivors(front, latest) + if Overwritten(latest, last) then [] else [last]
  }

  function Merged(existing: seq<TaskLog>, latest: seq<TaskLog>): seq<TaskLog> { latest + Survivors(existing, latest) }

  method MergeLogs(existing: seq<TaskLog>, latest: seq<TaskLog>) returns (logs: seq<TaskLog>)
    ensures logs == Merged(existing, latest)
  {
    if |latest| == 0 {
      NoneOverwritten(existing, []);
      return existing;
    }
    if |existing| == 0 {
      return latest;
    }
    var latestSetByUri: map<string, TaskLog> := map[];
    var latestSetByName: map<string, TaskLog> := map[];
    for i := 0 to |latest|
      invariant forall u :: u in latestSetByUri <==> exists j :: 0 <= j < i && latest[j].uri == u
      invariant forall n :: n in latestSetByName <==> n != "" && exists j :: 0 <= j < i && latest[j].name == n
    {
      latestSetByUri := latestSetByUri[latest[i].uri := latest[i]];
      if |latest[i].name| > 0 {
        latestSetByName := latestSetByName[latest[i].name := latest[i]];
      }
    }
    logs := latest;
    for i := 0 to |existing|
      invariant logs == latest + Survivors(existing[..i], latest)
    {
      var log := existing[i];
      FoundIff(latest, log);
      assert existing[..i + 1][..i] == existing[..i];
      if log.uri !in latestSetByUri {
        if log.name !in latestSetByName {
          logs := logs + [log];
        }
      }
    }
    assert existing[..|existing|] == existing;
  }

  lemma FoundIff(latest: seq<TaskLog>, log: TaskLog)
    ensures Overwritten(latest, log) <==>
              || (exists j :: 0 <= j < |latest| && latest[j].uri == log.uri)
              || (log.name != "" && exists j :: 0 <= j < |latest| && latest[j].name == log.name)
  {
  }

  lemma {:induction false} SurvivorsContain(existing: seq<TaskLog>, latest: seq<TaskLog>, log: TaskLog)
    ensures log in Survivors(existing, latest) <==> log in existing && !Overwritten(latest, log)
  {
    if existing != [] {
      var front, last := existing[..|existing| - 1], existing[|existing| - 1];
      assert existing == front + [last];
      SurvivorsContain(front, latest, log);
    }
  }

  /** The latest logs come first, and an older log survives exactly when no latest log has its uri or its name. */
  lemma MergedContains(existing: seq<TaskLog>, latest: seq<TaskLog>, log: TaskLog)
    ensures latest <= Merged(existing, latest)
    ensures log in Merged(existing, latest) <==> log in latest || (log in existing && !Overwritten(latest, log))
  {
    SurvivorsContain(existing, latest, log);
  }

  lemma {:induction false} SurvivorsOfConcat(a: seq<TaskLog>, b: seq<TaskLog>, latest: seq<TaskLog>)
    ensures Survivors(a + b, latest) == Survivors(a, latest) + Survivors(b, latest)
  {
    if b == [] {
      assert a + b == a;
    } else {
      var front, last := b[..|b| - 1], b[|b| - 1];
      assert (a + b)[..|a + b| - 1] == a + front;
      SurvivorsOfConcat(a, front, latest);
    }
  }

  lemma {:induction false} AllOverwritten(logs: seq<TaskLog>, latest: seq<TaskLog>)
    requires forall l :: l in logs ==> Overwritten(latest, l)
    ensures Survivors(logs, latest) == []
  {
    if logs != [] {
      AllOverwritten(logs[..|logs| - 1], latest);
    }
  }

  lemma {:induction false} NoneOverwritten(logs: seq<TaskLog>, latest: seq<TaskLog>)
    requires forall l :: l in logs ==> !Overwritten(latest, l)
    ensures Survivors(logs, latest) == logs
  {
    if logs != [] {
      NoneOverwritten(logs[..|logs| - 1], latest);
    }
  }

  lemma SurvivorsSurviveAgain(existing: seq<TaskLog>, latest: seq<TaskLog>)
    ensures Survivors(Survivors(existing, latest), latest) == Survivors(existing, latest)
  {
    forall l | l in Survivors(existing, latest) ensures !Overwritten(latest, l) {
      SurvivorsContain(existing, latest, l);
    }
    NoneOverwritten(Survivors(existing, latest), latest);
  }

  lemma LatestOverwriteThemselves(latest: seq<TaskLog>)
    ensures Survivors(latest, latest) == []
  {
    forall l | l in latest ensures Overwritten(latest, l) {
      var i :| 0 <= i < |latest| && latest[i] == l;
      assert Overwrites(latest[i], l);
    }
    AllOverwritten(latest, latest);
  }

  /** Merging the same list twice is merging it once. */
  lemma MergeIsIdempotent(existing: seq<TaskLog>, latest: seq<TaskLog>)
    ensures Merged(Merged(existing, latest), latest) == Merged(existing, latest)
  {
    hide Survivors;
    SurvivorsOfConcat(latest, Survivors(existing, latest), latest);
    LatestOverwriteThemselves(latest);
    SurvivorsSurviveAgain(existing, latest);
  }

  /** No two logs share a uri or a name. */
  predicate Distinct(logs: seq<TaskLog>) {
    forall i, j :: 0 <= i < j < |logs| ==> !Overwrites(logs[i], logs[j])
  }

  lemma {:induction false} SurvivorsDistinct(existing: seq<TaskLog>, latest: seq<TaskLog>)
    requires Distinct(existing)
    ensures Distinct(Survivors(existing, latest))
  {
    if existing != [] {
      var front, last := existing[..|existing| - 1], existing[|existing| - 1];
      SurvivorsDistinct(front, latest);
      forall l | l in Survivors(front, latest) ensures !Overwrites(l, last) {
        SurvivorsContain(front, latest, l);
      }
    }
  }

  lemma MergeKeepsDistinct(existing: seq<TaskLog>, latest: seq<TaskLog>)
    requires Distinct(existing) && Distinct(latest)
    ensures Distinct(Merged(existing, latest))
  {
    SurvivorsDistinct(existing, latest);
    forall l, m | l in latest && m in Survivors(existing, latest) ensures !Overwrites(l, m) {
      SurvivorsContain(existing, latest, m);
    }
  }

  // ------------------------------------------------------------------------------------------------------------
  // Whole sequences of events
  // ------------------------------------------------------------------------------------------------------------

  /** What is stored after events that brought these lists, one after another. */
  function Stored(lists: seq<seq<TaskLog>>): seq<TaskLog> {
    if lists == [] then [] else Merged(Stored(lists[..|lists| - 1]), lists[|lists| - 1])
  }

  /** The log came with event i and no later event overwrote it. */
  ghost predicate StandsFrom(lists: seq<seq<TaskLog>>, i: int, log: TaskLog) {
    0 <= i < |lists| && log in lists[i] && forall j :: i < j < |lists| ==> !Overwritten(lists[j], log)
  }

  /** A log is stored exactly when some event brought it and no later event overwrote it. */
  lemma {:induction false} StoredIff(lists: seq<seq<TaskLog>>, log: TaskLog)
    ensures log in Stored(lists) <==> exists i :: StandsFrom(lists, i, log)
  {
    if lists != [] {
      var n := |lists| - 1;
      var front, last := lists[..n], lists[n];
      StoredIff(front, log);
      MergedContains(Stored(front), last, log);
      if log in last {
        assert StandsFrom(lists, n, log);
      } else if log in Stored(lists) {
        var i :| StandsFrom(front, i, log);
        assert StandsFrom(lists, i, log);
      } else if i :| StandsFrom(lists, i, log) {
        assert StandsFrom(front, i, log);
      }
    }
  }

  lemma {:induction false} StoredDistinct(lists: seq<seq<TaskLog>>)
    requires forall i :: 0 <= i < |lists| ==> Distinct(lists[i])
    ensures Distinct(Stored(lists))
  {
    if lists != [] {
      var front := lists[..|lists| - 1];
      assert forall i :: 0 <= i < |front| ==> front[i] == lists[i];
      StoredDistinct(front);
      MergeKeepsDistinct(Stored(front), lists[|lists| - 1]);
    }
  }
}
