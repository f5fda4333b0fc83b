# Flyte admin, verified

A Dafny model of the parts of Flyte admin that keep state: the native scheduler, the lives of workflow, node and task
executions, launch plan activation, the table of matchable attributes, placeholder substitution, and the scopes carried
by stateless OAuth codes. `dafny verify dfyconfig.toml` checks everything.

| module | what it models |
|---|---|
| `CatchUp` | which times a schedule fires at between two instants, with the 64-bit durations of fixed rates |
| `Naming` | the names of jobs and scheduled executions, from preimage to UUID text |
| `Executor` | asking admin for a scheduled execution, with retries, lost answers and other clients |
| `GoCron` | the scheduler's job store, cron table, snapshots and catch-up, and the life of one scheduler process |
| `SchedulerProtocol` | any number of scheduler processes that boot, catch up, fire, write snapshots and crash |
| `WorkflowExecution` | an execution row from creation over events and aborts, the gauge of active executions, notification |
| `NodeExecution` | a node execution row |
| `TaskLogs`, `TaskExecution` | merging log links; a task execution row |
| `Lineage` | the links between the three kinds of execution |
| `LaunchPlans` | enabling and disabling launch plan versions and their schedules, with failures half way |
| `Resources` | attributes per launch plan, workflow, project-domain and domain; merging plugin overrides |
| `Substitution` | placeholders in cluster resource templates, emails and namespace names |
| `Scopes` | scopes and form parameters in authorization codes and refresh tokens |

Most modules have the same shape. A class or method does what the source does, statement by statement, and is proved
equal to a function on values. A run is any sequence of steps of that function; an invariant is kept by every step; the
main lemmas speak about every reachable state. For the three execution machines the invariant is that a stored row equals
a row computed directly from the list of accepted events.

Some properties one might expect do not hold. Each has a lemma with a run or an input that breaks it, and beside it the
condition under which it does hold:

| what fails | lemma that shows it | exactly when it holds |
|---|---|---|
| a failed live call is retried after a restart | `SchedulerProtocol.FailedCallIsForgotten`, `FailedCallIsRetriedLater` | `SchedulerProtocol.RestartRetriesIff` |
| what a snapshot has passed is in admin | `SchedulerProtocol.FailedCallIsForgotten` | `SchedulerProtocol.SnapshotSoundness` |
| a stored time is still there after the next snapshot | `SchedulerProtocol.FailedCallIsRetriedLater` | `SchedulerProtocol.SnapshotKeepsEntryIff` |
| a schedule activated while the scheduler runs loses no point | `SchedulerProtocol.UpdaterSkipsAPoint`, `LatePointIsNeverFired` | `SchedulerProtocol.RegistrationIsSafeIff` |
| a catch-up of a fixed rate ends | `CatchUp.EndlessRates` | `CatchUp.FixedRateHasCatchUpIff`, `FixedRateAlwaysCatchesUpIff` |
| two schedules never share the text behind their names | `Naming.ColonsCollide` | `Naming.ScheduleTextIsUniqueIff`, `ExecutionTextIsUniqueIff` |
| a finished task that ran has a duration | `TaskExecution.InitializedTaskHasNoStart` | `TaskExecution.DurationIff` |
| after an interrupted request any later one repairs | `LaunchPlans.AnotherRequestLeavesAStraySchedule` | `LaunchPlans.AnotherRequestRepairsIff`, `RepeatedRequestRepairs` |
| an update of plugin overrides reaches the row it names | `Resources.OlderWorkflowTakesTheUpdate` | `Resources.MergeReachesItsRowIff` |
| an event delivered again changes nothing, however its data is stored | `WorkflowExecution.OtherPolicyChangesOutput` | `WorkflowExecution.RedeliveryIsHarmlessIff` |
| a session keeps the requested scopes | `Scopes.PrefixedScopeIsTrimmed` | `Scopes.SessionKeepsScopesIff` |

What is taken for granted:

- A handler is one step. The source reads, checks and writes without a transaction, so two requests for the same row at
  once are outside the model.
- Serialising a message and reading it back gives the same message; a signed token gives back its claims; decrypting
  undoes encrypting.
- gorm's `Updates` writes the non-empty columns, `Save` the whole row, `FirstOrCreate` and `First` look at rows by id.
- The OAuth library hands the requested scopes of a code or refresh session on to the access request.
- Clocks, storage, the cron library's schedule parser, the hash function, answers of other services and failures are
  parameters. In `SchedulerProtocol` processes and database share a clock, cron hands over every due point in order, and
  booting is one step.
- `&s.UpdatedAt` in the bootstrap loop is read as the loop variable of that iteration.

## Model

| member | source | states |
|---|---|---|
| CatchUp.GetCatchUpTimes | scheduler/core/gocron_scheduler.go:212-224 | on every input on which the loop ends it returns the catch-up list, which for a cron expression is that of the library's own next-time function; an unsupported schedule is an error, and only when there is something to catch up |
| CatchUp.UnsupportedIsError | scheduler/core/gocron_scheduler.go:226-248 | a scheduled time is an error exactly for an unparsable expression or an unknown unit, and which error |
| CatchUp.CronFollowsLibrary | scheduler/core/gocron_scheduler.go:226-240 | the catch-up lists of a cron expression are those of the library's function for it |
| CatchUp.CatchUpIsExact | scheduler/core/gocron_scheduler.go:212-224 | the list holds exactly the firing points after `from` up to its last element, so every one in `(from, until]`, and only the last can lie at or after `until` |
| CatchUp.CatchUpIsIncreasing | scheduler/core/gocron_scheduler.go:212-224 | the list strictly increases from `from` |
| CatchUp.CatchUpIsUnique | scheduler/core/gocron_scheduler.go:212-224 | there is one catch-up list, so the meaning determines the result |
| CatchUp.FixedRateDurationExact | scheduler/core/gocron_scheduler.go:295-308 | a fixed rate's int64 duration is the asked interval exactly up to 153722867 minutes, 2562047 hours or 106751 days |
| CatchUp.FixedRateAdvancesIff | scheduler/core/gocron_scheduler.go:241-248 | a fixed rate moves forward from every instant exactly when its wrapped duration is at least a second; every value from 1 to the bound does, 0 does not |
| CatchUp.FixedRateHasCatchUpIff | scheduler/core/gocron_scheduler.go:212-248 | the loop for a fixed rate ends exactly when nothing is to be caught up, its wrapped int64 duration is at least a second, or one step from the whole second of `from` reaches `until` |
| CatchUp.FixedRateAlwaysCatchesUpIff | scheduler/core/gocron_scheduler.go:212-248 | it ends for every `from` and `until` exactly when the duration is at least a second |
| CatchUp.EndlessRates | scheduler/core/gocron_scheduler.go:295-308 | rate 0, and 153722868 minutes, which wraps, never reach a whole second |
| CatchUp.FixedRateCatchUp | scheduler/core/gocron_scheduler.go:212-248 | the k-th time of a fixed rate is k intervals after the whole second of `from`, and their number is the least that reaches `until` |
| CatchUp.FixedRateIsNotLeast | scheduler/core/gocron_scheduler.go:241-248 | a fixed rate has no fixed set of firing points: series from different starts interleave |
| Naming.GetExecutionIdentifier | scheduler/identifier/identifier.go:36-41 | the 16-byte buffer holds the hash little-endian, then zeros |
| Naming.UuidTextWithoutDashes | scheduler/executor/executor_impl.go:72-72 | removing the dashes of a UUID's text leaves its hexadecimal digits |
| Naming.ExecutionNameRoundTrip | scheduler/executor/executor_impl.go:72-72 | an execution name has 20 characters, the first an f, and the 64-bit hash can be read back from it |
| Naming.ExecutionNameInjective | scheduler/executor/executor_impl.go:72-72 | different hashes give different names |
| Naming.SchedulePreimageRoundTrip | scheduler/identifier/identifier.go:44-56 | the hashed text of a job's name is project, domain, name and version in this order, and can be read back when the first three hold no colon |
| Naming.ExecutionPreimageRoundTrip | scheduler/identifier/identifier.go:59-71 | the hashed text of an execution's name is the same followed by the Unix second, and can be read back |
| Naming.ExecutionPreimageInjective | scheduler/identifier/identifier.go:59-71 | the hashed text determines project, domain, name, version and Unix second when the first three hold no colon |
| Naming.SchedulePreimageInjective | scheduler/identifier/identifier.go:44-56 | the same for the text behind a job's name |
| Naming.ColonsCollide | scheduler/identifier/identifier.go:59-71 | a colon in a launch plan's name or version lets two schedules share every text |
| Naming.ScheduleTextIsUniqueIff | scheduler/identifier/identifier.go:44-56 | the text of a job's name belongs to its identifier alone, among all identifiers, exactly when none of the four fields holds a colon |
| Naming.ExecutionTextIsUniqueIff | scheduler/identifier/identifier.go:59-71 | the same for the text of an execution's name, among all identifiers and seconds |
| Naming.ScheduledExecutionNameCollides | scheduler/identifier/identifier.go:36-71 | two scheduled execution names are equal exactly when their hashes are; without a hash collision the name determines schedule and second |
| Naming.ScheduleNameCollides | scheduler/identifier/identifier.go:26-33 | the same for job names |
| Executor.Admin.CreateExecution | scheduler/executor/executor_impl.go:99-112 | admin stores a new name, refuses a taken one, and may lose the answer after storing or before |
| Executor.CreateRequest | scheduler/executor/executor_impl.go:36-91 | the request's name is the truncated UUID text of the hashed schedule and second, in the schedule's project and domain |
| Executor.Execute | scheduler/executor/executor_impl.go:36-127 | the retry loop refines `Attempts`: an inactive schedule asks for nothing, AlreadyExists counts as success, thirty attempts at most |
| Executor.ExecuteNilMeansStored | scheduler/executor/executor_impl.go:99-126 | success leaves an execution under the asked name, and nothing stored is replaced or removed |
| Executor.ExecuteFailsIffAllCutOff | scheduler/executor/executor_impl.go:99-126 | failure means every attempt was cut off |
| Executor.ThirtyAttempts | scheduler/executor/executor_impl.go:99-126 | a call succeeds exactly when one of thirty attempts gets through |
| Executor.ReplyTells | scheduler/executor/executor_impl.go:99-112 | OK means this call stored its launch, AlreadyExists that the name was taken |
| Executor.ExecuteLaunchesIff | scheduler/executor/executor_impl.go:99-126 | among any calls of other clients, a successful call has launched this schedule's execution exactly when the name's holder, or else the first call to take the name, is such a launch |
| Executor.AloneExecuteLaunchesIff | scheduler/executor/executor_impl.go:99-126 | without other clients: exactly when the name was free or already its own |
| Executor.LaunchCarriesFireTime | scheduler/executor/executor_impl.go:39-91 | a free name that nobody else asks for goes to the launch of this schedule and time, with the time under the kickoff argument of a cron schedule and only there |
| Executor.RequestKeysAreApart | scheduler/executor/executor_impl.go:56-73 | two requests ask for the same execution exactly when they are of the same schedule and fall in the same second, unless hashes collide; so fires a second or more apart never do; project and domain are the schedule's |
| Executor.NameHoldsTheSecond | scheduler/identifier/identifier.go:59-71 | the text behind a name holds the schedule and the number n of the second with n seconds <= t < n + 1 seconds |
| Executor.AtMostOnePerSecond | scheduler/executor/executor_impl.go:56-126 | after any interleaving of calls of any clients admin holds at most one execution per schedule and second |
| Executor.AnsweredCallIsNeverLost | scheduler/executor/executor_impl.go:99-126 | a call that was answered leaves its name held in every continuation, by its own launch unless hashes collide or a hand-made execution has the name |
| Executor.HolderWasAsked | scheduler/executor/executor_impl.go:72-97 | what admin holds was stored before or asked for by one of the calls |
| GoCron.GoCronScheduler.ScheduleJob | scheduler/core/gocron_scheduler.go:107-143 | registers a well-formed schedule under its name unless it is there; job store and cron table keep agreeing |
| GoCron.GoCronScheduler.DeScheduleJob | scheduler/core/gocron_scheduler.go:145-164 | removes the job; a cron job's entry goes too, a fixed rate's stays |
| GoCron.GoCronScheduler.BootStrapSchedulesFromSnapShot | scheduler/core/gocron_scheduler.go:52-75 | refines `Bootstrapped` |
| GoCron.BootstrapIsExact | scheduler/core/gocron_scheduler.go:52-75 | a fresh scheduler ends with exactly the active, well-formed schedules, each catching up from the later of update time and snapshot time; of schedules that share a name, the first |
| GoCron.GoCronScheduler.UpdateSchedules | scheduler/core/gocron_scheduler.go:77-92 | refines `UpdatedWith` |
| GoCron.UpdateIsExact | scheduler/core/gocron_scheduler.go:77-92 | for the rows of any one name: without an inactive one the running job stays, or the first well-formed row starts one without catch-up; otherwise only rows after the last inactive one count |
| GoCron.GoCronScheduler.CalculateSnapshot | scheduler/core/gocron_scheduler.go:94-105 | the snapshot holds the last time of exactly the jobs that have one, unchanged |
| GoCron.GoCronScheduler.CatchupAll | scheduler/core/gocron_scheduler.go:166-190 | returning true means every job to catch up has all its points up to `until` in admin; it does so whenever every schedule is well-formed and one of thirty attempts of every call gets through; whatever it returns, admin only grows |
| GoCron.CatchUpSingleSchedule | scheduler/core/gocron_scheduler.go:192-210 | success means the whole catch-up list of the schedule is in admin; it fails only when a call fails thirty times or the schedule has no times |
| GoCron.GoCronJob.Run | scheduler/core/gocron_job.go:27-41 | the watermark becomes the later of itself and the fired time, even when the call failed; admin is left as the call leaves it |
| GoCron.Snapshoter.Save | scheduler/snapshoter/snapshoter.go:29-48 | an empty snapshot is not written; a failing write leaves the stored one; a snapshot that could not be serialised is written all the same, as a row that cannot be decoded |
| GoCron.Snapshoter.Read | scheduler/snapshoter/snapshoter.go:50-71 | the row saved last, an empty snapshot where there is none, and no snapshot at all when reading or decoding fails |
| GoCron.SaveThenRead | scheduler/snapshoter/snapshot_v1.go:19-41 | after a save that went through, a read gives every job the last time it had, and no others; otherwise what was saved before; the read fails exactly when the database does or the row read could not be serialised when it was saved |
| GoCron.SnapshotRound | scheduler/core/snapshot_runner.go:18-22 | catch-up is complete when a snapshot is saved, and stays so; what is saved holds the watermarks of that moment; it is saved whenever a job has run and the database takes it |
| GoCron.RunScheduledExecutor | scheduler/schedule_executor.go:36-103 | with live fires before and between: a snapshot is written only after a complete catch-up of every bootstrapped job, and holds, for exactly the jobs that cron ran so far, the latest time it ran each for; with admin and the database up the start succeeds, every fire has its execution and the last snapshot is complete; a snapshot that cannot be read or decoded stops the start, which then asks for nothing and writes nothing, so every later start stops as well |
| GoCron.WatermarkIsLatest | scheduler/core/gocron_job.go:34-40 | a watermark is the latest time its job was run for, and absent exactly when it never was |
| GoCron.WatermarksAreLatestFires | scheduler/core/gocron_scheduler.go:94-105 | the watermarks of a store hold a name exactly when a fire names it, and its value is the largest time among those fires |
| GoCron.CaughtUpMeansAllPoints | scheduler/schedule_executor.go:68-99 | after a complete catch-up every firing point, as the cron library gives them, of an active cron schedule after the later of update time and snapshot time, up to `until`, has its execution in admin |
| GoCron.FireStoresLaunch | scheduler/executor/executor_impl.go:39-91 | what a fire of a schedule row stores: its identifier, the time, and the time under the row's kickoff argument where it has a cron expression |
| SchedulerProtocol.RunKeepsInv | scheduler/schedule_executor.go:36-103 | the invariant of the protocol holds in every reachable state, over every interleaving of boots, fires, returns, updates, snapshots and crashes |
| SchedulerProtocol.SnapshotSoundness | scheduler/schedule_executor.go:68-99 | a stored time t for a schedule that no updater registered late has every firing point in `(UpdatedAt, t]` in admin exactly when no live call in that interval is unanswered and without execution; so whenever all live calls up to t returned success |
| SchedulerProtocol.SnapshotSoundnessFromBase | scheduler/core/gocron_scheduler.go:77-105 | for a schedule registered late the same equivalence holds from that registration on |
| SchedulerProtocol.RegistrationIsSafeIff | scheduler/core/gocron_scheduler.go:77-92 | from any reachable state: when the updater of the only process, which has caught up, registers a schedule whose first point nobody asked for, snapshots stay sound for it from its last change in every continuation exactly when that point has not passed yet |
| SchedulerProtocol.DeactivationStopsSchedule | scheduler/core/gocron_scheduler.go:145-164 | over every run: once the only process has seen that a schedule is deactivated, no further point of it is asked for until it is activated again |
| SchedulerProtocol.StoppedScheduleIsSilent | scheduler/core/gocron_scheduler.go:52-92 | an inactive schedule that no process runs is taken up by none, not even one that boots |
| SchedulerProtocol.LatePointIsNeverFired | scheduler/core/gocron_scheduler.go:77-92 | a point that had passed is fired in no continuation of that process without another boot or client |
| SchedulerProtocol.CatchUpLeavesNoGap | scheduler/schedule_executor.go:70-82 | after catch-up every point in `(from, until]` is in admin, and no point falls between catch-up and what cron hands over next |
| SchedulerProtocol.RecoveryIsComplete | scheduler/core/gocron_scheduler.go:166-224 | from any run up to a boot and any run after it without a crash of that process: once catch-up is done, every point after the later of update time and snapshot time at boot, up to `until`, is in admin |
| SchedulerProtocol.CatchUpFireFollowsList | scheduler/core/gocron_scheduler.go:192-210 | the protocol's catch-up steps fire the catch-up list front to back |
| SchedulerProtocol.FailedCallIsForgotten | scheduler/core/gocron_job.go:34-40 | a run in which the snapshot has passed a failed call's point and the whole recovery of the next process leaves it missing |
| SchedulerProtocol.FailedCallIsRetriedLater | scheduler/core/gocron_scheduler.go:94-105 | the same run goes on until a third process asks for the point, because the second wrote a snapshot without the schedule |
| SchedulerProtocol.RestartRetriesIff | scheduler/core/gocron_scheduler.go:52-75 | over every run that leaves no process and every recovery after it: a passed point that admin does not hold is there after catch-up if and only if it is after both the last change of the schedule and its stored time |
| SchedulerProtocol.ReactivationForgets | pkg/manager/impl/launch_plan_manager.go:201-219 | enabling an active schedule again moves its time of last change, and no restart retries a point that had passed by then |
| SchedulerProtocol.SnapshotKeepsEntryIff | scheduler/core/gocron_scheduler.go:94-105 | a snapshot stores the watermarks of exactly the writer's jobs that have run since they were registered, and nothing is written where none has: any other stored time is gone |
| SchedulerProtocol.DroppedEntryIsRetried | scheduler/core/gocron_scheduler.go:94-105 | over every run: once a process wrote a snapshot before its job of a schedule ran, and crashed, the next one has every point since the last change of that schedule in admin after catch-up |
| SchedulerProtocol.UpdaterSkipsAPoint | scheduler/core/gocron_scheduler.go:77-92 | a run in which every call succeeds and a point between activation and registration is never fired |
| WorkflowExecution.ExecutionModel.ReassignCluster | pkg/repositories/transformers/execution.go:112-134 | the column and the spec get the same cluster |
| WorkflowExecution.ExecutionModel.UpdateExecutionModelState | pkg/repositories/transformers/execution.go:137-229 | refines `Updated`; on an error the in-memory phase is already changed |
| WorkflowExecution.ExecutionModel.SetExecutionAborted | pkg/repositories/transformers/execution.go:233-252 | cause and principal in the closure, the cause in the column, and nothing else of the row changes: not phase, times, cluster or duration |
| WorkflowExecution.ExecutionManager.CreateExecution | pkg/manager/impl/execution_manager.go:884-902 | a new execution starts UNDEFINED and counts as active; a taken name changes nothing |
| WorkflowExecution.ExecutionManager.CreateWorkflowEvent | pkg/manager/impl/execution_manager.go:1161-1243 | refines `OnEvent`, with rows, gauge and notified executions |
| WorkflowExecution.ExecutionManager.TerminateExecution | pkg/manager/impl/execution_manager.go:1454-1495 | refines `OnTerminate`; a failing abort of the workflow changes nothing |
| WorkflowExecution.EventExtendsRow | pkg/repositories/transformers/execution.go:137-229 | the row an accepted event leaves is the row computed from the history with that event added |
| WorkflowExecution.AbortExtendsRow | pkg/repositories/transformers/execution.go:233-252 | the same for an abort |
| WorkflowExecution.StoredRowIsItsHistory | pkg/manager/impl/execution_manager.go:1161-1243 | in every run a stored row is the row of its creation and accepted events and aborts, field by field the latest that applies |
| WorkflowExecution.DuplicatedFactsAgree | pkg/repositories/transformers/execution.go:46-229 | in every run column and closure or spec agree on phase, cluster, start, creation, update, duration, user and mode |
| WorkflowExecution.FreshRowAgreesIff | pkg/repositories/transformers/execution.go:65-96 | of a fresh row the start times agree exactly when it is not created RUNNING |
| WorkflowExecution.DurationIsRunTime | pkg/repositories/transformers/execution.go:157-168 | in every run the duration is terminal time minus latest accepted RUNNING time, and absent without a RUNNING event or an end |
| WorkflowExecution.GaugeIsConserved | pkg/manager/impl/execution_manager.go:897-897 | in every run the gauge is the number of stored executions that have not ended |
| WorkflowExecution.NotifiedOnce | pkg/manager/impl/execution_manager.go:1219-1235 | in every run an execution has reached the notification step once if it has ended, and never otherwise |
| WorkflowExecution.TerminalIsAbsorbing | pkg/manager/impl/execution_manager.go:1187-1191 | after an end no run changes anything of the row but abort cause and abort metadata |
| WorkflowExecution.EventEffect | pkg/manager/impl/execution_manager.go:1179-1210 | a refused event changes nothing stored; an accepted one touches its row only, sets phase and times, marks the start on RUNNING, moves the cluster only on UNDEFINED or QUEUED, and leaves a producer other than "" and "propeller" as the cluster |
| WorkflowExecution.EventOutputIs | pkg/repositories/transformers/execution.go:186-222 | the output and the error columns an accepted event leaves, from the event's own result |
| WorkflowExecution.EndingCountsOnce | pkg/manager/impl/execution_manager.go:1219-1235 | an accepted SUCCEEDED, FAILED, ABORTED or TIMED_OUT event lowers the gauge by one, notifies once and sets the duration; any other does none of it |
| WorkflowExecution.EndingIsFinalIff | pkg/common/executions.go:29-34 | exactly after such an event no event is accepted for the execution in any continuation |
| WorkflowExecution.EventAcceptedIff | pkg/manager/impl/execution_manager.go:1179-1210 | when exactly an event is accepted, in terms of the phases, producers and results themselves |
| WorkflowExecution.RefusalTells | pkg/manager/impl/execution_manager.go:1161-1210 | what each refusal means |
| WorkflowExecution.CreateEffect | pkg/repositories/transformers/execution.go:46-108 | a new row is UNDEFINED, has what was asked for and raises the gauge; an existing one stays |
| WorkflowExecution.RunningCanBeRequeued | pkg/manager/impl/execution_manager.go:1192-1197 | a running execution can be queued again, and moved, by way of UNDEFINED |
| WorkflowExecution.RedeliveryIsHarmless | pkg/manager/impl/execution_manager.go:1179-1197 | delivering the latest accepted event again leaves everything stored as it was; only QUEUED, and a phase number without a name, is accepted again |
| WorkflowExecution.OtherPolicyChangesOutput | pkg/manager/impl/execution_manager.go:1179-1197 | a QUEUED event whose data was kept in the row replaces the output when it comes again while data is offloaded |
| WorkflowExecution.RedeliveryIsHarmlessIff | pkg/manager/impl/execution_manager.go:1179-1197 | in every reachable state, whatever was refused or happened to other executions since, and under any storage of event data: the reply to the latest accepted event delivered again, and that it leaves the store as it was exactly when it is not taken again, carries no data, or its data is stored as before or not at all |
| WorkflowExecution.RedeliveryAfterAbort | pkg/manager/impl/execution_manager.go:1179-1197 | with an abort in between the same holds exactly unless such an event carries an output |
| WorkflowExecution.AbortEffect | pkg/manager/impl/execution_manager.go:1454-1495 | an abort goes through in any phase, changes output and cause and neither phase nor gauge; one that fails changes nothing |
| WorkflowExecution.AbortCauseAgreesIff | pkg/repositories/transformers/execution.go:233-252 | after an abort the column names the cause exactly when it is not empty or none was recorded before |
| NodeExecution.NodeModel.AddNodeRunningState | pkg/repositories/transformers/node_execution.go:34-49 | start time in column and closure, or a timestamp error |
| NodeExecution.NodeModel.AddTerminalState | pkg/repositories/transformers/node_execution.go:51-99 | refines `WithEnd` and `ClosedWith`; its precondition is what keeps the dereference of the column's start time safe |
| NodeExecution.NodeModel.UpdateNodeExecutionModel | pkg/repositories/transformers/node_execution.go:164-227 | refines `Updated` |
| NodeExecution.CreateNodeExecutionModel | pkg/repositories/transformers/node_execution.go:101-162 | refines `Created` |
| NodeExecution.NodeExecutionManager.CreateNodeEvent | pkg/manager/impl/node_execution_manager.go:208-296 | refines `OnEvent`; start times in column and closure agree before and after, so no nil start time is dereferenced |
| NodeExecution.NodeExecutionManager.CreateNodeExecutionWithEvent | pkg/manager/impl/node_execution_manager.go:84-127 | a node whose named parents exist is created |
| NodeExecution.NodeExecutionManager.UpdateNodeExecutionWithEvent | pkg/manager/impl/node_execution_manager.go:129-176 | an unfinished node moves to another phase if the execution it launched exists |
| NodeExecution.EventExtendsRow | pkg/repositories/transformers/node_execution.go:164-227 | the row an accepted event leaves is the row computed from the longer history |
| NodeExecution.StoredRowIsItsHistory | pkg/manager/impl/node_execution_manager.go:208-296 | in every run a stored row is the row of its accepted events, which all carry a time, never repeat a phase at once, and end with the terminal one |
| NodeExecution.DuplicatedFactsAgree | pkg/repositories/transformers/node_execution.go:34-65 | in every run column and closure agree on phase, start, creation, update and duration |
| NodeExecution.DurationIsRunTime | pkg/repositories/transformers/node_execution.go:51-65 | in every run the duration is terminal time minus latest accepted RUNNING time, and absent without either |
| NodeExecution.TerminalIsAbsorbing | pkg/manager/impl/node_execution_manager.go:138-143 | a finished node's row never changes |
| NodeExecution.LaunchedExecutionIsKept | pkg/repositories/transformers/node_execution.go:191-212 | a recorded launched execution stays until a cache entry replaces it |
| NodeExecution.RedeliveryIsHarmlessIff | pkg/manager/impl/node_execution_manager.go:133-143 | delivering the latest accepted event again is refused and changes nothing, whatever else has changed; a phase number without a name is taken again and changes the row exactly when it brings what the row has not |
| NodeExecution.EventAcceptedIff | pkg/manager/impl/node_execution_manager.go:208-296 | when exactly an event is accepted, in terms of the phases, producers and results themselves |
| NodeExecution.RefusalTells | pkg/manager/impl/node_execution_manager.go:208-296 | what each refusal means |
| NodeExecution.EventEffect | pkg/repositories/transformers/node_execution.go:101-227 | a refused event changes nothing; an accepted one only its row: phase and times are its own, input, metadata, parents and creation time are the first event's |
| NodeExecution.EndingEventEffect | pkg/repositories/transformers/node_execution.go:51-99 | only an event in one of the six final phases leaves an output, an error or a duration, and they are its own |
| NodeExecution.TargetIs | pkg/repositories/transformers/node_execution.go:191-212 | the launched execution, cache entry and dynamic closure an event leaves, from its own fields |
| NodeExecution.EndingIsFinalIff | pkg/common/executions.go:36-43 | exactly after such an event the row changes in no continuation |
| TaskLogs.MergeLogs | pkg/repositories/transformers/task_execution.go:175-205 | the latest logs, then the existing ones no latest log overwrites, in order |
| TaskLogs.MergedContains | pkg/repositories/transformers/task_execution.go:170-205 | the latest logs are a prefix; an older log survives exactly when no latest one has its uri or its non-empty name |
| TaskLogs.MergeIsIdempotent | pkg/repositories/transformers/task_execution.go:175-205 | merging the same list twice is merging it once |
| TaskLogs.MergeKeepsDistinct | pkg/repositories/transformers/task_execution.go:175-205 | lists without shared uris or names merge into such a list |
| TaskLogs.StoredIff | pkg/repositories/transformers/task_execution.go:175-205 | over any sequence of events a log is stored exactly when some event brought it and no later one overwrote it |
| TaskLogs.StoredDistinct | pkg/repositories/transformers/task_execution.go:175-205 | over any sequence of lists without shared uris or names the stored list has none |
| TaskExecution.TaskModel.AddTaskStartedState | pkg/repositories/transformers/task_execution.go:35-44 | start time in column and closure, or a timestamp error |
| TaskExecution.TaskModel.AddTaskTerminalState | pkg/repositories/transformers/task_execution.go:46-98 | duration from the column's start time, and the output |
| TaskExecution.TaskModel.UpdateTaskExecutionModel | pkg/repositories/transformers/task_execution.go:243-289 | refines `Updated`, with merged logs |
| TaskExecution.CreateTaskExecutionModel | pkg/repositories/transformers/task_execution.go:100-168 | refines `Created` |
| TaskExecution.TaskExecutionManager.CreateTaskExecutionEvent | pkg/manager/impl/task_execution_manager.go:127-211 | refines `OnEvent` |
| TaskExecution.EventExtendsRow | pkg/repositories/transformers/task_execution.go:243-289 | the row an accepted event leaves is the row computed from the longer history |
| TaskExecution.StoredRowIsItsHistory | pkg/manager/impl/task_execution_manager.go:127-211 | in every run a stored row is the row of its accepted events; consecutive events in one phase have strictly increasing versions, and nothing follows a terminal one |
| TaskExecution.DuplicatedFactsAgree | pkg/repositories/transformers/task_execution.go:35-98 | in every run column and closure agree on phase, start, creation, update and duration |
| TaskExecution.StoredLogsAreTheStandingOnes | pkg/repositories/transformers/task_execution.go:255-256 | in every run a log is stored exactly when an accepted event brought it and no later accepted one overwrote it |
| TaskExecution.StoredLogsAreDistinct | pkg/repositories/transformers/task_execution.go:125-133 | in every run whose accepted events bring distinct logs the stored logs are distinct |
| TaskExecution.DurationIff | pkg/repositories/transformers/task_execution.go:260-272 | in every run a finished task has a duration exactly when a RUNNING event came first or straight after QUEUED or UNDEFINED |
| TaskExecution.InitializedTaskHasNoStart | pkg/repositories/transformers/task_execution.go:260-265 | a run over INITIALIZING to SUCCEEDED that leaves neither start time nor duration |
| TaskExecution.TerminalIsAbsorbing | pkg/manager/impl/task_execution_manager.go:176-183 | a finished task's row never changes |
| TaskExecution.RedeliveryIsHarmless | pkg/manager/impl/task_execution_manager.go:167-174 | delivering the latest accepted event or an earlier version of its phase again changes nothing |
| TaskExecution.EventAcceptedIff | pkg/manager/impl/task_execution_manager.go:127-211 | when exactly an event is accepted, in terms of the phases, producers and results themselves |
| TaskExecution.RefusalTells | pkg/manager/impl/task_execution_manager.go:127-211 | what each refusal means |
| TaskExecution.EventEffect | pkg/repositories/transformers/task_execution.go:100-289 | a refused event changes nothing; an accepted one only its row: phase, version and times are its own, RUNNING marks the start only first or after QUEUED or UNDEFINED, an empty reason is not recorded |
| TaskExecution.EndingEventEffect | pkg/repositories/transformers/task_execution.go:46-98 | only a SUCCEEDED, FAILED or ABORTED event leaves an output or a duration, and they are its own |
| TaskExecution.EndingIsFinalIff | pkg/common/executions.go:45-49 | exactly after such an event the row changes in no continuation |
| Lineage.Managers.CreateExecution | pkg/manager/impl/execution_manager.go:397-430 | refines `OnCreateExecution`: id, parent node, source, user and nesting of a new execution |
| Lineage.Managers.CreateNodeExecutionWithEvent | pkg/manager/impl/node_execution_manager.go:84-127 | refines `OnFirstNodeEvent` |
| Lineage.Managers.CreateTaskExecution | pkg/manager/impl/task_execution_manager.go:63-104 | refines `OnFirstTaskEvent` |
| Lineage.NewExecutionLinks | pkg/manager/impl/execution_manager.go:397-430 | a new execution links to the node named for it and to no other |
| Lineage.NewNodeLinks | pkg/manager/impl/node_execution_manager.go:84-127 | a new node links to the parent node and task named for it and to no others |
| Lineage.CreatedIff | pkg/manager/impl/node_execution_manager.go:84-127 | in every reachable state each handler creates a row exactly when its key is free and every row it is to link to is there |
| Lineage.RefusalTells | pkg/manager/impl/task_execution_manager.go:63-104 | a handler that creates nothing changes nothing and names what is missing |
| Lineage.NoDanglingLinks | pkg/manager/impl/node_execution_manager.go:84-127 | in every run every link leads to exactly one stored row; a parent node is in the same execution, a source is the launching node's execution |
| Lineage.SourceIsAlwaysFound | pkg/manager/impl/execution_manager.go:411-416 | in every run the second lookup succeeds once the first has |
| Lineage.LinksAreAcyclic | pkg/manager/impl/execution_manager.go:397-430 | in every run no chain of links over the three tables returns to where it began |
| Lineage.RunInheritsFromRoot | pkg/manager/impl/execution_manager.go:417-428 | in every run an execution's user is its root's, and its nesting is the root's plus the number of launches between, in 32 bits |
| Lineage.NestingGrowsByOneIff | pkg/manager/impl/execution_manager.go:424-428 | a child's nesting is its parent's plus one exactly when the parent's is not 2^32 - 1 |
| LaunchPlans.LaunchPlanManager.CreateLaunchPlan | pkg/manager/impl/launch_plan_manager.go:57-119 | a new version is inactive; an existing one is not replaced |
| LaunchPlans.LaunchPlanManager.AddSchedule | scheduler/dbapi/event_scheduler_impl.go:32-66 | rates and cron schedules switch an existing row on or create it; other expressions fail |
| LaunchPlans.LaunchPlanManager.RemoveSchedule | scheduler/dbapi/event_scheduler_impl.go:68-83 | an existing row is switched off, a missing one is no error |
| LaunchPlans.LaunchPlanManager.UpdateSchedules | pkg/manager/impl/launch_plan_manager.go:179-222 | what is left of enabling after it, for every place a call fails |
| LaunchPlans.LaunchPlanManager.EnableLaunchPlan | pkg/manager/impl/launch_plan_manager.go:269-330 | refines `OnEnable`, for every place a call fails |
| LaunchPlans.LaunchPlanManager.DisableLaunchPlan | pkg/manager/impl/launch_plan_manager.go:224-267 | refines `OnDisable`, for every place a call fails |
| LaunchPlans.AtMostOneVersionIsActive | pkg/repositories/gormimpl/launch_plan_repo.go:82-108 | in every run, whatever fails, at most one version of a name is active |
| LaunchPlans.SchedulesFollowActiveVersions | pkg/manager/impl/launch_plan_manager.go:179-330 | in every run without a failed request the running schedules are exactly the non-empty ones of active versions |
| LaunchPlans.StoredRowHoldsSchedule | scheduler/dbapi/event_scheduler_impl.go:32-66 | in every run a stored row holds its version's rate value and unit, or its cron text, and its kickoff argument |
| LaunchPlans.PlanKeepsSchedule | pkg/manager/impl/launch_plan_manager.go:57-119 | a version keeps the schedule it was created with |
| LaunchPlans.EnableDoneIff | pkg/manager/impl/launch_plan_manager.go:269-330 | enabling succeeds exactly when the version exists and its schedule is empty or can be added |
| LaunchPlans.RequestFailsIff | pkg/manager/impl/launch_plan_manager.go:179-330 | a failing call fails the request exactly where that call is made, and the versions stay as they were |
| LaunchPlans.EnableEffect | pkg/repositories/gormimpl/launch_plan_repo.go:82-108 | an enabled version is the one active version of its name, also when it was before; versions and schedules of other names stay as they are |
| LaunchPlans.EnableAgreesIff | pkg/manager/impl/launch_plan_manager.go:201-220 | enabling keeps schedules and versions in agreement exactly unless the new schedule cannot be added and the old one ran |
| LaunchPlans.RepeatedRequestRepairs | scheduler/doc.go:69-74 | after any number of interruptions at any places, repeating the request to completion leaves what an uninterrupted one leaves |
| LaunchPlans.AnotherRequestLeavesAStraySchedule | pkg/manager/impl/launch_plan_manager.go:201-220 | a run in which another request after an interruption leaves a schedule running for an inactive version |
| LaunchPlans.AnotherRequestRepairsIff | pkg/manager/impl/launch_plan_manager.go:201-328 | enabling any version of the name after an interrupted request brings schedules and versions into agreement exactly unless the interrupted one had started the schedule of another version that was not active |
| LaunchPlans.DisableStopsVersion | pkg/manager/impl/launch_plan_manager.go:224-267 | disabling stops a version's schedule and activity from any state and touches no other version |
| LaunchPlans.EmptyAndAddable | pkg/manager/impl/launch_plan_manager.go:141-156 | which schedules count as empty, which count as something but cannot be added, and which could be added but count as nothing |
| LaunchPlans.PlainCronScheduleNeverRuns | pkg/manager/impl/launch_plan_manager.go:141-156 | in every run a cron schedule without kickoff argument is never started |
| Resources.ResourceRepo.CreateOrUpdate | pkg/repositories/gormimpl/resource_repo.go:53-83 | refines `Upserted`; an invalid key or a zero priority changes nothing |
| Resources.ResourceRepo.Delete | pkg/repositories/gormimpl/resource_repo.go:158-176 | a row remains exactly when the key does not cover it, and the order stays |
| Resources.PriorityPinsTheKey | pkg/repositories/gormimpl/resource_repo.go:62-69 | among rows of the input's level the lookup without conditions on empty fields finds only the row with the input's key |
| Resources.UpsertIsExact | pkg/repositories/gormimpl/resource_repo.go:53-83 | a row of its level replaces the row with its key or is added, no other changes, and the table stays valid |
| Resources.WriteIsRefusedIff | pkg/repositories/gormimpl/resource_repo.go:28-60 | which keys and priorities a write refuses |
| Resources.UpsertIsSafeIff | pkg/repositories/gormimpl/resource_repo.go:53-83 | writing keeps every valid table valid exactly when the priority is the level's |
| Resources.BuildersFixTheLevel | pkg/repositories/transformers/resource.go:16-29 | the builders give rows of their level, 100 and 10, exactly when the names are not empty |
| Resources.EmptyWorkflowOverwritesAnother | pkg/repositories/transformers/resource.go:16-29 | with an empty workflow name another workflow's row would be overwritten |
| Resources.GetIsChain | pkg/repositories/gormimpl/resource_repo.go:85-119 | on a valid table the single query gives the launch plan's row, else the workflow's, else the project-domain's, else the domain's |
| Resources.GetIsChainInEveryRun | pkg/repositories/gormimpl/resource_repo.go:85-119 | the same after every run of updates, merges and deletions |
| Resources.WorkflowUpdateIsSeen | pkg/manager/impl/resources/resource_manager.go:94-116 | attributes written for a workflow are what is found for it and for its launch plans without a row of their own |
| Resources.ProjectDomainUpdateIsSeen | pkg/manager/impl/resources/resource_manager.go:187-209 | attributes written for a project and domain are what is found for whatever has no more specific row |
| Resources.DeleteRemovesAllBelow | pkg/repositories/gormimpl/resource_repo.go:158-176 | deleting removes the row with the key and all rows below it, and no other |
| Resources.DeletedIff | pkg/repositories/gormimpl/resource_repo.go:158-176 | a row goes exactly when it has the key's value in every field the key fills |
| Resources.MergeReachesItsRowIff | pkg/manager/impl/resources/resource_manager.go:59-92 | a merge update reaches the named row exactly when the oldest row at or below the key is that row or there is none; otherwise that row stays as it was |
| Resources.OlderWorkflowTakesTheUpdate | pkg/manager/impl/resources/resource_manager.go:152-185 | an older workflow row takes a project-domain's update |
| Resources.MergeUpdatePluginOverrides | pkg/repositories/transformers/resource.go:31-57 | one override per task type, the last of existing then new ones, in any order |
| Substitution.ReplaceFills | pkg/clusterresource/controller.go:480-482 | replacing one placeholder's text in a template's text fills that placeholder and nothing else |
| Substitution.OrderDoesNotMatter | pkg/clusterresource/controller.go:480-486 | a sufficient condition, not an exact one: one after the other in any order equals all at once where no two opening braces meet in literals and values and placeholders do not nest; single braces, as in JSON, are allowed |
| Substitution.BracesInValuesMakeOrderMatter | pkg/clusterresource/controller.go:480-482 | a value that holds a placeholder makes two orders differ |
| Substitution.NestingMakesOrderMatter | pkg/clusterresource/controller.go:480-482 | so does a placeholder within a placeholder |
| Substitution.ReplaceEach | pkg/clusterresource/controller.go:480-482 | the loop replaces every key of the map, in some order |
| Substitution.Controller.CreateResourceFromTemplate | pkg/clusterresource/controller.go:455-489 | the manifest is the template with all values filled in at once, the shared values before the custom ones; the shared map gains the system values |
| Substitution.GetCustomTemplateValues | pkg/clusterresource/controller.go:195-225 | domain defaults overlaid with stored overrides, the defaults alone where none are stored, an error when the lookup fails |
| Substitution.Precedence | pkg/clusterresource/controller.go:195-225 | system, then global, then stored, then default value; what an earlier namespace left in the shared map does not matter |
| Substitution.SystemPlaceholdersBecome | pkg/clusterresource/controller.go:455-489 | "{{ namespace }}", "{{ project }}" and "{{ domain }}" become the namespace, the project and the domain, whatever other values there are |
| Substitution.SubstituteEmailParameters | pkg/async/notifications/email.go:104-110 | both spellings of every name filled in at once |
| Substitution.EmailNamesFit | pkg/async/notifications/email.go:88-102 | the names emails use meet what that needs |
| Substitution.NamespaceIsFilledTemplate | pkg/common/namespace.go:13-19 | a namespace name is its template with project and domain filled in at once |
| Scopes.Request.GenerateAuthorizeCode | auth/authzserver/stateless_token_store.go:175-227 | the code carries `CodeScopes` and an encryption of exactly the kept form parameters; it fails only when an encryption does |
| Scopes.Request.GenerateRefreshToken | auth/authzserver/stateless_token_store.go:237-264 | the token carries `RefreshScopes` |
| Scopes.RehydrateSession | auth/authzserver/stateless_token_store.go:40-84 | scopes as requested and granted, the form decrypted; it fails only for an unknown client or a failing decryption |
| Scopes.GetAuthorizeCodeSession | auth/authzserver/stateless_token_store.go:90-109 | the requested scopes are `DecodedCode`; a token without the marker is refused |
| Scopes.GetRefreshTokenSession | auth/authzserver/stateless_token_store.go:132-147 | requested and granted scopes are `DecodedRefresh` |
| Scopes.CodeRoundTrip | auth/authzserver/stateless_token_store.go:90-109 | for every list of requested scopes decoding a code gives the scopes granted before and the requested ones, without repetition |
| Scopes.RequestedScopesSurvive | auth/authzserver/stateless_token_store.go:90-109 | with nothing granted before, exactly the requested ones without repetition |
| Scopes.CodeScopesAre | auth/authzserver/stateless_token_store.go:175-190 | what a code carries, exactly: no requested scope but "offline" comes into it without the prefix |
| Scopes.RefreshScopesAre | auth/authzserver/stateless_token_store.go:237-264 | what a refresh token carries, exactly: every scope but "offline" and "access_token" with the prefix |
| Scopes.RefreshKeepsScopesIff | auth/authzserver/stateless_token_store.go:237-264 | a refresh keeps the scopes, but for repetition, exactly when none starts with the prefix |
| Scopes.RefreshIsStable | auth/authzserver/stateless_token_store.go:132-147 | unprefixed scopes survive any number of refreshes |
| Scopes.Request.GrantRequestedScopes | auth/authzserver/token.go:53-58 | refines `EndpointGrants` |
| Scopes.TrimKeepsScopesIff | auth/authzserver/token.go:53-58 | trimming, as the endpoint does, keeps the scopes, but for repetition, exactly when none starts with the prefix |
| Scopes.PrefixedScopeIsTrimmed | auth/authzserver/token.go:53-58 | a client that asks for "f.x" is granted "x", at once and after every refresh |
| Scopes.SessionKeepsScopesIff | auth/authzserver/token.go:53-58 | after a code and any number of refreshes, each through the token endpoint, the granted scopes are the requested ones, but for repetition, exactly when none of those starts with the prefix |
| Scopes.FormRoundTrip | auth/authzserver/stateless_token_store.go:65-81 | a sealed and opened form has the kept parameters with their first values |
| Scopes.ExchangeCode | auth/authzserver/stateless_token_store.go:175-227 | issuing a code and presenting it gives back the scopes, and exactly those of the two PKCE parameters (section 4.4 of RFC 7636) that had a value, each with its first |

## Left out

- Two requests that work on the same row at once, and threads inside one handler or one cron job.
- HTTP, OIDC, cookie and gRPC handlers, the OAuth library, token signing, encryption, token lifetimes.
- Request validation other than what is cited: identifiers, size limits, existence of projects.
- Building executions from launch plans: inputs, resource defaults, cluster choice, labels, auth roles, relaunch, recovery.
- Kubernetes calls, three-way patches and the cache of applied templates.
- Custom info of task executions and its JSON merge, which a library does.
- The gauges of active nodes and tasks: a terminal event lowers them whether or not a RUNNING event raised them.
- Which notifications an ended execution sends: only that the step is reached once.
- `GetPKCERequestSession`, which has the same body as `GetAuthorizeCodeSession`.
- Fixed-rate schedules in the crash protocol: they have no fixed set of firing points (`CatchUp.FixedRateIsNotLeast`). The same goes for a cron expression that is a constant delay, such as "@every 1h30m".
- Removing a fixed-rate job from cron: the source keeps no entry id for it, so its cron entry stays.
- Snapshots that cannot be decoded in the crash protocol: `GoCron.RunScheduledExecutor` says what they do to a start.
- The bytes of gob-encoded snapshots: a snapshot that could not be serialised is taken to leave bytes that cannot be decoded.
- Substitution.OrderDoesNotMatter: the condition is sufficient; templates in which values open placeholders may still come out the same.
- Metrics, audit logs, configuration, migrations, listing and pagination.
- CatchUp.GetCatchUpTimes: requires that the loop ends, no more; `CatchUp.FixedRateHasCatchUpIff` says when it does.
- GoCron.CatchUpSingleSchedule: requires the same.
- GoCron.GoCronScheduler.CatchupAll: requires the same of every job it catches up.
- GoCron.RunScheduledExecutor: requires the same of every bootstrapped job; that catch-up is complete at each write is in the contract of `GoCron.SnapshotRound`; the updater, which may change the job store meanwhile, is in SchedulerProtocol.
- Lineage.Managers.CreateNodeExecutionWithEvent: checks that concern no link, such as cluster and timestamp, are in NodeExecution.
- Lineage.Managers.CreateTaskExecution: the same, in TaskExecution.
