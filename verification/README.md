# A verified model of the workflow orchestrator

The orchestrator runs workflows, DAGs of tasks, on a cluster of workers. The project models its control plane (the
workflow engine, the scheduler, the worker registry, the event bus) and the pool inside a worker, and proves what
holds in every state of every run.

## How it is built

Each part has two sides. On one side stand the program's own objects as classes and methods that change state in
place; on the other a specification over values, on which the theorems are proved. A method's contract says exactly
which value the new state is, and the theorems speak about those values.

- `Status`, `Domain`: the two status graphs; tasks, workflows, and the construction of a workflow from a request, with
  the three-colour search for cycles (`Graphs` has the graph theory).
- `WorkflowModel`, `EngineModel`: one workflow, respectively all of them, as values; what each call of the engine
  makes of them, and the invariant that every call keeps.
- `Engine`: the handlers themselves. Every walk over a Go map takes the entries in an arbitrary order. `EffectsModel`,
  `Cascade` and `Phases` are the facts about values behind their loops: jobs queued and events published so far, the
  worklist of a cascading cancellation.
- `Orchestration`: the control plane as a state machine. A handler is one step, since all of them hold the engine's
  lock; the scheduler pops a batch, picks, sends, and hears success or failure in separate steps, so that calls
  interleave. `Outcomes` says what each step makes of every task, field by field, `Results` which result a task has, and
  `History` what the published events tell. `Guarantees` are further theorems over its runs, `DeadWorkers` those about
  what a worker's death takes back and what it does not, `CancelledJobs` those about the jobs of cancelled tasks,
  `Completion` those about which workflows can still succeed, `Scenarios` runs that show what is not guaranteed.
- `Scheduling`, `Selection`, `ReadyQueues`: a tick of the scheduler, the choice of a worker, and the queue as a slice
  that shares its array with the batches popped from it.
- `PoolModel`, `PoolGuarantees`, `WorkerSide`, `PriorityQueues`, `LinkedQueues`: the worker node as a state machine of
  locked steps and the theorems over its runs, the service and pool that take those steps, the retry heap and the
  linked queue.
- `SwitchModel`, `DeadMansSwitch`: failure detection as a state machine, the registry and the retry queue that take
  its steps. `FairTurns` is about whose turn it is and what a check of a silent worker leads to. `Cluster` joins the
  state machine with the control plane: a worker's death reaches the engine only as a verdict of the switch.
- `BusModel`, `EventBus`: the lossy event bus. `BusDelivery` says which events reach whom, and `Subscribers` what a
  subscriber may conclude from the statuses it sees.

`Options` and `Sequences` are small helpers.

## What one might expect, and does not hold

Each of these comes with a case that shows the failure, mostly the end of a run, and with the condition under which
the expectation is met.

- A worker's death does not take back a task whose delivery is under way: the callback then puts the task on the dead
  worker, where it stays, with no job anywhere (`Scenarios.LeftOnTheDead`). From a death of a worker to its next, an
  unfinished task is on the worker if and only if a delivery of it was completed in between
  (`DeadWorkers.OnDeadWorkerIff`); with none under way at the death and none begun later, nothing is on it
  (`DeadWorkers.NothingOnTheDead`).
- A worker may be declared DEAD right after a heartbeat (`SwitchModel.FreshlyHeardYetDead`). That happens if and only
  if in the last 29 seconds a heartbeat or registration came in the middle of a check, between the look at the record
  and the verdict (`SwitchModel.PrematureDeathIff`). Such a worker loses its tasks all the same, and no other recently
  heard worker does (`Cluster.TakenBackIffDeclared`, `Cluster.HastyTakeBackIff`).
- An ALIVE worker need not be watched. A DEAD one that sends a heartbeat is ALIVE again but nothing checks it
  (`SwitchModel.RevivedIsUnwatched`), and neither does anything check one that registers after it was declared DEAD
  and before the loop has dropped its old trigger, because its push is then void
  (`SwitchModel.RegisteredYetUnwatched`, `SwitchModel.VoidRegistration`). A trigger is active if and only if some push
  of it was not followed by a drop or a cancellation (`SwitchModel.WatchedIff`); without one, the worker stays ALIVE
  until it registers again, however silent (`SwitchModel.UnwatchedStaysAlive`).
- The answer that a task was cancelled does not mean that an attempt was stopped. The task may wait for its retry
  (`PoolGuarantees.CancelMissesWaitingTask`); or the attempt may return, and the next one start, after its handle is
  read and before the handle is called (`PoolGuarantees.CancelMissesRetriedTask`). An attempt is stopped if and only
  if one of this very task was running when the handle was read and has not returned since
  (`PoolGuarantees.CancelStopsIff`).
- A dispatch that finds no executor is refused but keeps its key, so that every later dispatch of that task to this
  worker is answered with success and runs nothing (`PoolGuarantees.OrphanIgnoresDispatch`). A key is taken if and
  only if its task is on the node or some dispatch of it found no executor (`PoolGuarantees.KeyTakenIff`).
- Sections 4.2 and 4.3 of `docs/about.md` differ about a workflow with a failed and a cancelled task: finalisation
  makes it FAILED, cancellation makes it CANCELLED. The code follows each in its place, so that a cancelled workflow
  may have failed tasks (`Scenarios.FailedYetCancelled`). `Guarantees.CancelOverrulesFailure` says exactly when the
  two agree.
- Section 6.3 of `docs/about.md` asks to ignore a report of a worker that the task was taken from. The handler never
  learns who reports, and the late report ends the task under its second worker (`Scenarios.LateReportCounts`). A
  report is applied if and only if the task is on some worker and the report is news
  (`EngineModel.ReportActsIffNews`).
- A worker with capacity 0 and no tasks has a load that is no number, and the comparison of workers stops being an
  order. `Selection.ChoiceIsRightIff` says exactly when the choice is right whatever the order of the snapshot, and
  `Selection.BusyWorkerChosen` shows a wrong one.
- A cancelled task may be sent all the same, and then bears the worker's name (`Scenarios.CancelledYetSent`), even in
  a finished workflow. It is sent only if it was READY when it was cancelled, and arrives at most once
  (`CancelledJobs.SentOnlyIfWasReady`); its job is left over if and only if it was READY then and has not arrived
  since (`CancelledJobs.CancelledJobIff`), and its worker's name changes only by that arrival
  (`CancelledJobs.NameAfterCancellation`). A finished workflow of which no job is left stays exactly as it is
  (`CancelledJobs.FinishedWithoutJobsIsUnchanged`).
- A workflow without tasks is never finished by itself: nobody is responsible for it. Every other unfinished workflow
  has a task that somebody is responsible for (`Guarantees.NoWorkflowGetsStuck`), and can still be brought to success
  if and only if nothing of it has failed or been cancelled (`Completion.SuccessIsPossibleIff`).

## Model

| member | source | states |
|---|---|---|
| Outcomes.FinalReportOutcome | infrastructure/control-plane/engine/engine.go:75-112 | in every run, a final report of a task on a worker ends the task with this very report as its result; a failure cancels every unfinished task that depends on it, a success makes READY what waited for it only; every other task and workflow stays as it was |
| Outcomes.RunningReportOutcome | infrastructure/control-plane/engine/engine.go:75-112 | the first report that a task runs marks it RUNNING and changes nothing else |
| Outcomes.CancelTaskOutcome | infrastructure/control-plane/engine/engine.go:219-249 | cancelling an unfinished task cancels it and every unfinished task that depends on it through any chain, and touches no other; a finished one is left alone |
| Outcomes.CancelWorkflowOutcome | infrastructure/control-plane/engine/engine.go:187-215 | cancelling a workflow cancels each of its unfinished tasks, and the workflow unless it has finished |
| Outcomes.DeathOutcome | infrastructure/control-plane/engine/engine.go:258-287 | a worker's death makes READY and unassigns exactly the tasks that are on it |
| Outcomes.DispatchOutcome | infrastructure/control-plane/engine/engine.go:117-129 | the callback names the worker on its task, which becomes DISPATCHED if it was READY; all else stays |
| Outcomes.SubmitOutcome | infrastructure/control-plane/engine/engine.go:62-72 | a submitted workflow is stored as built and RUNNING, with exactly the tasks READY that depend on nothing |
| Outcomes.FinishedByItsTasks | infrastructure/control-plane/engine/engine.go:352-367 | a workflow that finishes otherwise than by its own cancellation has finished tasks only, and is FAILED if one failed, else CANCELLED if one was cancelled, else SUCCEEDED |
| Results.ResultIsTheReport | infrastructure/control-plane/engine/engine.go:88-103 | in every state of every run a task that has succeeded or failed has as its result the report of the one step that ended it, with its status; any other task has none |
| Results.ReportBecomesResult | infrastructure/control-plane/engine/engine.go:89-92 | the step that takes a final report of a task on a worker stores that report |
| Results.OnlyReportsSetResults | infrastructure/control-plane/engine/engine.go:62-287 | no other step changes the result of a task, or whether it has succeeded or failed |
| History.TaskEventsTellHistory | infrastructure/control-plane/engine/engine.go:131-152 | the statuses published of a task are exactly those it has taken, each once, in order |
| History.WorkflowEventsTellHistory | infrastructure/control-plane/engine/engine.go:154-174 | the same for workflows |
| Guarantees.NoWorkflowGetsStuck | infrastructure/control-plane/engine/engine.go:75-391 | in every reachable state an unfinished workflow has a task with exactly one job, or on the worker last named for it, dead or alive, if and only if it has tasks at all |
| Guarantees.VerdictIsRight | infrastructure/control-plane/engine/engine.go:352-367 | a workflow is finished iff all its tasks are, SUCCEEDED iff all succeeded; FAILED and CANCELLED are backed by such a task; in every reachable state |
| Guarantees.FinishedStaysFinished | infrastructure/control-plane/engine/engine.go:62-287 | from any state in which a workflow is finished, nothing of it changes for the rest of the run but the worker name a stale dispatch leaves |
| Guarantees.CancelOverrulesFailure | infrastructure/control-plane/engine/engine.go:187-215 | cancelling an unfinished workflow gives the verdict that finalisation would give iff no task had failed |
| Guarantees.DependenciesAreRespected | infrastructure/control-plane/engine/engine.go:335-391 | a queued, running, succeeded or failed task had all dependencies succeed, an unsuccessful dependency means CANCELLED, RETRYING never occurs |
| Guarantees.DispatchIsRefusedOnlyWhenCancelled | infrastructure/control-plane/scheduler/scheduler.go:135-162 | when the dispatch callback runs its task is READY and becomes DISPATCHED, or is CANCELLED and stays so |
| Guarantees.JobsAreConserved | infrastructure/control-plane/scheduler/scheduler.go:102-133 | over queue, popped batch and call under way, a READY task has exactly one job, a CANCELLED one at most one, any other none |
| Guarantees.JobsDescribeTheirTasks | infrastructure/control-plane/engine/engine.go:393-408 | every job, wherever it is, names a task that exists and bears this task's type |
| Guarantees.DeathTakesBackWhatIsOn | infrastructure/control-plane/engine/engine.go:258-287 | every unfinished task whose last dispatch callback named the worker is READY, unassigned and has exactly one job after the worker's death |
| DeadWorkers.OnDeadWorkerIff | infrastructure/control-plane/engine/engine.go:117-129 | from a worker's death to its next, an unfinished task is on the worker iff a delivery of it to the worker was completed in between |
| DeadWorkers.NothingOnTheDead | infrastructure/control-plane/engine/engine.go:258-287 | with no delivery to the worker under way at its death and none begun since, nothing is on it |
| DeadWorkers.NobodyWaitsForTheDead | infrastructure/control-plane/engine/engine.go:258-287 | if no death overtakes a delivery, an unfinished workflow with tasks has one that is READY with its job, or on a worker chosen again since its last death |
| DeadWorkers.FinishedTaskStays | infrastructure/control-plane/engine/engine.go:75-287 | a finished task stays as it ended, whatever step comes |
| DeadWorkers.PlaceStep | infrastructure/control-plane/engine/engine.go:117-129 | short of the worker's death, a task comes to be on it only by a delivery and leaves it only by finishing |
| Scenarios.LeftOnTheDead | infrastructure/control-plane/scheduler/scheduler.go:135-162 | a run that ends with a task on a dead worker and no job anywhere |
| Scenarios.LateReportCounts | infrastructure/control-plane/engine/engine.go:75-112 | a run in which a task is on its second worker after the first one died, and a report ends it |
| CancelledJobs.CancelledJobIff | infrastructure/control-plane/scheduler/scheduler.go:102-162 | from the step that cancels a task on, one copy of its job exists iff the task was READY then and the job has not arrived since; otherwise none does |
| CancelledJobs.SentOnlyIfWasReady | infrastructure/control-plane/scheduler/scheduler.go:135-162 | a cancelled task is sent, or arrives at a worker, only if it was READY when cancelled, and arrives at most once |
| CancelledJobs.NameAfterCancellation | infrastructure/control-plane/engine/engine.go:117-129 | its worker name changes iff its job arrives after the cancellation, and then it is that of the worker where it arrived |
| CancelledJobs.FinishedWithoutJobsIsUnchanged | infrastructure/control-plane/engine/engine.go:62-287 | a finished workflow of which no job is left stays exactly as it is for the rest of the run |
| CancelledJobs.CancelledStep | infrastructure/control-plane/scheduler/scheduler.go:135-162 | every step keeps a cancelled task, its job and its worker name, but for the job's arrival, which uses the job up and leaves the name |
| Completion.SuccessIsPossibleIff | infrastructure/control-plane/engine/engine.go:75-391 | from every reachable state a workflow with tasks can still be brought to SUCCEEDED iff none of its tasks has failed or been cancelled |
| Completion.BringToSuccess | infrastructure/control-plane/engine/engine.go:75-391 | for such a workflow, the actions that do it: deliver every job, let a task on a worker succeed, and so on |
| Scenarios.CancelledYetSent | infrastructure/control-plane/scheduler/scheduler.go:135-162 | a run in which a task is cancelled while its job is in the scheduler's hands, then sent, and left in its finished workflow with the worker's name on it |
| Scenarios.FailedYetCancelled | infrastructure/control-plane/engine/engine.go:187-215 | a run to a running workflow with a failed task whose cancellation is CANCELLED where finalisation would say FAILED |
| Guarantees.WorkIsBounded | infrastructure/control-plane/engine/engine.go:131-152 | over any run the tasks of a workflow change status at most 4n + 3r times, r being the times a task was taken back |
| Guarantees.TaskWorkIsBounded | infrastructure/control-plane/engine/engine.go:131-152 | the same for one task, with the rank it has reached |
| Guarantees.OnlyDeathTakesBack | infrastructure/control-plane/engine/engine.go:258-287 | a task goes from a worker back to READY only by the death of the worker it was last sent to |
| Orchestration.StepKeepsInvariant | infrastructure/control-plane/engine/engine.go:62-408 | every step of engine or scheduler keeps the invariant of workflows, jobs, assignments and published statuses |
| Orchestration.EveryReachableStateIsGood | infrastructure/control-plane/engine/engine.go:62-408 | that invariant holds in every state of every run |
| Orchestration.CallKeepsTokens | infrastructure/control-plane/engine/engine.go:370-408 | the jobs a call pushes are exactly those its newly READY tasks lack |
| Orchestration.DispatchKeepsTokens | infrastructure/control-plane/engine/engine.go:117-129 | the callback uses up the job of a READY or CANCELLED task |
| Orchestration.CallKeepsAssignment | infrastructure/control-plane/engine/engine.go:62-287 | AssignedTo stays empty while PENDING or READY and names the last dispatch target while on a worker |
| Orchestration.CallKeepsLog | infrastructure/control-plane/engine/engine.go:154-174 | published workflow statuses of one workflow rise strictly, never run ahead, and include the present one |
| Orchestration.SchedulerConservesTokens | infrastructure/control-plane/scheduler/scheduler.go:102-133 | popping, sending and queueing again neither lose nor double a job |
| EngineModel.CallKeepsInvariant | infrastructure/control-plane/engine/engine.go:62-287 | every call keeps the invariant of every workflow |
| EngineModel.CallMoves | infrastructure/control-plane/engine/engine.go:62-287 | every call but the dispatch callback moves each task and workflow at most once along its graph |
| EngineModel.FinishedIsFrozen | infrastructure/control-plane/engine/engine.go:62-287 | no call changes a finished workflow, apart from a stale worker name |
| EngineModel.ReportActsIffNews | infrastructure/control-plane/engine/engine.go:75-112 | a report changes the engine iff its task is on a worker and the report is final, or RUNNING for a task just dispatched; late, duplicate and stale reports change nothing at all |
| WorkflowModel.SomeTaskIsLive | infrastructure/control-plane/engine/engine.go:335-391 | consistent, promoted tasks that are not all finished include a READY, DISPATCHED or RUNNING one |
| WorkflowModel.NoStuckWorkflow | infrastructure/control-plane/engine/engine.go:335-391 | an unfinished workflow has a live task iff it has tasks |
| WorkflowModel.SubmitEstablishes | infrastructure/control-plane/engine/engine.go:62-72 | submitting a fresh workflow establishes its invariant |
| WorkflowModel.ReportKeepsInvariant | infrastructure/control-plane/engine/engine.go:75-112 | a report keeps it |
| WorkflowModel.CancelTaskKeepsInvariant | infrastructure/control-plane/engine/engine.go:219-249 | cancelling a task keeps it |
| WorkflowModel.CancelWorkflowKeepsInvariant | infrastructure/control-plane/engine/engine.go:187-215 | cancelling a workflow keeps it and finishes the workflow and all its tasks |
| WorkflowModel.WorkerDeadKeepsInvariant | infrastructure/control-plane/engine/engine.go:258-287 | a worker's death keeps it |
| WorkflowModel.DispatchKeepsInvariant | infrastructure/control-plane/engine/engine.go:117-129 | the dispatch callback keeps it |
| WorkflowModel.ReportIsNews | infrastructure/control-plane/engine/engine.go:89-109 | which reports take effect, and that the others leave the workflow as it is |
| WorkflowModel.CascadeIsExact | infrastructure/control-plane/engine/engine.go:294-332 | the cascade changes exactly the unfinished transitive dependents, all of which were PENDING |
| WorkflowModel.KillKeepsConsistent | infrastructure/control-plane/engine/engine.go:294-332 | after a failure or cancellation with its cascade, an unsuccessful dependency again means CANCELLED |
| WorkflowModel.MarkReadyKeepsConsistent | infrastructure/control-plane/engine/engine.go:370-391 | one promotion leaves no PENDING task with all dependencies succeeded |
| WorkflowModel.ReportMoves | infrastructure/control-plane/engine/engine.go:75-112 | a report moves every task at most once along the graph |
| Engine.WorkflowEngine.SubmitWorkflow | infrastructure/control-plane/engine/engine.go:62-72 | stores the promoted workflow, replacing one with the same ID, with one job and event for each start; with a new ID this is the model's call |
| Engine.WorkflowEngine.OnTaskResponse | infrastructure/control-plane/engine/engine.go:75-112 | refused iff workflow or task is unknown; otherwise the model's call, whose outcome `Outcomes.FinalReportOutcome` and `Outcomes.RunningReportOutcome` spell out |
| Engine.WorkflowEngine.OnTaskDispatched | infrastructure/control-plane/engine/engine.go:117-129 | for any task object: named, moved and announced where the graph has the edge; the model's call if the engine has this object, and otherwise, after a resubmission, no change to the engine's workflows |
| Engine.WorkflowEngine.UpdateTaskStatus | infrastructure/control-plane/engine/engine.go:131-152 | changes and announces a status iff the graph has the edge |
| Engine.WorkflowEngine.UpdateWorkflowStatus | infrastructure/control-plane/engine/engine.go:154-174 | the same for workflows |
| Engine.WorkflowEngine.CancelWorkflow | infrastructure/control-plane/engine/engine.go:187-215 | the model's call; the batches split the tasks that were on workers, each once, under the worker it was assigned to |
| Engine.WorkflowEngine.CancelTask | infrastructure/control-plane/engine/engine.go:219-249 | unknown and finished tasks are refused; otherwise the model's call, and in a reachable state only the task's own worker, if any, hears of it |
| Engine.WorkflowEngine.ReassignDeadWorkerTasks | infrastructure/control-plane/engine/engine.go:258-287 | the model's call, over all workflows in any order |
| Engine.WorkflowEngine.CancelDownstream | infrastructure/control-plane/engine/engine.go:294-332 | the worklist cancels exactly what depends on the root through unfinished tasks, in any order, announces each once, lists those on workers, and terminates |
| Engine.WorkflowEngine.CancelDependents | infrastructure/control-plane/engine/engine.go:304-330 | one walk cancels and returns the unfinished direct dependents |
| Engine.WorkflowEngine.RecomputeReadyTasks | infrastructure/control-plane/engine/engine.go:335-347 | lists each task that waits and has all dependencies succeeded, once |
| Engine.WorkflowEngine.AllDepsSucceeded | common/domain/task.go:36-45 | true iff every dependency exists and succeeded |
| Engine.WorkflowEngine.FinalizeWorkflowIfDone | infrastructure/control-plane/engine/engine.go:352-367 | gives an unfinished workflow whose tasks are finished its verdict, failure before cancellation |
| Engine.WorkflowEngine.MarkReadyTasks | infrastructure/control-plane/engine/engine.go:370-391 | promotes exactly the ready tasks, starts the workflow, pushes one job and publishes one event for each |
| Engine.WorkflowEngine.PushJob | infrastructure/control-plane/engine/engine.go:393-408 | appends the task's job |
| Engine.WorkflowEngine.FindTask | infrastructure/control-plane/engine/engine.go:413-421 | some workflow that has the task, or none has it |
| Engine.WorkflowEngine.NotifyWorkersOfCancellation | infrastructure/control-plane/engine/engine.go:426-449 | one batch for each worker referred to, with exactly its tasks, in the order of the references |
| Engine.WorkflowEngine.HandleReport | infrastructure/control-plane/engine/engine.go:88-109 | on one workflow: applies the report, stores it, promotes, finalises, with the side effects these changes call for and no others |
| Engine.WorkflowEngine.HandleCancelTask | infrastructure/control-plane/engine/engine.go:230-242 | on one workflow: cancels the task and its dependents, finalises |
| Engine.WorkflowEngine.HandleCancelWorkflow | infrastructure/control-plane/engine/engine.go:196-210 | on one workflow: cancels every unfinished task, then the workflow |
| Engine.WorkflowEngine.HandleWorkerDead | infrastructure/control-plane/engine/engine.go:263-285 | on one workflow: takes back exactly the tasks on the worker |
| Phases.GroupingKeepsTasks | infrastructure/control-plane/engine/engine.go:431-434 | grouping references by worker keeps every task, once |
| Phases.OwnRefsOnly | infrastructure/control-plane/engine/engine.go:235-241 | in a reachable state nothing downstream of an unfinished task is on a worker |
| Cascade.SearchStep | infrastructure/control-plane/engine/engine.go:299-330 | one turn of the worklist keeps: what was found is downstream, what depends on a popped task was found |
| Cascade.SearchDone | infrastructure/control-plane/engine/engine.go:299-330 | an empty worklist means everything downstream was found |
| Cascade.SearchShrinks | infrastructure/control-plane/engine/engine.go:299-330 | unfinished tasks plus worklist length falls by one with every pop |
| Status.TaskEdgesInWords | common/domain/task_status.go:27-57 | an unfinished task may be cancelled, move one status on until it runs, and once on a worker succeed, fail or become READY again; besides, a failed one may be retried |
| Status.WorkflowEdgesInWords | common/domain/workflow_status.go:16-26 | an unfinished workflow may be cancelled, a waiting one start, a running one succeed or fail |
| Domain.Task.UpdateStatus | common/domain/task.go:47-55 | moves along an edge or reports why not |
| Domain.Workflow.UpdateStatus | common/domain/workflow.go:86-94 | the same for workflows |
| Domain.Workflow.AllTasksFinished | common/domain/workflow.go:102-110 | true iff every task is finished |
| Domain.Workflow.HasTaskWithStatus | common/domain/workflow.go:113-132 | true iff some task has the status |
| Domain.NewWorkflow | common/domain/workflow.go:21-80 | a workflow is built iff names and IDs are distinct, every dependency resolves and the graph of names has no cycle; a refusal names a right cause; given IDs are kept and missing ones generated; edges over IDs are those over names; given times are kept and missing ones are 30 s and 200 ms |
| Domain.AcceptableInWords | common/domain/workflow.go:25-58 | what is acceptable, in terms of the entries themselves: no two share a name or an ID, every dependency names an entry, no chain of dependencies leads back to its beginning |
| Domain.IndexTasks | common/domain/workflow.go:25-42 | indexes by name and ID iff both are distinct |
| Domain.ResolveDependencies | common/domain/workflow.go:136-153 | replaces names by IDs in place iff all resolve |
| Domain.ValidateTasksCycle | common/domain/workflow.go:155-163 | finds nothing iff the graph is acyclic |
| Domain.SearchFrom | common/domain/workflow.go:157-160 | a fresh search fails iff a cycle can be reached from its start |
| Domain.HasCycle | common/domain/workflow.go:165-182 | fails only if a cycle can be reached; otherwise paints its start black and leaves no gray behind; terminates as white nodes run out |
| Domain.StampTasks | common/domain/workflow.go:65-77 | ties tasks to the workflow, keeps given times and fills in 30 s and 200 ms for missing ones |
| Domain.TranslationKeepsCycles | common/domain/workflow.go:44-53 | the graph over IDs has a cycle iff the graph over names has one |
| Domain.RankedReachNoCycle | common/domain/workflow.go:165-182 | nodes finished in order reach no cycle |
| Domain.BuiltIsFresh | infrastructure/control-plane/server/grpc_orchestration_server.go:25-48 | a built workflow is what the engine expects to be handed |
| Graphs.MinimalElement | common/domain/workflow.go:155-182 | in an acyclic graph every non-empty set of nodes has one with no dependency in the set |
| ReadyQueues.ReadyQueue.Push | infrastructure/control-plane/scheduler/queue.go:16-21 | appends, in place or in a bigger array, and overwrites no popped batch |
| ReadyQueues.ReadyQueue.PopBatch | infrastructure/control-plane/scheduler/queue.go:23-35 | cuts off the first jobs, sharing the array |
| Scheduling.Scheduler.AssignOnce | infrastructure/control-plane/scheduler/scheduler.go:102-133 | a tick over the real slice: at most 50 jobs are popped and each has its turn, with a right choice among the ALIVE workers; the deliveries are exactly those of the turns that found a worker and whose call succeeded, in order, each to a worker that is ALIVE and lists the job's type; every worker's count grows by its deliveries |
| Scheduling.QueueAfterTick | infrastructure/control-plane/scheduler/scheduler.go:102-133 | the queue is the unpopped rest, then the failed jobs in batch order interleaved with what the engine pushed |
| Scheduling.UndisturbedTick | infrastructure/control-plane/scheduler/scheduler.go:102-133 | without pushes, the unpopped rest followed by exactly the failed jobs |
| Scheduling.TickConservesJobs | infrastructure/control-plane/scheduler/scheduler.go:102-133 | jobs queued, left and sent are those there were and those pushed |
| Scheduling.TurnIsModelled | infrastructure/control-plane/scheduler/scheduler.go:110-132 | a turn in the state machine, with engine calls before and during the sending, leaves queue and batch as the turn over values does |
| Scheduling.TickIsModelled | infrastructure/control-plane/scheduler/scheduler.go:102-133 | a whole tick of the state machine, pop and all turns with engine calls in between, ends with the queue that the real tick leaves |
| Scheduling.TurnIsPossible | infrastructure/control-plane/scheduler/scheduler.go:110-132 | whatever the engine has pushed, the state machine can take each kind of turn |
| Selection.SelectWorker | infrastructure/control-plane/scheduler/scheduler.go:68-100 | errs iff no worker lists the type; otherwise chooses one that lists it and that no other worker listing it beats, unless one of them has neither capacity nor tasks |
| Selection.SortInPlace | infrastructure/control-plane/scheduler/scheduler.go:85-97 | the array becomes its sorted form |
| Selection.SortKeeps | infrastructure/control-plane/scheduler/scheduler.go:85-97 | sorting permutes |
| Selection.SortIsAscending | infrastructure/control-plane/scheduler/scheduler.go:85-97 | sorting by a strict weak order sorts |
| Selection.OrderedIffRated | infrastructure/control-plane/scheduler/scheduler.go:85-97 | the comparison is a strict weak order iff all workers have a load or none beats another |
| Selection.AnySortIsRight | infrastructure/control-plane/scheduler/scheduler.go:85-99 | however it is sorted, if neighbours are in order the first is a worker that none beats, given that all have a load or none beats another |
| Selection.NeighboursAscend | infrastructure/control-plane/scheduler/scheduler.go:85-97 | by a strict weak order, neighbours in order put the whole arrangement in order |
| Selection.ChoiceIsRightIff | infrastructure/control-plane/scheduler/scheduler.go:85-99 | sorted by insertion, the choice is right for every order of the snapshot iff the same condition holds |
| Selection.BusyWorkerChosen | infrastructure/control-plane/scheduler/scheduler.go:85-99 | a case in which a busy worker is chosen over an idle one |
| Selection.BetterByCrossProducts | infrastructure/control-plane/scheduler/scheduler.go:89-96 | for positive capacities the comparison is that of exact ratios, larger capacity first among equals |
| Selection.NoCapacity | infrastructure/control-plane/scheduler/scheduler.go:89-96 | a worker without capacity comes after every other if it has tasks, and otherwise neither beats nor is beaten |
| Selection.CandidatesAreCapable | infrastructure/control-plane/scheduler/scheduler.go:75-79 | the candidates are the workers that list the type |
| PoolGuarantees.NeverTwoCopies | infrastructure/worker/service/service.go:67-123 | over all interleavings dispatches and copies of a task number at most one, and then its key is taken |
| PoolModel.StepIsAccounted | pkg/worker_pool/worker_pool.go:97-200 | a step adds a task only if its key is free and removes only one whose key it frees or that found no executor |
| PoolModel.StepKeepsUnique | infrastructure/worker/service/unique.go:23-61 | a key is taken iff its task is present or was orphaned, before and after every step |
| PoolModel.StepKeepsCancellable | infrastructure/worker/service/unique.go:52-61 | the key of a running attempt holds that attempt's handle |
| PoolModel.StepKeepsOnTime | pkg/worker_pool/worker_pool.go:157-200 | whatever interleaves with the retry loop, only due copies leave the heap |
| PoolGuarantees.EveryReachableNodeIsGood | pkg/worker_pool/worker_pool.go:97-200 | these invariants hold in every state of every run |
| PoolGuarantees.NoAttemptIsEarly | pkg/worker_pool/worker_pool.go:157-200 | no attempt is under way before its copy is due |
| PoolGuarantees.KeyTakenIff | infrastructure/worker/service/service.go:74-86 | a key is taken iff its task is on the node or some dispatch of it found no executor, and in that case there is no copy behind it |
| PoolGuarantees.OrphanIgnoresDispatch | infrastructure/worker/service/service.go:74-86 | a run after which a dispatch of the task is accepted and changes nothing |
| PoolGuarantees.CancelStopsIff | infrastructure/worker/service/unique.go:65-81 | the handle that a cancellation calls belongs to a running attempt iff one of this task was running when the handle was read and has not returned since, and never to another task's |
| PoolGuarantees.ReadThenCall | infrastructure/worker/service/unique.go:70-78 | the same at any time between read and call, for a given read |
| PoolGuarantees.NoHandleNoAttempt | infrastructure/worker/service/unique.go:74-76 | without a handle, no attempt of the task is running |
| PoolGuarantees.CancelStopsRunning | infrastructure/worker/service/unique.go:65-81 | a cancellation without interruption, from any reachable state, is a read and a call, and stops the task's running attempt |
| PoolGuarantees.CancelMissesRetriedTask | infrastructure/worker/service/unique.go:70-78 | a run in which the answer is yes, the attempt whose handle was read has returned, and the task's next attempt runs on |
| PoolModel.StepKeepsReads | infrastructure/worker/service/unique.go:70-78 | a handle read belongs to no attempt of another task, before and after every step |
| PoolModel.HandleStep | pkg/worker_pool/worker_pool.go:111-135 | an attempt with an old handle runs until it returns, and never again |
| PoolModel.StepKeepsHandles | infrastructure/worker/service/unique.go:52-61 | the handles filed are pairwise distinct and older than the next one, before and after every step |
| PoolGuarantees.DispatchIsModelled | infrastructure/worker/service/service.go:67-123 | a dispatch without interruption, in each of its cases, is a run of the state machine |
| PoolGuarantees.AttemptIsModelled | pkg/worker_pool/worker_pool.go:111-135 | so is an attempt without interruption |
| PoolGuarantees.CancelMissesWaitingTask | infrastructure/worker/service/unique.go:65-81 | a run in which the answer is yes while the task waits for its retry |
| WorkerSide.Unique.Add | infrastructure/worker/service/unique.go:23-37 | takes a free key |
| WorkerSide.Unique.Remove | infrastructure/worker/service/unique.go:39-48 | frees a key |
| WorkerSide.Unique.SetCancel | infrastructure/worker/service/unique.go:52-61 | files a handle |
| WorkerSide.Unique.Cancel | infrastructure/worker/service/unique.go:65-81 | the handle called, if any |
| WorkerSide.WorkerService.DispatchTask | infrastructure/worker/service/service.go:67-123 | answer, keys and pool after a dispatch, in each of its five cases |
| WorkerSide.WorkerService.CancelTasks | infrastructure/worker/service/service.go:128-135 | answers yes exactly where a handle was called |
| WorkerSide.WorkerService.RunAttempt | infrastructure/worker/service/tracked_task.go:23-36 | success frees the key, failure keeps it and files the copy for a retry |
| WorkerSide.WorkerPool.TrySubmit | pkg/worker_pool/worker_pool.go:97-104 | a new copy in the channel unless it is full |
| WorkerSide.WorkerPool.MoveToRetry | pkg/worker_pool/worker_pool.go:193-200 | the copy in the heap with its due time |
| WorkerSide.WorkerPool.RetryDue | pkg/worker_pool/worker_pool.go:167-180 | the due time of the top, or nothing is due |
| WorkerSide.WorkerPool.RetryRelease | pkg/worker_pool/worker_pool.go:182-185 | a copy due first leaves the heap |
| WorkerSide.WorkerPool.QueueReleased | pkg/worker_pool/worker_pool.go:187 | the copy joins the linked queue |
| WorkerSide.WorkerPool.NextReleased | pkg/worker_pool/worker_pool.go:145-150 | the oldest copy leaves the linked queue |
| WorkerSide.WorkerPool.TrySend | pkg/worker_pool/worker_pool.go:152 | the copy enters the channel unless it is full |
| PriorityQueues.PriorityQueue.Swap | pkg/worker_pool/priority_queue.go:36-40 | exchanges two items and their positions |
| PriorityQueues.PriorityQueue.Push | pkg/worker_pool/priority_queue.go:42-50 | appends an item that knows its position |
| PriorityQueues.PriorityQueue.Pop | pkg/worker_pool/priority_queue.go:52-60 | removes the last item and clears its position |
| PriorityQueues.PriorityQueue.Up | pkg/worker_pool/priority_queue.go:79-86 | restores the heap from the bottom, keeping the items |
| PriorityQueues.PriorityQueue.Down | pkg/worker_pool/priority_queue.go:88-101 | restores the heap from the top, keeping the items |
| PriorityQueues.PriorityQueue.Enqueue | pkg/worker_pool/priority_queue.go:79-86 | keeps heap order and positions and adds the one item |
| PriorityQueues.PriorityQueue.Dequeue | pkg/worker_pool/priority_queue.go:88-101 | keeps heap order and positions and removes one item, due no later than any |
| PriorityQueues.PriorityQueue.Top | pkg/worker_pool/priority_queue.go:62-72 | an item due no later than any |
| PriorityQueues.TopIsFirst | pkg/worker_pool/priority_queue.go:32-34 | the top of a heap is due no later than any entry |
| LinkedQueues.LinkedQueue.Queue | pkg/worker_pool/linked_queue.go:25-42 | appends to the sequence of values |
| LinkedQueues.LinkedQueue.Dequeue | pkg/worker_pool/linked_queue.go:44-65 | removes its head |
| FairTurns.TakesItsTurn | pkg/retry_queue/retry_queue.go:69-103 | the trigger at place q of the line is the one the loop takes after q others, and if still active it is then in its hands with its deadline |
| FairTurns.EverybodyBetween | pkg/retry_queue/retry_queue.go:69-103 | if a worker has no second trigger waiting, then between two turns of it the loop takes every trigger that was waiting at the first |
| FairTurns.PutBackLast | pkg/retry_queue/retry_queue.go:97-102 | a trigger put back stands behind all that are waiting |
| FairTurns.SilenceIsNoticed | infrastructure/control-plane/orchestration/registry.go:149-173 | a check that finds a worker silent for more than 15 s, and during which it stays silent, makes it SUSPECT if it was ALIVE and DEAD if it was SUSPECT |
| FairTurns.PresenceIsNoticed | infrastructure/control-plane/orchestration/registry.go:149-173 | a check that finds a worker heard from in the last 15 s makes it ALIVE |
| FairTurns.HeardOutcome | infrastructure/control-plane/orchestration/registry.go:43-103 | a registration or heartbeat is what was last heard of the worker, which is ALIVE; nobody else is touched |
| FairTurns.StrangerIsIgnored | infrastructure/control-plane/orchestration/registry.go:87-94 | a heartbeat of a worker that never registered changes nothing |
| FairTurns.PushOutcome | pkg/retry_queue/retry_queue.go:30-39 | a push arms the trigger 15 s ahead, in whole seconds, at the end of the line, unless it is armed |
| SwitchModel.PrematureDeathIff | infrastructure/control-plane/orchestration/registry.go:149-198 | a worker is declared DEAD with a heartbeat at most 29 s old iff in these 29 s a heartbeat or registration of it came between a look and the verdict it led to |
| SwitchModel.DeadOnlyAfterSilence | infrastructure/control-plane/orchestration/registry.go:149-198 | where none ever comes there, a worker becomes DEAD only with a last heartbeat more than 29 s old |
| SwitchModel.FreshlyHeardYetDead | infrastructure/control-plane/orchestration/registry.go:158-170 | a run that makes the exception necessary |
| Cluster.TakenBackIffDeclared | cmd/control-plane/main.go:47-50 | in every run of control plane and switch together, a task on a worker is queued again iff the switch declares that very worker DEAD |
| Cluster.HastyTakeBackIff | infrastructure/control-plane/orchestration/registry.go:149-198 | a worker that loses a task was heard from in the last 29 s iff in these 29 s a heartbeat or registration of it came in the middle of a check |
| Cluster.OnlyTheSilentLoseTasks | infrastructure/control-plane/orchestration/registry.go:149-198 | where none ever comes there, a worker loses a task only after more than 29 s of silence |
| Cluster.ControlIsRun | infrastructure/control-plane/orchestration/registry.go:175-198 | the control plane's side of such a run is a run of the control plane |
| Cluster.MonitorIsRun | infrastructure/control-plane/orchestration/registry.go:149-198 | the switch's side is a run of the switch |
| SwitchModel.StepKeepsStrikes | infrastructure/control-plane/orchestration/registry.go:149-173 | a SUSPECT worker was silent for 15 s when found so, and its next check waits for a deadline 15 s after that, in whole seconds |
| SwitchModel.StepKeepsArmed | pkg/retry_queue/retry_queue.go:57-105 | every active key keeps a trigger, across registrations, cancellations and the loop's steps |
| SwitchModel.NoTriggerIsLost | pkg/retry_queue/retry_queue.go:57-105 | the same in every state of every run |
| SwitchModel.EveryReachableSwitchIsGood | infrastructure/control-plane/orchestration/registry.go:43-198 | all invariants of the switch, in every state of every run |
| SwitchModel.UnwatchedStaysAlive | infrastructure/control-plane/orchestration/registry.go:87-103 | a worker without trigger stays ALIVE until it registers again, however silent |
| SwitchModel.RevivedIsUnwatched | infrastructure/control-plane/orchestration/registry.go:96-100 | a run that ends with such a worker, revived by a heartbeat |
| SwitchModel.RegisteredYetUnwatched | infrastructure/control-plane/orchestration/registry.go:43-79 | a run that ends with such a worker, registered a moment ago |
| SwitchModel.WatchedIff | pkg/retry_queue/retry_queue.go:30-45 | a worker's trigger is active iff some push of it was not followed by a drop or a cancellation |
| SwitchModel.VoidRegistration | pkg/retry_queue/retry_queue.go:91-102 | a push while the loop is bound to drop the key's trigger leaves no trigger once it has done so |
| SwitchModel.RegistrationIsModelled | infrastructure/control-plane/orchestration/registry.go:43-79 | a registration without interruption is a run of the state machine |
| SwitchModel.TurnIsModelled | pkg/retry_queue/retry_queue.go:69-103 | so is a turn of the loop without interruption |
| SwitchModel.CheckIsModelled | infrastructure/control-plane/orchestration/registry.go:149-173 | the steps of a check, uninterrupted, leave unknown and DEAD workers alone for good, and make others ALIVE, SUSPECT or DEAD by 15 s of silence |
| SwitchModel.TurnIsRight | pkg/retry_queue/retry_queue.go:69-103 | a turn takes the first trigger and drops it if cancelled, puts it at the end as it is if not due, and otherwise checks the worker and puts it at the end with a new deadline or cancels its key |
| DeadMansSwitch.RetryQueue.Push | pkg/retry_queue/retry_queue.go:30-39 | adds a trigger at the end of the line, with its deadline in whole seconds, iff its key has none |
| DeadMansSwitch.RetryQueue.Cancel | pkg/retry_queue/retry_queue.go:41-45 | deactivates a key |
| DeadMansSwitch.RetryQueue.TakeNext | pkg/retry_queue/retry_queue.go:74-85 | the first trigger of the line, with its deadline if still active |
| DeadMansSwitch.RetryQueue.PutBack | pkg/retry_queue/retry_queue.go:97-102 | puts the trigger at the end of the line with its deadline iff still active |
| DeadMansSwitch.WorkerRegistry.Register | infrastructure/control-plane/orchestration/registry.go:43-79 | address, capabilities and capacity as given, heard from just now and ALIVE; a known worker keeps its count of tasks, a new one has none; other records are untouched; what the switch sees is its own step; a trigger if none is active |
| DeadMansSwitch.WorkerRegistry.Heartbeat | infrastructure/control-plane/orchestration/registry.go:87-103 | a known worker is ALIVE and just heard from; no trigger is set |
| DeadMansSwitch.WorkerRegistry.AliveWorkers | infrastructure/control-plane/orchestration/registry.go:105-119 | exactly the ALIVE workers, each once, with their own capabilities, capacity and count of tasks |
| DeadMansSwitch.WorkerRegistry.IncrementRunning | infrastructure/control-plane/orchestration/registry.go:121-131 | counts a task for a known worker |
| DeadMansSwitch.WorkerRegistry.CheckHeartbeat | infrastructure/control-plane/orchestration/registry.go:149-173 | the status that 15 s of silence or presence call for, and whether to check again; nothing else of any record changes; hooks run iff the worker just died |
| DeadMansSwitch.WorkerRegistry.UpdateWorkerStatus | infrastructure/control-plane/orchestration/registry.go:175-198 | sets a known worker's status; hooks run iff it is DEAD |
| DeadMansSwitch.WorkerRegistry.Turn | pkg/retry_queue/retry_queue.go:69-103 | the line, the deadlines and the workers' presence after one turn of the loop, in each of its cases |
| BusModel.HandledInOrder | pkg/event_bus/bus.go:112-149 | every subscriber handles published events in order, none twice; listed IDs are distinct |
| BusModel.StepKeepsSound | pkg/event_bus/bus.go:83-149 | what a subscriber has and may still be given stays in order, across every step |
| BusModel.EveryReachableBusIsGood | pkg/event_bus/bus.go:37-149 | the invariants hold in every state of every run |
| BusModel.DispatchIsModelled | pkg/event_bus/bus.go:112-134 | a turn of the dispatcher is a run of the state machine's steps |
| BusDelivery.ReceivedExactly | pkg/event_bus/bus.go:112-149 | from its subscription on, until it is replaced or unsubscribed, a subscriber has been given exactly the events it was served while its queue held fewer than 128, in order, handled or still queued |
| BusDelivery.ServedIsKept | pkg/event_bus/bus.go:124-129 | an event served to a queue of fewer than 128 is its last, and stays among what the subscriber was given for the rest of the run; a full queue keeps what it has |
| BusDelivery.TurnServesAll | pkg/event_bus/bus.go:120-132 | between a lock of the dispatcher and the next unlock every subscriber on the bus is served the event once |
| BusDelivery.ChannelLosesNothing | pkg/event_bus/bus.go:83-120 | the dispatcher takes exactly the events that the channel had room for while the bus was running, in order; the rest of them are in the channel |
| EventBus.Bus.Subscribe | pkg/event_bus/bus.go:37-64 | the state machine's step: the first subscriber of the same ID leaves the list, and a new one with nothing queued joins it; refused iff stopped |
| EventBus.Bus.Unsubscribe | pkg/event_bus/bus.go:66-81 | the state machine's step: the first subscriber of this ID leaves the list, which otherwise keeps its order |
| EventBus.Bus.Publish | pkg/event_bus/bus.go:83-95 | the state machine's step: the event is the last in the channel unless the bus is stopped or the channel full |
| EventBus.Bus.Shutdown | pkg/event_bus/bus.go:97-110 | the state machine's step: the bus is stopped |
| EventBus.Bus.Dispatch | pkg/event_bus/bus.go:112-134 | takes the first event off the channel; it is the last of every queue that held fewer than 128, and full queues keep what they have |
| Subscribers.SeenStatusesRise | pkg/event_bus/bus.go:83-149 | a subscriber sees the statuses of a workflow in strictly rising rank, a final one last |
| Subscribers.SeenVerdictIsFinal | infrastructure/control-plane/engine/engine.go:154-174 | a final status a subscriber has seen is the workflow's for the rest of the run |

## Left out

- gRPC, protobuf, connections, configuration, logging, metrics and the executors: a call to a worker either succeeds
  or fails, and so does an attempt.
- Clocks, tickers and generated IDs are parameters: a clock that never goes back, workflow IDs that are new.
- Raft, persistence, tenants and the API gateway, which `docs/about.md` describes and the code does not have.
- Names, tenants, payloads, creation times, Attempt and MaxRetries, which no modelled code reads.
- Mutexes: a locked section is one step. That a hook, which runs under the registry's lock, could wait for that
  lock is not modelled. Stopping the pool or the retry loop is not either.
- The engine's own queue is a sequence; that a slice behaves like one is `ReadyQueues`. A job's callback finds its
  task by workflow and task ID, where the program's closure keeps a pointer to it; workflow IDs are new in every run,
  so the two find the same, and `Engine.WorkflowEngine.OnTaskDispatched` has the pointer.
- Cluster.Next: a verdict and the hook it runs are one step, since the registry's lock is held over both; calls of the
  engine that slip in between are taken as before it.
- The inner loop over a task's dependencies in the cascade is a membership test.
- Floating-point rounding in the choice of a worker: loads are exact ratios, infinities and not-a-number.
- `sort.Slice` is insertion sort, and `container/heap` its documented sift-up and sift-down, over the program's own
  comparison and exchange; their sources are not part of this model. Ties come in no particular order.
- Heartbeats that change a worker's count of running tasks during a tick of the scheduler.
- Nil receivers of the key set, the heartbeat loop of the worker, `PriorityQueue.Update`, `ActiveKeys` and the length
  queries.
- Orchestration.Next: submits workflows under new IDs only, because the server generates them; what the code does with
  an ID in use is in the contract of `Engine.WorkflowEngine.SubmitWorkflow`.
- Engine.WorkflowEngine.CancelTask: the claim about who hears of it is made for states that a run can reach.
- DeadMansSwitch.WorkerRegistry.CheckHeartbeat: describes a check without interruption; the state machine has it step
  by step, and `SwitchModel.CheckIsModelled` joins the two.
- DeadMansSwitch.WorkerRegistry.Turn: describes a turn without interruption, likewise, joined by
  `SwitchModel.TurnIsModelled`.
- DeadMansSwitch.WorkerRegistry.Register: describes a registration without interruption, likewise, joined by
  `SwitchModel.RegistrationIsModelled`.
- WorkerSide.WorkerService.DispatchTask: describes a dispatch without interruption; the state machine has it step by
  step, and `PoolGuarantees.DispatchIsModelled` joins the two.
- WorkerSide.WorkerService.CancelTasks: describes a cancellation without interruption; the state machine has it as a
  read and a call, and `PoolGuarantees.CancelStopsRunning` joins the two.
- EventBus.Bus.Dispatch: describes a turn of the dispatcher without interruption, while handlers may run meanwhile;
  the state machine has it step by step, and `BusModel.DispatchIsModelled` joins the two.
- WorkerSide.WorkerService.RunAttempt: describes an attempt without interruption, likewise, joined by
  `PoolGuarantees.AttemptIsModelled`.
- Selection.ChoiceIsRightIff: that the choice fails where the condition fails is shown for insertion sort, which
  `sort.Slice` uses up to twelve entries; `Selection.AnySortIsRight` has the other half for every sort.

