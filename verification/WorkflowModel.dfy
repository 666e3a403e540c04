/** One workflow as a value, what the engine's handlers make of it, and the invariant they keep. */
module WorkflowModel {
  import opened Options
  import opened Status
  import opened Graphs

  datatype TaskResult = TaskResult(status: TaskStatus, exitCode: int, stdout: string, stderr: string, error: string,
                                   duration: int)

  datatype TaskState = TaskState(
    dependsOn: seq<string>,
    taskType: string,
    status: TaskStatus,
    assignedTo: string,
    result: Option<TaskResult>)

  type Tasks = map<string, TaskState>

  datatype WorkflowState = WorkflowState(tasks: Tasks, status: WorkflowStatus)

  function Edges(tasks: Tasks): Graph {
    map id | id in tasks :: tasks[id].dependsOn
  }

  // ---------------------------------------------------------------- handlers

  /** Every dependency exists and has succeeded. */
  predicate AllDepsSucceeded(t: TaskState, tasks: Tasks) {
    forall d | d in t.dependsOn :: d in tasks && tasks[d].status == TaskSucceeded
  }

  /** The tasks that one recomputation finds ready to run. */
  function ReadySet(tasks: Tasks): set<string> {
    set id | id in tasks && (tasks[id].status.TaskPending? || tasks[id].status.TaskRetrying?)
        && AllDepsSucceeded(tasks[id], tasks)
  }

  /** Moves the tasks `ids` to `status`, each where the graph lets it go there. */
  function SetStatus(tasks: Tasks, ids: set<string>, status: TaskStatus): Tasks {
    map id | id in tasks ::
      if id in ids && CanTransitTo(tasks[id].status, status).TransitOk? then tasks[id].(status := status) else tasks[id]
  }

  /** Promotes the ready tasks; the first promotion starts the workflow. */
  function MarkReady(w: WorkflowState): WorkflowState {
    var ready := ReadySet(w.tasks);
    WorkflowState(SetStatus(w.tasks, ready, TaskReady),
                  if ready != {} && w.status.WorkflowPending? then WorkflowRunning else w.status)
  }

  /** A chain of dependents starting at `p[0]` all of whose later members are unfinished. */
  ghost predicate DownPath(tasks: Tasks, p: seq<string>) {
    && |p| >= 2
    && forall i | 0 < i < |p| :: p[i] in tasks && !IsFinished(tasks[p[i]].status) && p[i - 1] in tasks[p[i]].dependsOn
  }

  ghost predicate InDownstream(tasks: Tasks, root: string, id: string) {
    exists p :: DownPath(tasks, p) && p[0] == root && p[|p| - 1] == id
  }

  /** The tasks that depend on `root`, directly or through unfinished tasks, and are unfinished themselves. */
  ghost function Downstream(tasks: Tasks, root: string): set<string> {
    set id | id in tasks && InDownstream(tasks, root, id)
  }

  ghost function CancelDownstream(tasks: Tasks, root: string): Tasks {
    SetStatus(tasks, Downstream(tasks, root), TaskCancelled)
  }

  predicate AllTasksFinished(tasks: Tasks) {
    forall id | id in tasks :: IsFinished(tasks[id].status)
  }

  predicate HasTask(tasks: Tasks, status: TaskStatus) {
    exists id :: id in tasks && tasks[id].status == status
  }

  predicate AllSucceeded(tasks: Tasks) {
    forall id | id in tasks :: tasks[id].status == TaskSucceeded
  }

  function TryWorkflowStatus(w: WorkflowState, status: WorkflowStatus): WorkflowState {
    if WorkflowCanTransitTo(w.status, status).TransitOk? then w.(status := status) else w
  }

  /** The verdict on a workflow whose tasks have all finished: a failure outranks a cancellation. */
  function Verdict(tasks: Tasks): WorkflowStatus {
    if HasTask(tasks, TaskFailed) then WorkflowFailed
    else if HasTask(tasks, TaskCancelled) then WorkflowCancelled
    else WorkflowSucceeded
  }

  function Finalize(w: WorkflowState): WorkflowState {
    if IsWorkflowFinished(w.status) || !AllTasksFinished(w.tasks) then w
    else TryWorkflowStatus(w, Verdict(w.tasks))
  }

  /** A worker's report, before readiness is recomputed. */
  ghost function ApplyReport(w: WorkflowState, id: string, r: TaskResult): WorkflowState
    requires id in w.tasks
  {
    var t := w.tasks[id];
    if !CanTransitTo(t.status, r.status).TransitOk? then w
    else match r.status
      case TaskSucceeded => w.(tasks := w.tasks[id := t.(status := TaskSucceeded, result := Some(r))])
      case TaskFailed => w.(tasks := CancelDownstream(w.tasks[id := t.(status := TaskFailed, result := Some(r))], id))
      case TaskRunning => w.(tasks := w.tasks[id := t.(status := TaskRunning)])
      case _ => w
  }

  ghost function OnReport(w: WorkflowState, id: string, r: TaskResult): WorkflowState
    requires id in w.tasks
  {
    Finalize(MarkReady(ApplyReport(w, id, r)))
  }

  ghost function OnCancelTask(w: WorkflowState, id: string): WorkflowState
    requires id in w.tasks
  {
    if IsFinished(w.tasks[id].status) then w
    else Finalize(w.(tasks := CancelDownstream(w.tasks[id := w.tasks[id].(status := TaskCancelled)], id)))
  }

  function UnfinishedSet(tasks: Tasks): set<string> {
    set id | id in tasks && !IsFinished(tasks[id].status)
  }

  function OnCancelWorkflow(w: WorkflowState): WorkflowState {
    TryWorkflowStatus(w.(tasks := SetStatus(w.tasks, UnfinishedSet(w.tasks), TaskCancelled)), WorkflowCancelled)
  }

  /** The tasks sent to `worker` and not reported finished. */
  function OnWorker(tasks: Tasks, worker: string): set<string> {
    set id | id in tasks && tasks[id].assignedTo == worker && IsOnWorker(tasks[id].status)
  }

  function OnWorkerDead(w: WorkflowState, worker: string): WorkflowState {
    w.(tasks := map id | id in w.tasks ::
                  if id in OnWorker(w.tasks, worker) then w.tasks[id].(status := TaskReady, assignedTo := "")
                      else w.tasks[id])
  }

  /** Names the worker even if the task may no longer move. */
  function MarkDispatched(t: TaskState, worker: string): TaskState {
    if CanTransitTo(t.status, TaskDispatched).TransitOk? then t.(status := TaskDispatched, assignedTo := worker)
    else t.(assignedTo := worker)
  }

  function OnDispatched(w: WorkflowState, id: string, worker: string): WorkflowState
    requires id in w.tasks
  {
    w.(tasks := w.tasks[id := MarkDispatched(w.tasks[id], worker)])
  }

  // ---------------------------------------------------------------- invariant

  ghost predicate WellShaped(tasks: Tasks) {
    Closed(Edges(tasks)) && Acyclic(Edges(tasks))
  }

  /** A workflow as the server hands it to the engine. */
  ghost predicate Fresh(w: WorkflowState) {
    && WellShaped(w.tasks)
    && w.status.WorkflowPending?
    && forall id | id in w.tasks ::
         w.tasks[id].status.TaskPending? && w.tasks[id].assignedTo == "" && w.tasks[id].result.None?
  }

  /** No task is waiting for a retry or in an unknown status. */
  ghost predicate NoRetrying(tasks: Tasks) {
    forall id | id in tasks :: !tasks[id].status.TaskRetrying? && !tasks[id].status.TaskStatusUnknown?
  }

  /** A task that got past PENDING on its own had all its dependencies succeed. */
  ghost predicate DependencySafe(tasks: Tasks) {
    forall id | id in tasks && (IsLive(tasks[id].status) || tasks[id].status.TaskSucceeded?
                                || tasks[id].status.TaskFailed?) ::
      AllDepsSucceeded(tasks[id], tasks)
  }

  /** A failed or cancelled dependency means a cancelled task. */
  ghost predicate CancellationClosed(tasks: Tasks) {
    forall id, d | id in tasks && d in tasks[id].dependsOn && d in tasks
        && (tasks[d].status.TaskFailed? || tasks[d].status.TaskCancelled?) ::
      tasks[id].status.TaskCancelled?
  }

  /** Nothing is left to promote. */
  ghost predicate Promoted(tasks: Tasks) {
    forall id | id in tasks && tasks[id].status.TaskPending? :: !AllDepsSucceeded(tasks[id], tasks)
  }

  ghost predicate Consistent(tasks: Tasks) {
    WellShaped(tasks) && NoRetrying(tasks) && DependencySafe(tasks) && CancellationClosed(tasks)
  }

  /** The status of a workflow is the right verdict on its tasks. */
  ghost predicate VerdictRight(w: WorkflowState) {
    if w.tasks == map[] then
      w.status.WorkflowPending? || w.status.WorkflowCancelled?
    else
      && !w.status.WorkflowPending?
      && (IsWorkflowFinished(w.status) <==> AllTasksFinished(w.tasks))
      && (w.status.WorkflowSucceeded? <==> AllSucceeded(w.tasks))
      && (w.status.WorkflowFailed? ==> HasTask(w.tasks, TaskFailed))
      && (w.status.WorkflowCancelled? ==> HasTask(w.tasks, TaskCancelled))
  }

  ghost predicate WorkflowInv(w: WorkflowState) {
    Consistent(w.tasks) && Promoted(w.tasks) && VerdictRight(w)
  }

  lemma EdgesKept(tasks: Tasks, tasks': Tasks)
    requires tasks.Keys == tasks'.Keys
    requires forall id | id in tasks :: tasks'[id].dependsOn == tasks[id].dependsOn
    ensures Edges(tasks) == Edges(tasks')
  {
  }

  // ---------------------------------------------------------------- no workflow gets stuck

  /** The unfinished task whose dependencies have all finished is live: acyclicity, dependency safety,
      cancellation closure and exhaustive promotion together leave it no other status. */
  lemma {:induction false} SomeTaskIsLive(tasks: Tasks)
    requires Consistent(tasks) && Promoted(tasks) && !AllTasksFinished(tasks)
    ensures exists id :: id in tasks && IsLive(tasks[id].status)
  {
    var g := Edges(tasks);
    var some :| some in tasks && !IsFinished(tasks[some].status);
    assert some in UnfinishedSet(tasks);
    MinimalElement(g, UnfinishedSet(tasks));
    var m {:trigger DependsInto(g, m, UnfinishedSet(tasks))} :| m in UnfinishedSet(tasks)
        && !DependsInto(g, m, UnfinishedSet(tasks));
    forall d | d in tasks[m].dependsOn
      ensures d in tasks && tasks[d].status.TaskSucceeded?
    {
      assert d in g[m] && d in g;
      assert d !in UnfinishedSet(tasks);
    }
    assert AllDepsSucceeded(tasks[m], tasks);
  }

  /** A workflow is unfinished with nobody working on it exactly when it has no tasks at all. */
  lemma {:induction false} NoStuckWorkflow(w: WorkflowState)
    requires WorkflowInv(w) && !IsWorkflowFinished(w.status)
    ensures (exists id :: id in w.tasks && IsLive(w.tasks[id].status)) <==> w.tasks != map[]
  {
    if w.tasks != map[] {
      SomeTaskIsLive(w.tasks);
    }
  }

  // ---------------------------------------------------------------- each handler keeps the invariant

  lemma MarkReadyKeepsConsistent(tasks: Tasks)
    requires Consistent(tasks)
    ensures Consistent(SetStatus(tasks, ReadySet(tasks), TaskReady))
    ensures Promoted(SetStatus(tasks, ReadySet(tasks), TaskReady))
  {
    EdgesKept(tasks, SetStatus(tasks, ReadySet(tasks), TaskReady));
  }

  lemma {:induction false} SubmitEstablishes(w: WorkflowState)
    requires Fresh(w)
    ensures WorkflowInv(MarkReady(w))
  {
    var w' := MarkReady(w);
    MarkReadyKeepsConsistent(w.tasks);
    if w.tasks != map[] {
      var id :| id in w.tasks;
      assert id in w'.tasks && !IsFinished(w'.tasks[id].status);
      SomeTaskIsLive(w'.tasks);
      assert ReadySet(w.tasks) != {};
    }
  }

  lemma DownstreamStep(tasks: Tasks, root: string, d: string, id: string)
    requires d == root || InDownstream(tasks, root, d)
    requires id in tasks && !IsFinished(tasks[id].status) && d in tasks[id].dependsOn
    ensures InDownstream(tasks, root, id)
  {
    if d == root {
      var p := [root, id];
      assert DownPath(tasks, p) && p[0] == root && p[|p| - 1] == id;
    } else {
      var p :| DownPath(tasks, p) && p[0] == root && p[|p| - 1] == d;
      var q := p + [id];
      assert DownPath(tasks, q) && q[0] == root && q[|q| - 1] == id;
    }
  }

  lemma DownstreamIsUnfinished(tasks: Tasks, root: string)
    ensures forall id | id in Downstream(tasks, root) :: id in tasks && !IsFinished(tasks[id].status)
  {
  }

  lemma NoSelfDependency(tasks: Tasks, id: string)
    requires Acyclic(Edges(tasks)) && id in tasks
    ensures id !in tasks[id].dependsOn
  {
    assert !IsCycle(Edges(tasks), [id, id]);
  }

  /** What a failure or a cancellation makes of the tasks. */
  ghost function Kill(tasks: Tasks, id: string, t: TaskState): Tasks {
    CancelDownstream(tasks[id := t], id)
  }

  /** Who a failure or cancellation touches, read off the definition. */
  lemma KillEffect(tasks: Tasks, id: string, t: TaskState)
    requires id in tasks && IsFinished(t.status) && NoRetrying(tasks)
    ensures Kill(tasks, id, t).Keys == tasks.Keys
    ensures Kill(tasks, id, t)[id] == t
    ensures forall n | n in tasks && n != id ::
              Kill(tasks, id, t)[n] == (if InDownstream(tasks[id := t], id, n) then tasks[n].(status := TaskCancelled)
                                        else tasks[n])
    ensures forall n | n in tasks && n != id && InDownstream(tasks[id := t], id, n) :: !IsFinished(tasks[n].status)
  {
    DownstreamIsUnfinished(tasks[id := t], id);
  }

  lemma KillKeepsClosure(tasks: Tasks, id: string, t: TaskState, n: string, d: string)
    requires Consistent(tasks) && id in tasks && !IsFinished(tasks[id].status)
    requires t.dependsOn == tasks[id].dependsOn && (t.status.TaskCancelled?
                                                    || (t.status.TaskFailed? && IsLive(tasks[id].status)))
    requires n in tasks && d in tasks[n].dependsOn && d in tasks
    requires var s := Kill(tasks, id, t)[d].status; s.TaskFailed? || s.TaskCancelled?
    ensures Kill(tasks, id, t)[n].status.TaskCancelled?
  {
    KillEffect(tasks, id, t);
    NoSelfDependency(tasks, id);
    var mid := tasks[id := t];
    if (d == id || InDownstream(mid, id, d)) && n != id && !IsFinished(tasks[n].status) {
      DownstreamStep(mid, id, d, n);
    }
  }

  lemma SuccessesKept(tasks: Tasks, tasks': Tasks)
    requires tasks'.Keys == tasks.Keys
    requires forall n | n in tasks :: tasks'[n].dependsOn == tasks[n].dependsOn
    requires forall n | n in tasks :: tasks'[n].status.TaskSucceeded? <==> tasks[n].status.TaskSucceeded?
    ensures forall n | n in tasks :: AllDepsSucceeded(tasks'[n], tasks') <==> AllDepsSucceeded(tasks[n], tasks)
  {
  }

  lemma KillKeepsSafety(tasks: Tasks, id: string, t: TaskState)
    requires Consistent(tasks) && id in tasks && !IsFinished(tasks[id].status)
    requires t.dependsOn == tasks[id].dependsOn && (t.status.TaskCancelled?
                                                    || (t.status.TaskFailed? && IsLive(tasks[id].status)))
    ensures DependencySafe(Kill(tasks, id, t))
    ensures Promoted(tasks) ==> Promoted(Kill(tasks, id, t))
  {
    KillEffect(tasks, id, t);
    SuccessesKept(tasks, Kill(tasks, id, t));
  }

  lemma {:induction false} KillKeepsConsistent(tasks: Tasks, id: string, t: TaskState)
    requires Consistent(tasks) && id in tasks && !IsFinished(tasks[id].status)
    requires t.dependsOn == tasks[id].dependsOn
    requires t.status.TaskCancelled? || (t.status.TaskFailed? && IsLive(tasks[id].status))
    ensures Consistent(Kill(tasks, id, t))
    ensures Promoted(tasks) ==> Promoted(Kill(tasks, id, t))
    ensures Kill(tasks, id, t)[id] == t
  {
    var tasks' := Kill(tasks, id, t);
    KillEffect(tasks, id, t);
    EdgesKept(tasks, tasks');
    KillKeepsSafety(tasks, id, t);
    forall n, d | n in tasks' && d in tasks'[n].dependsOn && d in tasks'
        && (tasks'[d].status.TaskFailed? || tasks'[d].status.TaskCancelled?)
      ensures tasks'[n].status.TaskCancelled?
    {
      KillKeepsClosure(tasks, id, t, n, d);
    }
  }

  lemma {:induction false} SucceedKeepsConsistent(tasks: Tasks, id: string, t: TaskState)
    requires Consistent(tasks) && id in tasks && IsOnWorker(tasks[id].status)
    requires t.dependsOn == tasks[id].dependsOn && (t.status.TaskSucceeded? || IsLive(t.status))
    ensures Consistent(tasks[id := t])
  {
    EdgesKept(tasks, tasks[id := t]);
    NoSelfDependency(tasks, id);
  }

  lemma FinalizeGivesVerdict(w: WorkflowState)
    requires w.tasks != map[] && w.status.WorkflowRunning? && NoRetrying(w.tasks)
    ensures VerdictRight(Finalize(w))
  {
  }

  lemma ApplyReportKeepsConsistent(w: WorkflowState, id: string, r: TaskResult)
    requires Consistent(w.tasks) && id in w.tasks
    ensures Consistent(ApplyReport(w, id, r).tasks)
    ensures ApplyReport(w, id, r).tasks.Keys == w.tasks.Keys
  {
    var t := w.tasks[id];
    if CanTransitTo(t.status, r.status).TransitOk? {
      match r.status
      case TaskFailed => KillKeepsConsistent(w.tasks, id, t.(status := TaskFailed, result := Some(r)));
      case TaskSucceeded => SucceedKeepsConsistent(w.tasks, id, t.(status := TaskSucceeded, result := Some(r)));
      case TaskRunning => SucceedKeepsConsistent(w.tasks, id, t.(status := TaskRunning));
      case _ =>
    }
  }

  /** A report on a task that is not on a worker, or one that repeats its status, changes nothing at all. */
  lemma {:induction false} LateReportIsNoOp(w: WorkflowState, id: string, r: TaskResult)
    requires WorkflowInv(w) && id in w.tasks
    requires ApplyReport(w, id, r) == w
    ensures OnReport(w, id, r) == w && ReadySet(w.tasks) == {}
  {
    assert ReadySet(w.tasks) == {};
    assert MarkReady(w) == w;
    if w.tasks == map[] {
      assert false;
    }
  }

  lemma {:induction false} ReportKeepsInvariant(w: WorkflowState, id: string, r: TaskResult)
    requires WorkflowInv(w) && id in w.tasks
    ensures WorkflowInv(OnReport(w, id, r))
  {
    var w1 := ApplyReport(w, id, r);
    if w1 == w {
      LateReportIsNoOp(w, id, r);
    } else {
      ReportActsOnRunning(w, id, r);
      ApplyReportKeepsConsistent(w, id, r);
      PromoteAndFinalize(w1, id);
    }
  }

  lemma ReportActsOnRunning(w: WorkflowState, id: string, r: TaskResult)
    requires VerdictRight(w) && id in w.tasks && ApplyReport(w, id, r) != w
    ensures w.status.WorkflowRunning? && ApplyReport(w, id, r).status.WorkflowRunning?
  {
  }

  lemma PromoteAndFinalize(w: WorkflowState, id: string)
    requires Consistent(w.tasks) && w.status.WorkflowRunning? && id in w.tasks
    ensures WorkflowInv(Finalize(MarkReady(w)))
  {
    MarkReadyKeepsConsistent(w.tasks);
    assert id in MarkReady(w).tasks;
    FinalizeGivesVerdict(MarkReady(w));
  }

  lemma {:induction false} CancelTaskKeepsInvariant(w: WorkflowState, id: string)
    requires WorkflowInv(w) && id in w.tasks
    ensures WorkflowInv(OnCancelTask(w, id))
  {
    if !IsFinished(w.tasks[id].status) {
      KillKeepsConsistent(w.tasks, id, w.tasks[id].(status := TaskCancelled));
      FinalizeGivesVerdict(w.(tasks := Kill(w.tasks, id, w.tasks[id].(status := TaskCancelled))));
    }
  }

  lemma CancelAllEffect(tasks: Tasks)
    requires NoRetrying(tasks)
    ensures var tasks' := SetStatus(tasks, UnfinishedSet(tasks), TaskCancelled);
            && tasks'.Keys == tasks.Keys
            && forall n | n in tasks ::
              && tasks'[n].dependsOn == tasks[n].dependsOn
              && tasks'[n].status == if IsFinished(tasks[n].status) then tasks[n].status else TaskCancelled
  {
  }

  /** Cancelling what is unfinished respects every dependency. */
  lemma AllFinishedKeepsConsistent(tasks: Tasks, tasks': Tasks)
    requires Consistent(tasks) && tasks'.Keys == tasks.Keys
    requires forall n | n in tasks ::
               && tasks'[n].dependsOn == tasks[n].dependsOn
               && tasks'[n].status == if IsFinished(tasks[n].status) then tasks[n].status else TaskCancelled
    ensures Consistent(tasks') && Promoted(tasks')
  {
    EdgesKept(tasks, tasks');
    assert forall n | n in tasks :: AllDepsSucceeded(tasks'[n], tasks') <==> AllDepsSucceeded(tasks[n], tasks);
  }

  lemma CancelAllKeepsConsistent(tasks: Tasks)
    requires Consistent(tasks)
    ensures Consistent(SetStatus(tasks, UnfinishedSet(tasks), TaskCancelled))
    ensures Promoted(SetStatus(tasks, UnfinishedSet(tasks), TaskCancelled))
  {
    CancelAllEffect(tasks);
    AllFinishedKeepsConsistent(tasks, SetStatus(tasks, UnfinishedSet(tasks), TaskCancelled));
  }

  lemma CancelledVerdict(tasks: Tasks, id: string)
    requires AllTasksFinished(tasks) && id in tasks && tasks[id].status.TaskCancelled?
    ensures VerdictRight(WorkflowState(tasks, WorkflowCancelled))
  {
    assert HasTask(tasks, TaskCancelled);
  }

  lemma CancelAllFinishes(tasks: Tasks)
    requires NoRetrying(tasks)
    ensures AllTasksFinished(SetStatus(tasks, UnfinishedSet(tasks), TaskCancelled))
    ensures AllTasksFinished(tasks) ==> SetStatus(tasks, UnfinishedSet(tasks), TaskCancelled) == tasks
    ensures forall id | id in tasks && !IsFinished(tasks[id].status) ::
              SetStatus(tasks, UnfinishedSet(tasks), TaskCancelled)[id].status.TaskCancelled?
  {
  }

  lemma {:induction false} CancelWorkflowKeepsInvariant(w: WorkflowState)
    requires WorkflowInv(w)
    ensures WorkflowInv(OnCancelWorkflow(w))
    ensures AllTasksFinished(OnCancelWorkflow(w).tasks)
    ensures IsWorkflowFinished(OnCancelWorkflow(w).status)
  {
    var tasks' := SetStatus(w.tasks, UnfinishedSet(w.tasks), TaskCancelled);
    CancelAllKeepsConsistent(w.tasks);
    CancelAllFinishes(w.tasks);
    if w.status.WorkflowRunning? {
      var id :| id in w.tasks && !IsFinished(w.tasks[id].status);
      CancelledVerdict(tasks', id);
    }
  }

  /** Two task maps that differ only in moves among live statuses. */
  ghost predicate LiveMoves(tasks: Tasks, tasks': Tasks) {
    && tasks'.Keys == tasks.Keys
    && (forall id | id in tasks :: tasks'[id].dependsOn == tasks[id].dependsOn)
    && (forall id | id in tasks ::
          tasks'[id].status == tasks[id].status || (IsLive(tasks[id].status) && IsLive(tasks'[id].status)))
  }

  lemma LiveMovesKeepConsistent(tasks: Tasks, tasks': Tasks)
    requires Consistent(tasks) && Promoted(tasks) && LiveMoves(tasks, tasks')
    ensures Consistent(tasks') && Promoted(tasks')
  {
    EdgesKept(tasks, tasks');
    assert forall n | n in tasks :: AllDepsSucceeded(tasks'[n], tasks') <==> AllDepsSucceeded(tasks[n], tasks);
  }

  lemma LiveMovesKeepCounts(tasks: Tasks, tasks': Tasks)
    requires LiveMoves(tasks, tasks')
    ensures tasks == map[] <==> tasks' == map[]
    ensures AllTasksFinished(tasks') <==> AllTasksFinished(tasks)
    ensures AllSucceeded(tasks') <==> AllSucceeded(tasks)
    ensures forall s: TaskStatus | IsFinished(s) :: HasTask(tasks, s) ==> HasTask(tasks', s)
  {
    assert tasks == map[] <==> tasks.Keys == {};
    assert tasks' == map[] <==> tasks'.Keys == {};
  }

  lemma LiveMovesKeepVerdict(w: WorkflowState, w': WorkflowState)
    requires LiveMoves(w.tasks, w'.tasks) && w'.status == w.status && VerdictRight(w)
    ensures VerdictRight(w')
  {
    LiveMovesKeepCounts(w.tasks, w'.tasks);
  }

  /** Moves among live statuses touch neither the consistency of the tasks nor the verdict on them. */
  lemma {:induction false} LiveMovesKeepInvariant(w: WorkflowState, w': WorkflowState)
    requires WorkflowInv(w) && w'.status == w.status && LiveMoves(w.tasks, w'.tasks)
    ensures WorkflowInv(w')
  {
    LiveMovesKeepConsistent(w.tasks, w'.tasks);
    LiveMovesKeepVerdict(w, w');
  }

  lemma {:induction false} WorkerDeadKeepsInvariant(w: WorkflowState, worker: string)
    requires WorkflowInv(w)
    ensures WorkflowInv(OnWorkerDead(w, worker))
  {
    LiveMovesKeepInvariant(w, OnWorkerDead(w, worker));
  }

  lemma {:induction false} DispatchKeepsInvariant(w: WorkflowState, id: string, worker: string)
    requires WorkflowInv(w) && id in w.tasks
    ensures WorkflowInv(OnDispatched(w, id, worker))
  {
    LiveMovesKeepInvariant(w, OnDispatched(w, id, worker));
  }

  // ---------------------------------------------------------------- cancellation is exact

  /** The tasks that depend on `root` through any chain of dependencies, finished or not. */
  ghost predicate DependsTransitively(tasks: Tasks, id: string, root: string) {
    exists w :: |w| >= 2 && IsWalk(Edges(tasks), w) && w[0] == id && w[|w| - 1] == root
  }

  /** From a consistent state every task above an unsuccessful one is PENDING or CANCELLED. */
  lemma {:induction false} AboveUnsuccessful(tasks: Tasks, w: seq<string>, i: nat)
    requires Consistent(tasks) && IsWalk(Edges(tasks), w) && i < |w| - 1
    requires !tasks[w[|w| - 1]].status.TaskSucceeded?
    ensures tasks[w[i]].status.TaskPending? || tasks[w[i]].status.TaskCancelled?
    decreases |w| - i
  {
    assert w[i + 1] in tasks[w[i]].dependsOn;
    if i + 1 < |w| - 1 {
      AboveUnsuccessful(tasks, w, i + 1);
    }
  }

  /** If the first task of such a chain is unfinished then so is every other below the root. */
  lemma {:induction false} ChainIsPending(tasks: Tasks, w: seq<string>, i: nat)
    requires Consistent(tasks) && IsWalk(Edges(tasks), w) && i < |w| - 1
    requires !tasks[w[|w| - 1]].status.TaskSucceeded? && !IsFinished(tasks[w[0]].status)
    ensures tasks[w[i]].status.TaskPending?
  {
    AboveUnsuccessful(tasks, w, i);
    if i > 0 {
      ChainIsPending(tasks, w, i - 1);
      assert w[i] in tasks[w[i - 1]].dependsOn;
    }
  }

  lemma {:induction false} ReversedWalkIsDownPath(tasks: Tasks, w: seq<string>)
    requires |w| >= 2 && IsWalk(Edges(tasks), w)
    requires forall i | 0 <= i < |w| - 1 :: !IsFinished(tasks[w[i]].status)
    ensures InDownstream(tasks, w[|w| - 1], w[0])
  {
    var n := |w|;
    var p := seq(n, i requires 0 <= i < n => w[n - 1 - i]);
    forall i | 0 < i < n
      ensures p[i] in tasks && !IsFinished(tasks[p[i]].status) && p[i - 1] in tasks[p[i]].dependsOn
    {
      assert p[i] == w[n - 1 - i] && p[i - 1] == w[(n - 1 - i) + 1];
    }
    assert DownPath(tasks, p) && p[0] == w[n - 1] && p[|p| - 1] == w[0];
  }

  lemma {:induction false} DownPathIsWalk(tasks: Tasks, root: string, id: string)
    requires Closed(Edges(tasks)) && root in tasks && id in Downstream(tasks, root)
    ensures DependsTransitively(tasks, id, root)
  {
    var p :| DownPath(tasks, p) && p[0] == root && p[|p| - 1] == id;
    var n := |p|;
    var w := seq(n, i requires 0 <= i < n => p[n - 1 - i]);
    forall i | 0 <= i < n - 1
      ensures w[i + 1] in Edges(tasks)[w[i]]
    {
      assert w[i] == p[n - 1 - i] && w[i + 1] == p[(n - 1 - i) - 1];
    }
    assert IsWalk(Edges(tasks), w) && w[0] == id && w[|w| - 1] == root;
  }

  /** The cascade from a task that just failed or was cancelled changes exactly its unfinished transitive
      dependents, every one of which was still PENDING. */
  lemma {:induction false} CascadeIsExact(tasks: Tasks, root: string, t: TaskState)
    requires Consistent(tasks) && root in tasks && !IsFinished(tasks[root].status)
    requires t.dependsOn == tasks[root].dependsOn && (t.status.TaskFailed? || t.status.TaskCancelled?)
    ensures forall id | id in tasks ::
              id in Downstream(tasks[root := t], root) <==>
                  !IsFinished(tasks[id].status) && DependsTransitively(tasks, id, root)
    ensures forall id | id in Downstream(tasks[root := t], root) :: tasks[id].status.TaskPending?
  {
    var mid := tasks[root := t];
    EdgesKept(tasks, mid);
    DownstreamIsUnfinished(mid, root);
    forall id | id in tasks
      ensures id in Downstream(mid, root) <==> !IsFinished(tasks[id].status) && DependsTransitively(tasks, id, root)
      ensures id in Downstream(mid, root) ==> tasks[id].status.TaskPending?
    {
      if id in Downstream(mid, root) {
        DownPathIsWalk(mid, root, id);
      }
      if !IsFinished(tasks[id].status) && DependsTransitively(tasks, id, root) {
        var w :| |w| >= 2 && IsWalk(Edges(tasks), w) && w[0] == id && w[|w| - 1] == root;
        forall i | 0 <= i < |w| - 1
          ensures tasks[w[i]].status.TaskPending? && w[i] != root
        {
          ChainIsPending(tasks, w, i);
          assert !IsCycle(Edges(tasks), w[i..]);
        }
        ReversedWalkIsDownPath(mid, w);
      }
    }
  }

  // ---------------------------------------------------------------- one handler moves a task at most once

  /** What one handler other than the dispatch callback may do to one task. */
  predicate TaskMove(t: TaskState, t': TaskState) {
    || t' == t
    || (t.status.TaskPending? && t' == t.(status := TaskReady))
    || (!IsFinished(t.status) && t' == t.(status := TaskCancelled))
    || (t.status.TaskDispatched? && t' == t.(status := TaskRunning))
    || (IsOnWorker(t.status) && t'.result.Some? && t' == t.(status := TaskSucceeded, result := t'.result))
    || (IsOnWorker(t.status) && t'.result.Some? && t' == t.(status := TaskFailed, result := t'.result))
    || (IsOnWorker(t.status) && t' == t.(status := TaskReady, assignedTo := ""))
  }

  ghost predicate WorkflowMove(w: WorkflowState, w': WorkflowState) {
    && w'.tasks.Keys == w.tasks.Keys
    && (forall id | id in w.tasks :: TaskMove(w.tasks[id], w'.tasks[id]))
    && (w'.status == w.status || WorkflowEdge(w.status, w'.status))
  }

  lemma ApplyReportMoves(w: WorkflowState, id: string, r: TaskResult)
    requires NoRetrying(w.tasks) && id in w.tasks
    ensures WorkflowMove(w, ApplyReport(w, id, r))
    ensures forall n | n in w.tasks && ApplyReport(w, id, r).tasks[n].status.TaskPending? ::
            ApplyReport(w, id, r).tasks[n] == w.tasks[n]
    ensures ApplyReport(w, id, r).status == w.status && NoRetrying(ApplyReport(w, id, r).tasks)
  {
    var t := w.tasks[id];
    if r.status.TaskFailed? && CanTransitTo(t.status, r.status).TransitOk? {
      KillEffect(w.tasks, id, t.(status := TaskFailed, result := Some(r)));
    }
  }

  lemma {:induction false} ReportMoves(w: WorkflowState, id: string, r: TaskResult)
    requires NoRetrying(w.tasks) && id in w.tasks
    requires w.status.WorkflowPending? ==> !AllTasksFinished(OnReport(w, id, r).tasks)
    ensures WorkflowMove(w, OnReport(w, id, r))
  {
    ApplyReportMoves(w, id, r);
    var w1 := ApplyReport(w, id, r);
    var w2 := MarkReady(w1);
    assert forall n | n in w.tasks ::
             w2.tasks[n] == w1.tasks[n] || (w1.tasks[n].status.TaskPending? && w1.tasks[n] == w.tasks[n]);
  }

  lemma {:induction false} CancelTaskMoves(w: WorkflowState, id: string)
    requires NoRetrying(w.tasks) && id in w.tasks
    ensures WorkflowMove(w, OnCancelTask(w, id))
  {
    if !IsFinished(w.tasks[id].status) {
      KillEffect(w.tasks, id, w.tasks[id].(status := TaskCancelled));
    }
  }

  lemma CancelWorkflowMoves(w: WorkflowState)
    requires NoRetrying(w.tasks)
    ensures WorkflowMove(w, OnCancelWorkflow(w))
  {
  }

  lemma WorkerDeadMoves(w: WorkflowState, worker: string)
    ensures WorkflowMove(w, OnWorkerDead(w, worker))
  {
  }

  lemma SubmitMoves(w: WorkflowState)
    requires Fresh(w)
    ensures WorkflowMove(w, MarkReady(w))
  {
  }

  // ---------------------------------------------------------------- after the end

  /** Nothing about a finished workflow changes any more, except that a job queued before its task was
      cancelled may still be dispatched and leave a worker's name on that task. */
  ghost predicate Frozen(w: WorkflowState, w': WorkflowState) {
    && w'.status == w.status
    && w'.tasks.Keys == w.tasks.Keys
    && forall id | id in w.tasks :: w'.tasks[id] == w.tasks[id].(assignedTo := w'.tasks[id].assignedTo)
  }

  lemma FinishedHasFinishedTasks(w: WorkflowState)
    requires VerdictRight(w) && IsWorkflowFinished(w.status)
    ensures AllTasksFinished(w.tasks)
  {
  }

  lemma FinishedRefusesReports(w: WorkflowState, id: string, r: TaskResult)
    requires WorkflowInv(w) && IsWorkflowFinished(w.status) && id in w.tasks
    ensures OnReport(w, id, r) == w
  {
    FinishedHasFinishedTasks(w);
    LateReportIsNoOp(w, id, r);
  }

  lemma FinishedRefusesCancels(w: WorkflowState)
    requires WorkflowInv(w) && IsWorkflowFinished(w.status)
    ensures OnCancelWorkflow(w) == w
    ensures forall id | id in w.tasks :: OnCancelTask(w, id) == w
  {
    FinishedHasFinishedTasks(w);
    CancelAllFinishes(w.tasks);
  }

  lemma FinishedIgnoresDeaths(w: WorkflowState, worker: string)
    requires WorkflowInv(w) && IsWorkflowFinished(w.status)
    ensures OnWorkerDead(w, worker) == w
  {
    FinishedHasFinishedTasks(w);
    assert OnWorkerDead(w, worker).tasks == w.tasks;
  }

  lemma FinishedIsFrozenByDispatch(w: WorkflowState, id: string, worker: string)
    requires WorkflowInv(w) && IsWorkflowFinished(w.status) && id in w.tasks
    ensures Frozen(w, OnDispatched(w, id, worker))
  {
    FinishedHasFinishedTasks(w);
  }

  /** When a report has an effect. */
  predicate IsNews(status: TaskStatus, report: TaskStatus) {
    || (IsOnWorker(status) && (report.TaskSucceeded? || report.TaskFailed?))
    || (status.TaskDispatched? && report.TaskRunning?)
  }

  lemma NewsIsApplied(w: WorkflowState, id: string, r: TaskResult)
    requires NoRetrying(w.tasks) && id in w.tasks && IsNews(w.tasks[id].status, r.status)
    ensures id in ApplyReport(w, id, r).tasks && ApplyReport(w, id, r).tasks[id].status ==
            r.status != w.tasks[id].status
  {
    if r.status.TaskFailed? {
      KillEffect(w.tasks, id, w.tasks[id].(status := TaskFailed, result := Some(r)));
    }
  }

  lemma MarkReadyLeavesOthers(w: WorkflowState, n: string)
    requires n in w.tasks && NoRetrying(w.tasks) && !w.tasks[n].status.TaskPending?
    ensures Finalize(MarkReady(w)).tasks[n] == w.tasks[n]
  {
  }

  lemma {:induction false} ReportIsNews(w: WorkflowState, id: string, r: TaskResult)
    requires WorkflowInv(w) && id in w.tasks
    ensures IsNews(w.tasks[id].status, r.status) ==>
              OnReport(w, id, r).tasks[id].status == r.status != w.tasks[id].status
    ensures !IsNews(w.tasks[id].status, r.status) ==> OnReport(w, id, r) == w
  {
    var t := w.tasks[id];
    if IsNews(t.status, r.status) {
      ApplyReportMoves(w, id, r);
      NewsIsApplied(w, id, r);
      MarkReadyLeavesOthers(ApplyReport(w, id, r), id);
    } else {
      LateReportIsNoOp(w, id, r);
    }
  }
}
