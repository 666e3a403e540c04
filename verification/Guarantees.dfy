/** What every run of the control plane guarantees, whatever the interleaving. */
module Guarantees {
  import opened Options
  import opened Status
  import opened WorkflowModel
  import opened EngineModel
  import opened Orchestration

  // ---------------------------------------------------------------- no workflow gets stuck

  /** Somebody is responsible for this task: its one job is in the queue, held by the scheduler or being sent, or it
      is on the worker that the last dispatch callback named. Whether that worker is alive is another matter; see
      `DeadWorkers`. */
  ghost predicate Attended(s: Sys, wid: string, id: string)
    requires Has(s.engine.workflows, wid, id)
  {
    var t := s.engine.workflows[wid].tasks[id];
    || (t.status.TaskReady? && Tokens(s)[JobOf(s.engine.workflows, wid, id)] == 1)
    || (IsOnWorker(t.status) && (wid, id) in s.target && s.target[(wid, id)] == t.assignedTo)
  }

  /** In every state of every run an unfinished workflow has an attended task, unless it has no tasks at all;
      an empty workflow never finishes on its own. */
  lemma {:induction false} NoWorkflowGetsStuck(ss: seq<Sys>, acts: seq<Action>, i: nat, wid: string)
    requires IsRun(ss, acts) && i < |ss|
    requires wid in ss[i].engine.workflows && !IsWorkflowFinished(ss[i].engine.workflows[wid].status)
    ensures (exists id :: Has(ss[i].engine.workflows, wid, id) && Attended(ss[i], wid, id))
            <==> ss[i].engine.workflows[wid].tasks != map[]
  {
    EveryReachableStateIsGood(ss, acts, i);
    var s, ws := ss[i], ss[i].engine.workflows;
    NoStuckWorkflow(ws[wid]);
    if ws[wid].tasks != map[] {
      var id :| id in ws[wid].tasks && IsLive(ws[wid].tasks[id].status);
      assert Has(ws, wid, id);
      assert TokenCount(StatusOf(ws, wid, id), Tokens(s)[JobOf(ws, wid, id)]);
      assert AssignedRight(ws[wid].tasks[id], s.target, (wid, id));
      assert Attended(s, wid, id);
    }
  }

  // ---------------------------------------------------------------- the verdict

  /** The status of a non-empty workflow is a right verdict on its tasks in every state of every run. */
  lemma {:induction false} VerdictIsRight(ss: seq<Sys>, acts: seq<Action>, i: nat, wid: string)
    requires IsRun(ss, acts) && i < |ss|
    requires wid in ss[i].engine.workflows && ss[i].engine.workflows[wid].tasks != map[]
    ensures var w := ss[i].engine.workflows[wid];
            && (IsWorkflowFinished(w.status) <==> forall id | id in w.tasks :: IsFinished(w.tasks[id].status))
            && (w.status.WorkflowSucceeded? <==> forall id | id in w.tasks :: w.tasks[id].status.TaskSucceeded?)
            && (w.status.WorkflowFailed? ==> exists id :: id in w.tasks && w.tasks[id].status.TaskFailed?)
            && (w.status.WorkflowCancelled? ==> exists id :: id in w.tasks && w.tasks[id].status.TaskCancelled?)
  {
    EveryReachableStateIsGood(ss, acts, i);
    var w := ss[i].engine.workflows[wid];
    assert VerdictRight(w);
  }

  lemma FinishedStep(s: Sys, a: Action, s': Sys, wid: string)
    requires SysInv(s) && Next(s, a, s')
    requires wid in s.engine.workflows && IsWorkflowFinished(s.engine.workflows[wid].status)
    ensures wid in s'.engine.workflows && Frozen(s.engine.workflows[wid], s'.engine.workflows[wid])
  {
    match a
    case EngineCall(c) => FinishedIsFrozen(s.engine, c, wid);
    case RpcDone =>
      var Delivery(job, worker) := s.inflight.value;
      FinishedIsFrozen(s.engine, OnTaskDispatched(job.workflowId, job.id, worker), wid);
    case _ =>
  }

  lemma FinishedRunStep(ss: seq<Sys>, acts: seq<Action>, i: nat, j: nat, wid: string)
    requires IsRun(ss, acts) && i < |acts| && j == i + 1
    requires wid in ss[i].engine.workflows && IsWorkflowFinished(ss[i].engine.workflows[wid].status)
    ensures wid in ss[j].engine.workflows && Frozen(ss[i].engine.workflows[wid], ss[j].engine.workflows[wid])
  {
    EveryReachableStateIsGood(ss, acts, i);
    RunStep(ss, acts, i, ss[i], acts[i], ss[j]);
    FinishedStep(ss[i], acts[i], ss[j], wid);
  }

  lemma FrozenTransitive(w1: WorkflowState, w2: WorkflowState, w3: WorkflowState)
    requires Frozen(w1, w2) && Frozen(w2, w3)
    ensures Frozen(w1, w3)
  {
  }

  /** Once a workflow has finished it stays as it is for the rest of the run. */
  lemma {:induction false} FinishedStaysFinished(ss: seq<Sys>, acts: seq<Action>, i: nat, j: nat, wid: string)
    requires IsRun(ss, acts) && i <= j < |ss|
    requires wid in ss[i].engine.workflows && IsWorkflowFinished(ss[i].engine.workflows[wid].status)
    ensures wid in ss[j].engine.workflows && Frozen(ss[i].engine.workflows[wid], ss[j].engine.workflows[wid])
    decreases j
  {
    if i < j {
      FinishedStaysFinished(ss, acts, i, j - 1, wid);
      FinishedRunStep(ss, acts, j - 1, j, wid);
      FrozenTransitive(ss[i].engine.workflows[wid], ss[j - 1].engine.workflows[wid], ss[j].engine.workflows[wid]);
    }
  }

  /** Cancelling a running workflow overrules a failure that already happened: the verdict that finalisation
      would give survives the call exactly when no task had failed before it. */
  lemma {:induction false} CancelOverrulesFailure(w: WorkflowState)
    requires WorkflowInv(w) && w.tasks != map[] && !IsWorkflowFinished(w.status)
    ensures OnCancelWorkflow(w).status == Verdict(OnCancelWorkflow(w).tasks) <==> !HasTask(w.tasks, TaskFailed)
  {
    var w' := OnCancelWorkflow(w);
    var id :| id in w.tasks && !IsFinished(w.tasks[id].status);
    CancelAllFinishes(w.tasks);
    assert w'.tasks[id].status == TaskCancelled;
    assert forall n | n in w.tasks :: w'.tasks[n].status == TaskFailed <==> w.tasks[n].status == TaskFailed;
    assert HasTask(w'.tasks, TaskFailed) <==> HasTask(w.tasks, TaskFailed);
  }

  // ---------------------------------------------------------------- dependency safety

  /** A task that is queued, on a worker, succeeded or failed had every dependency succeed; a task with a failed or
      cancelled dependency is cancelled; none is ever waiting for a retry. */
  lemma {:induction false} DependenciesAreRespected(ss: seq<Sys>, acts: seq<Action>, i: nat, wid: string, id: string)
    requires IsRun(ss, acts) && i < |ss| && Has(ss[i].engine.workflows, wid, id)
    ensures var tasks := ss[i].engine.workflows[wid].tasks;
            var t := tasks[id];
            && (forall d | d in t.dependsOn :: d in tasks)
            && (IsLive(t.status) || t.status.TaskSucceeded? || t.status.TaskFailed? ==>
                  forall d | d in t.dependsOn :: tasks[d].status.TaskSucceeded?)
            && ((exists d :: d in t.dependsOn && (tasks[d].status.TaskFailed? || tasks[d].status.TaskCancelled?))
                ==> t.status.TaskCancelled?)
            && !t.status.TaskRetrying? && !t.status.TaskStatusUnknown?
  {
    EveryReachableStateIsGood(ss, acts, i);
    var tasks := ss[i].engine.workflows[wid].tasks;
    var t := tasks[id];
    assert Consistent(tasks);
    forall d | d in t.dependsOn
      ensures d in tasks
    {
      assert id in Edges(tasks) && d in Edges(tasks)[id];
      assert d in Edges(tasks);
    }
    if IsLive(t.status) || t.status.TaskSucceeded? || t.status.TaskFailed? {
      assert AllDepsSucceeded(t, tasks);
    }
  }

  // ---------------------------------------------------------------- jobs

  /** The job in flight belongs to a task that is still READY, or was cancelled meanwhile. */
  lemma InflightStatus(s: Sys)
    requires SysInv(s) && s.inflight.Some?
    ensures var j := s.inflight.value.job;
            && Has(s.engine.workflows, j.workflowId, j.id)
            && (StatusOf(s.engine.workflows, j.workflowId, j.id).TaskReady?
                || StatusOf(s.engine.workflows, j.workflowId, j.id).TaskCancelled?)
  {
    var j := s.inflight.value.job;
    assert j in Tokens(s);
    DispatchKeepsTokens(s.engine.workflows, Tokens(s), j, s.inflight.value.worker);
  }

  /** A dispatch callback is refused only for a task that was cancelled while its job was on its way. */
  lemma {:induction false} DispatchIsRefusedOnlyWhenCancelled(ss: seq<Sys>, acts: seq<Action>, i: nat, d: Delivery)
    requires IsRun(ss, acts) && i < |acts| && acts[i].RpcDone? && ss[i].inflight == Some(d)
    ensures Has(ss[i].engine.workflows, d.job.workflowId, d.job.id)
    ensures var before := StatusOf(ss[i].engine.workflows, d.job.workflowId, d.job.id);
            var after := StatusOf(ss[i + 1].engine.workflows, d.job.workflowId, d.job.id);
            (before.TaskReady? && after.TaskDispatched?) || (before.TaskCancelled? && after.TaskCancelled?)
  {
    EveryReachableStateIsGood(ss, acts, i);
    InflightStatus(ss[i]);
    RunStep(ss, acts, i, ss[i], acts[i], ss[i + 1]);
    DispatchEffect(ss[i].engine.workflows, d.job.workflowId, d.job.id, d.worker, d.job.workflowId, d.job.id);
  }

  /** How many copies of a task's job exist, wherever they are: exactly one while it is READY, at most one after
      it was cancelled, none otherwise. */
  lemma {:induction false} JobsAreConserved(ss: seq<Sys>, acts: seq<Action>, i: nat, wid: string, id: string)
    requires IsRun(ss, acts) && i < |ss| && Has(ss[i].engine.workflows, wid, id)
    ensures var n := Tokens(ss[i])[Job(id, wid, ss[i].engine.workflows[wid].tasks[id].taskType)];
            var status := StatusOf(ss[i].engine.workflows, wid, id);
            && (status.TaskReady? ==> n == 1)
            && (status.TaskCancelled? ==> n <= 1)
            && (!status.TaskReady? && !status.TaskCancelled? ==> n == 0)
  {
    EveryReachableStateIsGood(ss, acts, i);
    assert TokenCount(StatusOf(ss[i].engine.workflows, wid, id), Tokens(ss[i])[JobOf(ss[i].engine.workflows, wid, id)]);
  }

  /** Every job, wherever it is, names a task that exists and bears this task's type. */
  lemma {:induction false} JobsDescribeTheirTasks(ss: seq<Sys>, acts: seq<Action>, i: nat, j: Job)
    requires IsRun(ss, acts) && i < |ss| && j in Tokens(ss[i])
    ensures Has(ss[i].engine.workflows, j.workflowId, j.id)
    ensures ss[i].engine.workflows[j.workflowId].tasks[j.id].taskType == j.taskType
  {
    EveryReachableStateIsGood(ss, acts, i);
  }

  /** A worker's death takes back what is on it: every unfinished task whose last dispatch callback named it is READY
      again, unassigned, with exactly one job. A delivery still under way is not among them; see `DeadWorkers`. */
  lemma {:induction false} DeathTakesBackWhatIsOn(ss: seq<Sys>, acts: seq<Action>, i: nat, wid: string, id: string)
    requires IsRun(ss, acts) && i < |acts| && acts[i].EngineCall? && acts[i].call.WorkerDead?
    requires Has(ss[i].engine.workflows, wid, id) && IsOnWorker(StatusOf(ss[i].engine.workflows, wid, id))
    requires (wid, id) in ss[i].target && ss[i].target[(wid, id)] == acts[i].call.worker
    ensures Has(ss[i + 1].engine.workflows, wid, id)
    ensures var t := ss[i + 1].engine.workflows[wid].tasks[id];
            && t.status.TaskReady? && t.assignedTo == ""
            && Tokens(ss[i + 1])[JobOf(ss[i + 1].engine.workflows, wid, id)] == 1
  {
    EveryReachableStateIsGood(ss, acts, i);
    RunStep(ss, acts, i, ss[i], acts[i], ss[i + 1]);
    assert AssignedRight(ss[i].engine.workflows[wid].tasks[id], ss[i].target, (wid, id));
    DeathEffect(ss[i].engine.workflows, acts[i].call.worker, wid, id);
    JobsAreConserved(ss, acts, i + 1, wid, id);
  }

  // ---------------------------------------------------------------- bounded work

  /** How often the status of a task changed over the first `n` steps of a run. */
  ghost function ChangesOf(ss: seq<Sys>, n: nat, wid: string, id: string): nat
    requires n < |ss|
  {
    if n == 0 then 0
    else ChangesOf(ss, n - 1, wid, id) +
         (if StatusOf(ss[n].engine.workflows, wid, id) != StatusOf(ss[n - 1].engine.workflows, wid, id) then 1 else 0)
  }

  /** How often the task was taken back from a worker. */
  ghost function ResetsOf(ss: seq<Sys>, n: nat, wid: string, id: string): nat
    requires n < |ss|
  {
    if n == 0 then 0
    else ResetsOf(ss, n - 1, wid, id) +
         (if StatusOf(ss[n].engine.workflows, wid, id).TaskReady?
          && IsOnWorker(StatusOf(ss[n - 1].engine.workflows, wid, id)) then 1 else 0)
  }

  ghost function TotalChanges(ss: seq<Sys>, n: nat, wid: string, ids: seq<string>): nat
    requires n < |ss|
  {
    if ids == [] then 0 else ChangesOf(ss, n, wid, ids[0]) + TotalChanges(ss, n, wid, ids[1..])
  }

  ghost function TotalResets(ss: seq<Sys>, n: nat, wid: string, ids: seq<string>): nat
    requires n < |ss|
  {
    if ids == [] then 0 else ResetsOf(ss, n, wid, ids[0]) + TotalResets(ss, n, wid, ids[1..])
  }

  /** One edge forward, or from a worker back to READY. */
  predicate StatusMove(x: TaskStatus, y: TaskStatus) {
    y == x || TaskRank(x) < TaskRank(y) || (IsOnWorker(x) && y.TaskReady?)
  }

  lemma {:induction false} StatusStep(s: Sys, a: Action, s': Sys, wid: string, id: string)
    requires SysInv(s) && Next(s, a, s')
    ensures StatusMove(StatusOf(s.engine.workflows, wid, id), StatusOf(s'.engine.workflows, wid, id))
  {
    var ws, ws' := s.engine.workflows, s'.engine.workflows;
    match a
    case EngineCall(c) =>
      CallMoves(s.engine, c);
      CallStatusMove(ws, ws', wid, id);
    case RpcDone =>
      InflightStatus(s);
      var Delivery(j, worker) := s.inflight.value;
      DispatchEffect(ws, j.workflowId, j.id, worker, wid, id);
    case _ =>
  }

  lemma StatusRunStep(ss: seq<Sys>, acts: seq<Action>, i: nat, j: nat, wid: string, id: string)
    requires IsRun(ss, acts) && i < |acts| && j == i + 1
    ensures StatusMove(StatusOf(ss[i].engine.workflows, wid, id), StatusOf(ss[j].engine.workflows, wid, id))
  {
    EveryReachableStateIsGood(ss, acts, i);
    RunStep(ss, acts, i, ss[i], acts[i], ss[j]);
    StatusStep(ss[i], acts[i], ss[j], wid, id);
  }

  lemma CallStatusMove(ws: Workflows, ws': Workflows, wid: string, id: string)
    requires EngineInv(ws) && Moves(ws, ws')
    ensures StatusMove(StatusOf(ws, wid, id), StatusOf(ws', wid, id))
  {
    if Has(ws', wid, id) {
      var t := MovedTask(ws, ws', wid, id);
      assert wid in ws ==> NoRetrying(ws[wid].tasks);
      TaskMoveIsStatusMove(t, ws'[wid].tasks[id]);
    }
  }

  lemma TaskMoveIsStatusMove(t: TaskState, t': TaskState)
    requires TaskMove(t, t') && !t.status.TaskRetrying? && !t.status.TaskStatusUnknown?
    ensures StatusMove(t.status, t'.status)
  {
  }

  lemma {:induction false} TaskWorkIsBounded(ss: seq<Sys>, acts: seq<Action>, n: nat, wid: string, id: string)
    requires IsRun(ss, acts) && n < |ss|
    ensures ChangesOf(ss, n, wid, id) <= TaskRank(StatusOf(ss[n].engine.workflows, wid, id))
            + 3 * ResetsOf(ss, n, wid, id)
  {
    if n > 0 {
      TaskWorkIsBounded(ss, acts, n - 1, wid, id);
      StatusRunStep(ss, acts, n - 1, n, wid, id);
    } else {
      assert Init(ss[0]);
    }
  }

  /** Over any run the tasks `ids` of a workflow change status at most four times each plus three times for every
      time one of them was taken back from a worker. */
  lemma {:induction false} WorkIsBounded(ss: seq<Sys>, acts: seq<Action>, n: nat, wid: string, ids: seq<string>)
    requires IsRun(ss, acts) && n < |ss|
    ensures TotalChanges(ss, n, wid, ids) <= 4 * |ids| + 3 * TotalResets(ss, n, wid, ids)
  {
    if ids != [] {
      TaskWorkIsBounded(ss, acts, n, wid, ids[0]);
      WorkIsBounded(ss, acts, n, wid, ids[1..]);
    }
  }

  /** Only the death of the worker a task was last sent to takes the task back. */
  lemma {:induction false} OnlyDeathTakesBack(ss: seq<Sys>, acts: seq<Action>, i: nat, wid: string, id: string)
    requires IsRun(ss, acts) && i < |acts|
    requires IsOnWorker(StatusOf(ss[i].engine.workflows, wid, id))
             && StatusOf(ss[i + 1].engine.workflows, wid, id).TaskReady?
    ensures acts[i].EngineCall? && acts[i].call.WorkerDead?
    ensures (wid, id) in ss[i].target && ss[i].target[(wid, id)] == acts[i].call.worker
  {
    EveryReachableStateIsGood(ss, acts, i);
    var s, s', ws := ss[i], ss[i + 1], ss[i].engine.workflows;
    RunStep(ss, acts, i, ss[i], acts[i], ss[i + 1]);
    assert AssignedRight(ws[wid].tasks[id], s.target, (wid, id));
    if acts[i].EngineCall? {
      CallTakesBack(s.engine, acts[i].call, wid, id);
    } else if acts[i].RpcDone? {
      InflightStatus(s);
      var Delivery(j, worker) := s.inflight.value;
      DispatchEffect(ws, j.workflowId, j.id, worker, wid, id);
    }
  }

  lemma CallTakesBack(s: EngineState, c: Call, wid: string, id: string)
    requires EngineInv(s.workflows) && Admissible(s, c) && !c.OnTaskDispatched?
    requires IsOnWorker(StatusOf(s.workflows, wid, id)) && StatusOf(After(s.workflows, c), wid, id).TaskReady?
    ensures c.WorkerDead? && s.workflows[wid].tasks[id].assignedTo == c.worker
  {
    var w := s.workflows[wid];
    match c
    case Submit(_, _) =>
    case TaskResponse(wid2, id2, r) =>
      if wid2 == wid && id2 in w.tasks {
        ReportNeverTakesBack(w, id2, r, id);
      }
    case CancelTask(wid2, id2) =>
      if wid2 == wid && id2 in w.tasks {
        CancelNeverTakesBack(w, id2, id);
      }
    case CancelWorkflow(_) =>
    case WorkerDead(_) =>
  }

  lemma CancelNeverTakesBack(w: WorkflowState, id: string, n: string)
    requires NoRetrying(w.tasks) && id in w.tasks && n in w.tasks && IsOnWorker(w.tasks[n].status)
    ensures !OnCancelTask(w, id).tasks[n].status.TaskReady?
  {
    if !IsFinished(w.tasks[id].status) {
      KillEffect(w.tasks, id, w.tasks[id].(status := TaskCancelled));
    }
  }

  lemma ReportNeverTakesBack(w: WorkflowState, id: string, r: TaskResult, n: string)
    requires NoRetrying(w.tasks) && id in w.tasks && n in w.tasks && IsOnWorker(w.tasks[n].status)
    ensures !OnReport(w, id, r).tasks[n].status.TaskReady?
  {
    ApplyReportMoves(w, id, r);
    ApplyReportNeverReadies(w, id, r, n);
    MarkReadyLeavesOthers(ApplyReport(w, id, r), n);
  }

  lemma ApplyReportNeverReadies(w: WorkflowState, id: string, r: TaskResult, n: string)
    requires NoRetrying(w.tasks) && id in w.tasks && n in w.tasks && IsOnWorker(w.tasks[n].status)
    ensures n in ApplyReport(w, id, r).tasks
    ensures var s := ApplyReport(w, id, r).tasks[n].status; !s.TaskReady? && !s.TaskPending?
  {
    if r.status.TaskFailed? && CanTransitTo(w.tasks[id].status, r.status).TransitOk? {
      KillEffect(w.tasks, id, w.tasks[id].(status := TaskFailed, result := Some(r)));
    }
  }
}
