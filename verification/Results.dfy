/** Which result a task has: the report that ended it, and no other. */
module Results {
  import opened Options
  import opened Status
  import opened WorkflowModel
  import opened EngineModel
  import opened Orchestration
  import opened Outcomes

  /** The step takes the report `r` of a task on a worker that has succeeded or failed. */
  predicate EndedBy(s: Sys, a: Action, wid: string, id: string, r: TaskResult) {
    && a == EngineCall(TaskResponse(wid, id, r))
    && Has(s.engine.workflows, wid, id)
    && (s.engine.workflows[wid].tasks[id].status.TaskDispatched?
        || s.engine.workflows[wid].tasks[id].status.TaskRunning?)
    && (r.status.TaskSucceeded? || r.status.TaskFailed?)
  }

  predicate Reported(status: TaskStatus) {
    status.TaskSucceeded? || status.TaskFailed?
  }

  function ResultOf(ws: Workflows, wid: string, id: string): Option<TaskResult> {
    if Has(ws, wid, id) then ws[wid].tasks[id].result else None
  }

  /** The task has the result it had, and has been reported finished only if it was. */
  predicate SameResult(ws: Workflows, ws': Workflows, wid: string, n: string) {
    && ResultOf(ws', wid, n) == ResultOf(ws, wid, n)
    && (Reported(StatusOf(ws', wid, n)) || Reported(StatusOf(ws, wid, n)) ==>
          StatusOf(ws', wid, n) == StatusOf(ws, wid, n))
  }

  // ---------------------------------------------------------------- one step

  lemma ReportElsewhere(ws: Workflows, v: string, id: string, r: TaskResult, wid: string, n: string)
    requires Has(ws, v, id) && Has(ws, wid, n) && WorkflowInv(ws[v])
    requires v != wid || id != n || !(IsOnWorker(ws[v].tasks[id].status) && Reported(r.status))
    ensures Has(After(ws, TaskResponse(v, id, r)), wid, n)
    ensures SameResult(ws, After(ws, TaskResponse(v, id, r)), wid, n)
  {
    if v == wid {
      if IsOnWorker(ws[v].tasks[id].status) && Reported(r.status) {
        AfterFinalReport(ws, wid, id, r, n);
      } else if ws[v].tasks[id].status.TaskDispatched? && r.status.TaskRunning? {
        AfterRunningReport(ws, wid, id, r, n);
      } else {
        ReportIsNews(ws[v], id, r);
      }
    }
  }

  lemma OtherCallsKeepResults(ws: Workflows, c: Call, wid: string, n: string)
    requires Has(ws, wid, n) && WorkflowInv(ws[wid]) && (c.Submit? ==> c.workflowId != wid)
    requires !c.TaskResponse? && !c.OnTaskDispatched?
    ensures Has(After(ws, c), wid, n) && SameResult(ws, After(ws, c), wid, n)
  {
    match c
    case CancelTask(v, id) =>
      if v == wid && Has(ws, v, id) {
        AfterCancelTask(ws, wid, id, n);
      }
    case CancelWorkflow(v) =>
      if v == wid {
        StoppedWorkflow(ws[wid], n);
      }
    case _ =>
  }

  lemma NewTasksHaveNoResult(ws: Workflows, wid: string, w: WorkflowState, n: string)
    requires Fresh(w) && wid !in ws && n in w.tasks
    ensures SameResult(ws, After(ws, Submit(wid, w)), wid, n)
  {
    SubmittedTask(w, n);
  }

  lemma CallKeepsResult(ss: seq<Sys>, acts: seq<Action>, i: nat, j: nat, c: Call, wid: string, n: string)
    requires Calls(ss, acts, i, c) && j == i + 1 && Has(ss[j].engine.workflows, wid, n)
    requires forall r :: !EndedBy(ss[i], acts[i], wid, n, r)
    ensures SameResult(ss[i].engine.workflows, ss[j].engine.workflows, wid, n)
  {
    var ws := ss[i].engine.workflows;
    CallOfRun(ss, acts, i, j, c, wid);
    if !Has(ws, wid, n) {
      NewWorkflow(ws, c, wid, n);
      NewTasksHaveNoResult(ws, wid, c.workflow, n);
    } else if c.TaskResponse? {
      if Has(ws, c.workflowId, c.taskId) {
        CallOfRun(ss, acts, i, j, c, c.workflowId);
        assert !EndedBy(ss[i], acts[i], wid, n, c.report);
        ReportElsewhere(ws, c.workflowId, c.taskId, c.report, wid, n);
      }
    } else {
      NotACallback(ss, acts, i, j, c);
      OtherCallsKeepResults(ws, c, wid, n);
    }
  }

  lemma NotACallback(ss: seq<Sys>, acts: seq<Action>, i: nat, j: nat, c: Call)
    requires Calls(ss, acts, i, c) && j == i + 1
    ensures !c.OnTaskDispatched?
  {
    RunStep(ss, acts, i, ss[i], acts[i], ss[j]);
  }

  lemma NewWorkflow(ws: Workflows, c: Call, wid: string, n: string)
    requires wid in ws ==> WorkflowInv(ws[wid])
    requires !Has(ws, wid, n) && Has(After(ws, c), wid, n) && (c.Submit? ==> c.workflowId !in ws)
    ensures c.Submit? && c.workflowId == wid && n in c.workflow.tasks && wid !in ws
  {
    match c
    case TaskResponse(v, id, r) =>
      if v == wid && Has(ws, v, id) {
        ApplyReportKeepsConsistent(ws[wid], id, r);
      }
    case CancelTask(v, id) =>
      if v == wid && Has(ws, v, id) {
        CancelTaskMoves(ws[wid], id);
      }
    case _ =>
  }

  lemma DispatchKeepsResult(ss: seq<Sys>, acts: seq<Action>, i: nat, j: nat, wid: string, n: string)
    requires IsRun(ss, acts) && j == i + 1 <= |acts| && acts[i].RpcDone? && Has(ss[j].engine.workflows, wid, n)
    ensures SameResult(ss[i].engine.workflows, ss[j].engine.workflows, wid, n)
  {
    RunStep(ss, acts, i, ss[i], acts[i], ss[j]);
    var d := ss[i].inflight.value;
    CarriedTask(ss, acts, i, j, d);
    if d.job.workflowId == wid {
      DispatchedTask(ss[i].engine.workflows, d, n);
    }
  }

  /** No other step than a final report of the task changes its result, or whether it has succeeded or failed. */
  lemma {:induction false} OnlyReportsSetResults(
      ss: seq<Sys>, acts: seq<Action>, i: nat, j: nat, wid: string, n: string)
    requires IsRun(ss, acts) && j == i + 1 <= |acts| && Has(ss[j].engine.workflows, wid, n)
    requires forall r :: !EndedBy(ss[i], acts[i], wid, n, r)
    ensures SameResult(ss[i].engine.workflows, ss[j].engine.workflows, wid, n)
  {
    if acts[i].EngineCall? {
      CallKeepsResult(ss, acts, i, j, acts[i].call, wid, n);
    } else if acts[i].RpcDone? {
      DispatchKeepsResult(ss, acts, i, j, wid, n);
    } else {
      SchedulerOutcome(ss, acts, i);
    }
  }

  /** A final report of a task on a worker becomes its result, as it is. */
  lemma {:induction false} ReportBecomesResult(
      ss: seq<Sys>, acts: seq<Action>, i: nat, j: nat, wid: string, id: string, r: TaskResult)
    requires IsRun(ss, acts) && j == i + 1 <= |acts| && EndedBy(ss[i], acts[i], wid, id, r)
    ensures Has(ss[j].engine.workflows, wid, id)
    ensures var t := ss[j].engine.workflows[wid].tasks[id]; t.result == Some(r) && t.status == r.status
  {
    FinalReportOutcome(ss, acts, i, wid, id, r, id);
  }

  // ---------------------------------------------------------------- over whole runs

  ghost predicate EndedAt(ss: seq<Sys>, acts: seq<Action>, k: nat, wid: string, id: string, r: TaskResult)
    requires k < |acts| && |ss| == |acts| + 1
  {
    EndedBy(ss[k], acts[k], wid, id, r)
  }

  /** None of the first `j` steps ended the task. */
  ghost predicate NotEnded(ss: seq<Sys>, acts: seq<Action>, j: nat, wid: string, id: string)
    requires j <= |acts| && |ss| == |acts| + 1
  {
    forall k, r | 0 <= k < j :: !EndedAt(ss, acts, k, wid, id, r)
  }

  /** Exactly one of the first `j` steps ended the task, with the report `r`. */
  ghost predicate EndedOnce(ss: seq<Sys>, acts: seq<Action>, j: nat, wid: string, id: string, r: TaskResult)
    requires j <= |acts| && |ss| == |acts| + 1
  {
    exists k :: 0 <= k < j && EndedAt(ss, acts, k, wid, id, r)
                && forall m, q | 0 <= m < j && EndedAt(ss, acts, m, wid, id, q) :: m == k && q == r
  }

  ghost predicate ResultRight(ss: seq<Sys>, acts: seq<Action>, j: nat, wid: string, id: string)
    requires j <= |acts| && |ss| == |acts| + 1
  {
    var status, result := StatusOf(ss[j].engine.workflows, wid, id), ResultOf(ss[j].engine.workflows, wid, id);
    if status.TaskSucceeded? || status.TaskFailed?
    then result.Some? && result.value.status == status && EndedOnce(ss, acts, j, wid, id, result.value)
    else result == None && NotEnded(ss, acts, j, wid, id)
  }

  lemma EndingStep(ss: seq<Sys>, acts: seq<Action>, i: nat, j: nat, wid: string, id: string, r: TaskResult)
    requires IsRun(ss, acts) && j == i + 1 <= |acts| && EndedAt(ss, acts, i, wid, id, r)
    requires ResultRight(ss, acts, i, wid, id)
    ensures ResultRight(ss, acts, j, wid, id)
  {
    ReportBecomesResult(ss, acts, i, j, wid, id, r);
    assert NotEnded(ss, acts, i, wid, id);
    assert EndedOnce(ss, acts, j, wid, id, r);
  }

  lemma OtherStep(ss: seq<Sys>, acts: seq<Action>, i: nat, j: nat, wid: string, id: string)
    requires IsRun(ss, acts) && j == i + 1 <= |acts| && (forall r :: !EndedAt(ss, acts, i, wid, id, r))
    requires ResultRight(ss, acts, i, wid, id)
    ensures ResultRight(ss, acts, j, wid, id)
  {
    forall r
      ensures !EndedBy(ss[i], acts[i], wid, id, r)
    {
      assert !EndedAt(ss, acts, i, wid, id, r);
    }
    if Has(ss[j].engine.workflows, wid, id) {
      OnlyReportsSetResults(ss, acts, i, j, wid, id);
    } else if Has(ss[i].engine.workflows, wid, id) {
      TasksStay(ss, acts, i, j, wid, id);
    }
    StillEndedOnce(ss, acts, i, j, wid, id);
  }

  lemma StillEndedOnce(ss: seq<Sys>, acts: seq<Action>, i: nat, j: nat, wid: string, id: string)
    requires |ss| == |acts| + 1 && j == i + 1 <= |acts| && (forall r :: !EndedAt(ss, acts, i, wid, id, r))
    ensures NotEnded(ss, acts, i, wid, id) ==> NotEnded(ss, acts, j, wid, id)
    ensures forall r | EndedOnce(ss, acts, i, wid, id, r) :: EndedOnce(ss, acts, j, wid, id, r)
  {
    forall r | EndedOnce(ss, acts, i, wid, id, r)
      ensures EndedOnce(ss, acts, j, wid, id, r)
    {
      var k :| 0 <= k < i && EndedAt(ss, acts, k, wid, id, r)
               && forall m, q | 0 <= m < i && EndedAt(ss, acts, m, wid, id, q) :: m == k && q == r;
      assert EndedAt(ss, acts, k, wid, id, r);
    }
  }

  lemma CallKeepsTask(ws: Workflows, c: Call, wid: string, n: string)
    requires Has(ws, wid, n) && WorkflowInv(ws[wid]) && (c.Submit? ==> c.workflowId !in ws)
    ensures Has(After(ws, c), wid, n)
  {
    match c
    case TaskResponse(v, id, r) =>
      if v == wid && Has(ws, v, id) {
        ApplyReportKeepsConsistent(ws[wid], id, r);
      }
    case CancelTask(v, id) =>
      if v == wid && Has(ws, v, id) {
        CancelTaskMoves(ws[wid], id);
      }
    case _ =>
  }

  lemma TasksStay(ss: seq<Sys>, acts: seq<Action>, i: nat, j: nat, wid: string, id: string)
    requires IsRun(ss, acts) && j == i + 1 <= |acts| && Has(ss[i].engine.workflows, wid, id)
    ensures Has(ss[j].engine.workflows, wid, id)
  {
    if acts[i].EngineCall? {
      CallOfRun(ss, acts, i, j, acts[i].call, wid);
      CallKeepsTask(ss[i].engine.workflows, acts[i].call, wid, id);
    } else if acts[i].RpcDone? {
      RunStep(ss, acts, i, ss[i], acts[i], ss[j]);
      CarriedTask(ss, acts, i, j, ss[i].inflight.value);
    } else {
      SchedulerOutcome(ss, acts, i);
    }
  }

  /** In every state of every run a task that has succeeded or failed has as its result the report of the one step that
      ended it, whose status it bears; any other task has no result and was never reported finished. */
  lemma {:induction false} ResultIsTheReport(ss: seq<Sys>, acts: seq<Action>, j: nat, wid: string, id: string)
    requires IsRun(ss, acts) && j <= |acts|
    ensures ResultRight(ss, acts, j, wid, id)
  {
    for k := 0 to j
      invariant ResultRight(ss, acts, k, wid, id)
    {
      if r :| EndedAt(ss, acts, k, wid, id, r) {
        EndingStep(ss, acts, k, k + 1, wid, id, r);
      } else {
        OtherStep(ss, acts, k, k + 1, wid, id);
      }
    }
  }
}
