/** What each step of the control plane makes of every task, field by field. */
module Outcomes {
  import opened Options
  import opened Status
  import opened WorkflowModel
  import opened EngineModel
  import opened Orchestration
  import opened Guarantees

  // ---------------------------------------------------------------- one workflow

  /** A failure or cancellation of `id`, as it shows in the other tasks. */
  lemma KilledTask(w: WorkflowState, id: string, t: TaskState, n: string)
    requires Consistent(w.tasks) && id in w.tasks && !IsFinished(w.tasks[id].status) && n in w.tasks
    requires t.dependsOn == w.tasks[id].dependsOn && (t.status.TaskFailed? || t.status.TaskCancelled?)
    ensures Kill(w.tasks, id, t).Keys == w.tasks.Keys
    ensures Kill(w.tasks, id, t)[n] ==
            if n == id then t
            else if !IsFinished(w.tasks[n].status) && DependsTransitively(w.tasks, n, id)
            then w.tasks[n].(status := TaskCancelled)
            else w.tasks[n]
  {
    KillEffect(w.tasks, id, t);
    CascadeIsExact(w.tasks, id, t);
    assert n != id ==> (InDownstream(w.tasks[id := t], id, n) <==> n in Downstream(w.tasks[id := t], id));
  }

  /** A task waits for `id` and for nothing else. */
  predicate WaitsOnlyFor(tasks: Tasks, n: string, id: string)
    requires n in tasks
  {
    && tasks[n].status.TaskPending?
    && forall d | d in tasks[n].dependsOn ::
      d == id || (d in tasks && tasks[d].status.TaskSucceeded?)
  }

  /** What is left of a report once it has been applied: the ready tasks are promoted. */
  lemma PromotedTask(w: WorkflowState, n: string)
    requires NoRetrying(w.tasks) && n in w.tasks
    ensures Finalize(MarkReady(w)).tasks.Keys == w.tasks.Keys
    ensures Finalize(MarkReady(w)).tasks[n] == if n in ReadySet(w.tasks) then w.tasks[n].(status := TaskReady)
                                               else w.tasks[n]
  {
  }

  lemma SuccessReadies(tasks: Tasks, id: string, t: TaskState, n: string)
    requires Consistent(tasks) && Promoted(tasks) && id in tasks && IsOnWorker(tasks[id].status) && n in tasks
    requires t.status.TaskSucceeded? && t.dependsOn == tasks[id].dependsOn
    ensures n in ReadySet(tasks[id := t]) <==> n != id && WaitsOnlyFor(tasks, n, id)
  {
  }

  lemma SucceededTask(w: WorkflowState, id: string, r: TaskResult, n: string)
    requires WorkflowInv(w) && id in w.tasks && IsOnWorker(w.tasks[id].status) && r.status.TaskSucceeded?
             && n in w.tasks
    ensures OnReport(w, id, r).tasks.Keys == w.tasks.Keys
    ensures OnReport(w, id, r).tasks[n] ==
            if n == id then w.tasks[id].(status := TaskSucceeded, result := Some(r))
            else if WaitsOnlyFor(w.tasks, n, id) then w.tasks[n].(status := TaskReady)
            else w.tasks[n]
  {
    var t := w.tasks[id].(status := TaskSucceeded, result := Some(r));
    assert ApplyReport(w, id, r) == w.(tasks := w.tasks[id := t]);
    SuccessReadies(w.tasks, id, t, n);
    PromotedTask(w.(tasks := w.tasks[id := t]), n);
  }

  lemma NothingToPromote(tasks: Tasks, tasks': Tasks)
    requires Promoted(tasks) && NoRetrying(tasks') && tasks'.Keys == tasks.Keys
    requires forall n | n in tasks :: tasks'[n].dependsOn == tasks[n].dependsOn
    requires forall n | n in tasks :: tasks'[n].status.TaskSucceeded? <==> tasks[n].status.TaskSucceeded?
    requires forall n | n in tasks && tasks'[n].status.TaskPending? :: tasks[n].status.TaskPending?
    ensures ReadySet(tasks') == {}
  {
    SuccessesKept(tasks, tasks');
  }

  lemma FailureReadiesNothing(tasks: Tasks, id: string, t: TaskState)
    requires Consistent(tasks) && Promoted(tasks) && id in tasks && IsOnWorker(tasks[id].status)
    requires t.status.TaskFailed? && t.dependsOn == tasks[id].dependsOn
    ensures NoRetrying(Kill(tasks, id, t)) && ReadySet(Kill(tasks, id, t)) == {}
  {
    KillEffect(tasks, id, t);
    NothingToPromote(tasks, Kill(tasks, id, t));
  }

  lemma FailedTask(w: WorkflowState, id: string, r: TaskResult, n: string)
    requires WorkflowInv(w) && id in w.tasks && IsOnWorker(w.tasks[id].status) && r.status.TaskFailed? && n in w.tasks
    ensures OnReport(w, id, r).tasks.Keys == w.tasks.Keys
    ensures OnReport(w, id, r).tasks[n] ==
            if n == id then w.tasks[id].(status := TaskFailed, result := Some(r))
            else if !IsFinished(w.tasks[n].status) && DependsTransitively(w.tasks, n, id)
            then w.tasks[n].(status := TaskCancelled)
            else w.tasks[n]
  {
    var t := w.tasks[id].(status := TaskFailed, result := Some(r));
    assert ApplyReport(w, id, r) == w.(tasks := Kill(w.tasks, id, t));
    FailureReadiesNothing(w.tasks, id, t);
    KilledTask(w, id, t, n);
    PromotedTask(w.(tasks := Kill(w.tasks, id, t)), n);
  }

  lemma StartedTask(w: WorkflowState, id: string, r: TaskResult, n: string)
    requires WorkflowInv(w) && id in w.tasks && w.tasks[id].status.TaskDispatched? && r.status.TaskRunning?
             && n in w.tasks
    ensures OnReport(w, id, r).tasks.Keys == w.tasks.Keys
    ensures OnReport(w, id, r).tasks[n] == if n == id then w.tasks[id].(status := TaskRunning) else w.tasks[n]
  {
    var w1 := ApplyReport(w, id, r);
    assert w1.tasks == w.tasks[id := w.tasks[id].(status := TaskRunning)];
    NothingToPromote(w.tasks, w1.tasks);
    PromotedTask(w1, n);
  }

  lemma CancelledTask(w: WorkflowState, id: string, n: string)
    requires WorkflowInv(w) && id in w.tasks && n in w.tasks && !IsFinished(w.tasks[id].status)
    ensures OnCancelTask(w, id).tasks.Keys == w.tasks.Keys
    ensures OnCancelTask(w, id).tasks[n] ==
            if n == id || (!IsFinished(w.tasks[n].status) && DependsTransitively(w.tasks, n, id))
            then w.tasks[n].(status := TaskCancelled)
            else w.tasks[n]
  {
    KilledTask(w, id, w.tasks[id].(status := TaskCancelled), n);
  }

  lemma SubmittedTask(w: WorkflowState, n: string)
    requires Fresh(w) && n in w.tasks
    ensures MarkReady(w).tasks.Keys == w.tasks.Keys
    ensures MarkReady(w).tasks[n] == if w.tasks[n].dependsOn == [] then w.tasks[n].(status := TaskReady) else w.tasks[n]
  {
    if w.tasks[n].dependsOn != [] {
      var d := w.tasks[n].dependsOn[0];
      assert d in w.tasks[n].dependsOn;
      assert !AllDepsSucceeded(w.tasks[n], w.tasks);
    }
  }

  // ---------------------------------------------------------------- steps of a run

  /** Apart from the workflow `wid`, everything is as before. */
  predicate OnlyIn(ws: Workflows, ws': Workflows, wid: string) {
    ws'.Keys == ws.Keys && forall v | v in ws && v != wid :: ws'[v] == ws[v]
  }

  lemma AfterFinalReport(ws: Workflows, wid: string, id: string, r: TaskResult, n: string)
    requires Has(ws, wid, id) && WorkflowInv(ws[wid]) && IsOnWorker(ws[wid].tasks[id].status)
    requires (r.status.TaskSucceeded? || r.status.TaskFailed?) && Has(ws, wid, n)
    ensures OnlyIn(ws, After(ws, TaskResponse(wid, id, r)), wid) && Has(After(ws, TaskResponse(wid, id, r)), wid, n)
    ensures var tasks := ws[wid].tasks;
            After(ws, TaskResponse(wid, id, r))[wid].tasks[n] ==
              if n == id then tasks[id].(status := r.status, result := Some(r))
              else if r.status.TaskFailed? && !IsFinished(tasks[n].status) && DependsTransitively(tasks, n, id)
              then tasks[n].(status := TaskCancelled)
              else if r.status.TaskSucceeded? && WaitsOnlyFor(tasks, n, id) then tasks[n].(status := TaskReady)
              else tasks[n]
  {
    if r.status.TaskFailed? {
      FailedTask(ws[wid], id, r, n);
    } else {
      SucceededTask(ws[wid], id, r, n);
    }
  }

  lemma AfterRunningReport(ws: Workflows, wid: string, id: string, r: TaskResult, n: string)
    requires Has(ws, wid, id) && WorkflowInv(ws[wid]) && ws[wid].tasks[id].status.TaskDispatched?
    requires r.status.TaskRunning? && Has(ws, wid, n)
    ensures OnlyIn(ws, After(ws, TaskResponse(wid, id, r)), wid) && Has(After(ws, TaskResponse(wid, id, r)), wid, n)
    ensures var t := ws[wid].tasks[n];
            After(ws, TaskResponse(wid, id, r))[wid].tasks[n] == if n == id then t.(status := TaskRunning) else t
  {
    StartedTask(ws[wid], id, r, n);
  }

  lemma AfterCancelTask(ws: Workflows, wid: string, id: string, n: string)
    requires Has(ws, wid, id) && WorkflowInv(ws[wid]) && Has(ws, wid, n)
    ensures OnlyIn(ws, After(ws, CancelTask(wid, id)), wid) && Has(After(ws, CancelTask(wid, id)), wid, n)
    ensures var tasks := ws[wid].tasks;
            After(ws, CancelTask(wid, id))[wid].tasks[n] ==
              if !IsFinished(tasks[id].status)
                 && (n == id || (!IsFinished(tasks[n].status) && DependsTransitively(tasks, n, id)))
              then tasks[n].(status := TaskCancelled)
              else tasks[n]
  {
    if !IsFinished(ws[wid].tasks[id].status) {
      CancelledTask(ws[wid], id, n);
    }
  }

  lemma StoppedWorkflow(w: WorkflowState, n: string)
    requires NoRetrying(w.tasks) && n in w.tasks
    ensures OnCancelWorkflow(w).tasks.Keys == w.tasks.Keys
    ensures OnCancelWorkflow(w).tasks[n] == if IsFinished(w.tasks[n].status) then w.tasks[n]
                                            else w.tasks[n].(status := TaskCancelled)
    ensures OnCancelWorkflow(w).status == if IsWorkflowFinished(w.status) then w.status else WorkflowCancelled
  {
  }

  lemma SubmittedStatus(w: WorkflowState)
    requires Fresh(w) && w.tasks != map[]
    ensures MarkReady(w).status.WorkflowRunning?
  {
    SubmitEstablishes(w);
    assert MarkReady(w).tasks.Keys == w.tasks.Keys;
    assert MarkReady(w).tasks != map[];
  }

  lemma DispatchedTask(ws: Workflows, d: Delivery, n: string)
    requires Has(ws, d.job.workflowId, n) && Has(ws, d.job.workflowId, d.job.id)
    requires StatusOf(ws, d.job.workflowId, d.job.id).TaskReady?
             || StatusOf(ws, d.job.workflowId, d.job.id).TaskCancelled?
    ensures var c := OnTaskDispatched(d.job.workflowId, d.job.id, d.worker);
            && OnlyIn(ws, After(ws, c), d.job.workflowId) && Has(After(ws, c), d.job.workflowId, n)
            && After(ws, c)[d.job.workflowId].status == ws[d.job.workflowId].status
            && After(ws, c)[d.job.workflowId].tasks[n] ==
               var t := ws[d.job.workflowId].tasks[n];
               if n != d.job.id then t
               else if t.status.TaskReady? then t.(status := TaskDispatched, assignedTo := d.worker)
               else t.(assignedTo := d.worker)
  {
  }

  /** The step handles this call of the engine. */
  ghost predicate Calls(ss: seq<Sys>, acts: seq<Action>, i: nat, c: Call) {
    IsRun(ss, acts) && i < |acts| && acts[i] == EngineCall(c)
  }

  lemma CallOfRun(ss: seq<Sys>, acts: seq<Action>, i: nat, j: nat, c: Call, wid: string)
    requires Calls(ss, acts, i, c) && j == i + 1
    ensures wid in ss[i].engine.workflows ==> WorkflowInv(ss[i].engine.workflows[wid])
    ensures c.Submit? ==> c.workflowId !in ss[i].engine.workflows && Fresh(c.workflow)
    ensures ss[j].engine.workflows == After(ss[i].engine.workflows, c)
  {
    EveryReachableStateIsGood(ss, acts, i);
    RunStep(ss, acts, i, ss[i], acts[i], ss[j]);
  }

  /** A final report of a task on a worker ends the task with this report as its result. A failure cancels what depends
      on the task and is unfinished; a success makes READY what waited for this task only; all else stays. */
  lemma {:induction false} FinalReportOutcome(
      ss: seq<Sys>, acts: seq<Action>, i: nat, wid: string, id: string, r: TaskResult, n: string)
    requires Calls(ss, acts, i, TaskResponse(wid, id, r))
    requires Has(ss[i].engine.workflows, wid, id) && IsOnWorker(StatusOf(ss[i].engine.workflows, wid, id))
    requires (r.status.TaskSucceeded? || r.status.TaskFailed?) && Has(ss[i].engine.workflows, wid, n)
    ensures OnlyIn(ss[i].engine.workflows, ss[i + 1].engine.workflows, wid) && Has(ss[i + 1].engine.workflows, wid, n)
    ensures var tasks, t' := ss[i].engine.workflows[wid].tasks, ss[i + 1].engine.workflows[wid].tasks[n];
            t' == if n == id then tasks[id].(status := r.status, result := Some(r))
                  else if r.status.TaskFailed? && !IsFinished(tasks[n].status) && DependsTransitively(tasks, n, id)
                  then tasks[n].(status := TaskCancelled)
                  else if r.status.TaskSucceeded? && WaitsOnlyFor(tasks, n, id) then tasks[n].(status := TaskReady)
                  else tasks[n]
  {
    CallOfRun(ss, acts, i, i + 1, TaskResponse(wid, id, r), wid);
    AfterFinalReport(ss[i].engine.workflows, wid, id, r, n);
  }

  /** The first report that a task runs marks it RUNNING and does nothing else. */
  lemma {:induction false} RunningReportOutcome(
      ss: seq<Sys>, acts: seq<Action>, i: nat, wid: string, id: string, r: TaskResult, n: string)
    requires Calls(ss, acts, i, TaskResponse(wid, id, r)) && r.status.TaskRunning?
    requires Has(ss[i].engine.workflows, wid, id) && StatusOf(ss[i].engine.workflows, wid, id).TaskDispatched?
    requires Has(ss[i].engine.workflows, wid, n)
    ensures OnlyIn(ss[i].engine.workflows, ss[i + 1].engine.workflows, wid) && Has(ss[i + 1].engine.workflows, wid, n)
    ensures var t, t' := ss[i].engine.workflows[wid].tasks[n], ss[i + 1].engine.workflows[wid].tasks[n];
            t' == if n == id then t.(status := TaskRunning) else t
  {
    CallOfRun(ss, acts, i, i + 1, TaskResponse(wid, id, r), wid);
    AfterRunningReport(ss[i].engine.workflows, wid, id, r, n);
  }

  /** Cancelling an unfinished task cancels it and every unfinished task that depends on it, through any chain, and
      touches no other. */
  lemma {:induction false} CancelTaskOutcome(ss: seq<Sys>, acts: seq<Action>, i: nat, wid: string, id: string,
                                             n: string)
    requires Calls(ss, acts, i, CancelTask(wid, id))
    requires Has(ss[i].engine.workflows, wid, id) && Has(ss[i].engine.workflows, wid, n)
    ensures OnlyIn(ss[i].engine.workflows, ss[i + 1].engine.workflows, wid) && Has(ss[i + 1].engine.workflows, wid, n)
    ensures var tasks, t' := ss[i].engine.workflows[wid].tasks, ss[i + 1].engine.workflows[wid].tasks[n];
            t' == if !IsFinished(tasks[id].status)
                     && (n == id || (!IsFinished(tasks[n].status) && DependsTransitively(tasks, n, id)))
                  then tasks[n].(status := TaskCancelled)
                  else tasks[n]
  {
    CallOfRun(ss, acts, i, i + 1, CancelTask(wid, id), wid);
    AfterCancelTask(ss[i].engine.workflows, wid, id, n);
  }

  /** Cancelling a workflow cancels every task that is unfinished, and the workflow unless it has finished. */
  lemma {:induction false} CancelWorkflowOutcome(ss: seq<Sys>, acts: seq<Action>, i: nat, wid: string, n: string)
    requires Calls(ss, acts, i, CancelWorkflow(wid)) && Has(ss[i].engine.workflows, wid, n)
    ensures OnlyIn(ss[i].engine.workflows, ss[i + 1].engine.workflows, wid) && Has(ss[i + 1].engine.workflows, wid, n)
    ensures var w, w' := ss[i].engine.workflows[wid], ss[i + 1].engine.workflows[wid];
            && w'.tasks[n] == (if IsFinished(w.tasks[n].status) then w.tasks[n]
                               else w.tasks[n].(status := TaskCancelled))
            && w'.status == if IsWorkflowFinished(w.status) then w.status else WorkflowCancelled
  {
    CallOfRun(ss, acts, i, i + 1, CancelWorkflow(wid), wid);
    StoppedWorkflow(ss[i].engine.workflows[wid], n);
  }

  /** A worker's death makes READY and unassigns exactly the tasks that are on this worker. */
  lemma {:induction false} DeathOutcome(ss: seq<Sys>, acts: seq<Action>, i: nat, worker: string, wid: string, n: string)
    requires Calls(ss, acts, i, WorkerDead(worker)) && Has(ss[i].engine.workflows, wid, n)
    ensures ss[i + 1].engine.workflows.Keys == ss[i].engine.workflows.Keys && Has(ss[i + 1].engine.workflows, wid, n)
    ensures var t, t' := ss[i].engine.workflows[wid].tasks[n], ss[i + 1].engine.workflows[wid].tasks[n];
            t' == if (t.status.TaskDispatched? || t.status.TaskRunning?) && t.assignedTo == worker
                  then t.(status := TaskReady, assignedTo := "") else t
    ensures ss[i + 1].engine.workflows[wid].status == ss[i].engine.workflows[wid].status
  {
    CallOfRun(ss, acts, i, i + 1, WorkerDead(worker), wid);
  }

  /** A submitted workflow is there as it was built, with the tasks READY that depend on nothing. */
  lemma {:induction false} SubmitOutcome(
      ss: seq<Sys>, acts: seq<Action>, i: nat, wid: string, w: WorkflowState, n: string)
    requires Calls(ss, acts, i, Submit(wid, w)) && n in w.tasks
    ensures ss[i + 1].engine.workflows.Keys == ss[i].engine.workflows.Keys + {wid}
    ensures forall v | v in ss[i].engine.workflows ::
              v != wid && ss[i + 1].engine.workflows[v] == ss[i].engine.workflows[v]
    ensures var w' := ss[i + 1].engine.workflows[wid];
            && w'.tasks.Keys == w.tasks.Keys && w'.status == WorkflowRunning
            && w'.tasks[n] == if w.tasks[n].dependsOn == [] then w.tasks[n].(status := TaskReady) else w.tasks[n]
  {
    CallOfRun(ss, acts, i, i + 1, Submit(wid, w), wid);
    SubmittedTask(w, n);
    SubmittedStatus(w);
  }

  lemma CarriedTask(ss: seq<Sys>, acts: seq<Action>, i: nat, j: nat, d: Delivery)
    requires IsRun(ss, acts) && j == i + 1 <= |acts| && acts[i].RpcDone? && ss[i].inflight == Some(d)
    ensures var ws := ss[i].engine.workflows;
            && Has(ws, d.job.workflowId, d.job.id)
            && (StatusOf(ws, d.job.workflowId, d.job.id).TaskReady?
                || StatusOf(ws, d.job.workflowId, d.job.id).TaskCancelled?)
            && ss[j].engine.workflows == After(ws, OnTaskDispatched(d.job.workflowId, d.job.id, d.worker))
  {
    EveryReachableStateIsGood(ss, acts, i);
    InflightStatus(ss[i]);
    RunStep(ss, acts, i, ss[i], acts[i], ss[j]);
  }

  /** The dispatch callback names the worker on its task, which becomes DISPATCHED if it was READY; all else stays. */
  lemma {:induction false} DispatchOutcome(ss: seq<Sys>, acts: seq<Action>, i: nat, d: Delivery, n: string)
    requires IsRun(ss, acts) && i < |acts| && acts[i].RpcDone? && ss[i].inflight == Some(d)
    requires Has(ss[i].engine.workflows, d.job.workflowId, n)
    ensures OnlyIn(ss[i].engine.workflows, ss[i + 1].engine.workflows, d.job.workflowId)
    ensures Has(ss[i + 1].engine.workflows, d.job.workflowId, n)
    ensures var w, w' := ss[i].engine.workflows[d.job.workflowId], ss[i + 1].engine.workflows[d.job.workflowId];
            && w'.status == w.status
            && w'.tasks[n] == if n != d.job.id then w.tasks[n]
                              else if w.tasks[n].status.TaskReady?
                              then w.tasks[n].(status := TaskDispatched, assignedTo := d.worker)
                              else w.tasks[n].(assignedTo := d.worker)
  {
    CarriedTask(ss, acts, i, i + 1, d);
    DispatchedTask(ss[i].engine.workflows, d, n);
  }

  /** No other step touches a workflow. */
  lemma SchedulerOutcome(ss: seq<Sys>, acts: seq<Action>, i: nat)
    requires IsRun(ss, acts) && i < |acts| && !acts[i].EngineCall? && !acts[i].RpcDone?
    ensures ss[i + 1].engine.workflows == ss[i].engine.workflows
  {
    RunStep(ss, acts, i, ss[i], acts[i], ss[i + 1]);
  }

  // ---------------------------------------------------------------- the verdict

  lemma FinalizedVerdict(ws: Workflows, c: Call, wid: string)
    requires wid in ws && !IsWorkflowFinished(ws[wid].status) && (c.TaskResponse? || c.CancelTask?)
    requires wid in After(ws, c) && IsWorkflowFinished(After(ws, c)[wid].status)
    ensures After(ws, c)[wid].status == Verdict(After(ws, c)[wid].tasks)
  {
  }

  lemma OtherCallsFinishNothing(ws: Workflows, c: Call, wid: string)
    requires wid in ws && !IsWorkflowFinished(ws[wid].status) && wid in After(ws, c)
    requires c.WorkerDead? || c.OnTaskDispatched? || (c.CancelWorkflow? && c.workflowId != wid)
             || (c.Submit? && c.workflowId != wid)
    ensures !IsWorkflowFinished(After(ws, c)[wid].status)
  {
  }

  lemma FinishingStep(s: Sys, a: Action, s': Sys, wid: string)
    requires Next(s, a, s') && wid in s.engine.workflows && !IsWorkflowFinished(s.engine.workflows[wid].status)
    requires wid in s'.engine.workflows && IsWorkflowFinished(s'.engine.workflows[wid].status)
    requires a != EngineCall(CancelWorkflow(wid))
    ensures s'.engine.workflows[wid].status == Verdict(s'.engine.workflows[wid].tasks)
  {
    match a
    case EngineCall(c) =>
      if c.TaskResponse? || c.CancelTask? {
        FinalizedVerdict(s.engine.workflows, c, wid);
      } else {
        OtherCallsFinishNothing(s.engine.workflows, c, wid);
      }
    case RpcDone =>
      var Delivery(j, w) := s.inflight.value;
      OtherCallsFinishNothing(s.engine.workflows, OnTaskDispatched(j.workflowId, j.id, w), wid);
    case _ =>
  }

  /** A workflow that finishes otherwise than by its own cancellation has finished tasks only, and is FAILED if one
      failed, else CANCELLED if one was cancelled, else SUCCEEDED. */
  lemma {:induction false} FinishedByItsTasks(ss: seq<Sys>, acts: seq<Action>, i: nat, wid: string)
    requires IsRun(ss, acts) && i < |acts| && acts[i] != EngineCall(CancelWorkflow(wid))
    requires wid in ss[i].engine.workflows && !IsWorkflowFinished(ss[i].engine.workflows[wid].status)
    requires wid in ss[i + 1].engine.workflows && IsWorkflowFinished(ss[i + 1].engine.workflows[wid].status)
    ensures var w := ss[i + 1].engine.workflows[wid];
            && (forall n | n in w.tasks :: IsFinished(w.tasks[n].status))
            && w.status == if exists n :: n in w.tasks && w.tasks[n].status.TaskFailed? then WorkflowFailed
                           else if exists n :: n in w.tasks && w.tasks[n].status.TaskCancelled? then WorkflowCancelled
                           else WorkflowSucceeded
  {
    RunStep(ss, acts, i, ss[i], acts[i], ss[i + 1]);
    FinishingStep(ss[i], acts[i], ss[i + 1], wid);
    NothingUnfinished(ss, acts, i + 1, wid);
  }

  lemma NothingUnfinished(ss: seq<Sys>, acts: seq<Action>, i: nat, wid: string)
    requires IsRun(ss, acts) && i < |ss| && wid in ss[i].engine.workflows
    requires IsWorkflowFinished(ss[i].engine.workflows[wid].status)
    ensures AllTasksFinished(ss[i].engine.workflows[wid].tasks)
  {
    EveryReachableStateIsGood(ss, acts, i);
    assert WorkflowInv(ss[i].engine.workflows[wid]);
  }
}
