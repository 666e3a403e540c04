/** Which workflows can still succeed. */
module Completion {
  import opened Options
  import opened Status
  import opened WorkflowModel
  import opened EngineModel
  import opened Orchestration
  import opened Guarantees
  import opened DeadWorkers
  import opened Sequences

  /** Nothing of the workflow has failed or been cancelled. */
  ghost predicate Clean(w: WorkflowState) {
    forall id | id in w.tasks :: !w.tasks[id].status.TaskFailed? && !w.tasks[id].status.TaskCancelled?
  }

  // ---------------------------------------------------------------- delivering what is queued

  const SOMEBODY := "worker"

  /** Some READY tasks have been dispatched, and nothing else. */
  ghost predicate OnlyDispatched(w: WorkflowState, w': WorkflowState) {
    && w'.tasks.Keys == w.tasks.Keys
    && forall id | id in w.tasks ::
      || w'.tasks[id].status == w.tasks[id].status
      || (w.tasks[id].status.TaskReady? && w'.tasks[id].status.TaskDispatched?)
  }

  lemma OnlyDispatchedTwice(w: WorkflowState, w1: WorkflowState, w2: WorkflowState)
    requires OnlyDispatched(w, w1) && OnlyDispatched(w1, w2)
    ensures OnlyDispatched(w, w2)
  {
  }

  lemma OnlyDispatchedKeeps(w: WorkflowState, w': WorkflowState)
    requires OnlyDispatched(w, w')
    ensures UnfinishedSet(w'.tasks) == UnfinishedSet(w.tasks) && (Clean(w) ==> Clean(w'))
  {
    assert forall id | id in w.tasks :: IsFinished(w'.tasks[id].status) <==> IsFinished(w.tasks[id].status);
  }

  lemma DispatchOnlyDispatches(ws: Workflows, j: Job, worker: string, wid: string)
    requires wid in ws
    ensures wid in After(ws, OnTaskDispatched(j.workflowId, j.id, worker))
    ensures NoRetrying(ws[wid].tasks) ==>
              OnlyDispatched(ws[wid], After(ws, OnTaskDispatched(j.workflowId, j.id, worker))[wid])
  {
  }

  lemma Delivering(s: Sys, wid: string) returns (s': Sys)
    requires SysInv(s) && s.inflight.Some? && wid in s.engine.workflows
    ensures Next(s, RpcDone, s') && SysInv(s') && |Tokens(s')| < |Tokens(s)|
    ensures wid in s'.engine.workflows && OnlyDispatched(s.engine.workflows[wid], s'.engine.workflows[wid])
  {
    var Delivery(j, worker) := s.inflight.value;
    var e := CanCall(s.engine, OnTaskDispatched(j.workflowId, j.id, worker));
    s' := s.(engine := e, inflight := None, target := s.target[(j.workflowId, j.id) := worker]);
    assert Next(s, RpcDone, s');
    StepKeepsInvariant(s, RpcDone, s');
    DispatchOnlyDispatches(s.engine.workflows, j, worker, wid);
    DispatchMakesNothingReady(s.engine.workflows, j.workflowId, j.id, worker);
    AppendsNothing(s.engine.queue, e.queue);
    assert Tokens(s) == Tokens(s') + multiset{j};
  }

  lemma Sending(s: Sys) returns (s': Sys)
    requires SysInv(s) && s.inflight.None? && s.held != []
    ensures Next(s, Send(SOMEBODY), s') && SysInv(s') && s'.inflight.Some? && s'.engine == s.engine
    ensures Tokens(s') == Tokens(s)
  {
    s' := s.(held := s.held[1..], inflight := Some(Delivery(s.held[0], SOMEBODY)));
    assert Next(s, Send(SOMEBODY), s');
    StepKeepsInvariant(s, Send(SOMEBODY), s');
    SchedulerConservesTokens(s, Send(SOMEBODY), s');
  }

  lemma Popping(s: Sys) returns (s': Sys)
    requires SysInv(s) && s.inflight.None? && s.held == [] && s.engine.queue != []
    ensures Next(s, PopBatch, s') && SysInv(s') && s'.held != [] && s'.inflight.None?
    ensures s'.engine.workflows == s.engine.workflows && Tokens(s') == Tokens(s)
  {
    var n := if |s.engine.queue| < BATCH then |s.engine.queue| else BATCH;
    s' := s.(engine := s.engine.(queue := s.engine.queue[n..]), held := s.engine.queue[..n]);
    assert Next(s, PopBatch, s');
    StepKeepsInvariant(s, PopBatch, s');
    SchedulerConservesTokens(s, PopBatch, s');
  }

  lemma NothingAnywhere(s: Sys)
    requires s.inflight.None? && s.held == [] && s.engine.queue == []
    ensures Tokens(s) == multiset{}
  {
  }

  /** As long as there is a job, one can be delivered. */
  lemma DeliverOne(s: Sys, wid: string) returns (acts: seq<Action>, s': Sys)
    requires SysInv(s) && wid in s.engine.workflows && Tokens(s) != multiset{}
    ensures Leads(s, acts, s') && SysInv(s') && |Tokens(s')| < |Tokens(s)|
    ensures wid in s'.engine.workflows && OnlyDispatched(s.engine.workflows[wid], s'.engine.workflows[wid])
  {
    acts := [];
    var m := s;
    LeadsNowhere(s);
    if m.inflight.None? && m.held == [] {
      if m.engine.queue == [] {
        NothingAnywhere(s);
      }
      var n := Popping(m);
      LeadsOn(s, acts, m, PopBatch, n);
      acts, m := acts + [PopBatch], n;
    }
    if m.inflight.None? {
      var n := Sending(m);
      LeadsOn(s, acts, m, Send(SOMEBODY), n);
      acts, m := acts + [Send(SOMEBODY)], n;
    }
    s' := Delivering(m, wid);
    LeadsOn(s, acts, m, RpcDone, s');
    acts := acts + [RpcDone];
  }

  lemma {:induction false} DeliverAll(s: Sys, wid: string) returns (acts: seq<Action>, s': Sys)
    requires SysInv(s) && wid in s.engine.workflows
    ensures Leads(s, acts, s') && SysInv(s') && Tokens(s') == multiset{}
    ensures wid in s'.engine.workflows && OnlyDispatched(s.engine.workflows[wid], s'.engine.workflows[wid])
    decreases |Tokens(s)|
  {
    if Tokens(s) == multiset{} {
      LeadsNowhere(s);
      return [], s;
    }
    var first, m := DeliverOne(s, wid);
    var more;
    more, s' := DeliverAll(m, wid);
    LeadsVia(s, first, m, more, s');
    OnlyDispatchedTwice(s.engine.workflows[wid], m.engine.workflows[wid], s'.engine.workflows[wid]);
    acts := first + more;
  }

  // ---------------------------------------------------------------- one more success

  /** One task has succeeded, some others have become READY. */
  ghost predicate OneSucceeded(w: WorkflowState, id: string, w': WorkflowState) {
    && w'.tasks.Keys == w.tasks.Keys
    && forall n | n in w.tasks ::
      if n == id then w'.tasks[n].status.TaskSucceeded?
      else w'.tasks[n].status == w.tasks[n].status || (w.tasks[n].status.TaskPending? && w'.tasks[n].status.TaskReady?)
  }

  lemma ReportOfSuccess(w: WorkflowState, id: string, r: TaskResult)
    requires NoRetrying(w.tasks) && id in w.tasks && IsOnWorker(w.tasks[id].status) && r.status.TaskSucceeded?
    ensures OneSucceeded(w, id, OnReport(w, id, r))
  {
    var w1 := ApplyReport(w, id, r);
    assert w1.tasks == w.tasks[id := w.tasks[id].(status := TaskSucceeded, result := Some(r))];
    PromotionOfOthers(w1);
  }

  lemma PromotionOfOthers(w: WorkflowState)
    requires NoRetrying(w.tasks)
    ensures var w' := Finalize(MarkReady(w));
            && w'.tasks.Keys == w.tasks.Keys
            && forall n | n in w.tasks ::
                 w'.tasks[n].status == w.tasks[n].status
                     || (w.tasks[n].status.TaskPending? && w'.tasks[n].status.TaskReady?)
  {
  }

  lemma SuccessShrinks(w: WorkflowState, id: string, w': WorkflowState)
    requires OneSucceeded(w, id, w') && id in w.tasks && !IsFinished(w.tasks[id].status)
    ensures UnfinishedSet(w'.tasks) == UnfinishedSet(w.tasks) - {id}
    ensures |UnfinishedSet(w'.tasks)| < |UnfinishedSet(w.tasks)|
    ensures Clean(w) ==> Clean(w')
  {
    assert id in UnfinishedSet(w.tasks);
  }

  const DONE := TaskResult(TaskSucceeded, 0, "", "", "", 0)

  lemma Succeeding(s: Sys, wid: string, id: string) returns (s': Sys)
    requires SysInv(s) && Has(s.engine.workflows, wid, id) && IsOnWorker(StatusOf(s.engine.workflows, wid, id))
    ensures Next(s, EngineCall(TaskResponse(wid, id, DONE)), s') && SysInv(s')
    ensures wid in s'.engine.workflows && OneSucceeded(s.engine.workflows[wid], id, s'.engine.workflows[wid])
  {
    var e := CanCall(s.engine, TaskResponse(wid, id, DONE));
    s' := s.(engine := e);
    StepKeepsInvariant(s, EngineCall(TaskResponse(wid, id, DONE)), s');
    assert WorkflowInv(s.engine.workflows[wid]);
    ReportOfSuccess(s.engine.workflows[wid], id, DONE);
  }

  lemma SomeOnWorker(s: Sys, wid: string) returns (id: string)
    requires SysInv(s) && wid in s.engine.workflows && Tokens(s) == multiset{}
    requires !AllTasksFinished(s.engine.workflows[wid].tasks)
    ensures Has(s.engine.workflows, wid, id) && IsOnWorker(StatusOf(s.engine.workflows, wid, id))
  {
    var w := s.engine.workflows[wid];
    SomeTaskIsLive(w.tasks);
    id :| id in w.tasks && IsLive(w.tasks[id].status);
    assert Has(s.engine.workflows, wid, id);
    assert TokenCount(StatusOf(s.engine.workflows, wid, id), Tokens(s)[JobOf(s.engine.workflows, wid, id)]);
  }

  lemma CleanAndFinished(w: WorkflowState)
    requires WorkflowInv(w) && Clean(w) && w.tasks != map[] && AllTasksFinished(w.tasks)
    ensures w.status.WorkflowSucceeded?
  {
    assert AllSucceeded(w.tasks);
  }

  /** A workflow of which nothing has failed or been cancelled can be brought to success: deliver what is queued, let a
      task on a worker succeed, and so on. */
  lemma {:induction false} BringToSuccess(s: Sys, wid: string) returns (acts: seq<Action>, s': Sys)
    requires SysInv(s) && wid in s.engine.workflows && s.engine.workflows[wid].tasks != map[]
    requires Clean(s.engine.workflows[wid])
    ensures Leads(s, acts, s') && wid in s'.engine.workflows && s'.engine.workflows[wid].status.WorkflowSucceeded?
    decreases |UnfinishedSet(s.engine.workflows[wid].tasks)|
  {
    if AllTasksFinished(s.engine.workflows[wid].tasks) {
      LeadsNowhere(s);
      CleanAndFinished(s.engine.workflows[wid]);
      return [], s;
    }
    var m;
    acts, m := OneMoreSuccess(s, wid);
    var more;
    more, s' := BringToSuccess(m, wid);
    LeadsVia(s, acts, m, more, s');
    acts := acts + more;
  }

  lemma OneMoreSuccess(s: Sys, wid: string) returns (acts: seq<Action>, s': Sys)
    requires SysInv(s) && wid in s.engine.workflows && Clean(s.engine.workflows[wid])
    requires !AllTasksFinished(s.engine.workflows[wid].tasks)
    ensures Leads(s, acts, s') && SysInv(s') && wid in s'.engine.workflows && Clean(s'.engine.workflows[wid])
    ensures s'.engine.workflows[wid].tasks != map[]
    ensures |UnfinishedSet(s'.engine.workflows[wid].tasks)| < |UnfinishedSet(s.engine.workflows[wid].tasks)|
  {
    var m;
    acts, m := DeliverAll(s, wid);
    UnfinishedAfterDelivery(s.engine.workflows[wid], m.engine.workflows[wid]);
    var id := SomeOnWorker(m, wid);
    s' := Succeeding(m, wid, id);
    LeadsOn(s, acts, m, EngineCall(TaskResponse(wid, id, DONE)), s');
    acts := acts + [EngineCall(TaskResponse(wid, id, DONE))];
    SuccessShrinks(m.engine.workflows[wid], id, s'.engine.workflows[wid]);
    assert id in s'.engine.workflows[wid].tasks;
  }

  lemma UnfinishedAfterDelivery(w: WorkflowState, w': WorkflowState)
    requires OnlyDispatched(w, w') && Clean(w) && !AllTasksFinished(w.tasks)
    ensures Clean(w') && !AllTasksFinished(w'.tasks) && UnfinishedSet(w'.tasks) == UnfinishedSet(w.tasks)
  {
    OnlyDispatchedKeeps(w, w');
    var some :| some in w.tasks && !IsFinished(w.tasks[some].status);
    assert some in UnfinishedSet(w'.tasks);
  }

  // ---------------------------------------------------------------- and no other

  /** A task that has failed or been cancelled stays as it ended. */
  lemma {:induction false} SpoiledForGood(s: Sys, acts: seq<Action>, s': Sys, wid: string, id: string)
    requires SysInv(s) && Leads(s, acts, s')
    requires StatusOf(s.engine.workflows, wid, id).TaskFailed? || StatusOf(s.engine.workflows, wid, id).TaskCancelled?
    ensures SysInv(s') && StatusOf(s'.engine.workflows, wid, id) == StatusOf(s.engine.workflows, wid, id)
  {
    var ss: seq<Sys> :| Segment(ss, acts) && ss[0] == s && ss[|acts|] == s';
    for k := 0 to |acts|
      invariant SysInv(ss[k]) && StatusOf(ss[k].engine.workflows, wid, id) == StatusOf(s.engine.workflows, wid, id)
    {
      assert Follows(ss, acts, k);
      SpoiledSegmentStep(ss, acts, k, k + 1, wid, id);
    }
  }

  lemma SpoiledSegmentStep(ss: seq<Sys>, acts: seq<Action>, i: nat, j: nat, wid: string, id: string)
    requires Segment(ss, acts) && j == i + 1 <= |acts| && SysInv(ss[i])
    requires StatusOf(ss[i].engine.workflows, wid, id).TaskFailed?
             || StatusOf(ss[i].engine.workflows, wid, id).TaskCancelled?
    ensures SysInv(ss[j]) && StatusOf(ss[j].engine.workflows, wid, id) == StatusOf(ss[i].engine.workflows, wid, id)
  {
    assert Follows(ss, acts, i);
    StepKeepsInvariant(ss[i], acts[i], ss[j]);
    FinishedTaskStays(ss[i], acts[i], ss[j], wid, id);
  }

  lemma SucceededHasSuccesses(s: Sys, wid: string, id: string)
    requires SysInv(s) && Has(s.engine.workflows, wid, id) && s.engine.workflows[wid].status.WorkflowSucceeded?
    ensures StatusOf(s.engine.workflows, wid, id).TaskSucceeded?
  {
    assert VerdictRight(s.engine.workflows[wid]);
  }

  /** The workflow can still succeed. */
  ghost predicate CanSucceed(s: Sys, wid: string) {
    exists acts, s' ::
      Leads(s, acts, s') && wid in s'.engine.workflows && s'.engine.workflows[wid].status.WorkflowSucceeded?
  }

  lemma SpoiledCannotSucceed(s: Sys, wid: string, id: string)
    requires SysInv(s) && Has(s.engine.workflows, wid, id)
    requires StatusOf(s.engine.workflows, wid, id).TaskFailed? || StatusOf(s.engine.workflows, wid, id).TaskCancelled?
    ensures !CanSucceed(s, wid)
  {
    forall acts, s' | Leads(s, acts, s') && wid in s'.engine.workflows
      ensures !s'.engine.workflows[wid].status.WorkflowSucceeded?
    {
      SpoiledForGood(s, acts, s', wid, id);
      if s'.engine.workflows[wid].status.WorkflowSucceeded? {
        SucceededHasSuccesses(s', wid, id);
      }
    }
  }

  /** From every state of every run, a workflow with tasks can still be brought to success if and only if none of its
      tasks has failed or been cancelled. */
  lemma {:induction false} SuccessIsPossibleIff(ss: seq<Sys>, acts: seq<Action>, i: nat, wid: string)
    requires IsRun(ss, acts) && i < |ss|
    requires wid in ss[i].engine.workflows && ss[i].engine.workflows[wid].tasks != map[]
    ensures CanSucceed(ss[i], wid) <==> Clean(ss[i].engine.workflows[wid])
  {
    EveryReachableStateIsGood(ss, acts, i);
    if Clean(ss[i].engine.workflows[wid]) {
      var more, s' := BringToSuccess(ss[i], wid);
    } else {
      var id :| id in ss[i].engine.workflows[wid].tasks
                && (ss[i].engine.workflows[wid].tasks[id].status.TaskFailed?
                    || ss[i].engine.workflows[wid].tasks[id].status.TaskCancelled?);
      SpoiledCannotSucceed(ss[i], wid, id);
    }
  }
}
