/** What becomes of a job whose task is cancelled before it has been dispatched. */
module CancelledJobs {
  import opened Status
  import opened WorkflowModel
  import opened EngineModel
  import opened Orchestration
  import opened Guarantees
  import opened DeadWorkers

  /** How many copies of the task's job there are. */
  function Copies(s: Sys, wid: string, id: string): nat {
    if Has(s.engine.workflows, wid, id) then Tokens(s)[JobOf(s.engine.workflows, wid, id)] else 0
  }

  predicate IsCancelled(s: Sys, wid: string, id: string) {
    Has(s.engine.workflows, wid, id) && StatusOf(s.engine.workflows, wid, id).TaskCancelled?
  }

  /** The dispatch callback of the task's job, from whatever worker. */
  predicate Arrives(s: Sys, a: Action, wid: string, id: string) {
    && a.RpcDone? && s.inflight.Some?
    && s.inflight.value.job.workflowId == wid && s.inflight.value.job.id == id
  }

  function WorkerOf(s: Sys, wid: string, id: string): string
    requires Has(s.engine.workflows, wid, id)
  {
    s.engine.workflows[wid].tasks[id].assignedTo
  }

  // ---------------------------------------------------------------- one step

  lemma CallTokens(s: Sys, c: Call, s': Sys)
    requires Next(s, EngineCall(c), s')
    ensures Tokens(s') == Tokens(s) + multiset(NewlyReady(s.engine.workflows, s'.engine.workflows))
  {
    AppendsCount(s.engine.queue, s'.engine.queue, NewlyReady(s.engine.workflows, s'.engine.workflows));
  }

  lemma ArrivalTokens(s: Sys, s': Sys)
    requires Next(s, RpcDone, s')
    ensures Tokens(s) == Tokens(s') + multiset{s.inflight.value.job}
  {
    var Delivery(j, w) := s.inflight.value;
    DispatchMakesNothingReady(s.engine.workflows, j.workflowId, j.id, w);
    AppendsNothing(s.engine.queue, s'.engine.queue);
  }

  /** Calls push no job of a task that ends up cancelled. */
  lemma CancelledTaskAfterCall(ws: Workflows, ws': Workflows, wid: string, id: string)
    requires Moves(ws, ws') && Has(ws, wid, id) && StatusOf(ws', wid, id).TaskCancelled?
    ensures Has(ws', wid, id) && JobOf(ws', wid, id) == JobOf(ws, wid, id)
            && JobOf(ws', wid, id) !in NewlyReady(ws, ws')
    ensures ws'[wid].tasks[id].assignedTo == ws[wid].tasks[id].assignedTo
  {
    var t := MovedTask(ws, ws', wid, id);
  }

  lemma CancelledTaskStays(ws: Workflows, ws': Workflows, wid: string, id: string)
    requires Moves(ws, ws') && Has(ws, wid, id) && StatusOf(ws, wid, id).TaskCancelled?
    ensures Has(ws', wid, id) && StatusOf(ws', wid, id).TaskCancelled?
  {
    var t := MovedTask(ws, ws', wid, id);
  }

  lemma CallOnCancelled(s: Sys, c: Call, s': Sys, wid: string, id: string)
    requires EngineInv(s.engine.workflows) && Next(s, EngineCall(c), s') && Has(s.engine.workflows, wid, id)
    requires IsCancelled(s, wid, id) || IsCancelled(s', wid, id)
    ensures IsCancelled(s', wid, id)
    ensures Copies(s', wid, id) == Copies(s, wid, id) && WorkerOf(s', wid, id) == WorkerOf(s, wid, id)
  {
    var ws, ws' := s.engine.workflows, s'.engine.workflows;
    CallMoves(s.engine, c);
    if IsCancelled(s, wid, id) {
      CancelledTaskStays(ws, ws', wid, id);
    }
    CancelledTaskAfterCall(ws, ws', wid, id);
    CallTokens(s, c, s');
  }

  lemma DispatchOnCancelled(ws: Workflows, j: Job, w: string, wid: string, id: string)
    requires Has(ws, wid, id) && Has(ws, j.workflowId, j.id)
    ensures var ws' := After(ws, OnTaskDispatched(j.workflowId, j.id, w));
            && Has(ws', wid, id) && JobOf(ws', wid, id) == JobOf(ws, wid, id)
            && ws'[wid].tasks[id].assignedTo ==
               (if j.workflowId == wid && j.id == id then w else ws[wid].tasks[id].assignedTo)
            && (StatusOf(ws', wid, id).TaskCancelled? <==> StatusOf(ws, wid, id).TaskCancelled?)
  {
  }

  lemma InflightIsKnown(s: Sys)
    requires TokenInv(s.engine.workflows, Tokens(s)) && s.inflight.Some?
    ensures var j := s.inflight.value.job;
            Has(s.engine.workflows, j.workflowId, j.id) && j == JobOf(s.engine.workflows, j.workflowId, j.id)
  {
    assert s.inflight.value.job in Tokens(s);
  }

  lemma ArrivalOnCancelled(s: Sys, s': Sys, wid: string, id: string)
    requires TokenInv(s.engine.workflows, Tokens(s)) && Next(s, RpcDone, s') && Has(s.engine.workflows, wid, id)
    ensures IsCancelled(s', wid, id) <==> IsCancelled(s, wid, id)
    ensures Has(s'.engine.workflows, wid, id)
    ensures Copies(s, wid, id) == Copies(s', wid, id) + if Arrives(s, RpcDone, wid, id) then 1 else 0
    ensures WorkerOf(s', wid, id) == if Arrives(s, RpcDone, wid, id) then s.inflight.value.worker
            else WorkerOf(s, wid, id)
  {
    InflightIsKnown(s);
    var Delivery(j, w) := s.inflight.value;
    DispatchOnCancelled(s.engine.workflows, j, w, wid, id);
    ArrivalTokens(s, s');
  }

  /** A cancelled task stays as it is, and its job where it is, until the job's callback uses it up and leaves the
      worker's name on the task. */
  lemma {:induction false} CancelledStep(s: Sys, a: Action, s': Sys, wid: string, id: string)
    requires SysInv(s) && Next(s, a, s') && IsCancelled(s, wid, id)
    ensures IsCancelled(s', wid, id)
    ensures Copies(s, wid, id) == Copies(s', wid, id) + if Arrives(s, a, wid, id) then 1 else 0
    ensures WorkerOf(s', wid, id) == if Arrives(s, a, wid, id) then s.inflight.value.worker else WorkerOf(s, wid, id)
  {
    match a
    case EngineCall(c) => CallOnCancelled(s, c, s', wid, id);
    case RpcDone => ArrivalOnCancelled(s, s', wid, id);
    case _ => SchedulerConservesTokens(s, a, s');
  }

  lemma CopiesByStatus(s: Sys, wid: string, id: string)
    requires TokenInv(s.engine.workflows, Tokens(s)) && Has(s.engine.workflows, wid, id)
    requires !StatusOf(s.engine.workflows, wid, id).TaskCancelled?
    ensures Copies(s, wid, id) == if StatusOf(s.engine.workflows, wid, id).TaskReady? then 1 else 0
  {
    assert TokenCount(StatusOf(s.engine.workflows, wid, id), Tokens(s)[JobOf(s.engine.workflows, wid, id)]);
  }

  /** The step that cancels a task leaves its job alone. */
  lemma CancellingStep(s: Sys, a: Action, s': Sys, wid: string, id: string)
    requires SysInv(s) && Next(s, a, s') && Has(s.engine.workflows, wid, id)
    requires !IsCancelled(s, wid, id) && IsCancelled(s', wid, id)
    ensures Copies(s', wid, id) == if StatusOf(s.engine.workflows, wid, id).TaskReady? then 1 else 0
    ensures WorkerOf(s', wid, id) == WorkerOf(s, wid, id)
  {
    CopiesByStatus(s, wid, id);
    match a
    case EngineCall(c) => CallOnCancelled(s, c, s', wid, id);
    case RpcDone => ArrivalOnCancelled(s, s', wid, id);
    case _ => SchedulerMovesNothing(s, a, s');
  }

  // ---------------------------------------------------------------- runs

  /** Step `i` cancels the task. */
  ghost predicate CancelsAt(ss: seq<Sys>, acts: seq<Action>, i: nat, wid: string, id: string)
    requires i < |acts| && |ss| == |acts| + 1
  {
    && Has(ss[i].engine.workflows, wid, id) && !IsCancelled(ss[i], wid, id)
    && IsCancelled(ss[i + 1], wid, id)
  }

  predicate WasReady(s: Sys, wid: string, id: string) {
    StatusOf(s.engine.workflows, wid, id).TaskReady?
  }

  /** How often the task's job arrives in the steps from `i` up to `j`. */
  ghost function Arrivals(ss: seq<Sys>, acts: seq<Action>, i: nat, j: nat, wid: string, id: string): nat
    requires i <= j <= |acts| && |ss| == |acts| + 1
    decreases j
  {
    if i == j then 0 else Arrivals(ss, acts, i, j - 1, wid, id) + if Arrives(ss[j - 1], acts[j - 1], wid, id) then 1
        else 0
  }

  lemma CancelsRunStep(ss: seq<Sys>, acts: seq<Action>, i: nat, j: nat, wid: string, id: string)
    requires IsRun(ss, acts) && j == i + 1 <= |acts| && CancelsAt(ss, acts, i, wid, id)
    ensures IsCancelled(ss[j], wid, id) && Copies(ss[j], wid, id) == if WasReady(ss[i], wid, id) then 1 else 0
    ensures WorkerOf(ss[j], wid, id) == WorkerOf(ss[i], wid, id)
  {
    EveryReachableStateIsGood(ss, acts, i);
    RunStep(ss, acts, i, ss[i], acts[i], ss[j]);
    CancellingStep(ss[i], acts[i], ss[j], wid, id);
  }

  lemma CancelledRunStep(ss: seq<Sys>, acts: seq<Action>, i: nat, j: nat, wid: string, id: string)
    requires IsRun(ss, acts) && j == i + 1 <= |acts| && IsCancelled(ss[i], wid, id)
    ensures IsCancelled(ss[j], wid, id)
    ensures Copies(ss[i], wid, id) == Copies(ss[j], wid, id) + if Arrives(ss[i], acts[i], wid, id) then 1 else 0
    ensures WorkerOf(ss[j], wid, id) ==
            if Arrives(ss[i], acts[i], wid, id) then ss[i].inflight.value.worker else WorkerOf(ss[i], wid, id)
  {
    EveryReachableStateIsGood(ss, acts, i);
    RunStep(ss, acts, i, ss[i], acts[i], ss[j]);
    CancelledStep(ss[i], acts[i], ss[j], wid, id);
  }

  lemma {:induction false} CopiesAndArrivals(ss: seq<Sys>, acts: seq<Action>, i: nat, j: nat, wid: string, id: string)
    requires IsRun(ss, acts) && i < j <= |acts| && CancelsAt(ss, acts, i, wid, id)
    ensures IsCancelled(ss[j], wid, id)
    ensures Copies(ss[j], wid, id) + Arrivals(ss, acts, i + 1, j, wid, id) == if WasReady(ss[i], wid, id) then 1 else 0
  {
    CancelsRunStep(ss, acts, i, i + 1, wid, id);
    for k := i + 1 to j
      invariant IsCancelled(ss[k], wid, id)
      invariant Copies(ss[k], wid, id) + Arrivals(ss, acts, i + 1, k, wid, id) == if WasReady(ss[i], wid, id) then 1
                else 0
    {
      CancelledRunStep(ss, acts, k, k + 1, wid, id);
    }
  }

  lemma {:induction false} NoArrivals(ss: seq<Sys>, acts: seq<Action>, i: nat, j: nat, wid: string, id: string)
    requires i <= j <= |acts| && |ss| == |acts| + 1
    ensures Arrivals(ss, acts, i, j, wid, id) == 0 <==> forall k | i <= k < j :: !Arrives(ss[k], acts[k], wid, id)
    decreases j
  {
    if i < j {
      NoArrivals(ss, acts, i, j - 1, wid, id);
    }
  }

  /** From the step that cancels a task on, one copy of its job exists if and only if the task was READY when it was
      cancelled and the job has not arrived at a worker since; otherwise none does. */
  lemma {:induction false} CancelledJobIff(ss: seq<Sys>, acts: seq<Action>, i: nat, j: nat, wid: string, id: string)
    requires IsRun(ss, acts) && i < j <= |acts| && CancelsAt(ss, acts, i, wid, id)
    ensures IsCancelled(ss[j], wid, id) && Copies(ss[j], wid, id) <= 1
    ensures Copies(ss[j], wid, id) == 1 <==>
            WasReady(ss[i], wid, id) && forall k | i < k < j :: !Arrives(ss[k], acts[k], wid, id)
  {
    CopiesAndArrivals(ss, acts, i, j, wid, id);
    NoArrivals(ss, acts, i + 1, j, wid, id);
  }

  /** The job is handed to a worker, or arrives there. */
  predicate IsSent(s: Sys, a: Action, wid: string, id: string) {
    || Arrives(s, a, wid, id)
    || (a.Send? && s.held != [] && s.held[0].workflowId == wid && s.held[0].id == id)
  }

  lemma SentHasCopy(s: Sys, a: Action, wid: string, id: string)
    requires SysInv(s) && IsSent(s, a, wid, id)
    ensures Copies(s, wid, id) >= 1
  {
    var j := if a.Send? then s.held[0] else s.inflight.value.job;
    assert j in Tokens(s);
  }

  /** A cancelled task is sent, or arrives at a worker, only if it was READY when it was cancelled, and arrives at most
      once. */
  lemma {:induction false} SentOnlyIfWasReady(
      ss: seq<Sys>, acts: seq<Action>, i: nat, j: nat, wid: string, id: string)
    requires IsRun(ss, acts) && i < j < |acts| && CancelsAt(ss, acts, i, wid, id) && IsSent(ss[j], acts[j], wid, id)
    ensures WasReady(ss[i], wid, id) && forall k | i < k < j :: !Arrives(ss[k], acts[k], wid, id)
  {
    CancelledJobIff(ss, acts, i, j, wid, id);
    EveryReachableStateIsGood(ss, acts, j);
    SentHasCopy(ss[j], acts[j], wid, id);
  }

  /** The task's job arrived at `worker` in the steps from `i` up to `j`. */
  ghost predicate ArrivedAt(ss: seq<Sys>, acts: seq<Action>, i: nat, j: nat, wid: string, id: string, worker: string)
    requires j <= |acts| && |ss| == |acts| + 1
  {
    exists k :: i <= k < j && Arrives(ss[k], acts[k], wid, id) && ss[k].inflight.value.worker == worker
  }

  /** The name on a cancelled task changes if and only if its job arrives somewhere after the cancellation: until then
      it is the name it had, after that the one of the worker where the job arrived. */
  lemma {:induction false} NameAfterCancellation(
      ss: seq<Sys>, acts: seq<Action>, i: nat, j: nat, wid: string, id: string)
    requires IsRun(ss, acts) && i < j <= |acts| && CancelsAt(ss, acts, i, wid, id)
    ensures IsCancelled(ss[j], wid, id)
    ensures if Arrivals(ss, acts, i + 1, j, wid, id) == 0 then WorkerOf(ss[j], wid, id) == WorkerOf(ss[i], wid, id)
            else ArrivedAt(ss, acts, i + 1, j, wid, id, WorkerOf(ss[j], wid, id))
  {
    CancelsRunStep(ss, acts, i, i + 1, wid, id);
    for k := i + 1 to j
      invariant IsCancelled(ss[k], wid, id)
      invariant if Arrivals(ss, acts, i + 1, k, wid, id) == 0 then WorkerOf(ss[k], wid, id) == WorkerOf(ss[i], wid, id)
                else ArrivedAt(ss, acts, i + 1, k, wid, id, WorkerOf(ss[k], wid, id))
    {
      NameOneFurther(ss, acts, i + 1, k, k + 1, wid, id, WorkerOf(ss[i], wid, id));
    }
  }

  lemma NameOneFurther(
      ss: seq<Sys>, acts: seq<Action>, i: nat, k: nat, n: nat, wid: string, id: string, was: string)
    requires IsRun(ss, acts) && i <= k && n == k + 1 <= |acts| && IsCancelled(ss[k], wid, id)
    requires if Arrivals(ss, acts, i, k, wid, id) == 0 then WorkerOf(ss[k], wid, id) == was
             else ArrivedAt(ss, acts, i, k, wid, id, WorkerOf(ss[k], wid, id))
    ensures IsCancelled(ss[n], wid, id)
    ensures if Arrivals(ss, acts, i, n, wid, id) == 0 then WorkerOf(ss[n], wid, id) == was
            else ArrivedAt(ss, acts, i, n, wid, id, WorkerOf(ss[n], wid, id))
  {
    CancelledRunStep(ss, acts, k, n, wid, id);
  }

  // ---------------------------------------------------------------- finished for good

  /** No job of the workflow is left. */
  ghost predicate NoJobLeft(s: Sys, wid: string) {
    forall id :: Copies(s, wid, id) == 0
  }

  lemma QuietStep(s: Sys, a: Action, s': Sys, wid: string)
    requires SysInv(s) && SysInv(s') && Next(s, a, s') && NoJobLeft(s, wid)
    requires wid in s.engine.workflows && IsWorkflowFinished(s.engine.workflows[wid].status)
    ensures wid in s'.engine.workflows && s'.engine.workflows[wid] == s.engine.workflows[wid]
    ensures NoJobLeft(s', wid)
  {
    QuietStepKeepsWorkflow(s, a, s', wid);
    forall id
      ensures Copies(s', wid, id) == 0
    {
      if Has(s'.engine.workflows, wid, id) {
        assert Copies(s, wid, id) == 0;
        if IsCancelled(s, wid, id) {
          CancelledStep(s, a, s', wid, id);
        } else {
          FinishedHasFinishedTasks(s.engine.workflows[wid]);
          assert TokenCount(StatusOf(s'.engine.workflows, wid, id), Tokens(s')[JobOf(s'.engine.workflows, wid, id)]);
        }
      }
    }
  }

  lemma ForeignDispatch(ws: Workflows, v: string, n: string, w: string, wid: string)
    requires wid in ws && !(v == wid && n in ws[wid].tasks)
    ensures wid in After(ws, OnTaskDispatched(v, n, w)) && After(ws, OnTaskDispatched(v, n, w))[wid] == ws[wid]
  {
  }

  lemma InflightHasCopy(s: Sys)
    requires TokenInv(s.engine.workflows, Tokens(s)) && s.inflight.Some?
    ensures Copies(s, s.inflight.value.job.workflowId, s.inflight.value.job.id) >= 1
  {
    assert s.inflight.value.job in Tokens(s);
  }

  lemma QuietStepKeepsWorkflow(s: Sys, a: Action, s': Sys, wid: string)
    requires SysInv(s) && Next(s, a, s') && NoJobLeft(s, wid)
    requires wid in s.engine.workflows && IsWorkflowFinished(s.engine.workflows[wid].status)
    ensures wid in s'.engine.workflows && s'.engine.workflows[wid] == s.engine.workflows[wid]
  {
    match a
    case EngineCall(c) => FinishedIsFrozen(s.engine, c, wid);
    case RpcDone =>
      var Delivery(j, w) := s.inflight.value;
      InflightHasCopy(s);
      assert Copies(s, wid, j.id) == 0;
      InflightIsKnown(s);
      ForeignDispatch(s.engine.workflows, j.workflowId, j.id, w, wid);
    case _ => SchedulerMovesNothing(s, a, s');
  }

  lemma QuietRunStep(ss: seq<Sys>, acts: seq<Action>, i: nat, j: nat, wid: string)
    requires IsRun(ss, acts) && j == i + 1 <= |acts| && NoJobLeft(ss[i], wid)
    requires wid in ss[i].engine.workflows && IsWorkflowFinished(ss[i].engine.workflows[wid].status)
    ensures wid in ss[j].engine.workflows && ss[j].engine.workflows[wid] == ss[i].engine.workflows[wid]
    ensures NoJobLeft(ss[j], wid)
  {
    EveryReachableStateIsGood(ss, acts, i);
    EveryReachableStateIsGood(ss, acts, j);
    RunStep(ss, acts, i, ss[i], acts[i], ss[j]);
    QuietStep(ss[i], acts[i], ss[j], wid);
  }

  /** A finished workflow of which no job is left stays exactly as it is for the rest of the run. */
  lemma {:induction false} FinishedWithoutJobsIsUnchanged(ss: seq<Sys>, acts: seq<Action>, i: nat, j: nat, wid: string)
    requires IsRun(ss, acts) && i <= j <= |acts| && NoJobLeft(ss[i], wid)
    requires wid in ss[i].engine.workflows && IsWorkflowFinished(ss[i].engine.workflows[wid].status)
    ensures wid in ss[j].engine.workflows && ss[j].engine.workflows[wid] == ss[i].engine.workflows[wid]
  {
    for k := i to j
      invariant wid in ss[k].engine.workflows && ss[k].engine.workflows[wid] == ss[i].engine.workflows[wid]
      invariant NoJobLeft(ss[k], wid)
    {
      QuietRunStep(ss, acts, k, k + 1, wid);
    }
  }
}
