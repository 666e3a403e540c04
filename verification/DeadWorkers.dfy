/** What a worker's death takes back, and what may still land on the worker afterwards: a delivery that is under way
    when the worker is declared dead. */
module DeadWorkers {
  import opened Status
  import opened EngineModel
  import opened Orchestration
  import opened Guarantees

  /** The task is with the worker, as far as the engine knows. */
  predicate OnIn(ws: Workflows, wid: string, id: string, worker: string) {
    Has(ws, wid, id) && IsOnWorker(StatusOf(ws, wid, id)) && ws[wid].tasks[id].assignedTo == worker
  }

  predicate On(s: Sys, wid: string, id: string, worker: string) {
    OnIn(s.engine.workflows, wid, id, worker)
  }

  predicate Carries(s: Sys, wid: string, id: string, worker: string) {
    && s.inflight.Some?
    && s.inflight.value.worker == worker
    && s.inflight.value.job.workflowId == wid
    && s.inflight.value.job.id == id
  }

  /** The dispatch callback that puts a READY task on the worker. */
  predicate Delivers(s: Sys, a: Action, wid: string, id: string, worker: string) {
    a.RpcDone? && Carries(s, wid, id, worker) && StatusOf(s.engine.workflows, wid, id).TaskReady?
  }

  predicate Dies(a: Action, worker: string) {
    a.EngineCall? && a.call.WorkerDead? && a.call.worker == worker
  }

  // ---------------------------------------------------------------- one step

  lemma CallKeepsFinished(s: EngineState, c: Call, wid: string, id: string)
    requires EngineInv(s.workflows) && Admissible(s, c) && !c.OnTaskDispatched?
    requires IsFinished(StatusOf(s.workflows, wid, id))
    ensures StatusOf(After(s.workflows, c), wid, id) == StatusOf(s.workflows, wid, id)
  {
    CallMoves(s, c);
    var t := MovedTask(s.workflows, After(s.workflows, c), wid, id);
  }

  /** A finished task stays as it ended, whatever step comes. */
  lemma {:induction false} FinishedTaskStays(s: Sys, a: Action, s': Sys, wid: string, id: string)
    requires SysInv(s) && Next(s, a, s') && IsFinished(StatusOf(s.engine.workflows, wid, id))
    ensures StatusOf(s'.engine.workflows, wid, id) == StatusOf(s.engine.workflows, wid, id)
  {
    match a
    case EngineCall(c) => CallKeepsFinished(s.engine, c, wid, id);
    case RpcDone =>
      InflightStatus(s);
      var Delivery(j, w) := s.inflight.value;
      DispatchEffect(s.engine.workflows, j.workflowId, j.id, w, wid, id);
    case _ =>
  }

  /** A call neither puts a task on a worker nor takes it away unless the task finishes or its worker dies. */
  lemma CallKeepsPlace(s: EngineState, c: Call, wid: string, id: string)
    requires EngineInv(s.workflows) && Admissible(s, c) && !c.OnTaskDispatched? && Has(s.workflows, wid, id)
    requires IsOnWorker(s.workflows[wid].tasks[id].status)
    requires !(c.WorkerDead? && c.worker == s.workflows[wid].tasks[id].assignedTo)
    ensures Has(After(s.workflows, c), wid, id)
    ensures var t := After(s.workflows, c)[wid].tasks[id];
            IsFinished(t.status) || (IsOnWorker(t.status) && t.assignedTo == s.workflows[wid].tasks[id].assignedTo)
  {
    CallMoves(s, c);
    var t := MovedTask(s.workflows, After(s.workflows, c), wid, id);
    if StatusOf(After(s.workflows, c), wid, id).TaskReady? {
      CallTakesBack(s, c, wid, id);
    }
  }

  lemma CallPutsNothingOn(s: EngineState, c: Call, wid: string, id: string)
    requires EngineInv(s.workflows) && Admissible(s, c) && !c.OnTaskDispatched? && Has(After(s.workflows, c), wid, id)
    requires IsOnWorker(After(s.workflows, c)[wid].tasks[id].status)
    ensures Has(s.workflows, wid, id) && IsOnWorker(s.workflows[wid].tasks[id].status)
    ensures s.workflows[wid].tasks[id].assignedTo == After(s.workflows, c)[wid].tasks[id].assignedTo
  {
    CallMoves(s, c);
    var t := MovedTask(s.workflows, After(s.workflows, c), wid, id);
  }

  lemma DispatchPlaces(ws: Workflows, j: Job, w: string, wid: string, id: string, worker: string)
    requires Has(ws, j.workflowId, j.id)
    requires StatusOf(ws, j.workflowId, j.id).TaskReady? || StatusOf(ws, j.workflowId, j.id).TaskCancelled?
    ensures var ws' := After(ws, OnTaskDispatched(j.workflowId, j.id, w));
            && (OnIn(ws', wid, id, worker) <==>
                OnIn(ws, wid, id, worker)
                || (w == worker && j.workflowId == wid && j.id == id && StatusOf(ws, wid, id).TaskReady?))
            && (IsFinished(StatusOf(ws', wid, id)) <==> IsFinished(StatusOf(ws, wid, id)))
  {
  }

  lemma RpcDoneMoves(s: Sys, s': Sys, wid: string, id: string, worker: string)
    requires SysInv(s) && Next(s, RpcDone, s')
    ensures On(s', wid, id, worker) <==> On(s, wid, id, worker) || Delivers(s, RpcDone, wid, id, worker)
  {
    InflightStatus(s);
    var Delivery(j, w) := s.inflight.value;
    DispatchPlaces(s.engine.workflows, j, w, wid, id, worker);
  }

  lemma CallMovesPlace(s: Sys, c: Call, s': Sys, wid: string, id: string, worker: string)
    requires EngineInv(s.engine.workflows) && Next(s, EngineCall(c), s') && !Dies(EngineCall(c), worker)
    ensures On(s', wid, id, worker) <==> !IsFinished(StatusOf(s'.engine.workflows, wid, id)) && On(s, wid, id, worker)
  {
    if On(s, wid, id, worker) {
      CallKeepsPlace(s.engine, c, wid, id);
    }
    if On(s', wid, id, worker) {
      CallPutsNothingOn(s.engine, c, wid, id);
    }
  }

  lemma SchedulerMovesNothing(s: Sys, a: Action, s': Sys)
    requires Next(s, a, s') && !a.EngineCall? && !a.RpcDone?
    ensures s'.engine.workflows == s.engine.workflows
  {
  }

  /** Short of the worker's death, a task comes to be on it only by a delivery, and leaves it only by finishing. */
  lemma {:induction false} PlaceStep(s: Sys, a: Action, s': Sys, wid: string, id: string, worker: string)
    requires SysInv(s) && Next(s, a, s') && !Dies(a, worker)
    ensures On(s', wid, id, worker) <==>
            !IsFinished(StatusOf(s'.engine.workflows, wid, id))
                && (On(s, wid, id, worker) || Delivers(s, a, wid, id, worker))
  {
    match a
    case EngineCall(c) => CallMovesPlace(s, c, s', wid, id, worker);
    case RpcDone => RpcDoneMoves(s, s', wid, id, worker);
    case _ => SchedulerMovesNothing(s, a, s');
  }

  lemma NothingOnAfterDeath(s: Sys, a: Action, s': Sys, wid: string, id: string, worker: string)
    requires Next(s, a, s') && Dies(a, worker)
    ensures !On(s', wid, id, worker)
  {
  }

  // ---------------------------------------------------------------- runs

  /** A delivery of the task to the worker was completed in between. */
  ghost predicate DeliveredIn(ss: seq<Sys>, acts: seq<Action>, i: nat, j: nat, wid: string, id: string, worker: string)
    requires j <= |acts| && |ss| == |acts| + 1
  {
    exists k :: i < k < j && Delivers(ss[k], acts[k], wid, id, worker)
  }

  lemma DeliveredOneFurther(
      ss: seq<Sys>, acts: seq<Action>, i: nat, m: nat, n: nat, wid: string, id: string, worker: string)
    requires n == m + 1 <= |acts| && |ss| == |acts| + 1 && i < m
    ensures DeliveredIn(ss, acts, i, n, wid, id, worker) <==>
            DeliveredIn(ss, acts, i, m, wid, id, worker) || Delivers(ss[m], acts[m], wid, id, worker)
  {
  }

  lemma PlaceRunStep(ss: seq<Sys>, acts: seq<Action>, m: nat, n: nat, wid: string, id: string, worker: string)
    requires IsRun(ss, acts) && n == m + 1 <= |acts| && !Dies(acts[m], worker)
    ensures On(ss[n], wid, id, worker) <==>
            && !IsFinished(StatusOf(ss[n].engine.workflows, wid, id))
            && (On(ss[m], wid, id, worker) || Delivers(ss[m], acts[m], wid, id, worker))
    ensures IsFinished(StatusOf(ss[m].engine.workflows, wid, id))
            ==> IsFinished(StatusOf(ss[n].engine.workflows, wid, id))
  {
    EveryReachableStateIsGood(ss, acts, m);
    RunStep(ss, acts, m, ss[m], acts[m], ss[n]);
    PlaceStep(ss[m], acts[m], ss[n], wid, id, worker);
    if IsFinished(StatusOf(ss[m].engine.workflows, wid, id)) {
      FinishedTaskStays(ss[m], acts[m], ss[n], wid, id);
    }
  }

  lemma DeathRunStep(ss: seq<Sys>, acts: seq<Action>, i: nat, j: nat, wid: string, id: string, worker: string)
    requires IsRun(ss, acts) && i < |acts| && j == i + 1 && Dies(acts[i], worker)
    ensures !On(ss[j], wid, id, worker)
  {
    RunStep(ss, acts, i, ss[i], acts[i], ss[j]);
    NothingOnAfterDeath(ss[i], acts[i], ss[j], wid, id, worker);
  }

  /** From a worker's death to its next, an unfinished task is on the worker if and only if a delivery of it to the
      worker was completed since: the death overlooks the job whose delivery is under way. */
  lemma {:induction false} OnDeadWorkerIff(
      ss: seq<Sys>, acts: seq<Action>, i: nat, j: nat, wid: string, id: string, worker: string)
    requires IsRun(ss, acts) && i < j < |ss| && Dies(acts[i], worker)
    requires forall k | i < k < j :: !Dies(acts[k], worker)
    ensures On(ss[j], wid, id, worker) <==>
            !IsFinished(StatusOf(ss[j].engine.workflows, wid, id)) && DeliveredIn(ss, acts, i, j, wid, id, worker)
  {
    DeathRunStep(ss, acts, i, i + 1, wid, id, worker);
    for m := i + 1 to j
      invariant On(ss[m], wid, id, worker) <==>
                !IsFinished(StatusOf(ss[m].engine.workflows, wid, id)) && DeliveredIn(ss, acts, i, m, wid, id, worker)
    {
      PlaceRunStep(ss, acts, m, m + 1, wid, id, worker);
      DeliveredOneFurther(ss, acts, i, m, m + 1, wid, id, worker);
    }
  }

  predicate SendsTo(a: Action, worker: string) {
    a.Send? && a.worker == worker
  }

  predicate UnderWay(s: Sys, worker: string) {
    s.inflight.Some? && s.inflight.value.worker == worker
  }

  lemma NothingUnderWay(ss: seq<Sys>, acts: seq<Action>, m: nat, n: nat, worker: string)
    requires IsRun(ss, acts) && m < |acts| && n == m + 1 && !SendsTo(acts[m], worker) && !UnderWay(ss[m], worker)
    ensures !UnderWay(ss[n], worker)
  {
    RunStep(ss, acts, m, ss[m], acts[m], ss[n]);
  }

  lemma NoDeliveryWithoutSend(ss: seq<Sys>, acts: seq<Action>, i: nat, j: nat, worker: string)
    requires IsRun(ss, acts) && i <= j <= |acts| && !UnderWay(ss[i], worker)
    requires forall k | i <= k < j :: !SendsTo(acts[k], worker)
    ensures forall k | i <= k < j :: !UnderWay(ss[k], worker)
  {
    for m := i to j
      invariant !UnderWay(ss[m], worker)
      invariant forall k | i <= k < m :: !UnderWay(ss[k], worker)
    {
      NothingUnderWay(ss, acts, m, m + 1, worker);
    }
  }

  lemma DeathSendsNothing(a: Action, worker: string)
    requires Dies(a, worker)
    ensures !SendsTo(a, worker)
  {
  }

  /** If no delivery to the worker was under way at its death, and none was begun after it, nothing is on the worker. */
  lemma {:induction false} NothingOnTheDead(
      ss: seq<Sys>, acts: seq<Action>, i: nat, j: nat, wid: string, id: string, worker: string)
    requires IsRun(ss, acts) && i < j < |ss| && Dies(acts[i], worker) && !UnderWay(ss[i], worker)
    requires forall k | i < k < j :: !SendsTo(acts[k], worker)
    ensures !On(ss[j], wid, id, worker)
  {
    var d := LastDeath(acts, i, j, worker);
    DeathSendsNothing(acts[i], worker);
    NoDeliveryWithoutSend(ss, acts, i, j, worker);
    OnDeadWorkerIff(ss, acts, d, j, wid, id, worker);
  }

  lemma LastDeath(acts: seq<Action>, i: nat, j: nat, worker: string) returns (d: nat)
    requires i < j <= |acts| && Dies(acts[i], worker)
    ensures i <= d < j && Dies(acts[d], worker) && forall k | d < k < j :: !Dies(acts[k], worker)
  {
    d := i;
    for m := i + 1 to j
      invariant i <= d < m && Dies(acts[d], worker) && forall k | d < k < m :: !Dies(acts[k], worker)
    {
      if Dies(acts[m], worker) {
        d := m;
      }
    }
  }

  // ---------------------------------------------------------------- who waits for the dead

  /** No worker was declared dead while a delivery to it was under way. */
  ghost predicate NoDeathOvertakes(ss: seq<Sys>, acts: seq<Action>, j: nat)
    requires j <= |acts| && |ss| == |acts| + 1
  {
    forall i, worker | 0 <= i < j && Dies(acts[i], worker) :: !UnderWay(ss[i], worker)
  }

  /** Every death of the worker was followed by another delivery to it. */
  ghost predicate TrustedSince(acts: seq<Action>, j: nat, worker: string)
    requires j <= |acts|
  {
    forall i | 0 <= i < j && Dies(acts[i], worker) :: exists k :: i < k < j && SendsTo(acts[k], worker)
  }

  /** If no death overtakes a delivery, an unfinished workflow with tasks has a task that is READY with one job, or on
      a worker that the scheduler has chosen again since its last death. */
  lemma {:induction false} NobodyWaitsForTheDead(ss: seq<Sys>, acts: seq<Action>, j: nat, wid: string)
    requires IsRun(ss, acts) && j < |ss| && NoDeathOvertakes(ss, acts, j)
    requires wid in ss[j].engine.workflows && ss[j].engine.workflows[wid].tasks != map[]
    requires !IsWorkflowFinished(ss[j].engine.workflows[wid].status)
    ensures exists id :: Has(ss[j].engine.workflows, wid, id) && Attended(ss[j], wid, id) &&
              forall worker | On(ss[j], wid, id, worker) :: TrustedSince(acts, j, worker)
  {
    NoWorkflowGetsStuck(ss, acts, j, wid);
    var id :| Has(ss[j].engine.workflows, wid, id) && Attended(ss[j], wid, id);
    forall worker, i | On(ss[j], wid, id, worker) && 0 <= i < j && Dies(acts[i], worker)
      ensures exists k :: i < k < j && SendsTo(acts[k], worker)
    {
      if forall k | i < k < j :: !SendsTo(acts[k], worker) {
        NothingOnTheDead(ss, acts, i, j, wid, id, worker);
      }
    }
  }
}
