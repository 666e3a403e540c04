/** The control plane and its failure detector together: a worker's death reaches the engine only as a verdict of the
    dead man's switch. Marking the worker and running the hook are one step, because the registry holds its lock over
    both. */
module Cluster {
  import opened Status
  import opened EngineModel
  import opened Guarantees
  import Orchestration
  import SwitchModel

  datatype State = State(sys: Orchestration.Sys, watch: SwitchModel.Switch)

  datatype Action =
    | Control(step: Orchestration.Action)
    | Monitor(turn: SwitchModel.Action)

  ghost predicate Init(s: State) {
    Orchestration.Init(s.sys) && SwitchModel.Init(s.watch)
  }

  predicate Dies(c: Orchestration.Action) {
    c.EngineCall? && c.call.WorkerDead?
  }

  /** This turn puts a verdict DEAD into force. */
  predicate Condemns(w: SwitchModel.Switch, m: SwitchModel.Action) {
    w.phase.Judged? && SwitchModel.Declares(w, m, w.phase.tr.key)
  }

  ghost predicate Next(s: State, a: Action, s': State) {
    match a
    case Control(c) => !Dies(c) && Orchestration.Next(s.sys, c, s'.sys) && s'.watch == s.watch
    case Monitor(m) =>
      && SwitchModel.Next(s.watch, m, s'.watch)
      && if Condemns(s.watch, m)
         then Orchestration.Next(s.sys, Orchestration.EngineCall(WorkerDead(s.watch.phase.tr.key)), s'.sys)
         else s'.sys == s.sys
  }

  ghost predicate Follows(ss: seq<State>, acts: seq<Action>, i: nat)
    requires i < |acts| && |ss| == |acts| + 1
  {
    Next(ss[i], acts[i], ss[i + 1])
  }

  ghost predicate IsRun(ss: seq<State>, acts: seq<Action>) {
    && |ss| == |acts| + 1
    && (forall i {:trigger Follows(ss, acts, i)} | 0 <= i < |acts| :: Follows(ss, acts, i))
    && Init(ss[0])
  }

  // ---------------------------------------------------------------- the two halves

  /** What the control plane is asked to do by one step of the cluster: something, or nothing. */
  function Asked(s: State, a: Action): seq<Orchestration.Action> {
    match a
    case Control(c) => [c]
    case Monitor(m) => if Condemns(s.watch, m) then [Orchestration.EngineCall(WorkerDead(s.watch.phase.tr.key))] else []
  }

  function AllAsked(ss: seq<State>, acts: seq<Action>, i: nat): seq<Orchestration.Action>
    requires i <= |acts| && |ss| == |acts| + 1
  {
    if i == 0 then [] else AllAsked(ss, acts, i - 1) + Asked(ss[i - 1], acts[i - 1])
  }

  lemma AskedStep(ss: seq<State>, acts: seq<Action>, i: nat, j: nat)
    requires IsRun(ss, acts) && j == i + 1 <= |acts| && Orchestration.Reached(AllAsked(ss, acts, i), ss[i].sys)
    ensures Orchestration.Reached(AllAsked(ss, acts, j), ss[j].sys)
  {
    assert Follows(ss, acts, i);
    var asked := Asked(ss[i], acts[i]);
    if asked == [] {
      assert AllAsked(ss, acts, j) == AllAsked(ss, acts, i);
    } else {
      Orchestration.ReachStep(AllAsked(ss, acts, i), ss[i].sys, asked[0], ss[j].sys);
    }
  }

  /** The control plane's side of a run of the cluster is a run of the control plane. */
  lemma {:induction false} ControlIsRun(ss: seq<State>, acts: seq<Action>, i: nat)
    requires IsRun(ss, acts) && i <= |acts|
    ensures Orchestration.Reached(AllAsked(ss, acts, i), ss[i].sys)
  {
    Orchestration.ReachStart(ss[0].sys);
    for k := 0 to i
      invariant Orchestration.Reached(AllAsked(ss, acts, k), ss[k].sys)
    {
      AskedStep(ss, acts, k, k + 1);
    }
  }

  lemma ReachedIsGood(acts: seq<Orchestration.Action>, s: Orchestration.Sys)
    requires Orchestration.Reached(acts, s)
    ensures Orchestration.SysInv(s)
  {
    var s0 :| Orchestration.Init(s0) && Orchestration.Leads(s0, acts, s);
    var ss: seq<Orchestration.Sys> :| Orchestration.Segment(ss, acts) && ss[0] == s0 && ss[|acts|] == s;
    Orchestration.EveryReachableStateIsGood(ss, acts, |acts|);
  }

  function Turn(a: Action): SwitchModel.Action {
    if a.Monitor? then a.turn else SwitchModel.Tick(0)
  }

  function Watches(ss: seq<State>): seq<SwitchModel.Switch> {
    seq(|ss|, k requires 0 <= k < |ss| => ss[k].watch)
  }

  function Turns(acts: seq<Action>): seq<SwitchModel.Action> {
    seq(|acts|, k requires 0 <= k < |acts| => Turn(acts[k]))
  }

  /** The failure detector's side of a run of the cluster is a run of the failure detector. */
  lemma {:induction false} MonitorIsRun(ss: seq<State>, acts: seq<Action>)
    requires IsRun(ss, acts)
    ensures SwitchModel.IsRun(Watches(ss), Turns(acts))
  {
    forall i | 0 <= i < |acts|
      ensures SwitchModel.Follows(Watches(ss), Turns(acts), i)
    {
      MonitorFollows(ss, acts, i, i + 1);
    }
  }

  lemma MonitorFollows(ss: seq<State>, acts: seq<Action>, i: nat, j: nat)
    requires IsRun(ss, acts) && j == i + 1 <= |acts|
    ensures SwitchModel.Next(ss[i].watch, Turn(acts[i]), ss[j].watch)
  {
    assert Follows(ss, acts, i);
  }

  // ---------------------------------------------------------------- who loses tasks

  /** The worker's death is declared by step `i`. */
  predicate DeclaredAt(ss: seq<State>, acts: seq<Action>, i: nat, worker: string)
    requires i < |acts| && |ss| == |acts| + 1
  {
    acts[i].Monitor? && SwitchModel.Declares(ss[i].watch, acts[i].turn, worker)
  }

  /** A heartbeat or registration of the worker comes at step `b`, between a look at its record and the verdict. */
  predicate HeardMidCheck(ss: seq<State>, acts: seq<Action>, b: nat, worker: string)
    requires b < |acts| && |ss| == |acts| + 1
  {
    acts[b].Monitor? && SwitchModel.BeatMidCheck(ss[b].watch, acts[b].turn, worker)
  }

  lemma NeverTakenBack(s: Orchestration.Sys, c: Orchestration.Action, s': Orchestration.Sys, wid: string, id: string)
    requires Orchestration.SysInv(s) && Orchestration.Next(s, c, s') && !Dies(c)
    requires IsOnWorker(StatusOf(s.engine.workflows, wid, id))
    ensures !StatusOf(s'.engine.workflows, wid, id).TaskReady?
  {
    match c
    case EngineCall(call) =>
      if StatusOf(s'.engine.workflows, wid, id).TaskReady? {
        CallTakesBack(s.engine, call, wid, id);
      }
    case RpcDone =>
      InflightStatus(s);
      var d := s.inflight.value;
      DispatchEffect(s.engine.workflows, d.job.workflowId, d.job.id, d.worker, wid, id);
    case _ =>
  }

  lemma TakenBackByDeath(s: Orchestration.Sys, worker: string, s': Orchestration.Sys, wid: string, id: string)
    requires Orchestration.SysInv(s) && Orchestration.Next(s, Orchestration.EngineCall(WorkerDead(worker)), s')
    requires IsOnWorker(StatusOf(s.engine.workflows, wid, id))
    ensures StatusOf(s'.engine.workflows, wid, id).TaskReady?
            <==> s.engine.workflows[wid].tasks[id].assignedTo == worker
  {
    if s.engine.workflows[wid].tasks[id].assignedTo == worker {
      DeathEffect(s.engine.workflows, worker, wid, id);
    } else if StatusOf(s'.engine.workflows, wid, id).TaskReady? {
      CallTakesBack(s.engine, WorkerDead(worker), wid, id);
    }
  }

  lemma TakenBackStep(s: State, a: Action, s': State, wid: string, id: string)
    requires Orchestration.SysInv(s.sys) && Next(s, a, s') && IsOnWorker(StatusOf(s.sys.engine.workflows, wid, id))
    ensures StatusOf(s'.sys.engine.workflows, wid, id).TaskReady? <==>
            a.Monitor? && SwitchModel.Declares(s.watch, a.turn, s.sys.engine.workflows[wid].tasks[id].assignedTo)
  {
    match a
    case Control(c) => NeverTakenBack(s.sys, c, s'.sys, wid, id);
    case Monitor(m) =>
      if Condemns(s.watch, m) {
        TakenBackByDeath(s.sys, s.watch.phase.tr.key, s'.sys, wid, id);
      }
  }

  /** A task on a worker is queued again exactly when the dead man's switch declares that very worker DEAD. */
  lemma {:induction false} TakenBackIffDeclared(ss: seq<State>, acts: seq<Action>, i: nat, wid: string, id: string)
    requires IsRun(ss, acts) && i < |acts| && IsOnWorker(StatusOf(ss[i].sys.engine.workflows, wid, id))
    ensures StatusOf(ss[i + 1].sys.engine.workflows, wid, id).TaskReady? <==>
            DeclaredAt(ss, acts, i, ss[i].sys.engine.workflows[wid].tasks[id].assignedTo)
  {
    ControlIsRun(ss, acts, i);
    ReachedIsGood(AllAsked(ss, acts, i), ss[i].sys);
    assert Follows(ss, acts, i);
    TakenBackStep(ss[i], acts[i], ss[i + 1], wid, id);
  }

  /** A worker that loses a task was heard from in the last 29 seconds if and only if in these 29 seconds a heartbeat or
      registration of it came in the middle of a check. */
  lemma {:induction false} HastyTakeBackIff(ss: seq<State>, acts: seq<Action>, i: nat, wid: string, id: string)
    requires IsRun(ss, acts) && i < |acts| && IsOnWorker(StatusOf(ss[i].sys.engine.workflows, wid, id))
    requires StatusOf(ss[i + 1].sys.engine.workflows, wid, id).TaskReady?
    ensures var worker, watch := ss[i].sys.engine.workflows[wid].tasks[id].assignedTo, ss[i].watch;
            && worker in watch.beats
            && (watch.now - watch.beats[worker].last <= 29 * SwitchModel.SECOND <==>
                exists b :: 0 <= b < i && HeardMidCheck(ss, acts, b, worker)
                            && watch.now - ss[b].watch.now <= 29 * SwitchModel.SECOND)
  {
    TakenBackIffDeclared(ss, acts, i, wid, id);
    var worker := ss[i].sys.engine.workflows[wid].tasks[id].assignedTo;
    DeclaredHastily(ss, acts, i, worker);
  }

  lemma DeclaredHastily(ss: seq<State>, acts: seq<Action>, i: nat, worker: string)
    requires IsRun(ss, acts) && i < |acts| && DeclaredAt(ss, acts, i, worker)
    ensures ss[i].watch.now - ss[i].watch.beats[worker].last <= 29 * SwitchModel.SECOND <==>
            exists b :: 0 <= b < i && HeardMidCheck(ss, acts, b, worker)
                        && ss[i].watch.now - ss[b].watch.now <= 29 * SwitchModel.SECOND
  {
    var ws, turns := Watches(ss), Turns(acts);
    MonitorIsRun(ss, acts);
    SwitchModel.PrematureDeathIff(ws, turns, i, worker);
    assert forall b | 0 <= b < i ::
        HeardMidCheck(ss, acts, b, worker) <==> SwitchModel.BeatMidCheck(ws[b], turns[b], worker);
  }

  /** Where no heartbeat or registration of the worker ever came in the middle of a check, it loses a task only after
      more than 29 seconds of silence. */
  lemma {:induction false} OnlyTheSilentLoseTasks(ss: seq<State>, acts: seq<Action>, i: nat, wid: string, id: string)
    requires IsRun(ss, acts) && i < |acts| && IsOnWorker(StatusOf(ss[i].sys.engine.workflows, wid, id))
    requires StatusOf(ss[i + 1].sys.engine.workflows, wid, id).TaskReady?
    requires forall b | 0 <= b < i ::
               !HeardMidCheck(ss, acts, b, ss[i].sys.engine.workflows[wid].tasks[id].assignedTo)
    ensures var worker, watch := ss[i].sys.engine.workflows[wid].tasks[id].assignedTo, ss[i].watch;
            worker in watch.beats && watch.now - watch.beats[worker].last > 29 * SwitchModel.SECOND
  {
    HastyTakeBackIff(ss, acts, i, wid, id);
  }
}
