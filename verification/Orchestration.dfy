/** The control plane as a state machine: the engine's calls interleaved with the scheduler's steps, and what
    holds in every state of every run. */
module Orchestration {
  import opened Options
  import opened Status
  import opened WorkflowModel
  import opened EngineModel
  import opened Sequences

  datatype Delivery = Delivery(job: Job, worker: string)

  /** `held` is the popped batch still to be handed out, `inflight` the job whose RPC is under way; `target`
      remembers the worker of the last dispatch callback of each task and is read by nobody. */
  datatype Sys = Sys(engine: EngineState, held: seq<Job>, inflight: Option<Delivery>, target: map<(string, string),
                     string>)

  datatype Action =
    | EngineCall(call: Call)
    | PopBatch
    | NoWorker
    | Send(worker: string)
    | RpcFailed
    | RpcDone

  const BATCH: nat := 50

  ghost predicate Init(s: Sys) {
    s == Sys(EngineState(map[], [], []), [], None, map[])
  }

  ghost predicate Next(s: Sys, a: Action, s': Sys) {
    match a
    case EngineCall(c) =>
      && !c.OnTaskDispatched? && Admissible(s.engine, c)
      && EngineStep(s.engine, c, s'.engine) && s' == s.(engine := s'.engine)
    case PopBatch =>
      && s.held == [] && s.inflight.None?
      && var n := if |s.engine.queue| < BATCH then |s.engine.queue| else BATCH;
      s' == s.(engine := s.engine.(queue := s.engine.queue[n..]), held := s.engine.queue[..n])
    case NoWorker =>
      && s.held != [] && s.inflight.None?
      && s' == s.(engine := s.engine.(queue := s.engine.queue + [s.held[0]]), held := s.held[1..])
    case Send(worker) =>
      && s.held != [] && s.inflight.None?
      && s' == s.(held := s.held[1..], inflight := Some(Delivery(s.held[0], worker)))
    case RpcFailed =>
      && s.inflight.Some?
      && s' == s.(engine := s.engine.(queue := s.engine.queue + [s.inflight.value.job]), inflight := None)
    case RpcDone =>
      && s.inflight.Some?
      && var Delivery(j, worker) := s.inflight.value;
      && EngineStep(s.engine, OnTaskDispatched(j.workflowId, j.id, worker), s'.engine)
      && s' == s.(engine := s'.engine, inflight := None, target := s.target[(j.workflowId, j.id) := worker])
  }

  /** A run: states `ss` joined by actions `acts`. */
  ghost predicate IsRun(ss: seq<Sys>, acts: seq<Action>) {
    Segment(ss, acts) && Init(ss[0])
  }

  ghost predicate Segment(ss: seq<Sys>, acts: seq<Action>) {
    |ss| == |acts| + 1 && forall i {:trigger Follows(ss, acts, i)} | 0 <= i < |acts| :: Follows(ss, acts, i)
  }

  ghost predicate Follows(ss: seq<Sys>, acts: seq<Action>, i: nat)
    requires i < |acts| && |ss| == |acts| + 1
  {
    Next(ss[i], acts[i], ss[i + 1])
  }

  // ---------------------------------------------------------------- invariants of the whole system

  /** Every copy of a job, wherever it is. */
  function Tokens(s: Sys): multiset<Job> {
    multiset(s.engine.queue) + multiset(s.held)
    + (if s.inflight.Some? then multiset{s.inflight.value.job} else multiset{})
  }

  predicate TokenCount(status: TaskStatus, n: nat) {
    match status
    case TaskReady => n == 1
    case TaskCancelled => n <= 1
    case _ => n == 0
  }

  ghost predicate TokenInv(ws: Workflows, m: multiset<Job>) {
    && (forall j | j in m :: Has(ws, j.workflowId, j.id) && j == JobOf(ws, j.workflowId, j.id))
    && (forall wid, id | Has(ws, wid, id) :: TokenCount(StatusOf(ws, wid, id), m[JobOf(ws, wid, id)]))
  }

  ghost predicate AssignedRight(t: TaskState, target: map<(string, string), string>, key: (string, string)) {
    && (t.status.TaskPending? || t.status.TaskReady? ==> t.assignedTo == "")
    && (IsOnWorker(t.status) ==> key in target && target[key] == t.assignedTo)
  }

  ghost predicate AssignInv(ws: Workflows, target: map<(string, string), string>) {
    forall wid, id | Has(ws, wid, id) :: AssignedRight(ws[wid].tasks[id], target, (wid, id))
  }

  /** No published workflow event is ahead of its workflow. */
  ghost predicate LogBehind(ws: Workflows, log: seq<Event>) {
    forall i | 0 <= i < |log| && log[i].WorkflowStatusChanged? ::
      && log[i].workflowId in ws
      && 0 < WorkflowRank(log[i].status) <= WorkflowRank(ws[log[i].workflowId].status)
      && (WorkflowRank(log[i].status) == WorkflowRank(ws[log[i].workflowId].status)
          ==> log[i].status == ws[log[i].workflowId].status)
  }

  /** The published statuses of one workflow only ever rise. */
  ghost predicate LogRises(log: seq<Event>) {
    forall i, j | 0 <= i < j < |log| && log[i].WorkflowStatusChanged? && log[j].WorkflowStatusChanged?
        && log[i].workflowId == log[j].workflowId ::
      WorkflowRank(log[i].status) < WorkflowRank(log[j].status)
  }

  /** Every workflow's present status was published. */
  ghost predicate LogCurrent(ws: Workflows, log: seq<Event>) {
    forall wid | wid in ws && !ws[wid].status.WorkflowPending? :: WorkflowStatusChanged(wid, ws[wid].status) in log
  }

  ghost predicate LogInv(ws: Workflows, log: seq<Event>) {
    LogBehind(ws, log) && LogRises(log) && LogCurrent(ws, log)
  }

  ghost predicate SysInv(s: Sys) {
    && EngineInv(s.engine.workflows)
    && TokenInv(s.engine.workflows, Tokens(s))
    && AssignInv(s.engine.workflows, s.target)
    && LogInv(s.engine.workflows, s.engine.published)
  }

  // ---------------------------------------------------------------- tokens

  lemma MovedTask(ws: Workflows, ws': Workflows, wid: string, id: string) returns (t: TaskState)
    requires Moves(ws, ws') && Has(ws', wid, id)
    ensures TaskMove(t, ws'[wid].tasks[id])
    ensures if wid in ws then Has(ws, wid, id) && t == ws[wid].tasks[id]
            else t.status.TaskPending? && t.assignedTo == ""
    ensures StatusOf(ws, wid, id) == t.status
  {
    if wid in ws {
      t := ws[wid].tasks[id];
    } else {
      var w :| Fresh(w) && WorkflowMove(w, ws'[wid]);
      t := w.tasks[id];
    }
  }

  /** The new jobs go to the tasks that became READY, and every other task keeps its share. */
  lemma {:induction false} CallKeepsTokens(ws: Workflows, ws': Workflows, m: multiset<Job>)
    requires TokenInv(ws, m) && Moves(ws, ws')
    ensures TokenInv(ws', m + multiset(NewlyReady(ws, ws')))
  {
    var m' := m + multiset(NewlyReady(ws, ws'));
    forall j | j in m'
      ensures Has(ws', j.workflowId, j.id) && j == JobOf(ws', j.workflowId, j.id)
    {
      if j in m {
        var t := MovedTask(ws, ws', j.workflowId, j.id);
      }
    }
    forall wid, id | Has(ws', wid, id)
      ensures TokenCount(StatusOf(ws', wid, id), m'[JobOf(ws', wid, id)])
    {
      var t := MovedTask(ws, ws', wid, id);
      var j := JobOf(ws', wid, id);
      assert j in NewlyReady(ws, ws') <==> StatusOf(ws', wid, id).TaskReady? && !t.status.TaskReady?;
      assert wid !in ws ==> j !in m;
    }
  }

  lemma DispatchMakesNothingReady(ws: Workflows, wid: string, id: string, worker: string)
    ensures NewlyReady(ws, After(ws, OnTaskDispatched(wid, id, worker))) == {}
  {
  }

  lemma {:induction false} DispatchKeepsTokens(ws: Workflows, m: multiset<Job>, j: Job, worker: string)
    requires TokenInv(ws, m) && j in m
    ensures TokenInv(After(ws, OnTaskDispatched(j.workflowId, j.id, worker)), m - multiset{j})
    ensures StatusOf(ws, j.workflowId, j.id).TaskReady? || StatusOf(ws, j.workflowId, j.id).TaskCancelled?
  {
    var ws' := After(ws, OnTaskDispatched(j.workflowId, j.id, worker));
    assert TokenCount(StatusOf(ws, j.workflowId, j.id), m[j]);
    forall wid, id | Has(ws', wid, id)
      ensures TokenCount(StatusOf(ws', wid, id), (m - multiset{j})[JobOf(ws', wid, id)])
    {
      assert Has(ws, wid, id) && JobOf(ws', wid, id) == JobOf(ws, wid, id);
      assert TokenCount(StatusOf(ws, wid, id), m[JobOf(ws, wid, id)]);
    }
  }

  // ---------------------------------------------------------------- assignment

  lemma {:induction false} CallKeepsAssignment(ws: Workflows, ws': Workflows, target: map<(string, string), string>)
    requires AssignInv(ws, target) && Moves(ws, ws')
    ensures AssignInv(ws', target)
  {
    forall wid, id | Has(ws', wid, id)
      ensures AssignedRight(ws'[wid].tasks[id], target, (wid, id))
    {
      var t := MovedTask(ws, ws', wid, id);
      assert AssignedRight(t, target, (wid, id));
    }
  }

  lemma {:induction false} DispatchKeepsAssignment(ws: Workflows, target: map<(string, string), string>, wid: string,
                                                   id: string, worker: string)
    requires AssignInv(ws, target) && Has(ws, wid, id)
    requires StatusOf(ws, wid, id).TaskReady? || StatusOf(ws, wid, id).TaskCancelled?
    ensures AssignInv(After(ws, OnTaskDispatched(wid, id, worker)), target[(wid, id) := worker])
  {
    var ws' := After(ws, OnTaskDispatched(wid, id, worker));
    forall v, n | Has(ws', v, n)
      ensures AssignedRight(ws'[v].tasks[n], target[(wid, id) := worker], (v, n))
    {
      assert AssignedRight(ws[v].tasks[n], target, (v, n));
    }
  }

  // ---------------------------------------------------------------- published events

  lemma {:induction false} AppendedOnce<T>(a: seq<T>, b: seq<T>, xs: set<T>, i: nat, j: nat)
    requires Appends(a, b, xs) && |a| <= i < |b|
    ensures b[i] in xs
    ensures i < j < |b| ==> b[i] != b[j]
  {
    var c := b[|a|..];
    assert c[i - |a|] in multiset(c);
    if i < j < |b| && b[i] == b[j] {
      TwiceCounted(c, i - |a|, j - |a|);
    }
  }

  lemma AppendedAll<T>(a: seq<T>, b: seq<T>, xs: set<T>, x: T)
    requires Appends(a, b, xs) && x in xs
    ensures x in b
  {
    assert x in multiset(b[|a|..]);
  }

  /** Each workflow's status is unchanged or one edge further. */
  ghost predicate StatusMoves(ws: Workflows, ws': Workflows) {
    && ws.Keys <= ws'.Keys
    && forall wid | wid in ws' ::
      ws'[wid].status == WorkflowStatusOf(ws, wid) || WorkflowEdge(WorkflowStatusOf(ws, wid), ws'[wid].status)
  }

  lemma ChangedStatus(ws: Workflows, ws': Workflows, e: Event)
    requires StatusMoves(ws, ws') && e in Changes(ws, ws') && e.WorkflowStatusChanged?
    ensures e.workflowId in ws' && e.status == ws'[e.workflowId].status
    ensures WorkflowRank(WorkflowStatusOf(ws, e.workflowId)) < WorkflowRank(e.status)
  {
  }

  lemma RankKept(ws: Workflows, ws': Workflows, wid: string)
    requires StatusMoves(ws, ws') && wid in ws
    ensures wid in ws'
    ensures ws'[wid].status == ws[wid].status || WorkflowRank(ws[wid].status) < WorkflowRank(ws'[wid].status)
  {
  }

  lemma CallKeepsLogBehind(ws: Workflows, ws': Workflows, log: seq<Event>, log': seq<Event>)
    requires LogBehind(ws, log) && StatusMoves(ws, ws') && Appends(log, log', Changes(ws, ws'))
    ensures LogBehind(ws', log')
  {
    forall i | 0 <= i < |log'| && log'[i].WorkflowStatusChanged?
      ensures log'[i].workflowId in ws'
      ensures 0 < WorkflowRank(log'[i].status) <= WorkflowRank(ws'[log'[i].workflowId].status)
      ensures WorkflowRank(log'[i].status) == WorkflowRank(ws'[log'[i].workflowId].status)
              ==> log'[i].status == ws'[log'[i].workflowId].status
    {
      if i < |log| {
        assert log'[i] == log[i];
        RankKept(ws, ws', log[i].workflowId);
      } else {
        AppendedOnce(log, log', Changes(ws, ws'), i, i);
        ChangedStatus(ws, ws', log'[i]);
      }
    }
  }

  lemma CallKeepsLogRising(ws: Workflows, ws': Workflows, log: seq<Event>, log': seq<Event>)
    requires LogBehind(ws, log) && LogRises(log) && StatusMoves(ws, ws') && Appends(log, log', Changes(ws, ws'))
    ensures LogRises(log')
  {
    forall i, j | 0 <= i < j < |log'| && log'[i].WorkflowStatusChanged? && log'[j].WorkflowStatusChanged?
        && log'[i].workflowId == log'[j].workflowId
      ensures WorkflowRank(log'[i].status) < WorkflowRank(log'[j].status)
    {
      if j < |log| {
        assert log'[i] == log[i] && log'[j] == log[j];
      } else {
        AppendedOnce(log, log', Changes(ws, ws'), j, j);
        ChangedStatus(ws, ws', log'[j]);
        if i < |log| {
          assert log'[i] == log[i];
        } else {
          AppendedOnce(log, log', Changes(ws, ws'), i, j);
          ChangedStatus(ws, ws', log'[i]);
        }
      }
    }
  }

  lemma CallKeepsLogCurrent(ws: Workflows, ws': Workflows, log: seq<Event>, log': seq<Event>)
    requires LogCurrent(ws, log) && StatusMoves(ws, ws') && Appends(log, log', Changes(ws, ws'))
    ensures LogCurrent(ws', log')
  {
    forall wid | wid in ws' && !ws'[wid].status.WorkflowPending?
      ensures WorkflowStatusChanged(wid, ws'[wid].status) in log'
    {
      var e := WorkflowStatusChanged(wid, ws'[wid].status);
      if ws'[wid].status == WorkflowStatusOf(ws, wid) {
        assert e in log && log <= log';
      } else {
        assert e in Changes(ws, ws');
        AppendedAll(log, log', Changes(ws, ws'), e);
      }
    }
  }

  lemma {:induction false} CallKeepsLog(ws: Workflows, ws': Workflows, log: seq<Event>, log': seq<Event>)
    requires LogInv(ws, log) && StatusMoves(ws, ws') && Appends(log, log', Changes(ws, ws'))
    ensures LogInv(ws', log')
  {
    CallKeepsLogBehind(ws, ws', log, log');
    CallKeepsLogRising(ws, ws', log, log');
    CallKeepsLogCurrent(ws, ws', log, log');
  }

  lemma MovesAreStatusMoves(ws: Workflows, ws': Workflows)
    requires Moves(ws, ws')
    ensures StatusMoves(ws, ws')
  {
  }

  // ---------------------------------------------------------------- every step keeps everything

  lemma {:induction false} EngineCallKeepsInvariant(s: Sys, c: Call, s': Sys)
    requires SysInv(s) && Next(s, EngineCall(c), s')
    ensures SysInv(s')
  {
    var ws, ws' := s.engine.workflows, s'.engine.workflows;
    CallKeepsInvariant(s.engine, c);
    CallMoves(s.engine, c);
    AppendsCount(s.engine.queue, s'.engine.queue, NewlyReady(ws, ws'));
    assert Tokens(s') == Tokens(s) + multiset(NewlyReady(ws, ws'));
    CallKeepsTokens(ws, ws', Tokens(s));
    CallKeepsAssignment(ws, ws', s.target);
    MovesAreStatusMoves(ws, ws');
    CallKeepsLog(ws, ws', s.engine.published, s'.engine.published);
  }

  lemma DispatchStatusMoves(ws: Workflows, wid: string, id: string, worker: string)
    ensures StatusMoves(ws, After(ws, OnTaskDispatched(wid, id, worker)))
  {
  }

  lemma {:induction false} RpcDoneKeepsInvariant(s: Sys, s': Sys)
    requires SysInv(s) && Next(s, RpcDone, s')
    ensures SysInv(s')
  {
    var ws, ws' := s.engine.workflows, s'.engine.workflows;
    var Delivery(j, worker) := s.inflight.value;
    CallKeepsInvariant(s.engine, OnTaskDispatched(j.workflowId, j.id, worker));
    DispatchMakesNothingReady(ws, j.workflowId, j.id, worker);
    AppendsNothing(s.engine.queue, s'.engine.queue);
    assert Tokens(s') == Tokens(s) - multiset{j};
    DispatchKeepsTokens(ws, Tokens(s), j, worker);
    DispatchKeepsAssignment(ws, s.target, j.workflowId, j.id, worker);
    DispatchStatusMoves(ws, j.workflowId, j.id, worker);
    CallKeepsLog(ws, ws', s.engine.published, s'.engine.published);
  }

  /** The scheduler's own steps pass jobs around and create or lose none. */
  lemma {:induction false} SchedulerConservesTokens(s: Sys, a: Action, s': Sys)
    requires Next(s, a, s') && !a.EngineCall? && !a.RpcDone?
    ensures Tokens(s') == Tokens(s)
  {
    match a
    case PopBatch => CutInTwo(s.engine.queue, |s'.held|);
    case RpcFailed => CutInTwo(s'.engine.queue, |s.engine.queue|);
    case NoWorker =>
      HeadAndTail(s.held);
      CutInTwo(s'.engine.queue, |s.engine.queue|);
    case Send(_) => HeadAndTail(s.held);
  }

  lemma {:induction false} StepKeepsInvariant(s: Sys, a: Action, s': Sys)
    requires SysInv(s) && Next(s, a, s')
    ensures SysInv(s')
  {
    match a
    case EngineCall(c) => EngineCallKeepsInvariant(s, c, s');
    case RpcDone => RpcDoneKeepsInvariant(s, s');
    case _ => SchedulerConservesTokens(s, a, s');
  }

  lemma RunStep(ss: seq<Sys>, acts: seq<Action>, i: nat, s: Sys, a: Action, s': Sys)
    requires IsRun(ss, acts) && i < |acts| && s == ss[i] && a == acts[i] && s' == ss[i + 1]
    ensures Next(s, a, s')
  {
    assert Follows(ss, acts, i);
  }

  lemma RunStepKeepsInvariant(ss: seq<Sys>, acts: seq<Action>, i: nat, j: nat)
    requires IsRun(ss, acts) && i < |acts| && j == i + 1 && SysInv(ss[i])
    ensures SysInv(ss[j])
  {
    RunStep(ss, acts, i, ss[i], acts[i], ss[j]);
    StepKeepsInvariant(ss[i], acts[i], ss[j]);
  }

  lemma InitIsGood(s: Sys)
    requires Init(s)
    ensures SysInv(s)
  {
  }

  /** The invariant holds in every state of every run. */
  lemma {:induction false} EveryReachableStateIsGood(ss: seq<Sys>, acts: seq<Action>, i: nat)
    requires IsRun(ss, acts) && i < |ss|
    ensures SysInv(ss[i])
  {
    if i == 0 {
      InitIsGood(ss[0]);
    } else {
      EveryReachableStateIsGood(ss, acts, i - 1);
      RunStepKeepsInvariant(ss, acts, i - 1, i);
    }
  }

  // ---------------------------------------------------------------- particular runs

  /** These actions lead from `s` to `s'`. */
  ghost predicate Leads(s: Sys, acts: seq<Action>, s': Sys) {
    exists ss: seq<Sys> :: Segment(ss, acts) && ss[0] == s && ss[|acts|] == s'
  }

  /** A run of these actions ends in `s`. */
  ghost predicate Reached(acts: seq<Action>, s: Sys) {
    exists s0: Sys :: Init(s0) && Leads(s0, acts, s)
  }

  lemma LeadsNowhere(s: Sys)
    ensures Leads(s, [], s)
  {
    var acts: seq<Action> := [];
    assert Segment([s], acts) && [s][0] == s && [s][|acts|] == s;
  }

  lemma LeadsOn(s: Sys, acts: seq<Action>, m: Sys, a: Action, s': Sys)
    requires Leads(s, acts, m) && Next(m, a, s')
    ensures Leads(s, acts + [a], s')
  {
    var ss: seq<Sys> :| Segment(ss, acts) && ss[0] == s && ss[|acts|] == m;
    var ss', acts' := ss + [s'], acts + [a];
    forall i | 0 <= i < |acts'|
      ensures Follows(ss', acts', i)
    {
      assert i < |acts| ==> Follows(ss, acts, i);
    }
    assert Segment(ss', acts') && ss'[0] == s && ss'[|acts'|] == s';
  }

  lemma LeadsVia(s: Sys, acts: seq<Action>, m: Sys, more: seq<Action>, s': Sys)
    requires Leads(s, acts, m) && Leads(m, more, s')
    ensures Leads(s, acts + more, s')
  {
    var ss: seq<Sys> :| Segment(ss, more) && ss[0] == m && ss[|more|] == s';
    assert acts + more[..0] == acts;
    for k := 0 to |more|
      invariant Leads(s, acts + more[..k], ss[k])
    {
      assert Follows(ss, more, k);
      LeadsOn(s, acts + more[..k], ss[k], more[k], ss[k + 1]);
      assert acts + more[..k + 1] == acts + more[..k] + [more[k]];
    }
    assert more[..|more|] == more;
  }

  lemma ReachStart(s: Sys)
    requires Init(s)
    ensures Reached([], s)
  {
    LeadsNowhere(s);
  }

  lemma ReachStep(acts: seq<Action>, s: Sys, a: Action, s': Sys)
    requires Reached(acts, s) && Next(s, a, s')
    ensures Reached(acts + [a], s')
  {
    var s0: Sys :| Init(s0) && Leads(s0, acts, s);
    LeadsOn(s0, acts, s, a, s');
  }
}
