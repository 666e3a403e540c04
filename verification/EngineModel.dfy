/** The engine as a value: its workflows, the ready queue it feeds and the events it publishes. */
module EngineModel {
  import opened Status
  import opened WorkflowModel

  type Workflows = map<string, WorkflowState>

  /** A queued request to run a task. */
  datatype Job = Job(id: string, workflowId: string, taskType: string)

  datatype Event =
    | TaskStatusChanged(workflowId: string, taskId: string, taskStatus: TaskStatus)
    | WorkflowStatusChanged(workflowId: string, status: WorkflowStatus)

  datatype EngineState = EngineState(workflows: Workflows, queue: seq<Job>, published: seq<Event>)

  /** The calls the engine reacts to; each runs under the engine's lock, so each is one step. */
  datatype Call =
    | Submit(workflowId: string, workflow: WorkflowState)
    | TaskResponse(workflowId: string, taskId: string, report: TaskResult)
    | CancelTask(workflowId: string, taskId: string)
    | CancelWorkflow(workflowId: string)
    | WorkerDead(worker: string)
    | OnTaskDispatched(workflowId: string, taskId: string, worker: string)

  predicate Has(ws: Workflows, wid: string, id: string) {
    wid in ws && id in ws[wid].tasks
  }

  function StatusOf(ws: Workflows, wid: string, id: string): TaskStatus {
    if Has(ws, wid, id) then ws[wid].tasks[id].status else TaskPending
  }

  function WorkflowStatusOf(ws: Workflows, wid: string): WorkflowStatus {
    if wid in ws then ws[wid].status else WorkflowPending
  }

  function JobOf(ws: Workflows, wid: string, id: string): Job
    requires Has(ws, wid, id)
  {
    Job(id, wid, ws[wid].tasks[id].taskType)
  }

  /** The workflows after a call. */
  ghost function After(ws: Workflows, c: Call): Workflows {
    match c
    case Submit(wid, w) => ws[wid := MarkReady(w)]
    case TaskResponse(wid, id, r) => if Has(ws, wid, id) then ws[wid := OnReport(ws[wid], id, r)] else ws
    case CancelTask(wid, id) => if Has(ws, wid, id) then ws[wid := OnCancelTask(ws[wid], id)] else ws
    case CancelWorkflow(wid) => if wid in ws then ws[wid := OnCancelWorkflow(ws[wid])] else ws
    case WorkerDead(worker) => map wid | wid in ws :: OnWorkerDead(ws[wid], worker)
    case OnTaskDispatched(wid, id, worker) => if Has(ws, wid, id) then ws[wid := OnDispatched(ws[wid], id, worker)]
      else ws
  }

  /** One job for every task that became READY. */
  function NewlyReady(ws: Workflows, ws': Workflows): set<Job> {
    set wid, id | wid in ws' && id in ws'[wid].tasks && ws'[wid].tasks[id].status.TaskReady?
        && !StatusOf(ws, wid, id).TaskReady? ::
      JobOf(ws', wid, id)
  }

  /** One event for every status that changed. */
  function Changes(ws: Workflows, ws': Workflows): set<Event> {
    (set wid, id | wid in ws' && id in ws'[wid].tasks && ws'[wid].tasks[id].status != StatusOf(ws, wid, id) ::
       TaskStatusChanged(wid, id, ws'[wid].tasks[id].status))
    + (set wid | wid in ws' && ws'[wid].status != WorkflowStatusOf(ws, wid) ::
       WorkflowStatusChanged(wid, ws'[wid].status))
  }

  /** `b` is `a` followed by the members of `xs`, each once, in some order. */
  ghost predicate Appends<T>(a: seq<T>, b: seq<T>, xs: set<T>) {
    a <= b && multiset(b[|a|..]) == multiset(xs)
  }

  /** What a call does besides updating workflows; Go walks its maps in any order, so the order is open. */
  ghost predicate Effects(s: EngineState, s': EngineState) {
    && Appends(s.queue, s'.queue, NewlyReady(s.workflows, s'.workflows))
    && Appends(s.published, s'.published, Changes(s.workflows, s'.workflows))
  }

  /** What the server guarantees: workflow IDs are fresh and submitted workflows were just built. */
  ghost predicate Admissible(s: EngineState, c: Call) {
    c.Submit? ==> c.workflowId !in s.workflows && Fresh(c.workflow)
  }

  ghost predicate EngineStep(s: EngineState, c: Call, s': EngineState) {
    s'.workflows == After(s.workflows, c) && Effects(s, s')
  }

  ghost predicate EngineInv(ws: Workflows) {
    forall wid | wid in ws :: WorkflowInv(ws[wid])
  }

  lemma AppendsCount<T>(a: seq<T>, b: seq<T>, xs: set<T>)
    requires Appends(a, b, xs)
    ensures multiset(b) == multiset(a) + multiset(xs)
  {
    assert b == a + b[|a|..];
  }

  lemma AppendsNothing<T>(a: seq<T>, b: seq<T>)
    requires Appends(a, b, {})
    ensures a == b
  {
    assert b == a + b[|a|..];
    assert |multiset(b[|a|..])| == |b[|a|..]|;
  }

  /** What a call makes of one workflow keeps its invariant. */
  lemma WorkflowCallKeepsInvariant(s: EngineState, c: Call, wid: string)
    requires EngineInv(s.workflows) && Admissible(s, c) && wid in After(s.workflows, c)
    ensures WorkflowInv(After(s.workflows, c)[wid])
  {
    var ws := s.workflows;
    if c.Submit? && wid == c.workflowId {
      SubmitEstablishes(c.workflow);
      return;
    }
    var w := ws[wid];
    match c
    case Submit(_, _) =>
    case TaskResponse(wid2, id, r) =>
      if wid2 == wid && id in w.tasks {
        ReportKeepsInvariant(w, id, r);
      }
    case CancelTask(wid2, id) =>
      if wid2 == wid && id in w.tasks {
        CancelTaskKeepsInvariant(w, id);
      }
    case CancelWorkflow(_) => CancelWorkflowKeepsInvariant(w);
    case WorkerDead(worker) => WorkerDeadKeepsInvariant(w, worker);
    case OnTaskDispatched(wid2, id, worker) =>
      if wid2 == wid && id in w.tasks {
        DispatchKeepsInvariant(w, id, worker);
      }
  }

  /** Every call keeps the invariant of every workflow. */
  lemma {:induction false} CallKeepsInvariant(s: EngineState, c: Call)
    requires EngineInv(s.workflows) && Admissible(s, c)
    ensures EngineInv(After(s.workflows, c))
  {
    forall wid | wid in After(s.workflows, c)
      ensures WorkflowInv(After(s.workflows, c)[wid])
    {
      WorkflowCallKeepsInvariant(s, c, wid);
    }
  }

  /** Workflows only appear, as built and at most promoted, or move. */
  ghost predicate Moves(ws: Workflows, ws': Workflows) {
    && ws.Keys <= ws'.Keys
    && (forall wid | wid in ws :: WorkflowMove(ws[wid], ws'[wid]))
    && (forall wid | wid in ws' && wid !in ws :: exists w :: Fresh(w) && WorkflowMove(w, ws'[wid]))
  }

  /** Every call but the dispatch callback moves every task and every workflow at most once along its graph. */
  lemma {:induction false} CallMoves(s: EngineState, c: Call)
    requires EngineInv(s.workflows) && Admissible(s, c) && !c.OnTaskDispatched?
    ensures Moves(s.workflows, After(s.workflows, c))
  {
    var ws := s.workflows;
    forall wid | wid in ws
      ensures WorkflowMove(ws[wid], After(ws, c)[wid])
    {
      WorkflowCallMoves(s, c, wid);
    }
    if c.Submit? {
      SubmitMoves(c.workflow);
    }
  }

  lemma WorkflowCallMoves(s: EngineState, c: Call, wid: string)
    requires EngineInv(s.workflows) && Admissible(s, c) && !c.OnTaskDispatched? && wid in s.workflows
    ensures wid in After(s.workflows, c) && WorkflowMove(s.workflows[wid], After(s.workflows, c)[wid])
  {
    var w := s.workflows[wid];
    match c
    case Submit(_, _) => WorkflowMoveSelf(w);
    case TaskResponse(wid2, id, r) =>
      if wid2 == wid && id in w.tasks {
        ReportKeepsInvariant(w, id, r);
        ReportMoves(w, id, r);
      } else {
        WorkflowMoveSelf(w);
      }
    case CancelTask(wid2, id) =>
      if wid2 == wid && id in w.tasks {
        CancelTaskMoves(w, id);
      } else {
        WorkflowMoveSelf(w);
      }
    case CancelWorkflow(wid2) =>
      if wid2 == wid {
        CancelWorkflowMoves(w);
      } else {
        WorkflowMoveSelf(w);
      }
    case WorkerDead(worker) => WorkerDeadMoves(w, worker);
  }

  lemma WorkflowMoveSelf(w: WorkflowState)
    ensures WorkflowMove(w, w)
  {
  }

  lemma FinishedIsKept(s: EngineState, c: Call, wid: string)
    requires EngineInv(s.workflows) && Admissible(s, c) && !c.OnTaskDispatched?
    requires wid in s.workflows && IsWorkflowFinished(s.workflows[wid].status)
    ensures wid in After(s.workflows, c) && After(s.workflows, c)[wid] == s.workflows[wid]
  {
    var w := s.workflows[wid];
    match c
    case Submit(_, _) =>
    case TaskResponse(wid2, id, r) =>
      if wid2 == wid && id in w.tasks {
        FinishedRefusesReports(w, id, r);
      }
    case CancelTask(_, _) => FinishedRefusesCancels(w);
    case CancelWorkflow(_) => FinishedRefusesCancels(w);
    case WorkerDead(worker) => FinishedIgnoresDeaths(w, worker);
  }

  /** A finished workflow stays as it is, apart from the worker's name a stale dispatch may leave. */
  lemma {:induction false} FinishedIsFrozen(s: EngineState, c: Call, wid: string)
    requires EngineInv(s.workflows) && Admissible(s, c)
    requires wid in s.workflows && IsWorkflowFinished(s.workflows[wid].status)
    ensures wid in After(s.workflows, c) && Frozen(s.workflows[wid], After(s.workflows, c)[wid])
    ensures !c.OnTaskDispatched? ==> After(s.workflows, c)[wid] == s.workflows[wid]
  {
    var w := s.workflows[wid];
    if !c.OnTaskDispatched? {
      FinishedIsKept(s, c, wid);
    } else if c.workflowId == wid && c.taskId in w.tasks {
      FinishedIsFrozenByDispatch(w, c.taskId, c.worker);
    }
  }

  /** A report changes the engine exactly when its task is on a worker and the report is news: RUNNING for a
      task just dispatched, or a final status. Late, duplicate and stale reports leave everything as it was. */
  lemma {:induction false} ReportActsIffNews(s: EngineState, wid: string, id: string, r: TaskResult, s': EngineState)
    requires EngineInv(s.workflows) && EngineStep(s, TaskResponse(wid, id, r), s')
    ensures s' != s <==> Has(s.workflows, wid, id) && IsNews(StatusOf(s.workflows, wid, id), r.status)
  {
    if Has(s.workflows, wid, id) {
      ReportIsNews(s.workflows[wid], id, r);
    }
    if s'.workflows == s.workflows {
      NoChangeNoEffects(s, s');
    }
  }

  lemma NoChangeNoEffects(s: EngineState, s': EngineState)
    requires s'.workflows == s.workflows && Effects(s, s')
    ensures s' == s
  {
    assert NewlyReady(s.workflows, s'.workflows) == {};
    assert Changes(s.workflows, s'.workflows) == {};
    AppendsNothing(s.queue, s'.queue);
    AppendsNothing(s.published, s'.published);
  }

  /** What the dispatch callback does to a task that is READY or CANCELLED. */
  lemma DispatchEffect(ws: Workflows, wid: string, id: string, worker: string, v: string, n: string)
    requires StatusOf(ws, wid, id).TaskReady? || StatusOf(ws, wid, id).TaskCancelled?
    ensures var ws' := After(ws, OnTaskDispatched(wid, id, worker));
            && (Has(ws', v, n) <==> Has(ws, v, n))
            && StatusOf(ws', v, n) == (if v == wid && n == id
                                       && StatusOf(ws, wid, id).TaskReady? then TaskDispatched else StatusOf(ws, v, n))
  {
  }

  lemma DeathEffect(ws: Workflows, worker: string, wid: string, id: string)
    requires Has(ws, wid, id) && IsOnWorker(StatusOf(ws, wid, id)) && ws[wid].tasks[id].assignedTo == worker
    ensures Has(After(ws, WorkerDead(worker)), wid, id)
    ensures After(ws, WorkerDead(worker))[wid].tasks[id] == ws[wid].tasks[id].(status := TaskReady, assignedTo := "")
  {
  }

  lemma SeqOf<T>(xs: set<T>) returns (q: seq<T>)
    ensures multiset(q) == multiset(xs)
  {
    if xs == {} {
      q := [];
    } else {
      var x :| x in xs;
      q := SeqOf(xs - {x});
      q := q + [x];
      assert xs == (xs - {x}) + {x};
    }
  }

  /** Every admissible call is possible in every state. */
  lemma CanCall(s: EngineState, c: Call) returns (s': EngineState)
    ensures EngineStep(s, c, s')
  {
    var ws' := After(s.workflows, c);
    var jobs := SeqOf(NewlyReady(s.workflows, ws'));
    var events := SeqOf(Changes(s.workflows, ws'));
    s' := EngineState(ws', s.queue + jobs, s.published + events);
    assert s'.queue[|s.queue|..] == jobs && s'.published[|s.published|..] == events;
  }
}
