/** Runs of the control plane that show what the guarantees do not promise. */
module Scenarios {
  import opened Options
  import opened Status
  import opened Graphs
  import opened WorkflowModel
  import opened EngineModel
  import opened Orchestration
  import opened DeadWorkers

  // ---------------------------------------------------------------- building runs

  /** A state whose only workflow is `wid`; what was published is left open. */
  predicate Looks(s: Sys, wid: string, w: WorkflowState, queue: seq<Job>, held: seq<Job>, inflight: Option<Delivery>) {
    s.engine.workflows == map[wid := w] && s.engine.queue == queue && s.held == held && s.inflight == inflight
  }

  /** A call that makes no task READY. */
  lemma QuietCall(acts: seq<Action>, s: Sys, c: Call, wid: string, w: WorkflowState, w': WorkflowState)
      returns (s': Sys)
    requires Reached(acts, s) && Looks(s, wid, w, s.engine.queue, s.held, s.inflight)
    requires !c.Submit? && !c.OnTaskDispatched? && After(map[wid := w], c) == map[wid := w']
    requires forall id | id in w'.tasks :: w'.tasks[id].status.TaskReady? ==>
               id in w.tasks && w.tasks[id].status.TaskReady?
    ensures Reached(acts + [EngineCall(c)], s') && Looks(s', wid, w', s.engine.queue, s.held, s.inflight)
  {
    var e := CanCall(s.engine, c);
    s' := s.(engine := e);
    assert NewlyReady(s.engine.workflows, e.workflows) == {};
    AppendsNothing(s.engine.queue, e.queue);
    ReachStep(acts, s, EngineCall(c), s');
  }

  lemma Popped(acts: seq<Action>, s: Sys, wid: string, w: WorkflowState, queue: seq<Job>) returns (s': Sys)
    requires Reached(acts, s) && Looks(s, wid, w, queue, [], None) && |queue| <= BATCH
    ensures Reached(acts + [PopBatch], s') && Looks(s', wid, w, [], queue, None)
  {
    s' := s.(engine := s.engine.(queue := []), held := queue);
    assert queue[|queue|..] == [] && queue[..|queue|] == queue;
    ReachStep(acts, s, PopBatch, s');
  }

  lemma Sent(acts: seq<Action>, s: Sys, wid: string, w: WorkflowState, held: seq<Job>, worker: string) returns (s': Sys)
    requires Reached(acts, s) && Looks(s, wid, w, [], held, None) && held != []
    ensures Reached(acts + [Send(worker)], s') && Looks(s', wid, w, [], held[1..], Some(Delivery(held[0], worker)))
  {
    s' := s.(held := held[1..], inflight := Some(Delivery(held[0], worker)));
    ReachStep(acts, s, Send(worker), s');
  }

  lemma Arrived(acts: seq<Action>, s: Sys, wid: string, w: WorkflowState, held: seq<Job>, j: Job, worker: string)
      returns (s': Sys)
    requires Reached(acts, s) && Looks(s, wid, w, [], held, Some(Delivery(j, worker)))
    requires j.workflowId == wid && j.id in w.tasks
    ensures Reached(acts + [RpcDone], s') && Looks(s', wid, OnDispatched(w, j.id, worker), [], held, None)
  {
    var e := CanCall(s.engine, OnTaskDispatched(wid, j.id, worker));
    s' := s.(engine := e, inflight := None, target := s.target[(wid, j.id) := worker]);
    DispatchMakesNothingReady(s.engine.workflows, wid, j.id, worker);
    AppendsNothing(s.engine.queue, e.queue);
    assert e.workflows == map[wid := OnDispatched(w, j.id, worker)];
    ReachStep(acts, s, RpcDone, s');
  }

  // ---------------------------------------------------------------- one task

  function Task(status: TaskStatus, worker: string): TaskState {
    TaskState([], "shell", status, worker, None)
  }

  function OneTask(id: string, status: TaskStatus, worker: string, ws: WorkflowStatus): WorkflowState {
    WorkflowState(map[id := Task(status, worker)], ws)
  }

  function JobFor(wid: string, id: string): Job {
    Job(id, wid, "shell")
  }

  lemma NoEdges(tasks: Tasks)
    requires forall id | id in tasks :: tasks[id].dependsOn == []
    ensures WellShaped(tasks)
  {
    forall w
      ensures !IsCycle(Edges(tasks), w)
    {
      if |w| >= 2 && w[0] in tasks {
        assert Edges(tasks)[w[0]] == [] && (IsWalk(Edges(tasks), w) ==> w[1] in Edges(tasks)[w[0]]);
      }
    }
  }

  lemma NobodyDownstream(tasks: Tasks, root: string)
    requires forall id | id in tasks :: tasks[id].dependsOn == []
    ensures CancelDownstream(tasks, root) == tasks
  {
    forall id | id in tasks
      ensures !InDownstream(tasks, root, id)
    {
      forall p
        ensures !DownPath(tasks, p)
      {
        if |p| >= 2 && p[1] in tasks {
          assert tasks[p[1]].dependsOn == [];
        }
      }
    }
  }

  /** A workflow of tasks without dependencies, just submitted: all READY, all queued, in the order we like. */
  lemma Submitted(wid: string, w: WorkflowState, jobs: seq<Job>) returns (s: Sys)
    requires Fresh(w) && w.tasks != map[] && (forall id | id in w.tasks :: w.tasks[id].dependsOn == [])
    requires multiset(jobs) == multiset(set id | id in w.tasks :: Job(id, wid, w.tasks[id].taskType))
    ensures Reached([EngineCall(Submit(wid, w))], s)
    ensures Looks(s, wid, WorkflowState(map id | id in w.tasks :: w.tasks[id].(status := TaskReady), WorkflowRunning),
                  jobs, [], None)
  {
    var s0 := Sys(EngineState(map[], [], []), [], None, map[]);
    ReachStart(s0);
    var w' := WorkflowState(map id | id in w.tasks :: w.tasks[id].(status := TaskReady), WorkflowRunning);
    AllReady(w, w');
    var c := Submit(wid, w);
    var e := CanCall(s0.engine, c);
    assert e.workflows == map[wid := w'];
    JobsOfSubmission(wid, w, w');
    s := s0.(engine := e.(queue := jobs));
    assert jobs[|s0.engine.queue|..] == jobs;
    ReachStep([], s0, EngineCall(c), s);
    assert [] + [EngineCall(c)] == [EngineCall(c)];
  }

  lemma AllReady(w: WorkflowState, w': WorkflowState)
    requires Fresh(w) && w.tasks != map[] && (forall id | id in w.tasks :: w.tasks[id].dependsOn == [])
    requires w' == WorkflowState(map id | id in w.tasks :: w.tasks[id].(status := TaskReady), WorkflowRunning)
    ensures MarkReady(w) == w'
  {
    assert ReadySet(w.tasks) == w.tasks.Keys;
  }

  lemma JobsOfSubmission(wid: string, w: WorkflowState, w': WorkflowState)
    requires w' == WorkflowState(map id | id in w.tasks :: w.tasks[id].(status := TaskReady), WorkflowRunning)
    ensures NewlyReady(map[], map[wid := w']) == set id | id in w.tasks :: Job(id, wid, w.tasks[id].taskType)
  {
    forall j
      ensures j in NewlyReady(map[], map[wid := w'])
              <==> j in set id | id in w.tasks :: Job(id, wid, w.tasks[id].taskType)
    {
      if j.workflowId == wid && j.id in w.tasks && j.taskType == w.tasks[j.id].taskType {
        assert j == JobOf(map[wid := w'], wid, j.id);
      }
    }
  }

  lemma OneSubmitted(wid: string, id: string) returns (s: Sys)
    ensures Reached([EngineCall(Submit(wid, OneTask(id, TaskPending, "", WorkflowPending)))], s)
    ensures Looks(s, wid, OneTask(id, TaskReady, "", WorkflowRunning), [JobFor(wid, id)], [], None)
  {
    var w := OneTask(id, TaskPending, "", WorkflowPending);
    NoEdges(w.tasks);
    assert id in w.tasks && w.tasks.Keys == {id};
    var jobs := set n | n in w.tasks :: Job(n, wid, w.tasks[n].taskType);
    assert JobFor(wid, id) in jobs && jobs == {JobFor(wid, id)};
    s := Submitted(wid, w, [JobFor(wid, id)]);
    assert (map n | n in w.tasks :: w.tasks[n].(status := TaskReady)) == map[id := Task(TaskReady, "")];
  }

  /** Sent to a worker, and on it. */
  lemma OneDispatched(acts: seq<Action>, s: Sys, wid: string, id: string, worker: string) returns (s': Sys)
    requires Reached(acts, s) && Looks(s, wid, OneTask(id, TaskReady, "", WorkflowRunning), [JobFor(wid, id)], [], None)
    ensures Reached(acts + [PopBatch] + [Send(worker)] + [RpcDone], s')
    ensures Looks(s', wid, OneTask(id, TaskDispatched, worker, WorkflowRunning), [], [], None)
  {
    var w, job := OneTask(id, TaskReady, "", WorkflowRunning), JobFor(wid, id);
    s' := Popped(acts, s, wid, w, [job]);
    s' := Sent(acts + [PopBatch], s', wid, w, [job], worker);
    s' := Arrived(acts + [PopBatch] + [Send(worker)], s', wid, w, [], job, worker);
    assert OnDispatched(w, id, worker) == OneTask(id, TaskDispatched, worker, WorkflowRunning);
  }

  // ---------------------------------------------------------------- a delivery overtaken by a death

  lemma DeathOfNobody(wid: string, id: string, worker: string)
    ensures var ws := map[wid := OneTask(id, TaskReady, "", WorkflowRunning)]; After(ws, WorkerDead(worker)) == ws
  {
    var w := OneTask(id, TaskReady, "", WorkflowRunning);
    assert OnWorkerDead(w, worker).tasks == w.tasks;
  }

  /** A worker dies while a job is on its way to it: the death overlooks the task, the callback then puts it on the
      dead worker, and no job is left anywhere. */
  lemma {:induction false} LeftOnTheDead(wid: string, id: string, worker: string) returns (acts: seq<Action>, s: Sys)
    ensures |acts| == 5 && acts[1..] == [PopBatch, Send(worker), EngineCall(WorkerDead(worker)), RpcDone]
    ensures Reached(acts, s) && On(s, wid, id, worker) && Tokens(s) == multiset{}
  {
    var w, job := OneTask(id, TaskReady, "", WorkflowRunning), JobFor(wid, id);
    s := OneSubmitted(wid, id);
    acts := [EngineCall(Submit(wid, OneTask(id, TaskPending, "", WorkflowPending)))];
    s := Popped(acts, s, wid, w, [job]);
    s := Sent(acts + [PopBatch], s, wid, w, [job], worker);
    DeathOfNobody(wid, id, worker);
    s := QuietCall(acts + [PopBatch] + [Send(worker)], s, WorkerDead(worker), wid, w, w);
    acts := acts + [PopBatch] + [Send(worker)] + [EngineCall(WorkerDead(worker))];
    s := Arrived(acts, s, wid, w, [], job, worker);
    acts := acts + [RpcDone];
  }

  // ---------------------------------------------------------------- a late report of a dead worker

  lemma DeathOfOne(wid: string, id: string, worker: string)
    ensures var ws, ws' := map[wid := OneTask(id, TaskDispatched, worker, WorkflowRunning)],
                           map[wid := OneTask(id, TaskReady, "", WorkflowRunning)];
            After(ws, WorkerDead(worker)) == ws' && NewlyReady(ws, ws') == {JobFor(wid, id)}
  {
    var w, w' := OneTask(id, TaskDispatched, worker, WorkflowRunning), OneTask(id, TaskReady, "", WorkflowRunning);
    assert OnWorkerDead(w, worker).tasks == w'.tasks;
    assert JobOf(map[wid := w'], wid, id) == JobFor(wid, id);
  }

  lemma TakenBackFrom(acts: seq<Action>, s: Sys, wid: string, id: string, worker: string) returns (s': Sys)
    requires Reached(acts, s) && Looks(s, wid, OneTask(id, TaskDispatched, worker, WorkflowRunning), [], [], None)
    ensures Reached(acts + [EngineCall(WorkerDead(worker))], s')
    ensures Looks(s', wid, OneTask(id, TaskReady, "", WorkflowRunning), [JobFor(wid, id)], [], None)
  {
    DeathOfOne(wid, id, worker);
    var e := CanCall(s.engine, WorkerDead(worker));
    s' := s.(engine := e.(queue := [JobFor(wid, id)]));
    assert s'.engine.queue[|s.engine.queue|..] == [JobFor(wid, id)];
    ReachStep(acts, s, EngineCall(WorkerDead(worker)), s');
  }

  lemma ReportOnOne(wid: string, id: string, worker: string, r: TaskResult)
    requires r.status.TaskSucceeded?
    ensures var ws := map[wid := OneTask(id, TaskDispatched, worker, WorkflowRunning)];
            After(ws, TaskResponse(wid, id, r)) ==
            map[wid := WorkflowState(map[id := Task(TaskSucceeded, worker).(result := Some(r))], WorkflowSucceeded)]
  {
    var w := OneTask(id, TaskDispatched, worker, WorkflowRunning);
    var w1 := WorkflowState(map[id := Task(TaskSucceeded, worker).(result := Some(r))], WorkflowRunning);
    assert ApplyReport(w, id, r) == w1;
    assert MarkReady(w1).tasks == w1.tasks;
    assert id in w1.tasks;
  }

  /** A report says nothing about who sends it. After a worker's death its task has gone to another worker; the report
      of the first one ends the task under the second. */
  lemma {:induction false} LateReportCounts(wid: string, id: string, first: string, second: string, r: TaskResult)
    returns (acts: seq<Action>, s: Sys, s': Sys)
    requires r.status.TaskSucceeded?
    ensures Reached(acts, s) && On(s, wid, id, second)
    ensures exists i, k :: 0 <= i < k < |acts| && SendsTo(acts[i], first) && Dies(acts[k], first)
    ensures Reached(acts + [EngineCall(TaskResponse(wid, id, r))], s')
    ensures StatusOf(s'.engine.workflows, wid, id).TaskSucceeded?
  {
    s := OneSubmitted(wid, id);
    acts := [EngineCall(Submit(wid, OneTask(id, TaskPending, "", WorkflowPending)))];
    s := OneDispatched(acts, s, wid, id, first);
    acts := acts + [PopBatch] + [Send(first)] + [RpcDone];
    s := TakenBackFrom(acts, s, wid, id, first);
    acts := acts + [EngineCall(WorkerDead(first))];
    assert SendsTo(acts[2], first) && Dies(acts[4], first);
    s := OneDispatched(acts, s, wid, id, second);
    acts := acts + [PopBatch] + [Send(second)] + [RpcDone];
    assert SendsTo(acts[2], first) && Dies(acts[4], first);
    ReportOnOne(wid, id, second, r);
    s' := QuietCall(acts, s, TaskResponse(wid, id, r), wid, OneTask(id, TaskDispatched, second, WorkflowRunning),
                    WorkflowState(map[id := Task(TaskSucceeded, second).(result := Some(r))], WorkflowSucceeded));
  }

  // ---------------------------------------------------------------- a cancelled task that is sent

  lemma CancelOfOne(wid: string, id: string)
    ensures var ws := map[wid := OneTask(id, TaskReady, "", WorkflowRunning)];
            After(ws, CancelTask(wid, id)) == map[wid := OneTask(id, TaskCancelled, "", WorkflowCancelled)]
  {
    var w := OneTask(id, TaskReady, "", WorkflowRunning);
    var tasks := map[id := Task(TaskCancelled, "")];
    NobodyDownstream(tasks, id);
    assert w.tasks[id := w.tasks[id].(status := TaskCancelled)] == tasks;
    assert id in tasks;
  }

  /** A job in the scheduler's hands is sent although its task was cancelled meanwhile, and the task, finished like its
      workflow, gets the worker's name. */
  lemma {:induction false} CancelledYetSent(wid: string, id: string, worker: string) returns (acts: seq<Action>, s: Sys)
    ensures Reached(acts, s) && Has(s.engine.workflows, wid, id)
    ensures |acts| == 5 && acts[2] == EngineCall(CancelTask(wid, id)) && SendsTo(acts[3], worker)
    ensures IsWorkflowFinished(s.engine.workflows[wid].status)
    ensures s.engine.workflows[wid].tasks[id] == Task(TaskCancelled, worker)
  {
    var job, w := JobFor(wid, id), OneTask(id, TaskCancelled, "", WorkflowCancelled);
    acts, s := CancelledWhileHeld(wid, id);
    s := Sent(acts, s, wid, w, [job], worker);
    s := Arrived(acts + [Send(worker)], s, wid, w, [], job, worker);
    acts := acts + [Send(worker)] + [RpcDone];
  }

  lemma CancelledWhileHeld(wid: string, id: string) returns (acts: seq<Action>, s: Sys)
    ensures Reached(acts, s) && |acts| == 3 && acts[2] == EngineCall(CancelTask(wid, id))
    ensures Looks(s, wid, OneTask(id, TaskCancelled, "", WorkflowCancelled), [], [JobFor(wid, id)], None)
  {
    var w, w' := OneTask(id, TaskReady, "", WorkflowRunning), OneTask(id, TaskCancelled, "", WorkflowCancelled);
    s := OneSubmitted(wid, id);
    acts := [EngineCall(Submit(wid, OneTask(id, TaskPending, "", WorkflowPending)))];
    s := Popped(acts, s, wid, w, [JobFor(wid, id)]);
    CancelOfOne(wid, id);
    s := QuietCall(acts + [PopBatch], s, CancelTask(wid, id), wid, w, w');
    acts := acts + [PopBatch] + [EngineCall(CancelTask(wid, id))];
  }

  // ---------------------------------------------------------------- a failure overruled

  function TwoTasks(a: string, x: TaskState, b: string, y: TaskState, ws: WorkflowStatus): WorkflowState {
    WorkflowState(map[a := x, b := y], ws)
  }

  lemma JobsOfTwo(wid: string, a: string, b: string, tasks: Tasks)
    requires a != b && tasks == map[a := Task(TaskPending, ""), b := Task(TaskPending, "")]
    ensures a in tasks
    ensures multiset([JobFor(wid, a), JobFor(wid, b)]) == multiset(set n | n in tasks :: Job(n, wid, tasks[n].taskType))
  {
    assert a in tasks && tasks.Keys == {a, b};
    var jobs := set n | n in tasks :: Job(n, wid, tasks[n].taskType);
    assert JobFor(wid, a) in jobs && JobFor(wid, b) in jobs;
    assert jobs == {JobFor(wid, a), JobFor(wid, b)};
  }

  lemma TwoSubmitted(wid: string, a: string, b: string) returns (acts: seq<Action>, s: Sys)
    requires a != b
    ensures Reached(acts, s)
    ensures Looks(s, wid, TwoTasks(a, Task(TaskReady, ""), b, Task(TaskReady, ""), WorkflowRunning),
                  [JobFor(wid, a), JobFor(wid, b)], [], None)
  {
    var w := TwoTasks(a, Task(TaskPending, ""), b, Task(TaskPending, ""), WorkflowPending);
    NoEdges(w.tasks);
    JobsOfTwo(wid, a, b, w.tasks);
    s := Submitted(wid, w, [JobFor(wid, a), JobFor(wid, b)]);
    acts := [EngineCall(Submit(wid, w))];
    assert (map n | n in w.tasks :: w.tasks[n].(status := TaskReady)) ==
           map[a := Task(TaskReady, ""), b := Task(TaskReady, "")];
  }

  lemma FailureOfOne(wid: string, a: string, b: string, worker: string, r: TaskResult)
    requires a != b && r.status.TaskFailed?
    ensures var ws := map[wid := TwoTasks(a, Task(TaskDispatched, worker), b, Task(TaskReady, ""), WorkflowRunning)];
            After(ws, TaskResponse(wid, a, r)) ==
            map[wid := TwoTasks(a, Task(TaskFailed, worker).(result := Some(r)), b, Task(TaskReady, ""),
                                WorkflowRunning)]
  {
    var w := TwoTasks(a, Task(TaskDispatched, worker), b, Task(TaskReady, ""), WorkflowRunning);
    var w1 := TwoTasks(a, Task(TaskFailed, worker).(result := Some(r)), b, Task(TaskReady, ""), WorkflowRunning);
    assert w.tasks[a := w.tasks[a].(status := TaskFailed, result := Some(r))] == w1.tasks;
    NobodyDownstream(w1.tasks, a);
    assert ApplyReport(w, a, r) == w1;
    assert MarkReady(w1).tasks == w1.tasks;
    assert b in w1.tasks;
  }

  /** A running workflow with a failed and an unfinished task, whose cancellation is final: CANCELLED, not FAILED. */
  lemma {:induction false} FailedYetCancelled(wid: string, a: string, b: string, worker: string, r: TaskResult)
    returns (acts: seq<Action>, s: Sys)
    requires a != b && r.status.TaskFailed?
    ensures Reached(acts, s) && wid in s.engine.workflows
    ensures var w := s.engine.workflows[wid];
            && w.status.WorkflowRunning? && HasTask(w.tasks, TaskFailed) && b in w.tasks
               && !IsFinished(w.tasks[b].status)
            && OnCancelWorkflow(w).status.WorkflowCancelled? && Verdict(OnCancelWorkflow(w).tasks).WorkflowFailed?
  {
    acts, s := TwoSubmitted(wid, a, b);
    var w := TwoTasks(a, Task(TaskReady, ""), b, Task(TaskReady, ""), WorkflowRunning);
    var ja, jb := JobFor(wid, a), JobFor(wid, b);
    s := Popped(acts, s, wid, w, [ja, jb]);
    s := Sent(acts + [PopBatch], s, wid, w, [ja, jb], worker);
    assert [ja, jb][1..] == [jb];
    s := Arrived(acts + [PopBatch] + [Send(worker)], s, wid, w, [jb], ja, worker);
    var w1 := TwoTasks(a, Task(TaskDispatched, worker), b, Task(TaskReady, ""), WorkflowRunning);
    assert OnDispatched(w, a, worker) == w1;
    FailureOfOne(wid, a, b, worker, r);
    var w2 := TwoTasks(a, Task(TaskFailed, worker).(result := Some(r)), b, Task(TaskReady, ""), WorkflowRunning);
    acts := acts + [PopBatch] + [Send(worker)] + [RpcDone];
    s := QuietCall(acts, s, TaskResponse(wid, a, r), wid, w1, w2);
    acts := acts + [EngineCall(TaskResponse(wid, a, r))];
    assert w2.tasks[a].status == TaskFailed && OnCancelWorkflow(w2).tasks[a].status == TaskFailed;
  }
}
