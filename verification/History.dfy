/** What the published events tell: every change of a status, once, in order, and nothing else. */
module History {
  import opened Status
  import opened EngineModel
  import opened Orchestration
  import opened Results

  // ---------------------------------------------------------------- events and changes

  /** The statuses of one task that were published, in order. */
  function TaskEvents(log: seq<Event>, wid: string, id: string): seq<TaskStatus> {
    if log == [] then []
    else
      var last := log[|log| - 1];
      TaskEvents(log[..|log| - 1], wid, id)
      + if last.TaskStatusChanged? && last.workflowId == wid && last.taskId == id then [last.taskStatus] else []
  }

  /** The statuses of one workflow that were published, in order. */
  function WorkflowEvents(log: seq<Event>, wid: string): seq<WorkflowStatus> {
    if log == [] then []
    else
      var last := log[|log| - 1];
      WorkflowEvents(log[..|log| - 1], wid)
      + if last.WorkflowStatusChanged? && last.workflowId == wid then [last.status] else []
  }

  /** The statuses that a task has taken over the first `n` steps, in order. */
  ghost function TaskHistory(ss: seq<Sys>, n: nat, wid: string, id: string): seq<TaskStatus>
    requires n < |ss|
  {
    if n == 0 then []
    else
      var was, now := StatusOf(ss[n - 1].engine.workflows, wid, id), StatusOf(ss[n].engine.workflows, wid, id);
      TaskHistory(ss, n - 1, wid, id) + if now != was then [now] else []
  }

  ghost function WorkflowHistory(ss: seq<Sys>, n: nat, wid: string): seq<WorkflowStatus>
    requires n < |ss|
  {
    if n == 0 then []
    else
      var was, now := WorkflowStatusOf(ss[n - 1].engine.workflows, wid), WorkflowStatusOf(ss[n].engine.workflows, wid);
      WorkflowHistory(ss, n - 1, wid) + if now != was then [now] else []
  }

  // ---------------------------------------------------------------- counting events

  lemma {:induction false} TaskEventsAppend(a: seq<Event>, b: seq<Event>, wid: string, id: string)
    ensures TaskEvents(a + b, wid, id) == TaskEvents(a, wid, id) + TaskEvents(b, wid, id)
  {
    if b == [] {
      assert a + b == a;
    } else {
      assert (a + b)[..|a + b| - 1] == a + b[..|b| - 1];
      TaskEventsAppend(a, b[..|b| - 1], wid, id);
    }
  }

  lemma {:induction false} WorkflowEventsAppend(a: seq<Event>, b: seq<Event>, wid: string)
    ensures WorkflowEvents(a + b, wid) == WorkflowEvents(a, wid) + WorkflowEvents(b, wid)
  {
    if b == [] {
      assert a + b == a;
    } else {
      assert (a + b)[..|a + b| - 1] == a + b[..|b| - 1];
      WorkflowEventsAppend(a, b[..|b| - 1], wid);
    }
  }

  lemma {:induction false} NoTaskEvents(log: seq<Event>, wid: string, id: string)
    requires forall e | e in log :: !(e.TaskStatusChanged? && e.workflowId == wid && e.taskId == id)
    ensures TaskEvents(log, wid, id) == []
  {
    if log != [] {
      assert log[|log| - 1] in log;
      NoTaskEvents(log[..|log| - 1], wid, id);
    }
  }

  lemma {:induction false} NoWorkflowEvents(log: seq<Event>, wid: string)
    requires forall e | e in log :: !(e.WorkflowStatusChanged? && e.workflowId == wid)
    ensures WorkflowEvents(log, wid) == []
  {
    if log != [] {
      assert log[|log| - 1] in log;
      NoWorkflowEvents(log[..|log| - 1], wid);
    }
  }

  /** An event that the sequence has once stands alone between two parts without it. */
  lemma SplitAtOnly(log: seq<Event>, xs: set<Event>, e: Event) returns (a: seq<Event>, b: seq<Event>)
    requires multiset(log) == multiset(xs) && e in xs
    ensures log == a + [e] + b && (forall x | x in a :: x in xs && x != e) && (forall x | x in b :: x in xs && x != e)
  {
    assert e in multiset(log);
    var p :| 0 <= p < |log| && log[p] == e;
    a, b := log[..p], log[p + 1..];
    assert log == a + [e] + b;
    assert multiset(log)[e] == multiset(a)[e] + 1 + multiset(b)[e];
    forall x | x in a
      ensures x in xs && x != e
    {
      assert x in multiset(a) && x in multiset(log);
    }
    forall x | x in b
      ensures x in xs && x != e
    {
      assert x in multiset(b) && x in multiset(log);
    }
  }

  lemma OneTaskEvent(log: seq<Event>, xs: set<Event>, wid: string, id: string, status: TaskStatus)
    requires multiset(log) == multiset(xs) && TaskStatusChanged(wid, id, status) in xs
    requires forall e | e in xs && e.TaskStatusChanged? && e.workflowId == wid
             && e.taskId == id :: e.taskStatus == status
    ensures TaskEvents(log, wid, id) == [status]
  {
    var a, b := SplitAtOnly(log, xs, TaskStatusChanged(wid, id, status));
    NoTaskEvents(a, wid, id);
    NoTaskEvents(b, wid, id);
    TaskEventsAppend(a + [TaskStatusChanged(wid, id, status)], b, wid, id);
    assert (a + [TaskStatusChanged(wid, id, status)])[..|a|] == a;
  }

  lemma OneWorkflowEvent(log: seq<Event>, xs: set<Event>, wid: string, status: WorkflowStatus)
    requires multiset(log) == multiset(xs) && WorkflowStatusChanged(wid, status) in xs
    requires forall e | e in xs && e.WorkflowStatusChanged? && e.workflowId == wid :: e.status == status
    ensures WorkflowEvents(log, wid) == [status]
  {
    var a, b := SplitAtOnly(log, xs, WorkflowStatusChanged(wid, status));
    NoWorkflowEvents(a, wid);
    NoWorkflowEvents(b, wid);
    WorkflowEventsAppend(a + [WorkflowStatusChanged(wid, status)], b, wid);
    assert (a + [WorkflowStatusChanged(wid, status)])[..|a|] == a;
  }

  lemma NotAmong(log: seq<Event>, xs: set<Event>)
    requires multiset(log) == multiset(xs)
    ensures forall e | e in log :: e in xs
  {
    forall e | e in log
      ensures e in xs
    {
      assert e in multiset(log);
    }
  }

  // ---------------------------------------------------------------- one step

  lemma ChangesOfTask(ws: Workflows, ws': Workflows, wid: string, id: string)
    requires Has(ws, wid, id) ==> Has(ws', wid, id)
    ensures TaskStatusChanged(wid, id, StatusOf(ws', wid, id)) in Changes(ws, ws') <==>
            StatusOf(ws', wid, id) != StatusOf(ws, wid, id)
    ensures forall e | e in Changes(ws, ws') && e.TaskStatusChanged? && e.workflowId == wid && e.taskId == id ::
              e.taskStatus == StatusOf(ws', wid, id)
  {
  }

  lemma ChangesOfWorkflow(ws: Workflows, ws': Workflows, wid: string)
    requires wid in ws ==> wid in ws'
    ensures WorkflowStatusChanged(wid, WorkflowStatusOf(ws', wid)) in Changes(ws, ws') <==>
            WorkflowStatusOf(ws', wid) != WorkflowStatusOf(ws, wid)
    ensures forall e | e in Changes(ws, ws') && e.WorkflowStatusChanged? && e.workflowId == wid ::
              e.status == WorkflowStatusOf(ws', wid)
  {
  }

  lemma TaskEventsAdded(log: seq<Event>, log': seq<Event>, xs: set<Event>, wid: string, id: string, was: TaskStatus,
                        now: TaskStatus)
    requires Appends(log, log', xs) && (TaskStatusChanged(wid, id, now) in xs <==> now != was)
    requires forall e | e in xs && e.TaskStatusChanged? && e.workflowId == wid && e.taskId == id :: e.taskStatus == now
    ensures TaskEvents(log', wid, id) == TaskEvents(log, wid, id) + if now != was then [now] else []
  {
    var news := log'[|log|..];
    assert log' == log + news;
    TaskEventsAppend(log, news, wid, id);
    if now != was {
      OneTaskEvent(news, xs, wid, id, now);
    } else {
      NotAmong(news, xs);
      NoTaskEvents(news, wid, id);
    }
  }

  lemma WorkflowEventsAdded(log: seq<Event>, log': seq<Event>, xs: set<Event>, wid: string, was: WorkflowStatus,
                            now: WorkflowStatus)
    requires Appends(log, log', xs) && (WorkflowStatusChanged(wid, now) in xs <==> now != was)
    requires forall e | e in xs && e.WorkflowStatusChanged? && e.workflowId == wid :: e.status == now
    ensures WorkflowEvents(log', wid) == WorkflowEvents(log, wid) + if now != was then [now] else []
  {
    var news := log'[|log|..];
    assert log' == log + news;
    WorkflowEventsAppend(log, news, wid);
    if now != was {
      OneWorkflowEvent(news, xs, wid, now);
    } else {
      NotAmong(news, xs);
      NoWorkflowEvents(news, wid);
    }
  }

  lemma TaskEventsOfStep(s: EngineState, s': EngineState, wid: string, id: string)
    requires Effects(s, s') && (Has(s.workflows, wid, id) ==> Has(s'.workflows, wid, id))
    ensures var was, now := StatusOf(s.workflows, wid, id), StatusOf(s'.workflows, wid, id);
            TaskEvents(s'.published, wid, id) ==
            TaskEvents(s.published, wid, id) + if now != was then [now] else []
  {
    ChangesOfTask(s.workflows, s'.workflows, wid, id);
    TaskEventsAdded(s.published, s'.published, Changes(s.workflows, s'.workflows), wid, id,
                    StatusOf(s.workflows, wid, id), StatusOf(s'.workflows, wid, id));
  }

  lemma WorkflowEventsOfStep(s: EngineState, s': EngineState, wid: string)
    requires Effects(s, s') && (wid in s.workflows ==> wid in s'.workflows)
    ensures var was, now := WorkflowStatusOf(s.workflows, wid), WorkflowStatusOf(s'.workflows, wid);
            WorkflowEvents(s'.published, wid) ==
            WorkflowEvents(s.published, wid) + if now != was then [now] else []
  {
    ChangesOfWorkflow(s.workflows, s'.workflows, wid);
    WorkflowEventsAdded(s.published, s'.published, Changes(s.workflows, s'.workflows), wid,
                        WorkflowStatusOf(s.workflows, wid), WorkflowStatusOf(s'.workflows, wid));
  }

  /** A step is a call of the engine with its effects, or publishes nothing and changes no workflow. */
  lemma EffectsOfRun(ss: seq<Sys>, acts: seq<Action>, i: nat, j: nat)
    requires IsRun(ss, acts) && j == i + 1 <= |acts|
    ensures || Effects(ss[i].engine, ss[j].engine)
            || (ss[j].engine.workflows == ss[i].engine.workflows && ss[j].engine.published == ss[i].engine.published)
  {
    RunStep(ss, acts, i, ss[i], acts[i], ss[j]);
  }

  lemma WorkflowsStay(ss: seq<Sys>, acts: seq<Action>, i: nat, j: nat, wid: string)
    requires IsRun(ss, acts) && j == i + 1 <= |acts| && wid in ss[i].engine.workflows
    ensures wid in ss[j].engine.workflows
  {
    RunStep(ss, acts, i, ss[i], acts[i], ss[j]);
  }

  // ---------------------------------------------------------------- over whole runs

  /** The statuses published of a task are exactly those it has taken, in the order it took them. */
  lemma {:induction false} TaskEventsTellHistory(ss: seq<Sys>, acts: seq<Action>, n: nat, wid: string, id: string)
    requires IsRun(ss, acts) && n <= |acts|
    ensures TaskEvents(ss[n].engine.published, wid, id) == TaskHistory(ss, n, wid, id)
  {
    for k := 0 to n
      invariant TaskEvents(ss[k].engine.published, wid, id) == TaskHistory(ss, k, wid, id)
    {
      TaskHistoryStep(ss, acts, k, k + 1, wid, id);
    }
  }

  lemma TaskHistoryStep(ss: seq<Sys>, acts: seq<Action>, i: nat, j: nat, wid: string, id: string)
    requires IsRun(ss, acts) && j == i + 1 <= |acts|
    requires TaskEvents(ss[i].engine.published, wid, id) == TaskHistory(ss, i, wid, id)
    ensures TaskEvents(ss[j].engine.published, wid, id) == TaskHistory(ss, j, wid, id)
  {
    EffectsOfRun(ss, acts, i, j);
    if Has(ss[i].engine.workflows, wid, id) {
      TasksStay(ss, acts, i, j, wid, id);
    }
    if Effects(ss[i].engine, ss[j].engine) {
      TaskEventsOfStep(ss[i].engine, ss[j].engine, wid, id);
    }
  }

  /** The same for workflows. */
  lemma {:induction false} WorkflowEventsTellHistory(ss: seq<Sys>, acts: seq<Action>, n: nat, wid: string)
    requires IsRun(ss, acts) && n <= |acts|
    ensures WorkflowEvents(ss[n].engine.published, wid) == WorkflowHistory(ss, n, wid)
  {
    for k := 0 to n
      invariant WorkflowEvents(ss[k].engine.published, wid) == WorkflowHistory(ss, k, wid)
    {
      WorkflowHistoryStep(ss, acts, k, k + 1, wid);
    }
  }

  lemma WorkflowHistoryStep(ss: seq<Sys>, acts: seq<Action>, i: nat, j: nat, wid: string)
    requires IsRun(ss, acts) && j == i + 1 <= |acts|
    requires WorkflowEvents(ss[i].engine.published, wid) == WorkflowHistory(ss, i, wid)
    ensures WorkflowEvents(ss[j].engine.published, wid) == WorkflowHistory(ss, j, wid)
  {
    EffectsOfRun(ss, acts, i, j);
    if wid in ss[i].engine.workflows {
      WorkflowsStay(ss, acts, i, j, wid);
    }
    if Effects(ss[i].engine, ss[j].engine) {
      WorkflowEventsOfStep(ss[i].engine, ss[j].engine, wid);
    }
  }
}
