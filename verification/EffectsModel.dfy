/** How the side effects of a handler add up: jobs and events of one workflow, phase by phase. */
module EffectsModel {
  import opened Status
  import opened WorkflowModel
  import opened EngineModel

  /** The jobs of the tasks of one workflow that became READY. */
  function JobsIn(wid: string, w: WorkflowState, w': WorkflowState): set<Job> {
    set id | id in w.tasks && id in w'.tasks && w'.tasks[id].status.TaskReady? && !w.tasks[id].status.TaskReady? ::
      Job(id, wid, w'.tasks[id].taskType)
  }

  /** The events of the statuses of one workflow that changed. */
  function ChangesIn(wid: string, w: WorkflowState, w': WorkflowState): set<Event> {
    (set id | id in w.tasks && id in w'.tasks && w'.tasks[id].status != w.tasks[id].status ::
       TaskStatusChanged(wid, id, w'.tasks[id].status))
    + (if w'.status != w.status then {WorkflowStatusChanged(wid, w'.status)} else {})
  }

  /** What the engine hands out: the ready queue and the event bus. */
  datatype Outbox = Outbox(queue: seq<Job>, published: seq<Event>)

  ghost predicate LocalEffects(wid: string, w: WorkflowState, w': WorkflowState, o: Outbox, o': Outbox) {
    Appends(o.queue, o'.queue, JobsIn(wid, w, w')) && Appends(o.published, o'.published, ChangesIn(wid, w, w'))
  }

  /** Between `w`, `w1` and `w2` no status changes twice. */
  ghost predicate OnceOnly(w: WorkflowState, w1: WorkflowState, w2: WorkflowState) {
    && w1.tasks.Keys == w.tasks.Keys && w2.tasks.Keys == w.tasks.Keys
    && (forall id | id in w.tasks ::
         w1.tasks[id].taskType == w.tasks[id].taskType && w2.tasks[id].taskType == w.tasks[id].taskType)
    && (forall id | id in w.tasks ::
         w1.tasks[id].status == w.tasks[id].status || w2.tasks[id].status == w1.tasks[id].status)
    && (w1.status == w.status || w2.status == w1.status)
  }

  lemma AppendsTransitive<T>(a: seq<T>, b: seq<T>, c: seq<T>, xs: set<T>, ys: set<T>)
    requires Appends(a, b, xs) && Appends(b, c, ys) && xs !! ys
    ensures Appends(a, c, xs + ys)
  {
    assert c[|a|..] == b[|a|..] + c[|b|..];
    assert multiset(xs + ys) == multiset(xs) + multiset(ys);
  }

  lemma AppendsOne<T>(a: seq<T>, x: T)
    ensures Appends(a, a + [x], {x})
  {
    assert (a + [x])[|a|..] == [x];
  }

  lemma AppendsNone<T>(a: seq<T>)
    ensures Appends(a, a, {})
  {
    assert a[|a|..] == [];
  }

  lemma PhasesAreDisjoint(wid: string, w: WorkflowState, w1: WorkflowState, w2: WorkflowState)
    requires OnceOnly(w, w1, w2)
    ensures JobsIn(wid, w, w1) !! JobsIn(wid, w1, w2) && JobsIn(wid, w, w2) == JobsIn(wid, w, w1) + JobsIn(wid, w1, w2)
    ensures ChangesIn(wid, w, w1) !! ChangesIn(wid, w1, w2)
            && ChangesIn(wid, w, w2) == ChangesIn(wid, w, w1) + ChangesIn(wid, w1, w2)
  {
  }

  lemma EffectsCompose(wid: string, w: WorkflowState, w1: WorkflowState, w2: WorkflowState, o: Outbox, o1: Outbox,
                       o2: Outbox)
    requires LocalEffects(wid, w, w1, o, o1) && LocalEffects(wid, w1, w2, o1, o2) && OnceOnly(w, w1, w2)
    ensures LocalEffects(wid, w, w2, o, o2)
  {
    PhasesAreDisjoint(wid, w, w1, w2);
    AppendsTransitive(o.queue, o1.queue, o2.queue, JobsIn(wid, w, w1), JobsIn(wid, w1, w2));
    AppendsTransitive(o.published, o1.published, o2.published, ChangesIn(wid, w, w1), ChangesIn(wid, w1, w2));
  }

  lemma EffectsNone(wid: string, w: WorkflowState, o: Outbox)
    ensures LocalEffects(wid, w, w, o, o)
  {
    AppendsNone(o.queue);
    AppendsNone(o.published);
  }

  /** One task changes status, is announced, and queued if it became READY. */
  lemma EffectsOfOneTask(wid: string, w: WorkflowState, id: string, t: TaskState, o: Outbox, o': Outbox)
    requires id in w.tasks && t.status != w.tasks[id].status && t.taskType == w.tasks[id].taskType
    requires o'.published == o.published + [TaskStatusChanged(wid, id, t.status)]
    requires o'.queue == if t.status.TaskReady? then o.queue + [Job(id, wid, t.taskType)] else o.queue
    ensures LocalEffects(wid, w, w.(tasks := w.tasks[id := t]), o, o')
  {
    var w' := w.(tasks := w.tasks[id := t]);
    assert ChangesIn(wid, w, w') == {TaskStatusChanged(wid, id, t.status)};
    assert JobsIn(wid, w, w') == if t.status.TaskReady? then {Job(id, wid, t.taskType)} else {};
    AppendsOne(o.published, TaskStatusChanged(wid, id, t.status));
    AppendsOne(o.queue, Job(id, wid, t.taskType));
    AppendsNone(o.queue);
  }

  lemma EffectsOfWorkflowStatus(wid: string, w: WorkflowState, status: WorkflowStatus, o: Outbox, o': Outbox)
    requires status != w.status
    requires o' == o.(published := o.published + [WorkflowStatusChanged(wid, status)])
    ensures LocalEffects(wid, w, w.(status := status), o, o')
  {
    assert ChangesIn(wid, w, w.(status := status)) == {WorkflowStatusChanged(wid, status)};
    assert JobsIn(wid, w, w.(status := status)) == {};
    AppendsOne(o.published, WorkflowStatusChanged(wid, status));
    AppendsNone(o.queue);
  }

  lemma InNewlyReady(ws: Workflows, ws': Workflows, j: Job)
    ensures j in NewlyReady(ws, ws') <==>
            && Has(ws', j.workflowId, j.id) && j == JobOf(ws', j.workflowId, j.id)
            && StatusOf(ws', j.workflowId, j.id).TaskReady? && !StatusOf(ws, j.workflowId, j.id).TaskReady?
  {
    if Has(ws', j.workflowId, j.id) && j == JobOf(ws', j.workflowId, j.id) {
      assert j.id in ws'[j.workflowId].tasks;
    }
  }

  lemma InJobsIn(wid: string, w: WorkflowState, w': WorkflowState, j: Job)
    ensures j in JobsIn(wid, w, w') <==>
            && j.workflowId == wid && j.id in w.tasks && j.id in w'.tasks && j.taskType == w'.tasks[j.id].taskType
            && w'.tasks[j.id].status.TaskReady? && !w.tasks[j.id].status.TaskReady?
  {
  }

  lemma InChanges(ws: Workflows, ws': Workflows, e: Event)
    ensures e in Changes(ws, ws') <==>
            match e
            case TaskStatusChanged(wid, id, s) => Has(ws', wid, id) && s == StatusOf(ws', wid, id)
              && s != StatusOf(ws, wid, id)
            case WorkflowStatusChanged(wid, s) => wid in ws' && s == ws'[wid].status && s != WorkflowStatusOf(ws, wid)
  {
    if e.TaskStatusChanged? && Has(ws', e.workflowId, e.taskId) {
      assert e.taskId in ws'[e.workflowId].tasks;
    }
  }

  lemma InChangesIn(wid: string, w: WorkflowState, w': WorkflowState, e: Event)
    ensures e in ChangesIn(wid, w, w') <==>
            match e
            case TaskStatusChanged(v, id, s) => v == wid && id in w.tasks && id in w'.tasks
              && s == w'.tasks[id].status != w.tasks[id].status
            case WorkflowStatusChanged(v, s) => v == wid && s == w'.status != w.status
  {
  }

  /** A change of one workflow is all that a call on that workflow shows. */
  lemma LocalIsGlobal(ws: Workflows, wid: string, w': WorkflowState)
    requires wid in ws && w'.tasks.Keys == ws[wid].tasks.Keys
    ensures NewlyReady(ws, ws[wid := w']) == JobsIn(wid, ws[wid], w')
    ensures Changes(ws, ws[wid := w']) == ChangesIn(wid, ws[wid], w')
  {
    var ws' := ws[wid := w'];
    forall j
      ensures j in NewlyReady(ws, ws') <==> j in JobsIn(wid, ws[wid], w')
    {
      InNewlyReady(ws, ws', j);
      InJobsIn(wid, ws[wid], w', j);
    }
    forall e
      ensures e in Changes(ws, ws') <==> e in ChangesIn(wid, ws[wid], w')
    {
      InChanges(ws, ws', e);
      InChangesIn(wid, ws[wid], w', e);
    }
  }

  /** The same for the workflow a submission adds, compared with what was submitted. */
  lemma SubmittedIsGlobal(ws: Workflows, wid: string, w: WorkflowState, w': WorkflowState)
    requires wid !in ws && Fresh(w) && w'.tasks.Keys == w.tasks.Keys
    ensures NewlyReady(ws, ws[wid := w']) == JobsIn(wid, w, w')
    ensures Changes(ws, ws[wid := w']) == ChangesIn(wid, w, w')
  {
    var ws' := ws[wid := w'];
    forall j
      ensures j in NewlyReady(ws, ws') <==> j in JobsIn(wid, w, w')
    {
      InNewlyReady(ws, ws', j);
      InJobsIn(wid, w, w', j);
    }
    forall e
      ensures e in Changes(ws, ws') <==> e in ChangesIn(wid, w, w')
    {
      InChanges(ws, ws', e);
      InChangesIn(wid, w, w', e);
    }
  }
}
