/** The workflow engine: handlers that update tasks and workflows in place, proved against the model's calls.
    Every walk over a map of tasks or workflows takes the entries in an arbitrary order. */
module Engine {
  import opened Options
  import opened Status
  import opened WorkflowModel
  import opened EngineModel
  import opened EffectsModel
  import opened Domain
  import opened Cascade
  import opened Phases

  class WorkflowEngine {
    var workflows: map<string, Workflow>
    var queue: seq<Job>
    var published: seq<Event>
    const hasNotifier: bool

    constructor (hasNotifier: bool)
      ensures Valid() && State() == EngineState(map[], [], []) && this.hasNotifier == hasNotifier
    {
      workflows, queue, published := map[], [], [];
      this.hasNotifier := hasNotifier;
    }

    ghost function AllTasks(): set<Task>
      reads this, workflows.Values
    {
      set w, t | w in workflows.Values && t in w.tasks.Values :: t
    }

    ghost predicate Valid()
      reads this, workflows.Values, AllTasks()
    {
      forall k | k in workflows :: workflows[k].id == k && workflows[k].Valid()
          && NoRetrying(workflows[k].State().tasks)
    }

    ghost function WorkflowStates(): Workflows
      reads this, workflows.Values, AllTasks()
    {
      map k | k in workflows :: workflows[k].State()
    }

    ghost function State(): EngineState
      reads this, workflows.Values, AllTasks()
    {
      EngineState(WorkflowStates(), queue, published)
    }

    ghost function Box(): Outbox
      reads this
    {
      Outbox(queue, published)
    }

    // -------------------------------------------------------------- single updates

    method UpdateTaskStatus(task: Task, newStatus: TaskStatus) returns (ok: bool)
      modifies task`status, this`published
      ensures ok <==> CanTransitTo(old(task.status), newStatus).TransitOk?
      ensures task.status == if ok then newStatus else old(task.status)
      ensures published == if ok then old(published) + [TaskStatusChanged(task.workflowId, task.id, newStatus)]
              else old(published)
    {
      var r := task.UpdateStatus(newStatus);
      ok := r.TransitOk?;
      if ok {
        published := published + [TaskStatusChanged(task.workflowId, task.id, task.status)];
      }
    }

    method UpdateWorkflowStatus(wf: Workflow, newStatus: WorkflowStatus) returns (ok: bool)
      modifies wf`status, this`published
      ensures ok <==> WorkflowCanTransitTo(old(wf.status), newStatus).TransitOk?
      ensures wf.status == if ok then newStatus else old(wf.status)
      ensures published == if ok then old(published) + [WorkflowStatusChanged(wf.id, newStatus)] else old(published)
    {
      var r := wf.UpdateStatus(newStatus);
      ok := r.TransitOk?;
      if ok {
        published := published + [WorkflowStatusChanged(wf.id, wf.status)];
      }
    }

    method PushJob(ghost wf: Workflow, task: Task)
      requires wf.Valid()
      modifies this`queue
      ensures wf.Valid() && wf.State() == old(wf.State())
      ensures queue == old(queue) + [Job(task.id, task.workflowId, task.taskType)]
    {
      queue := queue + [Job(task.id, task.workflowId, task.taskType)];
    }

    /** Changes the status of one task of a workflow where the graph allows. */
    method SetTask(ghost wf: Workflow, ghost k: string, task: Task, newStatus: TaskStatus) returns (ok: bool)
      requires wf.Valid() && k in wf.tasks && wf.tasks[k] == task
      modifies task`status, this`published
      ensures wf.Valid() && (ok <==> CanTransitTo(old(wf.State()).tasks[k].status, newStatus).TransitOk?)
      ensures wf.State() == if ok then WithTask(old(wf.State()), k, old(wf.State()).tasks[k].(status := newStatus))
              else old(wf.State())
      ensures published == if ok then old(published) + [TaskStatusChanged(wf.id, k, newStatus)] else old(published)
    {
      ghost var w := wf.State();
      ok := UpdateTaskStatus(task, newStatus);
      assert wf.State().tasks == if ok then w.tasks[k := w.tasks[k].(status := newStatus)] else w.tasks;
    }

    method Assign(ghost wf: Workflow, ghost k: string, task: Task, worker: string)
      requires wf.Valid() && k in wf.tasks && wf.tasks[k] == task
      modifies task`assignedTo
      ensures wf.Valid() && wf.State() == WithTask(old(wf.State()), k, old(wf.State()).tasks[k].(assignedTo := worker))
    {
      ghost var w := wf.State();
      task.assignedTo := worker;
      assert wf.State().tasks == w.tasks[k := w.tasks[k].(assignedTo := worker)];
    }

    method SetResult(ghost wf: Workflow, ghost k: string, task: Task, report: TaskResult)
      requires wf.Valid() && k in wf.tasks && wf.tasks[k] == task
      modifies task`result
      ensures wf.Valid()
      ensures wf.State() == WithTask(old(wf.State()), k, old(wf.State()).tasks[k].(result := Some(report)))
    {
      ghost var w := wf.State();
      task.result := Some(report);
      assert wf.State().tasks == w.tasks[k := w.tasks[k].(result := Some(report))];
    }

    /** A change of status with its side effects, as the model sees them. */
    method MoveTask(ghost wf: Workflow, ghost k: string, task: Task, newStatus: TaskStatus)
      requires wf.Valid() && k in wf.tasks && wf.tasks[k] == task && !newStatus.TaskReady?
      requires CanTransitTo(task.status, newStatus).TransitOk?
      modifies task`status, this`published
      ensures wf.Valid()
      ensures wf.State() == old(wf.State()).(tasks :=
                                             old(wf.State()).tasks[k := old(wf.State()).tasks[k].(status := newStatus)])
      ensures LocalEffects(wf.id, old(wf.State()), wf.State(), old(Box()), Box())
    {
      ghost var w, o := wf.State(), Box();
      assert w.tasks[k] == task.State();
      var ok := SetTask(wf, k, task, newStatus);
      EffectsOfOneTask(wf.id, w, k, w.tasks[k].(status := newStatus), o, Box());
    }

    /** Moves a workflow where its graph allows. */
    method MoveWorkflow(wf: Workflow, newStatus: WorkflowStatus)
      modifies wf`status, this`published
      ensures wf.State() == TryWorkflowStatus(old(wf.State()), newStatus)
      ensures LocalEffects(wf.id, old(wf.State()), wf.State(), old(Box()), Box())
    {
      ghost var w := wf.State();
      var ok := UpdateWorkflowStatus(wf, newStatus);
      assert wf.State().tasks == w.tasks;
      if ok {
        EffectsOfWorkflowStatus(wf.id, w, newStatus, old(Box()), Box());
      } else {
        EffectsNone(wf.id, w, Box());
      }
    }

    // -------------------------------------------------------------- readiness

    method AllDepsSucceeded(task: Task, wf: Workflow) returns (r: bool)
      ensures r <==> WorkflowModel.AllDepsSucceeded(task.State(), wf.State().tasks)
    {
      for i := 0 to |task.dependsOn|
        invariant forall k | 0 <= k < i ::
                    task.dependsOn[k] in wf.tasks && wf.tasks[task.dependsOn[k]].status.TaskSucceeded?
      {
        var dep := task.dependsOn[i];
        if dep !in wf.tasks || !wf.tasks[dep].status.TaskSucceeded? {
          assert dep in task.State().dependsOn;
          return false;
        }
      }
      return true;
    }

    method RecomputeReadyTasks(wf: Workflow) returns (ready: seq<string>)
      requires wf.Valid()
      ensures Lists(ready, ReadySet(wf.State().tasks))
    {
      ready := [];
      ghost var tasks := wf.State().tasks;
      var left := wf.tasks.Keys;
      while left != {}
        invariant left <= wf.tasks.Keys
        invariant Lists(ready, ReadySet(tasks) - left)
      {
        var k :| k in left;
        var task := wf.tasks[k];
        var ok := task.status.TaskPending? || task.status.TaskRetrying?;
        if ok {
          ok := AllDepsSucceeded(task, wf);
        }
        assert ok <==> k in ReadySet(tasks) by {
          assert tasks[k] == task.State();
        }
        ListsOneMore(ready, ReadySet(tasks), left, k);
        if ok {
          ready := ready + [task.id];
        }
        left := left - {k};
      }
    }

    /** Makes one task READY and queues its job. */
    method PromoteTask(ghost wf: Workflow, ghost k: string, task: Task)
      requires wf.Valid() && k in wf.tasks && wf.tasks[k] == task && task.status.TaskPending?
      modifies task`status, this`published, this`queue
      ensures wf.Valid()
      ensures wf.State() == old(wf.State()).(tasks :=
                                             old(wf.State()).tasks[k := old(wf.State()).tasks[k].(status := TaskReady)])
      ensures LocalEffects(wf.id, old(wf.State()), wf.State(), old(Box()), Box())
    {
      ghost var w, o := wf.State(), Box();
      assert w.tasks[k] == task.State();
      var ok := SetTask(wf, k, task, TaskReady);
      PushJob(wf, task);
      EffectsOfOneTask(wf.id, w, k, w.tasks[k].(status := TaskReady), o, Box());
    }

    /** Promotes the listed tasks one by one. */
    method PromoteAll(wf: Workflow, ready: seq<string>, ghost w: WorkflowState)
      requires wf.Valid() && wf.State() == w && NoRetrying(w.tasks) && Lists(ready, ReadySet(w.tasks))
      modifies this`published, this`queue, wf.tasks.Values`status
      ensures wf.Valid()
      ensures wf.State() == w.(tasks := SetStatus(w.tasks, ReadySet(w.tasks), TaskReady))
      ensures LocalEffects(wf.id, w, wf.State(), old(Box()), Box())
    {
      EffectsNone(wf.id, w, Box());
      NothingSet(w.tasks, TaskReady);
      for i := 0 to |ready|
        invariant wf.Valid() && wf.status == old(wf.status)
        invariant wf.State().tasks == SetStatus(w.tasks, Members(ready[..i]), TaskReady)
        invariant LocalEffects(wf.id, w, wf.State(), old(Box()), Box())
      {
        ghost var before, box := wf.State(), Box();
        var k := ready[i];
        NextMember(ready, ReadySet(w.tasks), i);
        SetOneMore(w.tasks, Members(ready[..i]), k, TaskReady);
        PromoteTask(wf, k, wf.tasks[k]);
        OneMoreMoved(wf.id, w, Members(ready[..i]), k, TaskReady, before, wf.State(), old(Box()), box, Box());
      }
      AllMembers(ready, ReadySet(w.tasks));
    }

    /** The first ready task starts the workflow. */
    method StartWorkflow(wf: Workflow, any: bool)
      requires wf.Valid()
      modifies this`published, wf`status
      ensures wf.Valid()
      ensures wf.State() == if any && old(wf.State()).status.WorkflowPending?
              then old(wf.State()).(status := WorkflowRunning) else old(wf.State())
      ensures wf.State().tasks == old(wf.State()).tasks
      ensures LocalEffects(wf.id, old(wf.State()), wf.State(), old(Box()), Box())
    {
      EffectsNone(wf.id, wf.State(), Box());
      if any && wf.status.WorkflowPending? {
        MoveWorkflow(wf, WorkflowRunning);
      }
    }

    method MarkReadyTasks(wf: Workflow)
      requires wf.Valid() && NoRetrying(wf.State().tasks)
      modifies this`published, this`queue, wf`status, wf.tasks.Values`status
      ensures wf.Valid()
      ensures wf.State() == MarkReady(old(wf.State()))
      ensures LocalEffects(wf.id, old(wf.State()), wf.State(), old(Box()), Box())
    {
      ghost var w1, o1 := StartAndPromote(wf);
      PromotedInTwoPhases(wf.id, old(wf.State()), w1, wf.State(), old(Box()), o1, Box());
    }

    method StartAndPromote(wf: Workflow) returns (ghost w1: WorkflowState, ghost o1: Outbox)
      requires wf.Valid() && NoRetrying(wf.State().tasks)
      modifies this`published, this`queue, wf`status, wf.tasks.Values`status
      ensures wf.Valid() && w1 == Started(old(wf.State()))
      ensures wf.State() == w1.(tasks := SetStatus(w1.tasks, ReadySet(w1.tasks), TaskReady))
      ensures LocalEffects(wf.id, old(wf.State()), w1, old(Box()), o1)
      ensures LocalEffects(wf.id, w1, wf.State(), o1, Box())
    {
      var ready := RecomputeReadyTasks(wf);
      StartIfAny(wf, ready);
      w1, o1 := wf.State(), Box();
      assert Lists(ready, ReadySet(w1.tasks)) && NoRetrying(w1.tasks);
      PromoteAll(wf, ready, w1);
    }

    method StartIfAny(wf: Workflow, ready: seq<string>)
      requires wf.Valid() && NoRetrying(wf.State().tasks) && Lists(ready, ReadySet(wf.State().tasks))
      modifies this`published, wf`status
      ensures wf.Valid() && NoRetrying(wf.State().tasks) && Lists(ready, ReadySet(wf.State().tasks))
      ensures wf.State() == Started(old(wf.State()))
      ensures LocalEffects(wf.id, old(wf.State()), wf.State(), old(Box()), Box())
    {
      ListsAny(ready, ReadySet(wf.State().tasks));
      StartWorkflow(wf, |ready| > 0);
    }

    // -------------------------------------------------------------- cascading cancellation

    /** Cancels one unfinished task; `running` gains it if a worker has it. */
    method CancelOne(ghost wf: Workflow, ghost k: string, task: Task, running: seq<RunningTaskRef>,
                     ghost w: WorkflowState, ghost done: set<string>, ghost o: Outbox)
      returns (running': seq<RunningTaskRef>)
      requires wf.Valid() && k in wf.tasks && wf.tasks[k] == task && !IsFinished(task.status)
      requires NoRetrying(w.tasks) && k !in done && CancelledSoFar(wf.id, w, done, wf.State(), o, Box(), running)
      modifies task`status, this`published
      ensures wf.Valid() && CancelledSoFar(wf.id, w, done + {k}, wf.State(), o, Box(), running')
    {
      running' := running;
      ghost var w1, o1 := wf.State(), Box();
      assert w1.tasks[k] == task.State();
      StillAsBefore(w.tasks, done, k);
      if IsOnWorker(task.status) {
        running' := running + [RunningTaskRef(task.id, task.assignedTo)];
      }
      MoveTask(wf, k, task, TaskCancelled);
      OneMoreMoved(wf.id, w, done, k, TaskCancelled, w1, wf.State(), o, o1, Box());
      RefsGrow(w.tasks, done, k, running);
    }

    /** One turn of the walk below: cancels the task filed under `k` if it is an unfinished dependent of `id`. */
    method CancelIfDependent(ghost wf: Workflow, k: string, task: Task, id: string, added: seq<string>,
                             running: seq<RunningTaskRef>,
                             ghost w: WorkflowState, ghost left: set<string>, ghost o: Outbox)
      returns (added': seq<string>, running': seq<RunningTaskRef>)
      requires wf.Valid() && k in wf.tasks && wf.tasks[k] == task && k in left && NoRetrying(w.tasks)
      requires WalkedSoFar(wf.id, w, id, left, wf.State(), o, Box(), added, running)
      modifies wf.tasks.Values`status, this`published
      ensures wf.Valid() && WalkedSoFar(wf.id, w, id, left - {k}, wf.State(), o, Box(), added', running')
    {
      added', running' := added, running;
      ghost var all := Dependents(w.tasks, id);
      ListsOneMore(added, all, left, k);
      WalkOneMore(all, left, k);
      assert k in wf.State().tasks && wf.State().tasks[k] == task.State();
      assert k in w.tasks;
      StillAsBefore(w.tasks, all - left, k);
      if !IsFinished(task.status) && id in task.dependsOn {
        running' := CancelOne(wf, k, task, running, w, all - left, o);
        added' := added + [task.id];
      }
    }

    /** Cancels the unfinished direct dependents of `id`; returns them and those a worker must be told about. */
    method CancelDependents(wf: Workflow, id: string) returns (added: seq<string>, running: seq<RunningTaskRef>)
      requires wf.Valid() && NoRetrying(wf.State().tasks)
      modifies this`published, wf.tasks.Values`status
      ensures wf.Valid()
      ensures WalkedSoFar(wf.id, old(wf.State()), id, {}, wf.State(), old(Box()), Box(), added, running)
    {
      ghost var w, o := wf.State(), Box();
      added, running := [], [];
      var left := wf.tasks.Keys;
      ghost var cur, box := w, o;
      WalkStarts(wf.id, w, id, o);
      while left != {}
        invariant left <= wf.tasks.Keys && wf.Valid() && cur == wf.State() && box == Box()
        invariant WalkedSoFar(wf.id, w, id, left, cur, o, box, added, running)
        decreases left
      {
        var k :| k in left;
        var task := wf.tasks[k];
        added, running := CancelIfDependent(wf, k, task, id, added, running, w, left, o);
        cur, box := wf.State(), Box();
        left := left - {k};
      }
    }

    /** Cancels everything downstream of a failed or cancelled task. */
    method CancelDownstream(wf: Workflow, rootId: string) returns (running: seq<RunningTaskRef>)
      requires wf.Valid() && NoRetrying(wf.State().tasks)
      modifies this`published, wf.tasks.Values`status
      ensures wf.Valid()
      ensures CancelledSoFar(wf.id, old(wf.State()), Downstream(old(wf.State()).tasks, rootId), wf.State(), old(Box()),
                             Box(), running)
    {
      ghost var w, o := wf.State(), Box();
      ghost var found: set<string>, visited: set<string> := {}, {};
      running := [];
      var pending := [rootId];
      NothingCancelled(wf.id, w, o);
      while pending != []
        invariant wf.Valid() && CancelledSoFar(wf.id, w, found, wf.State(), o, Box(), running)
        invariant Searching(w.tasks, rootId, found, visited, pending)
        decreases |UnfinishedSet(w.tasks) - found| + |pending|
      {
        ghost var w1, o1 := wf.State(), Box();
        StillSane(w.tasks, found);
        var added, refs := CancelDependents(wf, pending[0]);
        WalkEnds(wf.id, w1, pending[0], wf.State(), o1, Box(), added, refs);
        CancelledInTwoTurns(wf.id, w, found, Dependents(w1.tasks, pending[0]), w1, wf.State(), o, o1, Box(), running,
                            refs, pending[0]);
        SearchStep(w.tasks, rootId, found, visited, pending, added);
        SearchShrinks(w.tasks, found, pending, added);
        found, visited := found + Dependents(w1.tasks, pending[0]), visited + {pending[0]};
        running := running + refs;
        pending := pending[1..] + added;
      }
      SearchDone(w.tasks, rootId, found, visited);
    }

    // -------------------------------------------------------------- finalisation

    method FinalizeWorkflowIfDone(wf: Workflow)
      requires wf.Valid()
      modifies this`published, wf`status
      ensures wf.Valid()
      ensures wf.State() == Finalize(old(wf.State()))
      ensures LocalEffects(wf.id, old(wf.State()), wf.State(), old(Box()), Box())
    {
      EffectsNone(wf.id, wf.State(), Box());
      if IsWorkflowFinished(wf.status) {
        return;
      }
      var done := wf.AllTasksFinished();
      if !done {
        return;
      }
      var failed := wf.HasTaskWithStatus(TaskFailed);
      var cancelled := wf.HasTaskWithStatus(TaskCancelled);
      var target := if failed then WorkflowFailed else if cancelled then WorkflowCancelled else WorkflowSucceeded;
      MoveWorkflow(wf, target);
    }

    // -------------------------------------------------------------- from one workflow to the engine

    /** Tasks know their workflow, so the workflows share none. */
    lemma OthersApart(wid: string)
      requires Valid() && wid in workflows
      ensures forall k, n | k in workflows && k != wid
              && n in workflows[k].tasks :: workflows[k].tasks[n] !in workflows[wid].tasks.Values
      ensures forall k | k in workflows && k != wid :: workflows[k] != workflows[wid]
    {
      forall k, n | k in workflows && k != wid && n in workflows[k].tasks
        ensures workflows[k].tasks[n] !in workflows[wid].tasks.Values
      {
        assert workflows[k].Valid() && workflows[k].tasks[n].workflowId == k;
        assert workflows[wid].Valid();
      }
    }

    /** What a handler did to one workflow is what the engine shows. */
    twostate lemma OnlyOneChanged(wid: string)
      requires old(Valid()) && workflows == old(workflows) && wid in workflows
      requires forall k | k in workflows && k != wid ::
                 unchanged(workflows[k]) && forall n | n in workflows[k].tasks :: unchanged(workflows[k].tasks[n])
      requires workflows[wid].Valid() && workflows[wid].id == wid
               && Kept(old(workflows[wid].State()), workflows[wid].State())
      requires LocalEffects(wid, old(workflows[wid].State()), workflows[wid].State(), old(Box()), Box())
      ensures Valid()
      ensures WorkflowStates() == old(WorkflowStates())[wid := workflows[wid].State()]
      ensures Effects(old(State()), State())
    {
      forall k | k in workflows && k != wid
        ensures workflows[k].State() == old(workflows[k].State()) && workflows[k].Valid()
      {
        assert old(workflows[k].Valid());
      }
      assert WorkflowStates() == old(WorkflowStates())[wid := workflows[wid].State()];
      LocalIsGlobal(old(WorkflowStates()), wid, workflows[wid].State());
    }

    /** A call handled on its own workflow is the model's call. */
    twostate lemma HandledInPlace(c: Call)
      requires !c.WorkerDead? && workflows == old(workflows) && c.workflowId in workflows
      requires old(Valid()) && workflows[c.workflowId].Valid() && workflows[c.workflowId].id == c.workflowId
      requires Handled(c, c.workflowId, old(workflows[c.workflowId].State()), workflows[c.workflowId].State())
      requires Kept(old(workflows[c.workflowId].State()), workflows[c.workflowId].State())
      requires LocalEffects(c.workflowId, old(workflows[c.workflowId].State()), workflows[c.workflowId].State(),
                            old(Box()), Box())
      requires forall v | v in workflows && v != c.workflowId :: unchanged(workflows[v])
      requires forall v, n | v in workflows && v != c.workflowId && n in workflows[v].tasks ::
                 unchanged(workflows[v].tasks[n])
      ensures Valid()
      ensures EngineStep(old(State()), c, State())
    {
      OnlyOneChanged(c.workflowId);
      HandledIsStep(old(State()), c, c.workflowId, workflows[c.workflowId].State(), State());
    }

    // -------------------------------------------------------------- handlers on one workflow

    /** Records a final report and its status. */
    method FinishTask(ghost wf: Workflow, ghost k: string, task: Task, report: TaskResult)
      requires wf.Valid() && k in wf.tasks && wf.tasks[k] == task
      requires IsFinished(report.status) && CanTransitTo(task.status, report.status).TransitOk?
      modifies this`published, task`status, task`result
      ensures wf.Valid()
      ensures wf.State() == Reported(old(wf.State()), k, report)
      ensures LocalEffects(wf.id, old(wf.State()), wf.State(), old(Box()), Box())
    {
      ghost var w, o := wf.State(), Box();
      MoveTask(wf, k, task, report.status);
      ghost var w1 := wf.State();
      SetResult(wf, k, task, report);
      ResultIsSilent(wf.id, w, k, report, w1, o, Box());
    }

    /** Records a failure and cancels what depends on it. */
    method FailTask(wf: Workflow, k: string, task: Task, report: TaskResult)
      requires wf.Valid() && NoRetrying(wf.State().tasks) && k in wf.tasks && wf.tasks[k] == task
      requires report.status.TaskFailed? && IsOnWorker(task.status)
      modifies this`published, wf.tasks.Values`status, task`result
      ensures wf.Valid()
      ensures wf.State() == ApplyReport(old(wf.State()), k, report)
      ensures LocalEffects(wf.id, old(wf.State()), wf.State(), old(Box()), Box())
    {
      ghost var w, o := wf.State(), Box();
      assert w.tasks[k] == task.State();
      FinishTask(wf, k, task, report);
      ghost var w1, o1 := wf.State(), Box();
      ReportedIsSane(w, k, report);
      var running := CancelDownstream(wf, k);
      FailureInTwoPhases(wf.id, w, k, report, w1, wf.State(), o, o1, Box(), running);
    }

    /** A worker's report on a task of `wf`. */
    method ReportOn(wf: Workflow, k: string, task: Task, report: TaskResult)
      requires wf.Valid() && NoRetrying(wf.State().tasks) && k in wf.tasks && wf.tasks[k] == task
      modifies this`published, wf.tasks.Values`status, task`result
      ensures wf.Valid()
      ensures wf.State() == ApplyReport(old(wf.State()), k, report)
      ensures LocalEffects(wf.id, old(wf.State()), wf.State(), old(Box()), Box())
    {
      assert wf.State().tasks[k] == task.State();
      EffectsNone(wf.id, wf.State(), Box());
      if CanTransitTo(task.status, report.status).TransitOk? {
        AppliedReport(wf.State(), k, report);
        if report.status.TaskFailed? {
          FailTask(wf, k, task, report);
        } else if report.status.TaskSucceeded? {
          FinishTask(wf, k, task, report);
        } else if report.status.TaskRunning? {
          MoveTask(wf, k, task, TaskRunning);
        }
      }
    }


    /** Promotes what became ready and concludes the workflow if nothing is left. */
    method Settle(wf: Workflow)
      requires wf.Valid() && NoRetrying(wf.State().tasks)
      modifies this`queue, this`published, wf`status, wf.tasks.Values`status
      ensures wf.Valid()
      ensures wf.State() == Finalize(MarkReady(old(wf.State())))
      ensures LocalEffects(wf.id, old(wf.State()), wf.State(), old(Box()), Box())
    {
      ghost var w, o := wf.State(), Box();
      MarkReadyTasks(wf);
      ghost var w1, o1 := wf.State(), Box();
      FinalizeWorkflowIfDone(wf);
      SettledInTwoPhases(wf.id, w, w1, wf.State(), o, o1, Box());
    }

    method HandleReport(wf: Workflow, k: string, task: Task, report: TaskResult)
      requires wf.Valid() && NoRetrying(wf.State().tasks) && k in wf.tasks && wf.tasks[k] == task
      modifies this`queue, this`published, wf`status, wf.tasks.Values`status, task`result
      ensures wf.Valid()
      ensures wf.State() == OnReport(old(wf.State()), k, report) && Kept(old(wf.State()), wf.State())
      ensures LocalEffects(wf.id, old(wf.State()), wf.State(), old(Box()), Box())
    {
      ghost var w, o := wf.State(), Box();
      ReportOn(wf, k, task, report);
      ghost var w1, o1 := wf.State(), Box();
      ReportIsSane(w, k, report);
      Settle(wf);
      ReportedAndSettled(wf.id, w, k, report, w1, wf.State(), o, o1, Box());
    }

    /** Cancels a task and what depends on it. */
    method CancelWithDependents(wf: Workflow, k: string, task: Task) returns (running: seq<RunningTaskRef>)
      requires wf.Valid() && NoRetrying(wf.State().tasks) && k in wf.tasks && wf.tasks[k] == task
               && !IsFinished(task.status)
      modifies this`published, wf.tasks.Values`status
      ensures wf.Valid()
      ensures CancelledAlong(wf.id, old(wf.State()), k, wf.State(), old(Box()), Box(), running)
    {
      ghost var w, o := wf.State(), Box();
      assert w.tasks[k] == task.State();
      NothingCancelled(wf.id, w, o);
      running := CancelOne(wf, k, task, [], w, {}, o);
      ghost var w1, o1 := wf.State(), Box();
      OneCancelled(w, k, w1);
      var more := CancelDownstream(wf, k);
      CascadeAfterOne(wf.id, w, k, w1, wf.State(), o, o1, Box(), running, more);
      running := running + more;
    }

    method HandleCancelTask(wf: Workflow, k: string, task: Task) returns (running: seq<RunningTaskRef>)
      requires wf.Valid() && NoRetrying(wf.State().tasks) && k in wf.tasks && wf.tasks[k] == task
               && !IsFinished(task.status)
      modifies this`published, wf`status, wf.tasks.Values`status
      ensures wf.Valid()
      ensures wf.State() == OnCancelTask(old(wf.State()), k) && Kept(old(wf.State()), wf.State())
      ensures LocalEffects(wf.id, old(wf.State()), wf.State(), old(Box()), Box())
      ensures RunningAlong(old(wf.State()).tasks, k, running)
    {
      ghost var w, o := wf.State(), Box();
      assert w.tasks[k] == task.State();
      running := CancelWithDependents(wf, k, task);
      ghost var w1, o1 := wf.State(), Box();
      FinalizeWorkflowIfDone(wf);
      CancelledAndFinalized(wf.id, w, k, w1, wf.State(), o, o1, Box(), running);
    }

    method CancelIfUnfinished(ghost wf: Workflow, ghost k: string, task: Task, running: seq<RunningTaskRef>,
                              ghost w: WorkflowState, ghost left: set<string>, ghost o: Outbox)
      returns (running': seq<RunningTaskRef>)
      requires wf.Valid() && k in wf.tasks && wf.tasks[k] == task && k in left && NoRetrying(w.tasks)
      requires StoppedSoFar(wf.id, w, left, wf.State(), o, Box(), running)
      modifies wf.tasks.Values`status, this`published
      ensures wf.Valid() && StoppedSoFar(wf.id, w, left - {k}, wf.State(), o, Box(), running')
    {
      running' := running;
      ghost var all := UnfinishedSet(w.tasks);
      WalkOneMore(all, left, k);
      assert k in wf.State().tasks && wf.State().tasks[k] == task.State();
      assert k in w.tasks;
      StillAsBefore(w.tasks, all - left, k);
      if !IsFinished(task.status) {
        running' := CancelOne(wf, k, task, running, w, all - left, o);
      }
    }

    /** Cancels every unfinished task of a workflow. */
    method CancelUnfinished(wf: Workflow) returns (running: seq<RunningTaskRef>)
      requires wf.Valid() && NoRetrying(wf.State().tasks)
      modifies this`published, wf.tasks.Values`status
      ensures wf.Valid()
      ensures StoppedSoFar(wf.id, old(wf.State()), {}, wf.State(), old(Box()), Box(), running)
    {
      ghost var w, o := wf.State(), Box();
      running := [];
      var left := wf.tasks.Keys;
      ghost var cur, box := w, o;
      NothingStopped(wf.id, w, o);
      while left != {}
        invariant left <= wf.tasks.Keys && wf.Valid() && cur == wf.State() && box == Box()
        invariant StoppedSoFar(wf.id, w, left, cur, o, box, running)
      {
        var k :| k in left;
        var task := wf.tasks[k];
        running := CancelIfUnfinished(wf, k, task, running, w, left, o);
        cur, box := wf.State(), Box();
        left := left - {k};
      }
    }

    method HandleCancelWorkflow(wf: Workflow) returns (running: seq<RunningTaskRef>)
      requires wf.Valid() && NoRetrying(wf.State().tasks)
      modifies this`published, wf`status, wf.tasks.Values`status
      ensures wf.Valid()
      ensures wf.State() == OnCancelWorkflow(old(wf.State())) && Kept(old(wf.State()), wf.State())
      ensures LocalEffects(wf.id, old(wf.State()), wf.State(), old(Box()), Box())
      ensures Appends([], running, RefsOf(old(wf.State()).tasks, UnfinishedSet(old(wf.State()).tasks)))
    {
      ghost var w, o := wf.State(), Box();
      running := CancelUnfinished(wf);
      ghost var w1, o1 := wf.State(), Box();
      MoveWorkflow(wf, WorkflowCancelled);
      WorkflowCancelledInTwoPhases(wf.id, w, w1, wf.State(), o, o1, Box(), running);
    }

    /** Returns one task of a dead worker to the queue. */
    method Requeue(ghost wf: Workflow, ghost k: string, task: Task)
      requires wf.Valid() && k in wf.tasks && wf.tasks[k] == task && IsOnWorker(task.status)
      modifies task`status, task`assignedTo, this`published, this`queue
      ensures wf.Valid()
      ensures wf.State() == WithTask(old(wf.State()), k,
                                     old(wf.State()).tasks[k].(status := TaskReady, assignedTo := ""))
      ensures Box() == Outbox(old(queue) + [Job(k, wf.id, old(wf.State()).tasks[k].taskType)],
                              old(published) + [TaskStatusChanged(wf.id, k, TaskReady)])
    {
      ghost var w := wf.State();
      assert w.tasks[k] == task.State();
      Assign(wf, k, task, "");
      ghost var w1 := wf.State();
      var ok := SetTask(wf, k, task, TaskReady);
      if ok {
        PushJob(wf, task);
      }
      WithTaskTwice(w, k, w1.tasks[k], w1.tasks[k].(status := TaskReady));
    }

    method TakeBackOne(ghost wf: Workflow, ghost k: string, task: Task, ghost w: WorkflowState, ghost done: set<string>,
                       ghost o: Outbox)
      requires wf.Valid() && k in wf.tasks && wf.tasks[k] == task && IsOnWorker(task.status)
      requires k !in done && TakenBackSoFar(wf.id, w, done, wf.State(), o, Box())
      modifies task`status, task`assignedTo, this`published, this`queue
      ensures wf.Valid() && TakenBackSoFar(wf.id, w, done + {k}, wf.State(), o, Box())
    {
      ghost var w1, o1 := wf.State(), Box();
      assert w1.tasks[k] == task.State();
      Requeue(wf, k, task);
      OneMoreTakenBack(wf.id, w, done, k, w1, wf.State(), o, o1, Box());
    }

    /** One turn of the walk below. */
    method TakeBackIfOn(ghost wf: Workflow, ghost k: string, task: Task, worker: string, ghost w: WorkflowState,
                        ghost left: set<string>, ghost o: Outbox)
      requires wf.Valid() && k in wf.tasks && wf.tasks[k] == task && k in left
      requires SearchedSoFar(wf.id, w, worker, left, wf.State(), o, Box())
      modifies this`queue, this`published, wf.tasks.Values`status, wf.tasks.Values`assignedTo
      ensures wf.Valid() && SearchedSoFar(wf.id, w, worker, left - {k}, wf.State(), o, Box())
    {
      ghost var all := OnWorker(w.tasks, worker);
      WalkOneMore(all, left, k);
      assert k in wf.State().tasks && wf.State().tasks[k] == task.State();
      assert k in w.tasks && wf.State().tasks[k] == w.tasks[k];
      if task.assignedTo == worker && IsOnWorker(task.status) {
        TakeBackOne(wf, k, task, w, all - left, o);
      }
    }

    method HandleWorkerDead(wf: Workflow, worker: string)
      requires wf.Valid()
      modifies this`queue, this`published, wf.tasks.Values`status, wf.tasks.Values`assignedTo
      ensures wf.Valid()
      ensures wf.State() == OnWorkerDead(old(wf.State()), worker)
      ensures LocalEffects(wf.id, old(wf.State()), wf.State(), old(Box()), Box())
    {
      ghost var w, o := wf.State(), Box();
      ghost var cur, box := w, o;
      var left := wf.tasks.Keys;
      NothingTakenBack(wf.id, w, worker, o);
      while left != {}
        invariant left <= wf.tasks.Keys && wf.Valid() && cur == wf.State() && box == Box()
        invariant SearchedSoFar(wf.id, w, worker, left, cur, o, box)
      {
        var k :| k in left;
        TakeBackIfOn(wf, k, wf.tasks[k], worker, w, left, o);
        cur, box := wf.State(), Box();
        left := left - {k};
      }
      AllTakenBack(wf.id, w, worker, cur, o, box);
    }

    /** Names the worker, even if the task may no longer move. */
    method Dispatched(task: Task, worker: string)
      modifies task`status, task`assignedTo, this`published
      ensures task.State() == MarkDispatched(old(task.State()), worker) && task.assignedTo == worker
      ensures task.status == if old(task.status).TaskReady? || old(task.status).TaskRetrying? then TaskDispatched
                             else old(task.status)
      ensures published == old(published) + (if CanTransitTo(old(task.status), TaskDispatched).TransitOk?
                                             then [TaskStatusChanged(task.workflowId, task.id, TaskDispatched)] else [])
    {
      task.assignedTo := worker;
      var ok := UpdateTaskStatus(task, TaskDispatched);
    }

    /** The engine has this very task object, and not one that replaced it. */
    ghost predicate Owns(task: Task)
      reads this, task, workflows.Values
    {
      && task.workflowId in workflows
      && task.id in workflows[task.workflowId].tasks && workflows[task.workflowId].tasks[task.id] == task
    }

    // -------------------------------------------------------------- the engine's calls

    method Store(wf: Workflow)
      requires Valid() && wf.Valid() && NoRetrying(wf.State().tasks)
      modifies this`workflows
      ensures Valid() && workflows == old(workflows)[wf.id := wf] && wf.State() == old(wf.State())
      ensures WorkflowStates() == old(WorkflowStates())[wf.id := wf.State()]
    {
      StatesOf(workflows, wf);
      ghost var stored, states := workflows[wf.id := wf], StatesIn(workflows[wf.id := wf]);
      assert ValidIn(stored) && WorkflowStates() == StatesIn(workflows);
      workflows := workflows[wf.id := wf];
      assert workflows == stored && ValidIn(stored);
      assert StatesIn(stored) == states;
    }

    ghost predicate ValidIn(ws: map<string, Workflow>)
      reads ws.Values, set w, t | w in ws.Values && t in w.tasks.Values :: t
    {
      forall k | k in ws :: ws[k].id == k && ws[k].Valid() && NoRetrying(ws[k].State().tasks)
    }

    ghost function StatesIn(ws: map<string, Workflow>): (states: Workflows)
      ensures states.Keys == ws.Keys
      reads ws.Values, set w, t | w in ws.Values && t in w.tasks.Values :: t
    {
      map k | k in ws :: ws[k].State()
    }

    lemma StatesOf(ws: map<string, Workflow>, wf: Workflow)
      ensures StatesIn(ws[wf.id := wf]) == StatesIn(ws)[wf.id := wf.State()]
    {
      var a, b := StatesIn(ws[wf.id := wf]), StatesIn(ws)[wf.id := wf.State()];
      assert a.Keys == b.Keys;
      assert forall k | k in a :: a[k] == b[k];
      assert a == b;
    }

    method Launch(wf: Workflow)
      requires Valid() && wf.id in workflows && workflows[wf.id] == wf
      modifies this`queue, this`published, wf`status, wf.tasks.Values`status
      ensures Valid()
      ensures WorkflowStates() == old(WorkflowStates())[wf.id := MarkReady(old(wf.State()))]
      ensures LocalEffects(wf.id, old(wf.State()), MarkReady(old(wf.State())), old(Box()), Box())
    {
      OthersApart(wf.id);
      MarkReadyTasks(wf);
      OnlyOneChanged(wf.id);
    }

    /** Stores a workflow, in place of one with the same ID if there is one, and queues what can start. With a new ID,
        as the server generates them, this is the model's call. */
    method SubmitWorkflow(wf: Workflow) returns (id: string)
      requires Valid() && wf.Valid() && Fresh(wf.State())
      modifies this`workflows, this`queue, this`published, wf`status, wf.tasks.Values`status
      ensures Valid() && id == wf.id && workflows == old(workflows)[id := wf]
      ensures Submitted(old(State()), id, old(wf.State()), State())
    {
      ghost var s, w := State(), wf.State();
      Store(wf);
      ghost var stored := WorkflowStates();
      Launch(wf);
      SubmissionIsLocal(s, wf.id, w, stored, State());
      return wf.id;
    }

    /** A worker's report. Unknown workflows and tasks are refused. */
    method OnTaskResponse(workflowId: string, taskId: string, report: TaskResult) returns (ok: bool)
      requires Valid()
      modifies this`queue, this`published, workflows.Values`status, AllTasks()`status, AllTasks()`result
      ensures Valid()
      ensures ok <==> Has(old(WorkflowStates()), workflowId, taskId)
      ensures EngineStep(old(State()), TaskResponse(workflowId, taskId, report), State())
    {
      if workflowId !in workflows || taskId !in workflows[workflowId].tasks {
        NothingChanged(State());
        return false;
      }
      var wf := workflows[workflowId];
      assert wf in workflows.Values && wf.tasks.Values <= AllTasks();
      ReportTo(wf, taskId, report);
      return true;
    }

    method ReportTo(wf: Workflow, taskId: string, report: TaskResult)
      requires Valid() && wf.id in workflows && workflows[wf.id] == wf && taskId in wf.tasks
      modifies this`queue, this`published, wf`status, wf.tasks.Values`status, wf.tasks.Values`result
      ensures Valid()
      ensures EngineStep(old(State()), TaskResponse(wf.id, taskId, report), State())
    {
      OthersApart(wf.id);
      HandleReport(wf, taskId, wf.tasks[taskId], report);
      HandledInPlace(TaskResponse(wf.id, taskId, report));
    }

    /** The scheduler's callback after a job was sent: names the worker and moves the task if it may move. The engine
        may no longer have the task, because its workflow was submitted again; then the engine's own workflows stay
        as they are. */
    method OnTaskDispatched(task: Task, workerId: string)
      requires Valid()
      modifies this`published, task`status, task`assignedTo
      ensures Valid() && Owns(task) == old(Owns(task))
      ensures task.State() == MarkDispatched(old(task.State()), workerId) && task.assignedTo == workerId
      ensures task.status == if old(task.status).TaskReady? || old(task.status).TaskRetrying? then TaskDispatched
                             else old(task.status)
      ensures published == old(published) + (if CanTransitTo(old(task.status), TaskDispatched).TransitOk?
                                             then [TaskStatusChanged(task.workflowId, task.id, TaskDispatched)] else [])
      ensures if Owns(task)
              then EngineStep(old(State()), EngineModel.OnTaskDispatched(task.workflowId, task.id, workerId), State())
              else WorkflowStates() == old(WorkflowStates())
    {
      Dispatched(task, workerId);
      if Owns(task) {
        OwnTaskDispatched(EngineModel.OnTaskDispatched(task.workflowId, task.id, workerId));
      } else {
        StrangerDispatched();
      }
    }

    /** Within its workflow, the callback has touched its task and nothing else. */
    twostate predicate JustDispatched(c: Call)
      requires c.OnTaskDispatched? && workflows == old(workflows)
      requires c.workflowId in workflows && c.taskId in workflows[c.workflowId].tasks
      reads this, workflows[c.workflowId], workflows[c.workflowId].tasks.Values
    {
      var wf, t := workflows[c.workflowId], workflows[c.workflowId].tasks[c.taskId];
      && unchanged(wf) && (forall n | n in wf.tasks && n != c.taskId :: unchanged(wf.tasks[n]))
      && t.id == old(t.id) && t.workflowId == old(t.workflowId)
      && t.State() == MarkDispatched(old(t.State()), c.worker)
      && queue == old(queue)
      && published == old(published) + (if CanTransitTo(old(t.status), TaskDispatched).TransitOk?
                                        then [TaskStatusChanged(c.workflowId, c.taskId, TaskDispatched)] else [])
    }

    twostate lemma ItsWorkflowShows(c: Call)
      requires c.OnTaskDispatched? && workflows == old(workflows)
      requires c.workflowId in workflows && c.taskId in workflows[c.workflowId].tasks
      requires old(workflows[c.workflowId].Valid()) && JustDispatched(c)
      ensures var wf := workflows[c.workflowId];
              && wf.Valid() && wf.State() == OnDispatched(old(wf.State()), c.taskId, c.worker)
              && LocalEffects(c.workflowId, old(wf.State()), wf.State(), old(Box()), Box())
    {
      var wf, w := workflows[c.workflowId], old(workflows[c.workflowId].State());
      assert wf.State().tasks == OnDispatched(w, c.taskId, c.worker).tasks;
      DispatchIsLocal(c.workflowId, w, c.taskId, c.worker, old(Box()), Box());
    }

    twostate lemma OwnTaskDispatched(c: Call)
      requires c.OnTaskDispatched? && workflows == old(workflows)
      requires c.workflowId in workflows && c.taskId in workflows[c.workflowId].tasks
      requires old(Valid()) && JustDispatched(c)
      requires forall v | v in workflows && v != c.workflowId ::
                 unchanged(workflows[v]) && forall n | n in workflows[v].tasks :: unchanged(workflows[v].tasks[n])
      ensures Valid()
      ensures EngineStep(old(State()), c, State())
    {
      assert old(workflows[c.workflowId].Valid());
      ItsWorkflowShows(c);
      DispatchIsKept(old(workflows[c.workflowId].State()), c.taskId, c.worker);
      HandledInPlace(c);
    }

    twostate lemma StrangerDispatched()
      requires old(Valid()) && workflows == old(workflows)
      requires forall v | v in workflows ::
                 unchanged(workflows[v]) && forall n | n in workflows[v].tasks :: unchanged(workflows[v].tasks[n])
      ensures Valid() && WorkflowStates() == old(WorkflowStates())
    {
      forall v | v in workflows
        ensures workflows[v].State() == old(workflows[v].State()) && workflows[v].Valid()
      {
        assert old(workflows[v].Valid());
      }
    }

    /** Cancels a workflow and says which worker must stop which tasks. */
    method CancelWorkflow(workflowId: string) returns (ok: bool, batches: map<string, seq<string>>)
      requires Valid()
      modifies this`published, workflows.Values`status, AllTasks()`status
      ensures Valid()
      ensures ok <==> workflowId in workflows
      ensures EngineStep(old(State()), EngineModel.CancelWorkflow(workflowId), State())
      ensures ok && hasNotifier ==> Batched(batches, old(workflows[workflowId].State()).tasks)
      ensures !ok || !hasNotifier ==> batches == map[]
    {
      if workflowId !in workflows {
        NothingChanged(State());
        return false, map[];
      }
      var wf := workflows[workflowId];
      assert wf in workflows.Values && wf.tasks.Values <= AllTasks();
      ghost var tasks := wf.State().tasks;
      var running := StopWorkflow(wf);
      batches := NotifyWorkersOfCancellation(running);
      if hasNotifier {
        BatchesAreRight(tasks, running, batches);
      }
      return true, batches;
    }

    method StopWorkflow(wf: Workflow) returns (running: seq<RunningTaskRef>)
      requires Valid() && wf.id in workflows && workflows[wf.id] == wf
      modifies this`published, wf`status, wf.tasks.Values`status
      ensures Valid()
      ensures EngineStep(old(State()), EngineModel.CancelWorkflow(wf.id), State())
      ensures var tasks := old(wf.State()).tasks; Appends([], running, RefsOf(tasks, UnfinishedSet(tasks)))
    {
      OthersApart(wf.id);
      running := HandleCancelWorkflow(wf);
      HandledInPlace(EngineModel.CancelWorkflow(wf.id));
    }

    ghost predicate Keeps(wf: Workflow)
      reads this, wf, workflows.Values
    {
      wf.id in workflows && workflows[wf.id] == wf && wf in workflows.Values && wf.tasks.Values <= AllTasks()
    }

    /** Some workflow that has the task. */
    method FindTask(taskId: string) returns (found: Option<Workflow>)
      requires Valid()
      ensures Valid() && State() == old(State())
      ensures found.Some? ==> Keeps(found.value) && taskId in found.value.tasks
      ensures found.None? ==> KnownNowhere(WorkflowStates(), taskId)
    {
      var left := workflows.Keys;
      while left != {}
        invariant left <= workflows.Keys
        invariant forall k | k in workflows && k !in left :: taskId !in workflows[k].tasks
      {
        var k :| k in left;
        if taskId in workflows[k].tasks {
          return Some(workflows[k]);
        }
        left := left - {k};
      }
      return None;
    }

    /** Cancels one task and what depends on it. Unknown and finished tasks are refused. */
    method CancelTask(taskId: string) returns (ok: bool, ghost wid: string, batches: map<string, seq<string>>)
      requires Valid()
      modifies this`published, workflows.Values`status, AllTasks()`status
      ensures Valid()
      ensures CancelOutcome(old(State()), wid, taskId, hasNotifier, State(), ok, batches)
    {
      var found := FindTask(taskId);
      match found
      case None =>
        UnknownIsNotCancelled(State(), taskId, hasNotifier);
        return false, "", map[];
      case Some(wf) =>
        wid := wf.id;
        ok, batches := CancelFound(wf, taskId);
    }

    method CancelFound(wf: Workflow, taskId: string) returns (ok: bool, batches: map<string, seq<string>>)
      requires Valid() && wf.id in workflows && workflows[wf.id] == wf && taskId in wf.tasks
      modifies this`published, wf`status, wf.tasks.Values`status
      ensures Valid()
      ensures CancelOutcome(old(State()), wf.id, taskId, hasNotifier, State(), ok, batches)
    {
      ghost var s := State();
      var task := wf.tasks[taskId];
      assert s.workflows[wf.id] == wf.State() && wf.State().tasks[taskId] == task.State();
      if IsFinished(task.status) {
        FinishedIsNotCancelled(s, wf.id, taskId, hasNotifier);
        return false, map[];
      }
      var running := StopTask(wf, taskId);
      batches := NotifyWorkersOfCancellation(running);
      CancelledOutcome(s, wf.id, taskId, hasNotifier, State(), running, batches);
      return true, batches;
    }

    method StopTask(wf: Workflow, taskId: string) returns (running: seq<RunningTaskRef>)
      requires Valid() && wf.id in workflows && workflows[wf.id] == wf && taskId in wf.tasks
      requires !IsFinished(wf.tasks[taskId].status)
      modifies this`published, wf`status, wf.tasks.Values`status
      ensures Valid()
      ensures EngineStep(old(State()), EngineModel.CancelTask(wf.id, taskId), State())
      ensures RunningAlong(old(wf.State()).tasks, taskId, running)
    {
      running := StopInPlace(wf, taskId);
      ghost var c := EngineModel.CancelTask(wf.id, taskId);
      assert c.workflowId == wf.id && workflows[c.workflowId] == wf;
      HandledInPlace(c);
    }

    method StopInPlace(wf: Workflow, taskId: string) returns (running: seq<RunningTaskRef>)
      requires Valid() && wf.id in workflows && workflows[wf.id] == wf && taskId in wf.tasks
      requires !IsFinished(wf.tasks[taskId].status)
      modifies this`published, wf`status, wf.tasks.Values`status
      ensures wf.Valid() && Kept(old(wf.State()), wf.State())
      ensures Handled(EngineModel.CancelTask(wf.id, taskId), wf.id, old(wf.State()), wf.State())
      ensures LocalEffects(wf.id, old(wf.State()), wf.State(), old(Box()), Box())
      ensures forall v | v in workflows && v != wf.id :: unchanged(workflows[v])
      ensures forall v, n | v in workflows && v != wf.id && n in workflows[v].tasks :: unchanged(workflows[v].tasks[n])
      ensures RunningAlong(old(wf.State()).tasks, taskId, running)
    {
      OthersApart(wf.id);
      running := HandleCancelTask(wf, taskId, wf.tasks[taskId]);
    }

    /** One batch for every worker among the references, with its tasks in order. */
    method NotifyWorkersOfCancellation(refs: seq<RunningTaskRef>) returns (batches: map<string, seq<string>>)
      requires Valid()
      ensures Valid() && State() == old(State())
      ensures batches == if hasNotifier then Grouped(refs) else map[]
      ensures forall worker :: worker in batches <==> hasNotifier && exists r :: r in refs && r.workerId == worker
      ensures forall worker | worker in batches :: InOrder(refs, worker, batches[worker])
    {
      forall worker
        ensures InOrder(refs, worker, TasksFor(refs, worker))
      {
        var at := TasksInOrder(refs, worker);
      }
      if refs == [] || !hasNotifier {
        return map[];
      }
      batches := GroupByWorker(refs);
    }

    method GroupByWorker(refs: seq<RunningTaskRef>) returns (batches: map<string, seq<string>>)
      requires Valid()
      ensures Valid() && State() == old(State())
      ensures batches == Grouped(refs)
    {
      batches := map[];
      for i := 0 to |refs|
        invariant batches == Grouped(refs[..i])
      {
        var ref := refs[i];
        GroupedOneMore(refs[..i], ref);
        assert refs[..i + 1] == refs[..i] + [ref];
        batches := batches[ref.workerId := (if ref.workerId in batches then batches[ref.workerId] else [])
                           + [ref.taskId]];
      }
      assert refs[..|refs|] == refs;
    }

    /** Takes back everything a dead worker had. */
    method ReassignDeadWorkerTasks(workerId: string)
      requires Valid()
      modifies this`queue, this`published, AllTasks()`status, AllTasks()`assignedTo
      ensures Valid()
      ensures EngineStep(old(State()), WorkerDead(workerId), State())
    {
      ghost var s, cur := State(), State();
      var left := workflows.Keys;
      NoneReassigned(s, workerId);
      while left != {}
        invariant left <= workflows.Keys && Valid() && cur == State() && s.workflows.Keys == workflows.Keys
        invariant PartlyReassigned(s, workerId, left, cur)
      {
        var k :| k in left;
        var wf := workflows[k];
        assert wf in workflows.Values && wf.tasks.Values <= AllTasks();
        ReassignIn(wf, workerId);
        OneMoreReassigned(s, workerId, left, k, cur, State());
        cur := State();
        left := left - {k};
      }
      AllReassigned(s, workerId, cur);
    }

    method ReassignIn(wf: Workflow, workerId: string)
      requires Valid() && wf.id in workflows && workflows[wf.id] == wf
      modifies this`queue, this`published, wf.tasks.Values`status, wf.tasks.Values`assignedTo
      ensures Valid()
      ensures WorkflowStates() == old(WorkflowStates())[wf.id := OnWorkerDead(old(wf.State()), workerId)]
      ensures Effects(old(State()), State())
    {
      OthersApart(wf.id);
      HandleWorkerDead(wf, workerId);
      OnlyOneChanged(wf.id);
    }
  }
}
