/** How the phases of the engine's handlers add up, over values: what was promoted, cancelled, taken back and
    announced so far, and what one more turn of each loop makes of it. */
module Phases {
  import opened Options
  import opened Status
  import opened WorkflowModel
  import opened EngineModel
  import opened EffectsModel
  import opened Cascade

  /** Enough to tell a worker to stop a task. */
  datatype RunningTaskRef = RunningTaskRef(taskId: string, workerId: string)

  /** The same tasks, none of them waiting for a retry. */
  ghost predicate Kept(w: WorkflowState, w': WorkflowState) {
    w'.tasks.Keys == w.tasks.Keys && NoRetrying(w'.tasks)
  }

  function WithTask(w: WorkflowState, k: string, t: TaskState): WorkflowState {
    w.(tasks := w.tasks[k := t])
  }

  lemma WithTaskTwice(w: WorkflowState, k: string, t: TaskState, t': TaskState)
    ensures WithTask(WithTask(w, k, t), k, t') == WithTask(w, k, t')
  {
    assert w.tasks[k := t][k := t'] == w.tasks[k := t'];
  }

  lemma ListsOneMore(s: seq<string>, xs: set<string>, left: set<string>, k: string)
    requires Lists(s, xs - left) && k in left
    ensures Lists(if k in xs then s + [k] else s, xs - (left - {k}))
  {
    var s' := s + [k];
    assert k !in s;
    forall x
      ensures x in (if k in xs then s' else s) <==> x in xs - (left - {k})
    {
      assert x in s' <==> x in s || x == k;
    }
  }

  ghost function Members(s: seq<string>): set<string> {
    set x | x in s
  }

  lemma NothingSet(tasks: Tasks, status: TaskStatus)
    ensures SetStatus(tasks, {}, status) == tasks
    ensures Members([]) == {}
  {
  }

  lemma NextMember(s: seq<string>, xs: set<string>, i: nat)
    requires Lists(s, xs) && i < |s|
    ensures s[i] in xs && s[i] !in Members(s[..i]) && Members(s[..i + 1]) == Members(s[..i]) + {s[i]}
  {
    assert s[..i + 1] == s[..i] + [s[i]];
  }

  lemma AllMembers(s: seq<string>, xs: set<string>)
    requires Lists(s, xs)
    ensures Members(s[..|s|]) == xs
  {
    assert s[..|s|] == s;
  }

  lemma ListsAny(s: seq<string>, xs: set<string>)
    requires Lists(s, xs)
    ensures |s| > 0 <==> xs != {}
  {
    assert s == [] || s[0] in xs;
  }

  lemma SetOneMore(tasks: Tasks, ids: set<string>, k: string, status: TaskStatus)
    requires k in tasks && k !in ids && CanTransitTo(tasks[k].status, status).TransitOk?
    ensures SetStatus(tasks, ids, status)[k] == tasks[k]
    ensures SetStatus(tasks, ids + {k}, status) == SetStatus(tasks, ids, status)[k := tasks[k].(status := status)]
  {
  }

  /** One more task of a workflow moved to `status` after the tasks `ids`. */
  lemma OneMoreMoved(wid: string, w: WorkflowState, ids: set<string>, k: string, status: TaskStatus,
                     w1: WorkflowState, w2: WorkflowState, o: Outbox, o1: Outbox, o2: Outbox)
    requires k in w.tasks && k !in ids && CanTransitTo(w.tasks[k].status, status).TransitOk?
    requires w1.tasks == SetStatus(w.tasks, ids, status)
             && w2 == w1.(tasks := w1.tasks[k := w1.tasks[k].(status := status)])
    requires LocalEffects(wid, w, w1, o, o1) && LocalEffects(wid, w1, w2, o1, o2)
    ensures w2.tasks == SetStatus(w.tasks, ids + {k}, status)
    ensures LocalEffects(wid, w, w2, o, o2)
  {
    SetOneMore(w.tasks, ids, k, status);
    EffectsCompose(wid, w, w1, w2, o, o1, o2);
  }

  /** The workflow runs if one of its tasks is ready. */
  ghost function Started(w: WorkflowState): WorkflowState {
    if ReadySet(w.tasks) != {} && w.status.WorkflowPending? then w.(status := WorkflowRunning) else w
  }

  lemma PromotedOnce(w: WorkflowState, w1: WorkflowState, w2: WorkflowState)
    requires w1 == Started(w) && w2 == w1.(tasks := SetStatus(w1.tasks, ReadySet(w1.tasks), TaskReady))
    ensures w2 == MarkReady(w) && OnceOnly(w, w1, w2)
  {
    assert w1.tasks == w.tasks;
  }

  lemma PromotedInTwoPhases(wid: string, w: WorkflowState, w1: WorkflowState, w2: WorkflowState, o: Outbox, o1: Outbox,
                            o2: Outbox)
    requires w1 == Started(w) && w2 == w1.(tasks := SetStatus(w1.tasks, ReadySet(w1.tasks), TaskReady))
    requires LocalEffects(wid, w, w1, o, o1) && LocalEffects(wid, w1, w2, o1, o2)
    ensures w2 == MarkReady(w) && LocalEffects(wid, w, w2, o, o2)
  {
    PromotedOnce(w, w1, w2);
    EffectsCompose(wid, w, w1, w2, o, o1, o2);
  }

  /** Those of the tasks `ids` that are on a worker, with the worker. */
  function RefsOf(tasks: Tasks, ids: set<string>): set<RunningTaskRef> {
    set k | k in ids && k in tasks && IsOnWorker(tasks[k].status) :: RunningTaskRef(k, tasks[k].assignedTo)
  }

  /** `cur` is `w` with the tasks `done` cancelled, announced, and listed in `running` if a worker had them. */
  ghost predicate CancelledSoFar(wid: string, w: WorkflowState, done: set<string>, cur: WorkflowState, o: Outbox,
                                 box: Outbox, running: seq<RunningTaskRef>) {
    && cur == w.(tasks := SetStatus(w.tasks, done, TaskCancelled))
    && LocalEffects(wid, w, cur, o, box)
    && Appends([], running, RefsOf(w.tasks, done))
  }

  lemma NothingCancelled(wid: string, w: WorkflowState, o: Outbox)
    ensures CancelledSoFar(wid, w, {}, w, o, o, [])
  {
    EffectsNone(wid, w, o);
    NothingSet(w.tasks, TaskCancelled);
  }

  lemma RefsGrow(tasks: Tasks, ids: set<string>, k: string, running: seq<RunningTaskRef>)
    requires k in tasks && k !in ids && Appends([], running, RefsOf(tasks, ids))
    ensures Appends([], if IsOnWorker(tasks[k].status) then running + [RunningTaskRef(k, tasks[k].assignedTo)]
                    else running, RefsOf(tasks, ids + {k}))
  {
    var r := RunningTaskRef(k, tasks[k].assignedTo);
    if IsOnWorker(tasks[k].status) {
      assert RefsOf(tasks, ids + {k}) == RefsOf(tasks, ids) + {r};
      AppendsOne(running, r);
      AppendsTransitive([], running, running + [r], RefsOf(tasks, ids), {r});
    } else {
      assert RefsOf(tasks, ids + {k}) == RefsOf(tasks, ids);
    }
  }

  lemma RefsUnion(tasks: Tasks, ids: set<string>, more: set<string>)
    requires ids !! more
    ensures RefsOf(tasks, ids + more) == RefsOf(tasks, ids) + RefsOf(tasks, more)
            && RefsOf(tasks, ids) !! RefsOf(tasks, more)
  {
  }

  lemma StillAsBefore(tasks: Tasks, done: set<string>, k: string)
    requires k in tasks && k !in done
    ensures SetStatus(tasks, done, TaskCancelled)[k] == tasks[k]
  {
  }

  lemma WalkOneMore(all: set<string>, left: set<string>, k: string)
    requires k in left
    ensures all - (left - {k}) == if k in all then all - left + {k} else all - left
  {
  }

  /** The walk over all tasks that cancels the dependents of `id`, with the tasks `left` still to come. */
  ghost predicate WalkedSoFar(wid: string, w: WorkflowState, id: string, left: set<string>, cur: WorkflowState,
                              o: Outbox, box: Outbox, added: seq<string>, running: seq<RunningTaskRef>) {
    && CancelledSoFar(wid, w, Dependents(w.tasks, id) - left, cur, o, box, running)
    && Lists(added, Dependents(w.tasks, id) - left)
  }

  lemma WalkStarts(wid: string, w: WorkflowState, id: string, o: Outbox)
    ensures WalkedSoFar(wid, w, id, w.tasks.Keys, w, o, o, [], [])
  {
    NothingCancelled(wid, w, o);
    assert Dependents(w.tasks, id) - w.tasks.Keys == {};
  }

  lemma WalkEnds(wid: string, w: WorkflowState, id: string, cur: WorkflowState, o: Outbox, box: Outbox,
                 added: seq<string>, running: seq<RunningTaskRef>)
    requires WalkedSoFar(wid, w, id, {}, cur, o, box, added, running)
    ensures CancelledSoFar(wid, w, Dependents(w.tasks, id), cur, o, box, running)
            && Lists(added, Dependents(w.tasks, id))
  {
    assert Dependents(w.tasks, id) - {} == Dependents(w.tasks, id);
  }

  lemma StillSane(tasks: Tasks, done: set<string>)
    requires NoRetrying(tasks)
    ensures NoRetrying(SetStatus(tasks, done, TaskCancelled))
  {
  }

  lemma RefsInTwoTurns(tasks: Tasks, found: set<string>, more: set<string>, running: seq<RunningTaskRef>,
                       refs: seq<RunningTaskRef>)
    requires found !! more
    requires Appends([], running, RefsOf(tasks, found))
             && Appends([], refs, RefsOf(SetStatus(tasks, found, TaskCancelled), more))
    ensures Appends([], running + refs, RefsOf(tasks, found + more))
  {
    assert RefsOf(SetStatus(tasks, found, TaskCancelled), more) == RefsOf(tasks, more);
    RefsUnion(tasks, found, more);
    assert (running + refs)[|running|..] == refs;
    AppendsTransitive([], running, running + refs, RefsOf(tasks, found), RefsOf(tasks, more));
  }

  lemma CancelledOnce(w: WorkflowState, found: set<string>, more: set<string>)
    requires NoRetrying(w.tasks) && found !! more
    ensures var w1 := w.(tasks := SetStatus(w.tasks, found, TaskCancelled));
            OnceOnly(w, w1, w1.(tasks := SetStatus(w1.tasks, more, TaskCancelled)))
  {
  }

  /** One turn of the worklist: what it cancels adds to what was cancelled before. */
  lemma CancelledInTwoTurns(wid: string, w: WorkflowState, found: set<string>, more: set<string>, w1: WorkflowState,
                            w2: WorkflowState, o: Outbox, o1: Outbox, o2: Outbox,
                            running: seq<RunningTaskRef>, refs: seq<RunningTaskRef>, id: string)
    requires NoRetrying(w.tasks) && more == Dependents(w1.tasks, id)
    requires CancelledSoFar(wid, w, found, w1, o, o1, running) && CancelledSoFar(wid, w1, more, w2, o1, o2, refs)
    ensures CancelledSoFar(wid, w, found + more, w2, o, o2, running + refs)
  {
    DependentsLeft(w.tasks, found, id);
    SetTwice(w.tasks, found, more);
    CancelledOnce(w, found, more);
    EffectsCompose(wid, w, w1, w2, o, o1, o2);
    RefsInTwoTurns(w.tasks, found, more, running, refs);
  }

  ghost function Reported(w: WorkflowState, k: string, report: TaskResult): WorkflowState
    requires k in w.tasks
  {
    w.(tasks := w.tasks[k := w.tasks[k].(status := report.status, result := Some(report))])
  }

  /** What an accepted report on a sane workflow can be, and what it makes of it. */
  lemma AppliedReport(w: WorkflowState, k: string, report: TaskResult)
    requires NoRetrying(w.tasks) && k in w.tasks && CanTransitTo(w.tasks[k].status, report.status).TransitOk?
    ensures report.status.TaskFailed? ==> IsOnWorker(w.tasks[k].status)
    ensures report.status.TaskSucceeded? ==> ApplyReport(w, k, report) == Reported(w, k, report)
    ensures report.status.TaskRunning? ==>
              ApplyReport(w, k, report) == w.(tasks := w.tasks[k := w.tasks[k].(status := TaskRunning)])
    ensures !report.status.TaskFailed? && !report.status.TaskSucceeded? && !report.status.TaskRunning?
            ==> ApplyReport(w, k, report) == w
  {
  }

  lemma ReportedIsSane(w: WorkflowState, k: string, report: TaskResult)
    requires NoRetrying(w.tasks) && k in w.tasks && IsFinished(report.status)
    ensures NoRetrying(Reported(w, k, report).tasks)
  {
  }

  /** Storing a result is no status change. */
  lemma ResultIsSilent(wid: string, w: WorkflowState, k: string, report: TaskResult, w1: WorkflowState, o: Outbox,
                       o1: Outbox)
    requires k in w.tasks && w1 == w.(tasks := w.tasks[k := w.tasks[k].(status := report.status)])
    requires LocalEffects(wid, w, w1, o, o1)
    ensures Reported(w, k, report) == w1.(tasks := w1.tasks[k := w1.tasks[k].(result := Some(report))])
    ensures LocalEffects(wid, w, Reported(w, k, report), o, o1)
  {
    SameStatusesSameEffects(wid, w, w1, Reported(w, k, report));
  }

  lemma SameStatusesSameEffects(wid: string, w: WorkflowState, w1: WorkflowState, w2: WorkflowState)
    requires w2.tasks.Keys == w1.tasks.Keys && w2.status == w1.status
    requires forall n | n in w1.tasks ::
               w2.tasks[n].status == w1.tasks[n].status && w2.tasks[n].taskType == w1.tasks[n].taskType
    ensures ChangesIn(wid, w, w2) == ChangesIn(wid, w, w1) && JobsIn(wid, w, w2) == JobsIn(wid, w, w1)
  {
  }

  lemma FailureOnce(w: WorkflowState, k: string, report: TaskResult, w1: WorkflowState, w2: WorkflowState)
    requires NoRetrying(w.tasks) && k in w.tasks && IsOnWorker(w.tasks[k].status) && report.status.TaskFailed?
    requires w1 == Reported(w, k, report) && w2 == w1.(tasks := CancelDownstream(w1.tasks, k))
    ensures w2 == ApplyReport(w, k, report) && OnceOnly(w, w1, w2)
  {
    DownstreamIsUnfinished(w1.tasks, k);
    assert w1.tasks[k].status.TaskFailed?;
  }

  /** A failure and the cascade it sets off. */
  lemma FailureInTwoPhases(wid: string, w: WorkflowState, k: string, report: TaskResult, w1: WorkflowState,
                           w2: WorkflowState, o: Outbox, o1: Outbox, o2: Outbox, running: seq<RunningTaskRef>)
    requires NoRetrying(w.tasks) && k in w.tasks && IsOnWorker(w.tasks[k].status) && report.status.TaskFailed?
    requires w1 == Reported(w, k, report) && LocalEffects(wid, w, w1, o, o1)
    requires CancelledSoFar(wid, w1, Downstream(w1.tasks, k), w2, o1, o2, running)
    ensures w2 == ApplyReport(w, k, report)
    ensures LocalEffects(wid, w, w2, o, o2)
  {
    FailureOnce(w, k, report, w1, w2);
    EffectsCompose(wid, w, w1, w2, o, o1, o2);
  }

  lemma ReportIsSane(w: WorkflowState, k: string, report: TaskResult)
    requires NoRetrying(w.tasks) && k in w.tasks
    ensures NoRetrying(ApplyReport(w, k, report).tasks)
  {
    ApplyReportMoves(w, k, report);
  }

  lemma PromotedOrFinalized(w: WorkflowState)
    requires NoRetrying(w.tasks)
    ensures MarkReady(w) == w || Finalize(MarkReady(w)) == MarkReady(w)
  {
    if ReadySet(w.tasks) != {} {
      var id :| id in ReadySet(w.tasks);
      assert !IsFinished(MarkReady(w).tasks[id].status);
    } else {
      NothingSet(w.tasks, TaskReady);
    }
  }

  /** Promotion touches PENDING tasks only, and a workflow with promoted tasks is not finalised. */
  lemma PromotionOnce(w: WorkflowState, w1: WorkflowState)
    requires NoRetrying(w1.tasks) && WorkflowMove(w, w1) && w1.status == w.status
    requires forall n | n in w.tasks && w1.tasks[n].status.TaskPending? :: w1.tasks[n] == w.tasks[n]
    ensures OnceOnly(w, w1, Finalize(MarkReady(w1)))
    ensures OnceOnly(w1, MarkReady(w1), Finalize(MarkReady(w1)))
  {
    PromotedOrFinalized(w1);
  }

  lemma SettledInTwoPhases(wid: string, w: WorkflowState, w1: WorkflowState, w2: WorkflowState, o: Outbox, o1: Outbox,
                           o2: Outbox)
    requires NoRetrying(w.tasks) && w1 == MarkReady(w) && w2 == Finalize(w1)
    requires LocalEffects(wid, w, w1, o, o1) && LocalEffects(wid, w1, w2, o1, o2)
    ensures LocalEffects(wid, w, w2, o, o2)
  {
    PromotionOnce(w, w);
    EffectsCompose(wid, w, w1, w2, o, o1, o2);
  }

  lemma ReportedAndSettled(wid: string, w: WorkflowState, k: string, report: TaskResult, w1: WorkflowState,
                           w2: WorkflowState, o: Outbox, o1: Outbox, o2: Outbox)
    requires NoRetrying(w.tasks) && k in w.tasks
    requires w1 == ApplyReport(w, k, report) && w2 == Finalize(MarkReady(w1))
    requires LocalEffects(wid, w, w1, o, o1) && LocalEffects(wid, w1, w2, o1, o2)
    ensures LocalEffects(wid, w, w2, o, o2) && Kept(w, w2)
  {
    ApplyReportMoves(w, k, report);
    PromotionOnce(w, w1);
    EffectsCompose(wid, w, w1, w2, o, o1, o2);
  }

  /** The tasks cancelled along with `k`. */
  ghost function CancelledWith(tasks: Tasks, k: string): set<string>
    requires k in tasks
  {
    Downstream(tasks[k := tasks[k].(status := TaskCancelled)], k)
  }

  lemma OneCancelled(w: WorkflowState, k: string, w1: WorkflowState)
    requires NoRetrying(w.tasks) && k in w.tasks && !IsFinished(w.tasks[k].status)
    requires w1 == w.(tasks := SetStatus(w.tasks, {} + {k}, TaskCancelled))
    ensures w1 == w.(tasks := w.tasks[k := w.tasks[k].(status := TaskCancelled)]) && NoRetrying(w1.tasks)
  {
    NothingSet(w.tasks, TaskCancelled);
    SetOneMore(w.tasks, {}, k, TaskCancelled);
  }

  /** `running` lists what was on a worker when `k` was cancelled with everything that depends on it. */
  ghost predicate RunningAlong(tasks: Tasks, k: string, running: seq<RunningTaskRef>)
    requires k in tasks
  {
    Appends([], running, RefsOf(tasks, {k} + CancelledWith(tasks, k)))
  }

  /** `cur` is `w` with the task `k` and its dependents cancelled, announced, and listed if a worker had them. */
  ghost predicate CancelledAlong(wid: string, w: WorkflowState, k: string, cur: WorkflowState, o: Outbox, box: Outbox,
                                 running: seq<RunningTaskRef>)
    requires k in w.tasks
  {
    && cur == w.(tasks := Kill(w.tasks, k, w.tasks[k].(status := TaskCancelled)))
    && LocalEffects(wid, w, cur, o, box)
    && RunningAlong(w.tasks, k, running)
  }

  lemma CascadeAfterOne(wid: string, w: WorkflowState, k: string, w1: WorkflowState, w2: WorkflowState,
                        o: Outbox, o1: Outbox, o2: Outbox, running: seq<RunningTaskRef>, more: seq<RunningTaskRef>)
    requires NoRetrying(w.tasks) && k in w.tasks && !IsFinished(w.tasks[k].status)
    requires CancelledSoFar(wid, w, {} + {k}, w1, o, o1, running)
    requires w1 == w.(tasks := w.tasks[k := w.tasks[k].(status := TaskCancelled)])
    requires CancelledSoFar(wid, w1, Downstream(w1.tasks, k), w2, o1, o2, more)
    ensures CancelledAlong(wid, w, k, w2, o, o2, running + more)
  {
    var d := Downstream(w1.tasks, k);
    DownstreamIsUnfinished(w1.tasks, k);
    assert {} + {k} == {k} && k !in d;
    assert OnceOnly(w, w1, w2);
    EffectsCompose(wid, w, w1, w2, o, o1, o2);
    RefsInTwoTurns(w.tasks, {k}, d, running, more);
  }

  lemma CancelledAndFinalized(wid: string, w: WorkflowState, k: string, w1: WorkflowState, w2: WorkflowState,
                              o: Outbox, o1: Outbox, o2: Outbox, running: seq<RunningTaskRef>)
    requires NoRetrying(w.tasks) && k in w.tasks && !IsFinished(w.tasks[k].status)
    requires CancelledAlong(wid, w, k, w1, o, o1, running) && w2 == Finalize(w1) && LocalEffects(wid, w1, w2, o1, o2)
    ensures w2 == OnCancelTask(w, k) && LocalEffects(wid, w, w2, o, o2) && Kept(w, w2)
    ensures RunningAlong(w.tasks, k, running)
  {
    KillEffect(w.tasks, k, w.tasks[k].(status := TaskCancelled));
    assert OnceOnly(w, w1, w2);
    EffectsCompose(wid, w, w1, w2, o, o1, o2);
  }

  /** The walk over all tasks that cancels the unfinished ones, with the tasks `left` still to come. */
  ghost predicate StoppedSoFar(wid: string, w: WorkflowState, left: set<string>, cur: WorkflowState, o: Outbox,
                               box: Outbox, running: seq<RunningTaskRef>) {
    CancelledSoFar(wid, w, UnfinishedSet(w.tasks) - left, cur, o, box, running)
  }

  lemma NothingStopped(wid: string, w: WorkflowState, o: Outbox)
    ensures StoppedSoFar(wid, w, w.tasks.Keys, w, o, o, [])
  {
    NothingCancelled(wid, w, o);
    assert UnfinishedSet(w.tasks) - w.tasks.Keys == {};
  }

  lemma WorkflowCancelledInTwoPhases(wid: string, w: WorkflowState, w1: WorkflowState, w2: WorkflowState,
                                     o: Outbox, o1: Outbox, o2: Outbox, running: seq<RunningTaskRef>)
    requires NoRetrying(w.tasks) && StoppedSoFar(wid, w, {}, w1, o, o1, running)
    requires w2 == TryWorkflowStatus(w1, WorkflowCancelled) && LocalEffects(wid, w1, w2, o1, o2)
    ensures w2 == OnCancelWorkflow(w) && LocalEffects(wid, w, w2, o, o2) && Kept(w, w2)
    ensures Appends([], running, RefsOf(w.tasks, UnfinishedSet(w.tasks)))
  {
    assert UnfinishedSet(w.tasks) - {} == UnfinishedSet(w.tasks);
    StillSane(w.tasks, UnfinishedSet(w.tasks));
    assert OnceOnly(w, w1, w2);
    EffectsCompose(wid, w, w1, w2, o, o1, o2);
  }

  /** The tasks `ids` are READY again and belong to no worker. */
  ghost function TakenBack(tasks: Tasks, ids: set<string>): Tasks {
    map id | id in tasks :: if id in ids then tasks[id].(status := TaskReady, assignedTo := "") else tasks[id]
  }

  ghost predicate TakenBackSoFar(wid: string, w: WorkflowState, done: set<string>, cur: WorkflowState, o: Outbox,
                                 box: Outbox) {
    cur == w.(tasks := TakenBack(w.tasks, done)) && LocalEffects(wid, w, cur, o, box)
  }

  /** The walk over all tasks that takes back those of a dead worker, with the tasks `left` still to come. */
  ghost predicate SearchedSoFar(wid: string, w: WorkflowState, worker: string, left: set<string>, cur: WorkflowState,
                                o: Outbox, box: Outbox) {
    TakenBackSoFar(wid, w, OnWorker(w.tasks, worker) - left, cur, o, box)
  }

  lemma NothingTakenBack(wid: string, w: WorkflowState, worker: string, o: Outbox)
    ensures SearchedSoFar(wid, w, worker, w.tasks.Keys, w, o, o)
  {
    EffectsNone(wid, w, o);
    assert OnWorker(w.tasks, worker) - w.tasks.Keys == {};
    assert TakenBack(w.tasks, {}) == w.tasks;
  }

  lemma AllTakenBack(wid: string, w: WorkflowState, worker: string, cur: WorkflowState, o: Outbox, box: Outbox)
    requires SearchedSoFar(wid, w, worker, {}, cur, o, box)
    ensures cur == OnWorkerDead(w, worker) && LocalEffects(wid, w, cur, o, box)
  {
    assert OnWorker(w.tasks, worker) - {} == OnWorker(w.tasks, worker);
  }

  lemma TakenBackOneMore(w: WorkflowState, done: set<string>, k: string, w1: WorkflowState, w2: WorkflowState)
    requires k in w.tasks && k !in done && w1 == w.(tasks := TakenBack(w.tasks, done))
    requires w2 == w1.(tasks := w1.tasks[k := w1.tasks[k].(status := TaskReady, assignedTo := "")])
    ensures w2.tasks == TakenBack(w.tasks, done + {k}) && OnceOnly(w, w1, w2)
  {
    assert w1.tasks[k] == w.tasks[k];
  }

  lemma OneMoreTakenBack(wid: string, w: WorkflowState, done: set<string>, k: string, w1: WorkflowState,
                         w2: WorkflowState, o: Outbox, o1: Outbox, o2: Outbox)
    requires k in w.tasks && k !in done && TakenBackSoFar(wid, w, done, w1, o, o1) && IsOnWorker(w1.tasks[k].status)
    requires w2 == w1.(tasks := w1.tasks[k := w1.tasks[k].(status := TaskReady, assignedTo := "")])
    requires o2 == Outbox(o1.queue + [Job(k, wid, w1.tasks[k].taskType)],
                          o1.published + [TaskStatusChanged(wid, k, TaskReady)])
    ensures TakenBackSoFar(wid, w, done + {k}, w2, o, o2)
  {
    EffectsOfOneTask(wid, w1, k, w1.tasks[k].(status := TaskReady, assignedTo := ""), o1, o2);
    TakenBackOneMore(w, done, k, w1, w2);
    EffectsCompose(wid, w, w1, w2, o, o1, o2);
  }

  lemma DispatchIsKept(w: WorkflowState, k: string, worker: string)
    requires k in w.tasks && NoRetrying(w.tasks)
    ensures Kept(w, OnDispatched(w, k, worker))
  {
  }

  lemma DispatchIsLocal(wid: string, w: WorkflowState, k: string, worker: string, o: Outbox, o': Outbox)
    requires k in w.tasks
    requires o' == if CanTransitTo(w.tasks[k].status, TaskDispatched).TransitOk?
                   then o.(published := o.published + [TaskStatusChanged(wid, k, TaskDispatched)]) else o
    ensures LocalEffects(wid, w, OnDispatched(w, k, worker), o, o')
  {
    var w' := OnDispatched(w, k, worker);
    if CanTransitTo(w.tasks[k].status, TaskDispatched).TransitOk? {
      EffectsOfOneTask(wid, w, k, w'.tasks[k], o, o');
    } else {
      assert ChangesIn(wid, w, w') == {} && JobsIn(wid, w, w') == {};
      AppendsNone(o.queue);
      AppendsNone(o.published);
    }
  }

  lemma NothingChanged(s: EngineState)
    ensures Effects(s, s)
  {
    assert NewlyReady(s.workflows, s.workflows) == {};
    assert Changes(s.workflows, s.workflows) == {};
    AppendsNone(s.queue);
    AppendsNone(s.published);
  }

  /** Some workflows have been searched for the dead worker's tasks and those `left` have not. */
  ghost predicate PartlyReassigned(s: EngineState, worker: string, left: set<string>, cur: EngineState) {
    && cur.workflows == SearchedFor(s.workflows, worker, left)
    && Effects(s, cur)
  }

  lemma NoneReassigned(s: EngineState, worker: string)
    ensures PartlyReassigned(s, worker, s.workflows.Keys, s)
  {
    NothingChanged(s);
  }

  lemma AllReassigned(s: EngineState, worker: string, s': EngineState)
    requires PartlyReassigned(s, worker, {}, s')
    ensures EngineStep(s, WorkerDead(worker), s')
  {
  }

  /** Only the workflow `k` changes from `b` to `c`, and it had not changed from `a` to `b`. */
  ghost predicate OneMoreChanged(a: Workflows, b: Workflows, c: Workflows, k: string, w: WorkflowState) {
    && k in a && b.Keys == a.Keys && b[k] == a[k] && c == b[k := w]
    && (forall n | n in a :: b[n].tasks.Keys == a[n].tasks.Keys)
    && w.tasks.Keys == a[k].tasks.Keys
    && (forall id | id in w.tasks :: w.tasks[id].taskType == a[k].tasks[id].taskType)
  }

  lemma JobsOfOneMore(a: Workflows, b: Workflows, c: Workflows, k: string, w: WorkflowState)
    requires OneMoreChanged(a, b, c, k, w)
    ensures NewlyReady(a, c) == NewlyReady(a, b) + NewlyReady(b, c) && NewlyReady(a, b) !! NewlyReady(b, c)
  {
    forall j
      ensures j in NewlyReady(a, c) <==> j in NewlyReady(a, b) || j in NewlyReady(b, c)
      ensures !(j in NewlyReady(a, b) && j in NewlyReady(b, c))
    {
      InNewlyReady(a, b, j);
      InNewlyReady(b, c, j);
      InNewlyReady(a, c, j);
    }
  }

  lemma EventsOfOneMore(a: Workflows, b: Workflows, c: Workflows, k: string, w: WorkflowState)
    requires OneMoreChanged(a, b, c, k, w)
    ensures Changes(a, c) == Changes(a, b) + Changes(b, c) && Changes(a, b) !! Changes(b, c)
  {
    forall e
      ensures e in Changes(a, c) <==> e in Changes(a, b) || e in Changes(b, c)
      ensures !(e in Changes(a, b) && e in Changes(b, c))
    {
      InChanges(a, b, e);
      InChanges(b, c, e);
      InChanges(a, c, e);
    }
  }

  lemma EffectsOfOneMore(s: EngineState, k: string, w: WorkflowState, s1: EngineState, s2: EngineState)
    requires OneMoreChanged(s.workflows, s1.workflows, s2.workflows, k, w) && Effects(s, s1) && Effects(s1, s2)
    ensures Effects(s, s2)
  {
    var a, b, c := s.workflows, s1.workflows, s2.workflows;
    JobsOfOneMore(a, b, c, k, w);
    EventsOfOneMore(a, b, c, k, w);
    AppendsTransitive(s.queue, s1.queue, s2.queue, NewlyReady(a, b), NewlyReady(b, c));
    AppendsTransitive(s.published, s1.published, s2.published, Changes(a, b), Changes(b, c));
  }

  ghost function SearchedFor(ws: Workflows, worker: string, left: set<string>): Workflows {
    map k | k in ws :: if k in left then ws[k] else OnWorkerDead(ws[k], worker)
  }

  lemma SearchedOneMore(ws: Workflows, worker: string, left: set<string>, k: string)
    requires k in left && k in ws
    ensures var was := SearchedFor(ws, worker, left);
            && SearchedFor(ws, worker, left - {k}) == was[k := OnWorkerDead(ws[k], worker)]
            && OneMoreChanged(ws, was, SearchedFor(ws, worker, left - {k}), k, OnWorkerDead(ws[k], worker))
  {
  }

  lemma OneMoreReassigned(s: EngineState, worker: string, left: set<string>, k: string, s1: EngineState,
                          s2: EngineState)
    requires left <= s.workflows.Keys && k in left && PartlyReassigned(s, worker, left, s1)
    requires s2.workflows == s1.workflows[k := OnWorkerDead(s1.workflows[k], worker)] && Effects(s1, s2)
    ensures PartlyReassigned(s, worker, left - {k}, s2)
  {
    SearchedOneMore(s.workflows, worker, left, k);
    EffectsOfOneMore(s, k, OnWorkerDead(s.workflows[k], worker), s1, s2);
  }

  // ---------------------------------------------------------------- who is notified

  function WorkersOf(refs: seq<RunningTaskRef>): set<string> {
    set r | r in refs :: r.workerId
  }

  /** The tasks of one worker among the references, in order. */
  function TasksFor(refs: seq<RunningTaskRef>, worker: string): seq<string> {
    if refs == [] then []
    else
      var rest, last := refs[..|refs| - 1], refs[|refs| - 1];
      TasksFor(rest, worker) + if last.workerId == worker then [last.taskId] else []
  }

  /** One batch for every worker referred to, with its tasks in order. */
  function Grouped(refs: seq<RunningTaskRef>): (batches: map<string, seq<string>>)
    ensures batches.Keys == WorkersOf(refs)
  {
    map worker | worker in WorkersOf(refs) :: TasksFor(refs, worker)
  }

  lemma TasksForOneMore(refs: seq<RunningTaskRef>, ref: RunningTaskRef, worker: string)
    ensures TasksFor(refs + [ref], worker) == TasksFor(refs, worker) + if ref.workerId == worker then [ref.taskId]
            else []
    ensures worker in WorkersOf(refs + [ref]) <==> worker in WorkersOf(refs) || worker == ref.workerId
  {
    assert (refs + [ref])[..|refs|] == refs;
    if worker == ref.workerId {
      assert (refs + [ref])[|refs|] == ref;
    }
    if worker in WorkersOf(refs) {
      var r :| r in refs && r.workerId == worker;
      assert r in refs + [ref];
    }
  }

  lemma GroupedOneMore(refs: seq<RunningTaskRef>, ref: RunningTaskRef)
    ensures var was := if ref.workerId in Grouped(refs) then Grouped(refs)[ref.workerId] else [];
            Grouped(refs + [ref]) == Grouped(refs)[ref.workerId := was + [ref.taskId]]
  {
    NoTasksFor(refs, ref.workerId);
    var was := if ref.workerId in Grouped(refs) then Grouped(refs)[ref.workerId] else [];
    var a, b := Grouped(refs + [ref]), Grouped(refs)[ref.workerId := was + [ref.taskId]];
    forall worker
      ensures worker in a.Keys <==> worker in b.Keys
      ensures worker in a.Keys ==> a[worker] == b[worker]
    {
      TasksForOneMore(refs, ref, worker);
    }
    assert a.Keys == b.Keys;
  }

  lemma {:induction false} NoTasksFor(refs: seq<RunningTaskRef>, worker: string)
    ensures TasksFor(refs, worker) == [] <==> worker !in WorkersOf(refs)
  {
    if refs != [] {
      NoTasksFor(refs[..|refs| - 1], worker);
      assert refs == refs[..|refs| - 1] + [refs[|refs| - 1]];
    }
  }

  /** The references `at`, in this order, are those of the worker, and these are their tasks. */
  ghost predicate TasksAt(refs: seq<RunningTaskRef>, worker: string, tasks: seq<string>, at: seq<nat>) {
    && |at| == |tasks|
    && (forall k | 0 <= k < |at| :: at[k] < |refs| && refs[at[k]] == RunningTaskRef(tasks[k], worker))
    && (forall k, l | 0 <= k < l < |at| :: at[k] < at[l])
    && (forall i: nat | i < |refs| && refs[i].workerId == worker :: i in at)
  }

  ghost predicate InOrder(refs: seq<RunningTaskRef>, worker: string, tasks: seq<string>) {
    exists at :: TasksAt(refs, worker, tasks, at)
  }

  lemma {:induction false} TasksInOrder(refs: seq<RunningTaskRef>, worker: string) returns (at: seq<nat>)
    ensures TasksAt(refs, worker, TasksFor(refs, worker), at)
  {
    if refs == [] {
      return [];
    }
    var n := |refs| - 1;
    at := TasksInOrder(refs[..n], worker);
    if refs[n].workerId == worker {
      at := at + [n];
    }
  }

  /** The tasks of one worker in a set of references. */
  function TasksIn(xs: set<RunningTaskRef>, worker: string): set<string> {
    set r | r in xs && r.workerId == worker :: r.taskId
  }

  lemma TasksInOneMore(xs: set<RunningTaskRef>, r: RunningTaskRef, worker: string)
    requires r in xs
    ensures multiset(TasksIn(xs, worker)) == multiset(TasksIn(xs - {r}, worker)) + if r.workerId == worker
            then multiset{r.taskId} else multiset{}
  {
    forall id
      ensures id in TasksIn(xs, worker) <==> RunningTaskRef(id, worker) in xs
      ensures id in TasksIn(xs - {r}, worker) <==> RunningTaskRef(id, worker) in xs - {r}
    {
    }
  }

  lemma WithoutLast(rest: seq<RunningTaskRef>, last: RunningTaskRef, xs: set<RunningTaskRef>)
    requires multiset(rest + [last]) == multiset(xs)
    ensures last in xs && multiset(rest) == multiset(xs - {last})
  {
    assert last in multiset(rest + [last]);
    forall r
      ensures multiset(rest)[r] == multiset(xs - {last})[r]
    {
      assert multiset(rest + [last])[r] == multiset(rest)[r] + multiset([last])[r];
      assert multiset(xs - {last})[r] == if r == last then 0 else multiset(xs)[r];
    }
  }

  /** Grouping by worker keeps every task, once. */
  lemma {:induction false} GroupingKeepsTasks(refs: seq<RunningTaskRef>, xs: set<RunningTaskRef>, worker: string)
    requires multiset(refs) == multiset(xs)
    ensures multiset(TasksFor(refs, worker)) == multiset(TasksIn(xs, worker))
  {
    if refs == [] {
      assert |multiset(xs)| == |xs| == 0;
      assert TasksIn(xs, worker) == {};
    } else {
      var rest, last := refs[..|refs| - 1], refs[|refs| - 1];
      assert refs == rest + [last];
      WithoutLast(rest, last, xs);
      GroupingKeepsTasks(rest, xs - {last}, worker);
      TasksInOneMore(xs, last, worker);
    }
  }

  /** The batches split the tasks that are on workers, each task once, under the worker it was assigned to. */
  ghost predicate Batched(batches: map<string, seq<string>>, tasks: Tasks) {
    && (forall worker :: worker in batches <==> OnWorker(tasks, worker) != {})
    && (forall worker | worker in batches :: multiset(batches[worker]) == multiset(OnWorker(tasks, worker)))
  }

  lemma TasksInAreOnWorker(tasks: Tasks, worker: string)
    ensures TasksIn(RefsOf(tasks, UnfinishedSet(tasks)), worker) == OnWorker(tasks, worker)
  {
    forall id
      ensures id in TasksIn(RefsOf(tasks, UnfinishedSet(tasks)), worker) <==> id in OnWorker(tasks, worker)
    {
      assert id in OnWorker(tasks, worker) ==> RunningTaskRef(id, worker) in RefsOf(tasks, UnfinishedSet(tasks));
    }
  }

  lemma BatchesAreRight(tasks: Tasks, refs: seq<RunningTaskRef>, batches: map<string, seq<string>>)
    requires Appends([], refs, RefsOf(tasks, UnfinishedSet(tasks)))
    requires batches == Grouped(refs)
    ensures Batched(batches, tasks)
  {
    var xs := RefsOf(tasks, UnfinishedSet(tasks));
    AppendsCount([], refs, xs);
    forall worker
      ensures worker in batches <==> OnWorker(tasks, worker) != {}
      ensures worker in batches ==> multiset(batches[worker]) == multiset(OnWorker(tasks, worker))
    {
      GroupingKeepsTasks(refs, xs, worker);
      NoTasksFor(refs, worker);
      TasksInAreOnWorker(tasks, worker);
      assert |multiset(TasksFor(refs, worker))| == |TasksFor(refs, worker)|;
    }
  }

  ghost predicate KnownNowhere(ws: Workflows, id: string) {
    forall wid :: !Has(ws, wid, id)
  }

  /** What comes of cancelling the task `id` of the workflow `wid`: a task that is unknown everywhere or finished is
      refused; otherwise it is cancelled with what depends on it, and workers are told if there is a way to tell
      them. */
  ghost predicate CancelOutcome(s: EngineState, wid: string, id: string, notifies: bool, s': EngineState, ok: bool,
                                batches: map<string, seq<string>>) {
    && (Has(s.workflows, wid, id) || KnownNowhere(s.workflows, id))
    && (ok <==> Has(s.workflows, wid, id) && !IsFinished(StatusOf(s.workflows, wid, id)))
    && EngineStep(s, CancelTask(wid, id), s')
    && (!ok || !notifies ==> batches == map[])
    && (ok && notifies ==> HeardOf(s.workflows[wid], id, batches))
  }

  /** Who hears of the cancellation of a task: in a state that a run can reach, at most the worker that has it. */
  ghost predicate HeardOf(w: WorkflowState, id: string, batches: map<string, seq<string>>)
    requires id in w.tasks
  {
    WorkflowInv(w) ==> batches == if IsOnWorker(w.tasks[id].status) then map[w.tasks[id].assignedTo := [id]] else map[]
  }

  /** Nothing downstream of an unfinished task is on a worker. */
  lemma {:induction false} OwnRefsOnly(w: WorkflowState, id: string)
    requires WorkflowInv(w) && id in w.tasks && !IsFinished(w.tasks[id].status)
    ensures RefsOf(w.tasks, {id} + CancelledWith(w.tasks, id)) ==
            if IsOnWorker(w.tasks[id].status) then {RunningTaskRef(id, w.tasks[id].assignedTo)} else {}
  {
    CascadeIsExact(w.tasks, id, w.tasks[id].(status := TaskCancelled));
  }

  lemma OneOrNoRef(refs: seq<RunningTaskRef>, xs: set<RunningTaskRef>)
    requires multiset(refs) == multiset(xs)
    ensures xs == {} ==> refs == []
    ensures forall r | xs == {r} :: refs == [r]
  {
    assert |refs| == |multiset(refs)| == |multiset(xs)| == |xs|;
    assert |refs| > 0 ==> refs[0] in multiset(refs);
  }

  lemma BatchOfOne(r: RunningTaskRef)
    ensures WorkersOf([r]) == {r.workerId} && TasksFor([r], r.workerId) == [r.taskId]
  {
    assert [r][..0] == [];
  }

  lemma OnlyOwnWorker(w: WorkflowState, id: string, refs: seq<RunningTaskRef>, batches: map<string, seq<string>>)
    requires id in w.tasks && !IsFinished(w.tasks[id].status)
    requires RunningAlong(w.tasks, id, refs)
    requires batches == Grouped(refs)
    ensures HeardOf(w, id, batches)
  {
    if WorkflowInv(w) {
      var xs := RefsOf(w.tasks, {id} + CancelledWith(w.tasks, id));
      OwnRefsOnly(w, id);
      AppendsCount([], refs, xs);
      OneOrNoRef(refs, xs);
      BatchOfOne(RunningTaskRef(id, w.tasks[id].assignedTo));
    }
  }

  lemma UnknownIsNotCancelled(s: EngineState, id: string, notifies: bool)
    requires KnownNowhere(s.workflows, id)
    ensures CancelOutcome(s, "", id, notifies, s, false, map[])
  {
    NothingChanged(s);
  }

  lemma FinishedIsNotCancelled(s: EngineState, wid: string, id: string, notifies: bool)
    requires Has(s.workflows, wid, id) && IsFinished(StatusOf(s.workflows, wid, id))
    ensures CancelOutcome(s, wid, id, notifies, s, false, map[])
  {
    assert s.workflows[wid := s.workflows[wid]] == s.workflows;
    NothingChanged(s);
  }

  lemma CancelledOutcome(s: EngineState, wid: string, id: string, notifies: bool, s': EngineState,
                         refs: seq<RunningTaskRef>, batches: map<string, seq<string>>)
    requires Has(s.workflows, wid, id) && !IsFinished(StatusOf(s.workflows, wid, id))
    requires EngineStep(s, CancelTask(wid, id), s') && RunningAlong(s.workflows[wid].tasks, id, refs)
    requires batches == if notifies then Grouped(refs) else map[]
    ensures CancelOutcome(s, wid, id, notifies, s', true, batches)
  {
    if notifies {
      OnlyOwnWorker(s.workflows[wid], id, refs, batches);
    }
  }

  /** What a call on one workflow makes of it. */
  ghost predicate Handled(c: Call, wid: string, w: WorkflowState, w': WorkflowState) {
    match c
    case TaskResponse(v, id, r) => v == wid && id in w.tasks && w' == OnReport(w, id, r)
    case CancelTask(v, id) => v == wid && id in w.tasks && w' == OnCancelTask(w, id)
    case CancelWorkflow(v) => v == wid && w' == OnCancelWorkflow(w)
    case OnTaskDispatched(v, id, worker) => v == wid && id in w.tasks && w' == OnDispatched(w, id, worker)
    case _ => false
  }

  lemma HandledIsStep(s: EngineState, c: Call, wid: string, w': WorkflowState, s': EngineState)
    requires wid in s.workflows && Handled(c, wid, s.workflows[wid], w')
    requires s'.workflows == s.workflows[wid := w'] && Effects(s, s')
    ensures EngineStep(s, c, s')
  {
  }

  /** What a submission does: one job and one event for every task that starts, and the model's call if the ID is
      new. */
  ghost predicate Submitted(s: EngineState, wid: string, w: WorkflowState, s': EngineState) {
    && s'.workflows == s.workflows[wid := MarkReady(w)]
    && LocalEffects(wid, w, MarkReady(w), Outbox(s.queue, s.published), Outbox(s'.queue, s'.published))
    && (wid !in s.workflows ==> EngineStep(s, Submit(wid, w), s'))
  }

  lemma SubmissionIsLocal(s: EngineState, wid: string, w: WorkflowState, stored: Workflows, s': EngineState)
    requires Fresh(w) && stored == s.workflows[wid := w] && s'.workflows == stored[wid := MarkReady(w)]
    requires LocalEffects(wid, w, MarkReady(w), Outbox(s.queue, s.published), Outbox(s'.queue, s'.published))
    ensures Submitted(s, wid, w, s')
  {
    assert s'.workflows == s.workflows[wid := MarkReady(w)];
    if wid !in s.workflows {
      NewSubmissionIsGlobal(s, wid, w, MarkReady(w), s');
    }
  }

  lemma NewSubmissionIsGlobal(s: EngineState, wid: string, w: WorkflowState, w': WorkflowState, s': EngineState)
    requires Fresh(w) && wid !in s.workflows && w' == MarkReady(w) && s'.workflows == s.workflows[wid := w']
    requires LocalEffects(wid, w, w', Outbox(s.queue, s.published), Outbox(s'.queue, s'.published))
    ensures EngineStep(s, Submit(wid, w), s')
  {
    SubmittedIsGlobal(s.workflows, wid, w, w');
  }
}
