/** The two status graphs of the orchestrator: the life of a task and the life of a workflow. */
module Status {

  datatype TaskStatus =
    | TaskPending
    | TaskReady
    | TaskDispatched
    | TaskRunning
    | TaskSucceeded
    | TaskFailed
    | TaskRetrying
    | TaskCancelled
    | TaskStatusUnknown

  datatype WorkflowStatus =
    | WorkflowPending
    | WorkflowRunning
    | WorkflowSucceeded
    | WorkflowFailed
    | WorkflowCancelled

  datatype Transit = TransitOk | TransitToSameStatus | TransitNotAllowed

  /** The transition table of tasks; every entry not listed is `false`. */
  predicate TaskEdge(s: TaskStatus, t: TaskStatus) {
    match s
    case TaskPending => t.TaskReady? || t.TaskCancelled?
    case TaskReady => t.TaskDispatched? || t.TaskCancelled?
    case TaskDispatched => t.TaskRunning? || t.TaskSucceeded? || t.TaskFailed? || t.TaskCancelled? || t.TaskReady?
    case TaskRunning => t.TaskSucceeded? || t.TaskCancelled? || t.TaskFailed? || t.TaskReady?
    case TaskFailed => t.TaskRetrying?
    case TaskRetrying => t.TaskDispatched? || t.TaskRunning?
    case _ => false
  }

  /** The transition table of workflows. */
  predicate WorkflowEdge(s: WorkflowStatus, t: WorkflowStatus) {
    match s
    case WorkflowPending => t.WorkflowRunning? || t.WorkflowCancelled?
    case WorkflowRunning => t.WorkflowSucceeded? || t.WorkflowFailed? || t.WorkflowCancelled?
    case _ => false
  }

  function CanTransitTo(s: TaskStatus, t: TaskStatus): Transit {
    if s == t then TransitToSameStatus
    else if !TaskEdge(s, t) then TransitNotAllowed
    else TransitOk
  }

  function WorkflowCanTransitTo(s: WorkflowStatus, t: WorkflowStatus): Transit {
    if s == t then TransitToSameStatus
    else if !WorkflowEdge(s, t) then TransitNotAllowed
    else TransitOk
  }

  predicate IsFinished(s: TaskStatus) {
    s.TaskSucceeded? || s.TaskFailed? || s.TaskCancelled?
  }

  /** A task that somebody is responsible for: a queued job or a worker. */
  predicate IsLive(s: TaskStatus) {
    s.TaskReady? || s.TaskDispatched? || s.TaskRunning?
  }

  /** A task that was sent to a worker and has not been reported finished. */
  predicate IsOnWorker(s: TaskStatus) {
    s.TaskDispatched? || s.TaskRunning?
  }

  predicate IsWorkflowFinished(s: WorkflowStatus) {
    s.WorkflowSucceeded? || s.WorkflowFailed? || s.WorkflowCancelled?
  }

  /** How far a task has come; every move of the engine except the reassignment after a worker's death raises it. */
  function TaskRank(s: TaskStatus): nat {
    match s
    case TaskPending => 0
    case TaskReady => 1
    case TaskDispatched => 2
    case TaskRunning => 3
    case _ => 4
  }

  function WorkflowRank(s: WorkflowStatus): nat {
    match s
    case WorkflowPending => 0
    case WorkflowRunning => 1
    case _ => 2
  }

  /** Apart from retries, a task that has not finished may be cancelled, move one status on until it runs, and once it
      is on a worker succeed, fail or become READY again. A failed task may be retried, a retried one sent or run. */
  lemma TaskEdgesInWords(s: TaskStatus, t: TaskStatus)
    ensures TaskEdge(s, t) <==>
            || (s.TaskFailed? && t.TaskRetrying?)
            || (s.TaskRetrying? && (t.TaskDispatched? || t.TaskRunning?))
            || (!IsFinished(s) && !s.TaskRetrying? && !s.TaskStatusUnknown?
                && (|| t.TaskCancelled?
                    || (IsLive(t) && TaskRank(t) == TaskRank(s) + 1)
                    || (IsOnWorker(s) && (t.TaskSucceeded? || t.TaskFailed? || t.TaskReady?))))
  {
  }

  /** A workflow that has not finished may be cancelled; a waiting one may start, and a running one succeed or fail. */
  lemma WorkflowEdgesInWords(s: WorkflowStatus, t: WorkflowStatus)
    ensures WorkflowEdge(s, t) <==>
            !IsWorkflowFinished(s) && (t.WorkflowCancelled? || (WorkflowRank(t) == WorkflowRank(s) + 1))
  {
  }

  /** A change of status is allowed along an edge and refused for one of two reasons. */
  lemma TransitsInWords(s: TaskStatus, t: TaskStatus)
    ensures CanTransitTo(s, t).TransitOk? <==> TaskEdge(s, t)
    ensures CanTransitTo(s, t).TransitToSameStatus? <==> s == t
  {
  }
}
