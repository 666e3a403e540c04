/** Tasks and workflows as the program keeps them, and the construction of a workflow from a request. */
module Domain {
  import opened Options
  import opened Status
  import opened Graphs
  import opened WorkflowModel

  class Task {
    var id: string
    var workflowId: string
    var name: string
    var dependsOn: seq<string>
    var taskType: string
    var timeout: int
    var retryBackoff: int
    var status: TaskStatus
    var assignedTo: string
    var result: Option<TaskResult>

    constructor (name: string, dependsOn: seq<string>, taskType: string, timeout: int, retryBackoff: int)
      ensures this.id == "" && this.name == name && this.dependsOn == dependsOn
      ensures State() == TaskState(dependsOn, taskType, TaskPending, "", None)
    {
      this.id, this.workflowId, this.name, this.dependsOn := "", "", name, dependsOn;
      this.taskType, this.timeout, this.retryBackoff := taskType, timeout, retryBackoff;
      this.status, this.assignedTo, this.result := TaskPending, "", None;
    }

    ghost function State(): TaskState
      reads this
    {
      TaskState(dependsOn, taskType, status, assignedTo, result)
    }

    method UpdateStatus(newStatus: TaskStatus) returns (r: Transit)
      modifies this`status
      ensures r == CanTransitTo(old(status), newStatus)
      ensures status == if r.TransitOk? then newStatus else old(status)
    {
      r := CanTransitTo(status, newStatus);
      if r.TransitOk? {
        status := newStatus;
      }
    }
  }

  class Workflow {
    var id: string
    var tasks: map<string, Task>
    var status: WorkflowStatus

    constructor (id: string, tasks: map<string, Task>)
      ensures this.id == id && this.tasks == tasks && this.status == WorkflowPending
    {
      this.id, this.tasks, this.status := id, tasks, WorkflowPending;
    }

    /** Tasks are filed under their IDs and know their workflow, so no two entries share an object. */
    ghost predicate Valid()
      reads this, tasks.Values
    {
      forall k | k in tasks :: tasks[k].id == k && tasks[k].workflowId == id
    }

    ghost function State(): WorkflowState
      reads this, tasks.Values
    {
      WorkflowState(TaskStates(tasks), status)
    }

    method UpdateStatus(newStatus: WorkflowStatus) returns (r: Transit)
      modifies this`status
      ensures r == WorkflowCanTransitTo(old(status), newStatus)
      ensures status == if r.TransitOk? then newStatus else old(status)
    {
      r := WorkflowCanTransitTo(status, newStatus);
      if r.TransitOk? {
        status := newStatus;
      }
    }

    method AllTasksFinished() returns (r: bool)
      ensures r <==> WorkflowModel.AllTasksFinished(State().tasks)
    {
      var left := tasks.Keys;
      while left != {}
        invariant left <= tasks.Keys
        invariant forall k | k in tasks && k !in left :: IsFinished(tasks[k].status)
      {
        var k :| k in left;
        if !IsFinished(tasks[k].status) {
          assert State().tasks[k].status == tasks[k].status;
          return false;
        }
        left := left - {k};
      }
      return true;
    }

    /** Whether some task has the given status; the program asks for FAILED and for CANCELLED. */
    method HasTaskWithStatus(wanted: TaskStatus) returns (r: bool)
      ensures r <==> HasTask(State().tasks, wanted)
    {
      var left := tasks.Keys;
      while left != {}
        invariant left <= tasks.Keys
        invariant forall k | k in tasks && k !in left :: tasks[k].status != wanted
      {
        var k :| k in left;
        if tasks[k].status == wanted {
          assert State().tasks[k].status == wanted;
          return true;
        }
        left := left - {k};
      }
      assert forall k | k in tasks :: State().tasks[k].status == tasks[k].status;
      return false;
    }
  }

  ghost function TaskStates(tasks: map<string, Task>): Tasks
    reads tasks.Values
  {
    map k | k in tasks :: tasks[k].State()
  }

  ghost function GraphOf(tasks: map<string, Task>): Graph
    reads tasks.Values
  {
    map k | k in tasks :: tasks[k].dependsOn
  }

  // ---------------------------------------------------------------- cycle detection

  const GRAY := 1
  const BLACK := 2

  /** Ranked nodes depend only on ranked nodes of lower rank. */
  ghost predicate Ranked(g: Graph, rank: map<string, nat>) {
    forall n, d | n in rank && n in g && d in g[n] :: d in rank && rank[d] < rank[n]
  }

  /** The colour map one depth-first search shares among its calls; a node without an entry is white.
      `rank` numbers the black nodes in the order they were finished. */
  class Colors {
    var of: map<string, int>
    ghost var rank: map<string, nat>

    constructor ()
      ensures of == map[] && rank == map[]
    {
      of, rank := map[], map[];
    }

    /** Black nodes depend on black nodes finished earlier. */
    ghost predicate Good(g: Graph)
      reads this
    {
      && of.Keys <= g.Keys
      && (forall n | n in of :: of[n] == GRAY || of[n] == BLACK)
      && (forall n :: n in rank <==> HasColor(of, n, BLACK))
      && (forall n | n in rank :: rank[n] < |rank|)
      && Ranked(g, rank)
    }

    method PaintGray(n: string, ghost g: Graph)
      requires Good(g) && n in g && n !in of
      modifies this
      ensures Good(g) && of == old(of)[n := GRAY]
    {
      of := of[n := GRAY];
    }

    /** Finishing a node all of whose dependencies are finished. */
    method PaintBlack(n: string, ghost g: Graph)
      requires Good(g) && n in g && HasColor(of, n, GRAY)
      requires forall d | d in g[n] :: HasColor(of, d, BLACK)
      modifies this
      ensures Good(g) && of == old(of)[n := BLACK]
    {
      of := of[n := BLACK];
      ghost var size := |rank|;
      rank := rank[n := size];
      assert |rank| == size + 1;
    }
  }

  predicate HasColor(of: map<string, int>, n: string, color: int) {
    n in of && of[n] == color
  }

  /** Painting below a node: what was black stays black, and the gray nodes are those of before and `more`. */
  ghost predicate Painted(was: map<string, int>, now: map<string, int>, more: set<string>) {
    && was.Keys <= now.Keys
    && (forall k | HasColor(was, k, BLACK) :: HasColor(now, k, BLACK))
    && (forall k :: HasColor(now, k, GRAY) <==> k in more || HasColor(was, k, GRAY))
  }

  /** All gray nodes lie on the path, before its last node. */
  ghost predicate GrayOnPath(of: map<string, int>, path: seq<string>) {
    forall n | HasColor(of, n, GRAY) :: n in path[..|path| - (if path == [] then 0 else 1)]
  }

  /** The search below `taskId`, reached along `path`. It fails only if the start of the path reaches a cycle. */
  method HasCycle(taskId: string, tasks: map<string, Task>, colors: Colors, ghost g: Graph, ghost path: seq<string>)
      returns (found: bool)
    requires g == GraphOf(tasks) && Closed(g) && colors.Good(g)
    requires taskId in tasks && taskId !in colors.of
    requires IsWalk(g, path) && path[|path| - 1] == taskId && GrayOnPath(colors.of, path)
    modifies colors
    ensures found ==> CycleReachableFrom(g, path[0])
    ensures !found ==> colors.Good(g) && HasColor(colors.of, taskId, BLACK) && Painted(old(colors.of), colors.of, {})
    decreases tasks.Keys - colors.of.Keys, 0
  {
    colors.PaintGray(taskId, g);
    var deps := tasks[taskId].dependsOn;
    for i := 0 to |deps|
      invariant colors.Good(g)
      invariant Painted(old(colors.of), colors.of, {taskId}) && taskId in colors.of
      invariant AllBlack(colors.of, deps, i)
    {
      ghost var before := colors.of;
      PathGrows(old(colors.of), before, path);
      found := VisitDependency(deps[i], tasks, colors, g, path);
      if found {
        return true;
      }
      PaintedTwice(old(colors.of), before, colors.of, taskId, deps, i);
    }
    FinishedNode(old(colors.of), colors.of, taskId, deps);
    colors.PaintBlack(taskId, g);
    return false;
  }

  /** One turn of the search's loop: the dependency `d` of the gray node at the end of the path. */
  method VisitDependency(d: string, tasks: map<string, Task>, colors: Colors, ghost g: Graph, ghost path: seq<string>)
      returns (found: bool)
    requires g == GraphOf(tasks) && Closed(g) && colors.Good(g)
    requires IsWalk(g, path) && d in g[path[|path| - 1]]
    requires forall n | HasColor(colors.of, n, GRAY) :: n in path
    modifies colors
    ensures found ==> CycleReachableFrom(g, path[0])
    ensures !found ==> colors.Good(g) && HasColor(colors.of, d, BLACK) && Painted(old(colors.of), colors.of, {})
    decreases tasks.Keys - colors.of.Keys, 1
  {
    assert d in g;
    WalkStep(g, path, d);
    if HasColor(colors.of, d, GRAY) {
      ClosedWalk(g, path, d);
      return true;
    }
    if d !in colors.of {
      assert (path + [d])[..|path + [d]| - 1] == path && (path + [d])[0] == path[0];
      found := HasCycle(d, tasks, colors, g, path + [d]);
      return found;
    }
    return false;
  }

  lemma PathGrows(was: map<string, int>, now: map<string, int>, path: seq<string>)
    requires path != [] && GrayOnPath(was, path) && Painted(was, now, {path[|path| - 1]})
    ensures forall n | HasColor(now, n, GRAY) :: n in path
  {
  }

  ghost predicate AllBlack(of: map<string, int>, deps: seq<string>, n: nat)
    requires n <= |deps|
  {
    forall k | 0 <= k < n :: HasColor(of, deps[k], BLACK)
  }

  lemma PaintedTwice(a: map<string, int>, b: map<string, int>, c: map<string, int>, n: string, deps: seq<string>,
                     i: nat)
    requires Painted(a, b, {n}) && Painted(b, c, {}) && i < |deps|
    requires AllBlack(b, deps, i) && HasColor(c, deps[i], BLACK)
    ensures Painted(a, c, {n}) && AllBlack(c, deps, i + 1)
  {
  }

  lemma FinishedNode(was: map<string, int>, now: map<string, int>, n: string, deps: seq<string>)
    requires Painted(was, now, {n}) && n !in was && AllBlack(now, deps, |deps|)
    ensures Painted(was, now[n := BLACK], {})
    ensures forall d | d in deps :: HasColor(now, d, BLACK)
    ensures HasColor(now, n, GRAY)
  {
  }

  /** A walk that can step back onto itself runs into a cycle. */
  lemma ClosedWalk(g: Graph, path: seq<string>, d: string)
    requires IsWalk(g, path) && d in path && d in g && d in g[path[|path| - 1]]
    ensures CycleReachableFrom(g, path[0])
  {
    var k :| 0 <= k < |path| && path[k] == d;
    var w := path[k..] + [d];
    assert IsCycle(g, w);
    assert IsWalk(g, path[..k + 1]) && path[..k + 1][0] == path[0] && path[..k + 1][|path[..k + 1]| - 1] == d;
    assert Reaches(g, path[0], w[0]);
  }

  /** Ranked nodes only reach ranked nodes, and reach no cycle. */
  lemma {:induction false} RankedReachNoCycle(g: Graph, rank: map<string, nat>, start: string)
    requires Ranked(g, rank)
    requires start in rank
    ensures !CycleReachableFrom(g, start)
  {
    forall w | IsCycle(g, w) && Reaches(g, start, w[0])
      ensures false
    {
      var v :| IsWalk(g, v) && v[0] == start && v[|v| - 1] == w[0];
      RankedWalk(g, rank, v, |v| - 1);
      RankedWalk(g, rank, w, |w| - 1);
    }
  }

  lemma {:induction false} RankedWalk(g: Graph, rank: map<string, nat>, w: seq<string>, i: nat)
    requires Ranked(g, rank)
    requires IsWalk(g, w) && w[0] in rank && i < |w|
    ensures w[i] in rank && (i > 0 ==> rank[w[i]] < rank[w[0]])
  {
    if i > 0 {
      RankedWalk(g, rank, w, i - 1);
      assert w[i] in g[w[i - 1]];
    }
  }

  /** The search started afresh at a task fails exactly when a dependency cycle can be reached from it. */
  method SearchFrom(taskId: string, tasks: map<string, Task>) returns (found: bool)
    requires Closed(GraphOf(tasks)) && taskId in tasks
    ensures found <==> CycleReachableFrom(GraphOf(tasks), taskId)
  {
    ghost var g := GraphOf(tasks);
    var colors := new Colors();
    assert colors.Good(g) && IsWalk(g, [taskId]) && GrayOnPath(colors.of, [taskId]);
    found := HasCycle(taskId, tasks, colors, g, [taskId]);
    if !found {
      assert taskId in colors.rank;
      RankedReachNoCycle(g, colors.rank, taskId);
    }
  }

  /** Searches from every task, in any order; names a task from which a cycle is reachable if there is a cycle. */
  method ValidateTasksCycle(tasks: map<string, Task>) returns (bad: Option<string>)
    requires Closed(GraphOf(tasks))
    ensures bad.None? <==> Acyclic(GraphOf(tasks))
    ensures bad.Some? ==> bad.value in tasks && CycleReachableFrom(GraphOf(tasks), bad.value)
  {
    ghost var g := GraphOf(tasks);
    var left := tasks.Keys;
    while left != {}
      invariant left <= tasks.Keys
      invariant forall k | k in tasks && k !in left :: !CycleReachableFrom(g, k)
    {
      var k :| k in left;
      var found := SearchFrom(k, tasks);
      if found {
        return Some(k);
      }
      left := left - {k};
    }
    forall w
      ensures !IsCycle(g, w)
    {
      if IsCycle(g, w) {
        ReachSelf(g, w[0]);
        assert CycleReachableFrom(g, w[0]);
      }
    }
    return None;
  }

  // ---------------------------------------------------------------- building a workflow

  /** What a request says about one task: its name, the ID it will have and the names it depends on. */
  datatype TaskSpec = TaskSpec(name: string, id: string, dependsOn: seq<string>)

  /** The request as it arrives; a task without an ID gets the next generated one. */
  ghost function SpecsOf(tasks: seq<Task>, generated: seq<string>): (specs: seq<TaskSpec>)
    requires |generated| == |tasks|
    reads set t | t in tasks
    ensures |specs| == |tasks| && forall i | 0 <= i < |tasks| ::
              specs[i].name == tasks[i].name && specs[i].dependsOn == tasks[i].dependsOn
  {
    seq(|tasks|, i requires 0 <= i < |tasks| reads set t | t in tasks =>
      TaskSpec(tasks[i].name, if tasks[i].id == "" then generated[i] else tasks[i].id, tasks[i].dependsOn))
  }

  ghost predicate DistinctNames(specs: seq<TaskSpec>) {
    forall i, j | 0 <= i < j < |specs| :: specs[i].name != specs[j].name
  }

  ghost predicate DistinctIds(specs: seq<TaskSpec>) {
    forall i, j | 0 <= i < j < |specs| :: specs[i].id != specs[j].id
  }

  ghost predicate Named(specs: seq<TaskSpec>, name: string) {
    exists i :: 0 <= i < |specs| && specs[i].name == name
  }

  ghost predicate Identified(specs: seq<TaskSpec>, id: string) {
    exists i :: 0 <= i < |specs| && specs[i].id == id
  }

  ghost function WithName(specs: seq<TaskSpec>, name: string): (s: TaskSpec)
    requires Named(specs, name)
    ensures s in specs && s.name == name
  {
    var i :| 0 <= i < |specs| && specs[i].name == name;
    specs[i]
  }

  ghost function WithId(specs: seq<TaskSpec>, id: string): (s: TaskSpec)
    requires Identified(specs, id)
    ensures s in specs && s.id == id
  {
    var i :| 0 <= i < |specs| && specs[i].id == id;
    specs[i]
  }

  lemma SpecIsUnique(specs: seq<TaskSpec>, s: TaskSpec)
    requires DistinctNames(specs) && DistinctIds(specs) && s in specs
    ensures Named(specs, s.name) && WithName(specs, s.name) == s
    ensures Identified(specs, s.id) && WithId(specs, s.id) == s
  {
    var i :| 0 <= i < |specs| && specs[i] == s;
    assert specs[i].name == s.name && specs[i].id == s.id;
  }

  ghost predicate Resolved(specs: seq<TaskSpec>) {
    forall s, d | s in specs && d in s.dependsOn :: Named(specs, d)
  }

  /** The dependency graph the request spells out, over names. */
  ghost function NameGraph(specs: seq<TaskSpec>): Graph {
    map n | n in (set s | s in specs :: s.name) && Named(specs, n) :: WithName(specs, n).dependsOn
  }

  ghost function IdOf(specs: seq<TaskSpec>): map<string, string> {
    map n | n in (set s | s in specs :: s.name) && Named(specs, n) :: WithName(specs, n).id
  }

  ghost function NameOf(specs: seq<TaskSpec>): map<string, string> {
    map k | k in (set s | s in specs :: s.id) && Identified(specs, k) :: WithId(specs, k).name
  }

  /** A well-formed request: names and IDs are distinct, every dependency names a task, and no names form a cycle. */
  ghost predicate Acceptable(specs: seq<TaskSpec>) {
    && DistinctNames(specs) && DistinctIds(specs) && Resolved(specs)
    && Acyclic(NameGraph(specs))
  }

  /** Entries of the request, each of which depends on the next, back to where they began. */
  predicate NameCycle(specs: seq<TaskSpec>, c: seq<nat>) {
    && |c| >= 2 && c[0] == c[|c| - 1]
    && (forall k | 0 <= k < |c| :: c[k] < |specs|)
    && forall k | 0 <= k < |c| - 1 :: specs[c[k + 1]].name in specs[c[k]].dependsOn
  }

  lemma CycleOfNames(specs: seq<TaskSpec>, c: seq<nat>)
    requires DistinctNames(specs) && DistinctIds(specs) && NameCycle(specs, c)
    ensures !Acyclic(NameGraph(specs))
  {
    var w := seq(|c|, k requires 0 <= k < |c| => specs[c[k]].name);
    forall k | 0 <= k < |c|
      ensures w[k] in NameGraph(specs) && NameGraph(specs)[w[k]] == specs[c[k]].dependsOn
    {
      SpecIsUnique(specs, specs[c[k]]);
    }
    assert IsCycle(NameGraph(specs), w);
  }

  lemma CycleOfEntries(specs: seq<TaskSpec>, w: seq<string>) returns (c: seq<nat>)
    requires DistinctNames(specs) && DistinctIds(specs) && IsCycle(NameGraph(specs), w)
    ensures NameCycle(specs, c)
  {
    c := EntriesOf(specs, w);
    assert specs[c[0]].name == w[0] == w[|w| - 1] == specs[c[|w| - 1]].name;
  }

  lemma EntriesOf(specs: seq<TaskSpec>, w: seq<string>) returns (c: seq<nat>)
    requires DistinctNames(specs) && DistinctIds(specs) && forall k | 0 <= k < |w| :: w[k] in NameGraph(specs)
    ensures |c| == |w| && forall k | 0 <= k < |w| ::
              c[k] < |specs| && specs[c[k]].name == w[k] && specs[c[k]].dependsOn == NameGraph(specs)[w[k]]
  {
    c := [];
    for n := 0 to |w|
      invariant |c| == n
      invariant forall k | 0 <= k < n ::
                  c[k] < |specs| && specs[c[k]].name == w[k] && specs[c[k]].dependsOn == NameGraph(specs)[w[k]]
    {
      var i := EntryOf(specs, w[n]);
      c := c + [i];
    }
  }

  lemma EntryOf(specs: seq<TaskSpec>, name: string) returns (i: nat)
    requires DistinctNames(specs) && DistinctIds(specs) && name in NameGraph(specs)
    ensures i < |specs| && specs[i].name == name && specs[i].dependsOn == NameGraph(specs)[name]
  {
    i :| i < |specs| && specs[i].name == name;
    SpecIsUnique(specs, specs[i]);
  }

  lemma ResolvedInWords(specs: seq<TaskSpec>)
    ensures Resolved(specs) <==> forall i, d | 0 <= i < |specs| && d in specs[i].dependsOn ::
              exists j :: 0 <= j < |specs| && specs[j].name == d
  {
    if Resolved(specs) {
      forall i, d | 0 <= i < |specs| && d in specs[i].dependsOn
        ensures exists j :: 0 <= j < |specs| && specs[j].name == d
      {
        assert specs[i] in specs && Named(specs, d);
      }
    }
  }

  /** In terms of the entries themselves: no two share a name or an ID, every dependency is the name of an entry, and no
      chain of dependencies leads back to its beginning. */
  lemma {:induction false} AcceptableInWords(specs: seq<TaskSpec>)
    ensures Acceptable(specs) <==>
            && (forall i, j | 0 <= i < j < |specs| :: specs[i].name != specs[j].name && specs[i].id != specs[j].id)
            && (forall i, d | 0 <= i < |specs| && d in specs[i].dependsOn ::
                  exists j :: 0 <= j < |specs| && specs[j].name == d)
            && (forall c :: !NameCycle(specs, c))
  {
    if DistinctNames(specs) && DistinctIds(specs) {
      forall c | NameCycle(specs, c)
        ensures !Acyclic(NameGraph(specs))
      {
        CycleOfNames(specs, c);
      }
      if w :| IsCycle(NameGraph(specs), w) {
        var c := CycleOfEntries(specs, w);
      }
    }
    ResolvedInWords(specs);
    assert DistinctNames(specs) && DistinctIds(specs) <==>
           forall i, j | 0 <= i < j < |specs| :: specs[i].name != specs[j].name && specs[i].id != specs[j].id;
  }

  datatype SubmitError =
    | DuplicateName(name: string)
    | DuplicateId(id: string)
    | InvalidDependency(dep: string)
    | CycleDetected(taskId: string)

  /** What each refusal tells the caller. */
  ghost predicate RightError(specs: seq<TaskSpec>, e: SubmitError) {
    match e
    case DuplicateName(n) => exists i, j :: 0 <= i < j < |specs| && specs[i].name == n == specs[j].name
    case DuplicateId(k) => exists i, j :: 0 <= i < j < |specs| && specs[i].id == k == specs[j].id
    case InvalidDependency(d) =>
      DistinctNames(specs) && DistinctIds(specs) && !Named(specs, d) && exists s :: s in specs && d in s.dependsOn
    case CycleDetected(k) =>
      DistinctNames(specs) && DistinctIds(specs) && Resolved(specs) && !Acyclic(NameGraph(specs))
          && Identified(specs, k)
  }

  datatype BuildResult = Built(workflow: Workflow) | Rejected(error: SubmitError)

  /** The names `from` with every name replaced by its ID. */
  ghost predicate SameEdges(specs: seq<TaskSpec>, from: seq<string>, to: seq<string>) {
    |to| == |from| && forall k | 0 <= k < |from| :: Named(specs, from[k]) && to[k] == WithName(specs, from[k]).id
  }

  /** The ID graph is the name graph with every name replaced by its ID. */
  ghost predicate Translated(specs: seq<TaskSpec>, g: Graph) {
    && (forall n :: n in g <==> Identified(specs, n))
    && forall s | s in specs :: s.id in g && SameEdges(specs, s.dependsOn, g[s.id])
  }

  /** The IDs behind a list of names. */
  ghost function IdsOf(byName: map<string, Task>, names: seq<string>): seq<string>
    requires forall d | d in names :: d in byName
    reads byName.Values
  {
    seq(|names|, i requires 0 <= i < |names| && (forall d | d in names :: d in byName) reads byName.Values =>
        byName[names[i]].id)
  }

  method ResolveOne(byName: map<string, Task>, names: seq<string>) returns (bad: Option<string>, ids: seq<string>)
    ensures bad.None? <==> forall d | d in names :: d in byName
    ensures bad.None? ==> ids == IdsOf(byName, names)
    ensures bad.Some? ==> bad.value in names && bad.value !in byName
  {
    ids := [];
    for i := 0 to |names|
      invariant |ids| == i
      invariant forall k | 0 <= k < i :: names[k] in byName && ids[k] == byName[names[k]].id
    {
      if names[i] !in byName {
        return Some(names[i]), ids;
      }
      ids := ids + [byName[names[i]].id];
    }
    return None, ids;
  }

  /** Replaces, in place, the names each task depends on by the IDs of the tasks that bear them. */
  method ResolveDependencies(byName: map<string, Task>) returns (bad: Option<string>)
    requires forall n | n in byName :: byName[n].name == n
    modifies byName.Values`dependsOn
    ensures bad.None? <==> forall n, d | n in byName && d in old(byName[n].dependsOn) :: d in byName
    ensures bad.None? ==> forall n | n in byName :: byName[n].dependsOn == IdsOf(byName, old(byName[n].dependsOn))
    ensures bad.Some? ==> bad.value !in byName && exists n :: n in byName && bad.value in old(byName[n].dependsOn)
  {
    var left := byName.Keys;
    while left != {}
      invariant left <= byName.Keys
      invariant forall n | n in left :: byName[n].dependsOn == old(byName[n].dependsOn)
      invariant forall n, d | n in byName && n !in left && d in old(byName[n].dependsOn) :: d in byName
      invariant forall n | n in byName && n !in left :: byName[n].dependsOn == IdsOf(byName, old(byName[n].dependsOn))
    {
      var n :| n in left;
      var wrong, ids := ResolveOne(byName, byName[n].dependsOn);
      if wrong.Some? {
        return wrong;
      }
      byName[n].dependsOn := ids;
      left := left - {n};
    }
    return None;
  }

  lemma TranslatedBack(specs: seq<TaskSpec>, g: Graph, n: string, d: string)
    requires DistinctNames(specs) && DistinctIds(specs) && Translated(specs, g) && n in g && d in g[n]
    ensures d in g && Identified(specs, n) && Identified(specs, d)
    ensures WithId(specs, d).name in WithId(specs, n).dependsOn
  {
    var s := WithId(specs, n);
    var k :| 0 <= k < |g[n]| && g[n][k] == d;
    assert SameEdges(specs, s.dependsOn, g[s.id]);
    var t := WithName(specs, s.dependsOn[k]);
    SpecIsUnique(specs, t);
  }

  lemma TranslatedForth(specs: seq<TaskSpec>, g: Graph, s: TaskSpec, d: string)
    requires DistinctNames(specs) && DistinctIds(specs) && Translated(specs, g) && s in specs && d in s.dependsOn
    ensures Named(specs, d) && s.id in g && WithName(specs, d).id in g[s.id]
  {
    var k :| 0 <= k < |s.dependsOn| && s.dependsOn[k] == d;
    assert SameEdges(specs, s.dependsOn, g[s.id]);
    assert g[s.id][k] == WithName(specs, d).id;
  }

  lemma NamesAreKeys(specs: seq<TaskSpec>, s: TaskSpec)
    requires DistinctNames(specs) && DistinctIds(specs) && s in specs
    ensures s.name in NameGraph(specs) && NameGraph(specs)[s.name] == s.dependsOn
    ensures s.name in IdOf(specs) && IdOf(specs)[s.name] == s.id
    ensures s.id in NameOf(specs) && NameOf(specs)[s.id] == s.name
  {
    SpecIsUnique(specs, s);
  }

  lemma EdgeOverIds(specs: seq<TaskSpec>, g: Graph, n: string, d: string)
    requires DistinctNames(specs) && DistinctIds(specs) && Translated(specs, g) && n in g && d in g[n]
    ensures n in NameOf(specs) && d in NameOf(specs) && NameOf(specs)[n] in NameGraph(specs)
    ensures NameOf(specs)[d] in NameGraph(specs)[NameOf(specs)[n]]
  {
    TranslatedBack(specs, g, n, d);
    NamesAreKeys(specs, WithId(specs, n));
    NamesAreKeys(specs, WithId(specs, d));
  }

  lemma EdgeOverNames(specs: seq<TaskSpec>, g: Graph, n: string, d: string)
    requires DistinctNames(specs) && DistinctIds(specs) && Translated(specs, g)
    requires n in NameGraph(specs) && d in NameGraph(specs)[n] && d in NameGraph(specs)
    ensures n in IdOf(specs) && d in IdOf(specs) && IdOf(specs)[n] in g && IdOf(specs)[d] in g[IdOf(specs)[n]]
  {
    TranslatedForth(specs, g, WithName(specs, n), d);
    NamesAreKeys(specs, WithName(specs, n));
    NamesAreKeys(specs, WithName(specs, d));
  }

  lemma IdsAreKeys(specs: seq<TaskSpec>, g: Graph)
    requires DistinctNames(specs) && DistinctIds(specs) && Translated(specs, g)
    ensures forall n | n in g :: n in NameOf(specs) && NameOf(specs)[n] in NameGraph(specs)
  {
    forall n | n in g
      ensures n in NameOf(specs) && NameOf(specs)[n] in NameGraph(specs)
    {
      NamesAreKeys(specs, WithId(specs, n));
    }
  }

  lemma IdsRename(specs: seq<TaskSpec>, g: Graph)
    requires DistinctNames(specs) && DistinctIds(specs) && Translated(specs, g)
    ensures Renames(g, NameGraph(specs), NameOf(specs))
  {
    IdsAreKeys(specs, g);
    forall n, d | n in g && d in g[n] && d in g
      ensures NameOf(specs)[d] in NameGraph(specs)[NameOf(specs)[n]]
    {
      EdgeOverIds(specs, g, n, d);
    }
  }

  lemma NamesRename(specs: seq<TaskSpec>, g: Graph)
    requires DistinctNames(specs) && DistinctIds(specs) && Translated(specs, g)
    ensures Renames(NameGraph(specs), g, IdOf(specs))
  {
    forall n | n in NameGraph(specs)
      ensures n in IdOf(specs) && IdOf(specs)[n] in g
    {
      NamesAreKeys(specs, WithName(specs, n));
    }
    forall n, d | n in NameGraph(specs) && d in NameGraph(specs)[n] && d in NameGraph(specs)
      ensures IdOf(specs)[d] in g[IdOf(specs)[n]]
    {
      EdgeOverNames(specs, g, n, d);
    }
  }

  lemma TranslatedIsClosed(specs: seq<TaskSpec>, g: Graph)
    requires DistinctNames(specs) && DistinctIds(specs) && Translated(specs, g)
    ensures Closed(g)
  {
    forall n, d | n in g && d in g[n]
      ensures d in g
    {
      TranslatedBack(specs, g, n, d);
    }
  }

  lemma CarryCycles(g: Graph, h: Graph, f: map<string, string>)
    requires Renames(g, h, f)
    ensures Acyclic(h) ==> Acyclic(g)
  {
    if w :| IsCycle(g, w) {
      RenamedCycle(g, h, f, w);
    }
  }

  /** Names and IDs are two names for the same graph: one has a cycle exactly when the other has. */
  lemma {:induction false} TranslationKeepsCycles(specs: seq<TaskSpec>, g: Graph)
    requires DistinctNames(specs) && DistinctIds(specs) && Translated(specs, g)
    ensures Acyclic(g) <==> Acyclic(NameGraph(specs))
  {
    IdsRename(specs, g);
    CarryCycles(g, NameGraph(specs), NameOf(specs));
    NamesRename(specs, g);
    CarryCycles(NameGraph(specs), g, IdOf(specs));
  }

  // Go durations count nanoseconds.
  const DEFAULT_TIMEOUT: int := 30 * 1_000_000_000
  const DEFAULT_BACKOFF: int := 200 * 1_000_000

  ghost predicate NamedBelow(specs: seq<TaskSpec>, n: nat, name: string)
    requires n <= |specs|
  {
    exists i :: 0 <= i < n && specs[i].name == name
  }

  ghost predicate IdentifiedBelow(specs: seq<TaskSpec>, n: nat, id: string)
    requires n <= |specs|
  {
    exists i :: 0 <= i < n && specs[i].id == id
  }

  /** The two indexes of a list of tasks, filled with its first `n` entries. */
  ghost predicate Indexed(tasks: seq<Task>, specs: seq<TaskSpec>, n: nat, byName: map<string, Task>, byId: map<string,
                          Task>)
    requires n <= |specs| == |tasks|
  {
    && (forall i | 0 <= i < n :: specs[i].name in byName && byName[specs[i].name] == tasks[i])
    && (forall i | 0 <= i < n :: specs[i].id in byId && byId[specs[i].id] == tasks[i])
    && (forall k {:trigger NamedBelow(specs, n, k)} | k in byName :: NamedBelow(specs, n, k))
    && (forall k {:trigger IdentifiedBelow(specs, n, k)} | k in byId :: IdentifiedBelow(specs, n, k))
    && (forall i, j | 0 <= i < j < n :: specs[i].name != specs[j].name && specs[i].id != specs[j].id)
  }

  lemma IndexOneMore(tasks: seq<Task>, specs: seq<TaskSpec>, n: nat, byName: map<string, Task>, byId: map<string, Task>)
    requires n < |specs| == |tasks| && Indexed(tasks, specs, n, byName, byId)
    requires specs[n].name !in byName && specs[n].id !in byId
    ensures Indexed(tasks, specs, n + 1, byName[specs[n].name := tasks[n]], byId[specs[n].id := tasks[n]])
  {
    var byName', byId' := byName[specs[n].name := tasks[n]], byId[specs[n].id := tasks[n]];
    forall k | k in byName'
      ensures NamedBelow(specs, n + 1, k)
    {
      assert k == specs[n].name || NamedBelow(specs, n, k);
    }
    forall k | k in byId'
      ensures IdentifiedBelow(specs, n + 1, k)
    {
      assert k == specs[n].id || IdentifiedBelow(specs, n, k);
    }
  }

  /** Gives every task an ID and files it under its name and its ID, refusing duplicates. */
  method IndexTasks(tasks: seq<Task>, generated: seq<string>)
    returns (error: Option<SubmitError>, byName: map<string, Task>, byId: map<string, Task>)
    requires |generated| == |tasks|
    requires forall i, j | 0 <= i < j < |tasks| :: tasks[i] != tasks[j]
    modifies (set t | t in tasks)`id
    ensures error.None? <==>
              DistinctNames(old(SpecsOf(tasks, generated))) && DistinctIds(old(SpecsOf(tasks, generated)))
    ensures error.None? ==>
              && Indexed(tasks, old(SpecsOf(tasks, generated)), |tasks|, byName, byId)
              && forall i | 0 <= i < |tasks| :: tasks[i].id == old(SpecsOf(tasks, generated))[i].id
    ensures error.Some? ==> RightError(old(SpecsOf(tasks, generated)), error.value)
  {
    ghost var specs := SpecsOf(tasks, generated);
    byName, byId := map[], map[];
    for i := 0 to |tasks|
      invariant Indexed(tasks, specs, i, byName, byId)
      invariant forall k | 0 <= k < i :: tasks[k].id == specs[k].id
      invariant forall k | i <= k < |tasks| :: tasks[k].id == old(tasks[k].id)
    {
      var task := tasks[i];
      if task.id == "" {
        task.id := generated[i];
      }
      if task.name in byName {
        assert specs[i].name == task.name && NamedBelow(specs, i, task.name);
        return Some(DuplicateName(task.name)), byName, byId;
      }
      if task.id in byId {
        assert specs[i].id == task.id && IdentifiedBelow(specs, i, task.id);
        return Some(DuplicateId(task.id)), byName, byId;
      }
      IndexOneMore(tasks, specs, i, byName, byId);
      byName := byName[task.name := task];
      byId := byId[task.id := task];
    }
    return None, byName, byId;
  }

  lemma IndexedIsTranslated(tasks: seq<Task>, specs: seq<TaskSpec>, byName: map<string, Task>, byId: map<string, Task>)
    requires |specs| == |tasks| && DistinctNames(specs) && DistinctIds(specs)
    requires Indexed(tasks, specs, |tasks|, byName, byId)
    requires forall i | 0 <= i < |tasks| :: tasks[i].id == specs[i].id
    requires Resolved(specs)
    requires forall i | 0 <= i < |tasks| ::
               && (forall d | d in specs[i].dependsOn :: d in byName)
               && tasks[i].dependsOn == IdsOf(byName, specs[i].dependsOn)
    ensures Translated(specs, GraphOf(byId))
  {
    var g := GraphOf(byId);
    forall n
      ensures n in g <==> Identified(specs, n)
    {
      assert n in byId ==> IdentifiedBelow(specs, |tasks|, n);
    }
    forall s | s in specs
      ensures s.id in g && SameEdges(specs, s.dependsOn, g[s.id])
    {
      var i :| 0 <= i < |specs| && specs[i] == s;
      forall k | 0 <= k < |s.dependsOn|
        ensures Named(specs, s.dependsOn[k]) && g[s.id][k] == WithName(specs, s.dependsOn[k]).id
      {
        var d := s.dependsOn[k];
        var t := WithName(specs, d);
        var j :| 0 <= j < |specs| && specs[j] == t;
        assert byName[d] == tasks[j];
      }
    }
  }

  lemma ResolvedNames(tasks: seq<Task>, specs: seq<TaskSpec>, byName: map<string, Task>, byId: map<string, Task>,
                      d: string)
    requires |specs| == |tasks| && Indexed(tasks, specs, |tasks|, byName, byId)
    ensures d in byName <==> Named(specs, d)
  {
    assert d in byName ==> NamedBelow(specs, |tasks|, d);
  }

  /** The tasks are filed under their IDs, all of them and nothing else. */
  ghost predicate Filed(tasks: seq<Task>, byId: map<string, Task>)
    reads set t | t in tasks
  {
    && (forall k | k in byId :: byId[k] in tasks && byId[k].id == k)
    && (forall t | t in tasks :: t.id in byId && byId[t.id] == t)
  }

  lemma IndexedIsFiled(tasks: seq<Task>, specs: seq<TaskSpec>, byName: map<string, Task>, byId: map<string, Task>)
    requires |specs| == |tasks| && Indexed(tasks, specs, |tasks|, byName, byId)
    requires forall i | 0 <= i < |tasks| :: tasks[i].id == specs[i].id && tasks[i].name == specs[i].name
    ensures Filed(tasks, byId)
    ensures forall n | n in byName :: byName[n] in tasks && byName[n].name == n
    ensures forall d :: d in byName <==> Named(specs, d)
  {
    forall k | k in byId
      ensures byId[k] in tasks && byId[k].id == k
    {
      assert IdentifiedBelow(specs, |tasks|, k);
    }
    forall n | n in byName
      ensures byName[n] in tasks && byName[n].name == n
    {
      assert NamedBelow(specs, |tasks|, n);
    }
    forall d
      ensures d in byName <==> Named(specs, d)
    {
      ResolvedNames(tasks, specs, byName, byId, d);
    }
  }

  lemma AllResolved(tasks: seq<Task>, specs: seq<TaskSpec>, byName: map<string, Task>, byId: map<string, Task>)
    requires |specs| == |tasks| && Indexed(tasks, specs, |tasks|, byName, byId)
    requires forall i | 0 <= i < |tasks| :: tasks[i].dependsOn == specs[i].dependsOn
    requires forall n | n in byName :: byName[n] in tasks
    ensures Resolved(specs) <==> forall n, d | n in byName && d in byName[n].dependsOn :: d in byName
  {
    forall d
      ensures d in byName <==> Named(specs, d)
    {
      ResolvedNames(tasks, specs, byName, byId, d);
    }
    forall n, d | Resolved(specs) && n in byName && d in byName[n].dependsOn
      ensures d in byName
    {
      var i :| 0 <= i < |tasks| && tasks[i] == byName[n];
      assert specs[i] in specs;
    }
    if forall n, d | n in byName && d in byName[n].dependsOn :: d in byName {
      forall s, d | s in specs && d in s.dependsOn
        ensures Named(specs, d)
      {
        var i :| 0 <= i < |specs| && specs[i] == s;
        assert byName[specs[i].name] == tasks[i];
      }
    }
  }

  lemma SpecOfTask(tasks: seq<Task>, specs: seq<TaskSpec>, t: Task) returns (i: nat)
    requires |specs| == |tasks| && t in tasks
    ensures i < |tasks| && tasks[i] == t && specs[i] in specs
  {
    i :| 0 <= i < |tasks| && tasks[i] == t;
  }

  method ResolveTasks(tasks: seq<Task>, ghost specs: seq<TaskSpec>, byName: map<string, Task>, ghost byId: map<string,
                      Task>)
    returns (error: Option<SubmitError>)
    requires |specs| == |tasks| && DistinctNames(specs) && DistinctIds(specs)
    requires Indexed(tasks, specs, |tasks|, byName, byId)
    requires forall i | 0 <= i < |tasks| :: specs[i] == TaskSpec(tasks[i].name, tasks[i].id, tasks[i].dependsOn)
    modifies (set t | t in tasks)`dependsOn
    ensures error.None? <==> Resolved(specs)
    ensures error.Some? ==> RightError(specs, error.value)
    ensures error.None? ==> Translated(specs, GraphOf(byId))
  {
    IndexedIsFiled(tasks, specs, byName, byId);
    AllResolved(tasks, specs, byName, byId);
    var missing := ResolveDependencies(byName);
    if missing.Some? {
      ghost var n :| n in byName && missing.value in old(byName[n].dependsOn);
      ghost var i := SpecOfTask(tasks, specs, byName[n]);
      return Some(InvalidDependency(missing.value));
    }
    forall i | 0 <= i < |tasks|
      ensures (forall d | d in specs[i].dependsOn :: d in byName)
              && tasks[i].dependsOn == IdsOf(byName, specs[i].dependsOn)
    {
      assert byName[specs[i].name] == tasks[i];
    }
    IndexedIsTranslated(tasks, specs, byName, byId);
    return None;
  }

  /** Resolves the names of indexed tasks to IDs and looks for a cycle. */
  method LinkTasks(tasks: seq<Task>, ghost specs: seq<TaskSpec>, byName: map<string, Task>, byId: map<string, Task>)
    returns (error: Option<SubmitError>)
    requires |specs| == |tasks| && DistinctNames(specs) && DistinctIds(specs)
    requires Indexed(tasks, specs, |tasks|, byName, byId)
    requires forall i | 0 <= i < |tasks| :: specs[i] == TaskSpec(tasks[i].name, tasks[i].id, tasks[i].dependsOn)
    modifies (set t | t in tasks)`dependsOn
    ensures error.None? <==> Acceptable(specs)
    ensures error.Some? ==> RightError(specs, error.value)
    ensures error.None? ==> Translated(specs, GraphOf(byId)) && Closed(GraphOf(byId)) && Acyclic(GraphOf(byId))
  {
    error := ResolveTasks(tasks, specs, byName, byId);
    if error.Some? {
      return error;
    }
    TranslatedIsClosed(specs, GraphOf(byId));
    TranslationKeepsCycles(specs, GraphOf(byId));
    var bad := ValidateTasksCycle(byId);
    if bad.Some? {
      assert bad.value in GraphOf(byId);
      return Some(CycleDetected(bad.value));
    }
    return None;
  }

  /** Everything that can go wrong with a request happens here. */
  method IndexAndLink(tasks: seq<Task>, generated: seq<string>)
      returns (error: Option<SubmitError>, byId: map<string, Task>)
    requires |generated| == |tasks|
    requires forall i, j | 0 <= i < j < |tasks| :: tasks[i] != tasks[j]
    modifies (set t | t in tasks)`id, (set t | t in tasks)`dependsOn
    ensures error.None? <==> Acceptable(old(SpecsOf(tasks, generated)))
    ensures error.Some? ==> RightError(old(SpecsOf(tasks, generated)), error.value)
    ensures error.None? ==> Filed(tasks, byId) && LinkedRight(tasks, old(SpecsOf(tasks, generated)), byId)
  {
    ghost var specs := SpecsOf(tasks, generated);
    var byName;
    error, byName, byId := IndexTasks(tasks, generated);
    if error.None? {
      IndexedIsFiled(tasks, specs, byName, byId);
      error := LinkTasks(tasks, specs, byName, byId);
      assert error.None? ==> LinkedRight(tasks, specs, byId);
    }
  }

  /** One task per entry of the request, filed under its ID, with the request's own edges and no cycle. */
  ghost predicate LinkedRight(tasks: seq<Task>, specs: seq<TaskSpec>, byId: map<string, Task>)
    requires |specs| == |tasks|
    reads byId.Values
  {
    && (forall i | 0 <= i < |tasks| :: specs[i].id in byId && byId[specs[i].id] == tasks[i])
    && Translated(specs, GraphOf(byId))
    && Closed(GraphOf(byId)) && Acyclic(GraphOf(byId))
  }

  lemma LinkedIds(tasks: seq<Task>, specs: seq<TaskSpec>, byId: map<string, Task>)
    requires |specs| == |tasks| && Filed(tasks, byId) && LinkedRight(tasks, specs, byId)
    ensures forall i | 0 <= i < |tasks| :: tasks[i].id == specs[i].id
  {
  }

  /** A fresh workflow made of the linked tasks. */
  ghost predicate BuiltRight(tasks: seq<Task>, specs: seq<TaskSpec>, w: Workflow, workflowId: string)
    requires |specs| == |tasks|
    reads w, w.tasks.Values
  {
    && w.id == workflowId && w.status.WorkflowPending? && w.Valid()
    && LinkedRight(tasks, specs, w.tasks)
  }

  /** Files the request's tasks as a workflow, or says what is wrong with the request. */
  method NewWorkflow(tasks: seq<Task>, generated: seq<string>, workflowId: string) returns (r: BuildResult)
    requires |generated| == |tasks|
    requires forall i, j | 0 <= i < j < |tasks| :: tasks[i] != tasks[j]
    modifies (set t | t in tasks)`id, (set t | t in tasks)`dependsOn,
             (set t | t in tasks)`workflowId, (set t | t in tasks)`timeout, (set t | t in tasks)`retryBackoff
    ensures r.Built? <==> Acceptable(old(SpecsOf(tasks, generated)))
    ensures r.Rejected? ==> RightError(old(SpecsOf(tasks, generated)), r.error)
    ensures r.Built? ==> fresh(r.workflow) && BuiltRight(tasks, old(SpecsOf(tasks, generated)), r.workflow, workflowId)
    ensures r.Built? ==> forall i | 0 <= i < |tasks| ::
                tasks[i].id == if old(tasks[i].id) == "" then generated[i] else old(tasks[i].id)
    ensures r.Built? ==> forall t | t in tasks ::
                && t.timeout == (if old(t.timeout) == 0 then 30_000_000_000 else old(t.timeout))
                && t.retryBackoff == (if old(t.retryBackoff) == 0 then 200_000_000 else old(t.retryBackoff))
  {
    var error, byId := IndexAndLink(tasks, generated);
    if error.Some? {
      return Rejected(error.value);
    }
    LinkedIds(tasks, old(SpecsOf(tasks, generated)), byId);
    StampTasks(tasks, byId, workflowId);
    var workflow := new Workflow(workflowId, byId);
    return Built(workflow);
  }

  /** A built workflow is what the engine expects to be handed. */
  lemma BuiltIsFresh(tasks: seq<Task>, specs: seq<TaskSpec>, w: Workflow, workflowId: string)
    requires |specs| == |tasks| && BuiltRight(tasks, specs, w, workflowId)
    requires forall k | k in w.tasks ::
               w.tasks[k].status.TaskPending? && w.tasks[k].assignedTo == "" && w.tasks[k].result.None?
    ensures Fresh(w.State())
  {
    assert Edges(w.State().tasks) == GraphOf(w.tasks);
  }

  /** Ties every task to its workflow and fills in the defaults. */
  method StampTasks(ghost tasks: seq<Task>, byId: map<string, Task>, workflowId: string)
    requires Filed(tasks, byId)
    modifies (set t | t in tasks)`workflowId, (set t | t in tasks)`timeout, (set t | t in tasks)`retryBackoff
    ensures Filed(tasks, byId) && GraphOf(byId) == old(GraphOf(byId))
    ensures forall t | t in tasks ::
              && t.workflowId == workflowId
              && t.timeout == (if old(t.timeout) == 0 then 30_000_000_000 else old(t.timeout))
              && t.retryBackoff == (if old(t.retryBackoff) == 0 then 200_000_000 else old(t.retryBackoff))
  {
    var left := byId.Keys;
    while left != {}
      invariant left <= byId.Keys
      invariant forall k | k in left ::
                  byId[k].timeout == old(byId[k].timeout) && byId[k].retryBackoff == old(byId[k].retryBackoff)
      invariant forall k | k in byId && k !in left ::
                  && byId[k].workflowId == workflowId
                  && byId[k].timeout == (if old(byId[k].timeout) == 0 then DEFAULT_TIMEOUT else old(byId[k].timeout))
                  && byId[k].retryBackoff == (if old(byId[k].retryBackoff) == 0 then DEFAULT_BACKOFF
                                              else old(byId[k].retryBackoff))
    {
      var k :| k in left;
      byId[k].workflowId := workflowId;
      if byId[k].timeout == 0 {
        byId[k].timeout := DEFAULT_TIMEOUT;
      }
      if byId[k].retryBackoff == 0 {
        byId[k].retryBackoff := DEFAULT_BACKOFF;
      }
      left := left - {k};
    }
    assert forall t | t in tasks :: t.id in byId && byId[t.id] == t;
  }
}
