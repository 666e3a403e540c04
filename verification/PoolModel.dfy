/** A worker node as a state machine: dispatches register a task's key, the pool runs its copies, failed ones wait in
    a heap for their retry, and everything interleaves. */
module PoolModel {
  import opened Options
  import opened Sequences

  /** One copy of a task, due for (another) attempt at `due` on the worker's clock. */
  datatype Copy = Copy(id: string, due: int)

  /** How far a worker goroutine has come with a copy. */
  datatype Stage = Taken | Running(handle: nat) | Returned(ok: bool) | Failed | Delayed

  datatype Attempt = Attempt(copy: Copy, stage: Stage)

  /** The queues of the pool: the channel, the heap (in any order) and the linked queue. */
  datatype Pool = Pool(chan: seq<Copy>, retryQ: seq<Copy>, jobsQ: seq<Copy>)

  type Keys = map<string, Option<nat>>

  /** A cancellation that has read the handle under the lock and has not called it yet. */
  datatype Request = Request(id: string, handle: nat)

  /** `adding` and `refused` are dispatches under way after their key was taken, `busy` the copies in the hands of the
      workers, `seen`, `released` and `sending` what the two loops hold between their locked steps, `cancelling` the
      cancellations under way. `orphans` remembers dispatches that found no executor and `stopped` the handles that were
      called; nobody reads them. */
  datatype Node = Node(
    capacity: nat, workerCount: nat, keys: Keys, adding: seq<string>, refused: seq<string>, pool: Pool,
    busy: seq<Attempt>, seen: Option<int>, released: Option<Copy>, sending: Option<Copy>, cancelling: seq<Request>,
    nextHandle: nat, now: int, orphans: set<string>, stopped: set<nat>)

  datatype Action =
    | Add(id: string)
    | NoExecutor(i: nat)
    | Submit(i: nat)
    | Refuse(i: nat)
    | Remove(i: nat)
    | Take
    | SetCancel(i: nat)
    | Return(i: nat, ok: bool)
    | OnDone(i: nat)
    | Delay(i: nat, wait: int)
    | Enqueue(i: nat)
    | Top
    | GiveUp
    | Release
    | QueueJob
    | NextJob
    | SendJob
    | ReadHandle(id: string)
    | CallHandle(i: nat)
    | Tick(delta: nat)

  // ---------------------------------------------------------------- single locked steps

  /** Takes a key, unless it is taken. */
  function AddKey(keys: Keys, id: string): Keys {
    if id in keys then keys else keys[id := None]
  }

  function RemoveKey(keys: Keys, id: string): Keys {
    keys - {id}
  }

  /** The handle a cancellation would call. */
  function HandleOf(keys: Keys, id: string): Option<nat> {
    if id in keys then keys[id] else None
  }

  predicate Sent(p: Pool, capacity: nat, c: Copy, p': Pool) {
    |p.chan| < capacity && p' == p.(chan := p.chan + [c])
  }

  predicate Received(p: Pool, c: Copy, p': Pool) {
    p.chan != [] && c == p.chan[0] && p' == p.(chan := p.chan[1..])
  }

  ghost predicate Enqueued(p: Pool, c: Copy, p': Pool) {
    multiset(p'.retryQ) == multiset(p.retryQ) + multiset{c} && p'.chan == p.chan && p'.jobsQ == p.jobsQ
  }

  /** A copy that is due first leaves the heap. */
  ghost predicate DequeuedFirst(p: Pool, c: Copy, p': Pool) {
    && multiset(p.retryQ) == multiset(p'.retryQ) + multiset{c}
    && (forall x | x in p.retryQ :: c.due <= x.due)
    && p'.chan == p.chan && p'.jobsQ == p.jobsQ
  }

  /** `t` is the time the heap's top is due. */
  ghost predicate TopDue(p: Pool, t: int) {
    (exists c :: c in p.retryQ && c.due == t) && forall c | c in p.retryQ :: t <= c.due
  }

  predicate JobQueued(p: Pool, c: Copy, p': Pool) {
    p' == p.(jobsQ := p.jobsQ + [c])
  }

  predicate JobDequeued(p: Pool, c: Copy, p': Pool) {
    p.jobsQ != [] && c == p.jobsQ[0] && p' == p.(jobsQ := p.jobsQ[1..])
  }

  predicate At(s: Node, i: nat, stage: Stage) {
    i < |s.busy| && s.busy[i].stage == stage
  }

  // ---------------------------------------------------------------- steps

  ghost predicate Init(s: Node) {
    && s == Node(s.capacity, s.workerCount, map[], [], [], Pool([], [], []), [], None, None, None, [], s.nextHandle,
                 s.now,
                 {}, {})
    && s.now >= 0
  }

  ghost predicate Next(s: Node, a: Action, s': Node) {
    match a
    case Add(id) => s' == s.(keys := AddKey(s.keys, id), adding := if id in s.keys then s.adding else s.adding + [id])
    case NoExecutor(i) => i < |s.adding| && s' == s.(adding := Without(s.adding, i),
                                                     orphans := s.orphans + {s.adding[i]})
    case Submit(i) =>
      && i < |s.adding| && Sent(s.pool, s.capacity, Copy(s.adding[i], 0), s'.pool)
      && s' == s.(adding := Without(s.adding, i), pool := s'.pool)
    case Refuse(i) =>
      && i < |s.adding| && |s.pool.chan| >= s.capacity
      && s' == s.(adding := Without(s.adding, i), refused := s.refused + [s.adding[i]])
    case Remove(i) => i < |s.refused| && s' == s.(refused := Without(s.refused, i),
                                                  keys := RemoveKey(s.keys, s.refused[i]))
    case Take =>
      && |s.busy| < s.workerCount && s.pool.chan != [] && Received(s.pool, s.pool.chan[0], s'.pool)
      && s' == s.(pool := s'.pool, busy := s.busy + [Attempt(s.pool.chan[0], Taken)])
    case SetCancel(i) =>
      && At(s, i, Taken)
      && s' == s.(keys := s.keys[s.busy[i].copy.id := Some(s.nextHandle)], nextHandle := s.nextHandle + 1,
                  busy := s.busy[i := s.busy[i].(stage := Running(s.nextHandle))])
    case Return(i, ok) =>
      && i < |s.busy| && s.busy[i].stage.Running?
      && s' == s.(busy := s.busy[i := s.busy[i].(stage := Returned(ok))])
    case OnDone(i) =>
      && i < |s.busy| && s.busy[i].stage.Returned?
      && if s.busy[i].stage.ok then s' == s.(keys := RemoveKey(s.keys, s.busy[i].copy.id), busy := Without(s.busy, i))
         else s' == s.(busy := s.busy[i := s.busy[i].(stage := Failed)])
    case Delay(i, wait) =>
      && At(s, i, Failed)
      && s' == s.(busy := s.busy[i := Attempt(s.busy[i].copy.(due := s.now + wait), Delayed)])
    case Enqueue(i) =>
      && At(s, i, Delayed) && Enqueued(s.pool, s.busy[i].copy, s'.pool)
      && s' == s.(pool := s'.pool, busy := Without(s.busy, i))
    case Top =>
      && s.seen.None? && s.released.None? && s'.seen.Some? && TopDue(s.pool, s'.seen.value)
      && s' == s.(seen := s'.seen)
    case GiveUp => s.seen.Some? && s' == s.(seen := None)
    case Release =>
      && s.seen.Some? && s.seen.value <= s.now && s'.released.Some? && DequeuedFirst(s.pool, s'.released.value, s'.pool)
      && s' == s.(seen := None, released := s'.released, pool := s'.pool)
    case QueueJob =>
      && s.released.Some? && JobQueued(s.pool, s.released.value, s'.pool)
      && s' == s.(released := None, pool := s'.pool)
    case NextJob =>
      && s.sending.None? && s'.sending.Some? && JobDequeued(s.pool, s'.sending.value, s'.pool)
      && s' == s.(sending := s'.sending, pool := s'.pool)
    case SendJob =>
      && s.sending.Some? && Sent(s.pool, s.capacity, s.sending.value, s'.pool)
      && s' == s.(sending := None, pool := s'.pool)
    case ReadHandle(id) =>
      s' == s.(cancelling := s.cancelling + if HandleOf(s.keys, id).Some? then [Request(id, HandleOf(s.keys, id).value)]
                                            else [])
    case CallHandle(i) =>
      && i < |s.cancelling|
      && s' == s.(cancelling := Without(s.cancelling, i), stopped := s.stopped + {s.cancelling[i].handle})
    case Tick(delta) => s' == s.(now := s.now + delta)
  }

  /** The steps of a dispatch. */
  predicate InDispatch(a: Action) {
    a.Add? || a.NoExecutor? || a.Submit? || a.Refuse? || a.Remove?
  }

  /** The steps of a worker goroutine. */
  predicate InAttempt(a: Action) {
    a.Take? || a.SetCancel? || a.Return? || a.OnDone? || a.Delay? || a.Enqueue?
  }

  // ---------------------------------------------------------------- counting copies

  function Ids(copies: seq<Copy>): seq<string> {
    seq(|copies|, i requires 0 <= i < |copies| => copies[i].id)
  }

  function BusyIds(busy: seq<Attempt>): seq<string> {
    seq(|busy|, i requires 0 <= i < |busy| => busy[i].copy.id)
  }

  function Held(c: Option<Copy>): multiset<string> {
    if c.Some? then multiset{c.value.id} else multiset{}
  }

  function PoolIds(p: Pool): multiset<string> {
    multiset(Ids(p.chan)) + multiset(Ids(p.retryQ)) + multiset(Ids(p.jobsQ))
  }

  /** How often each task is on this node: dispatches under way and copies, wherever they are. */
  function Present(s: Node): multiset<string> {
    multiset(s.adding) + multiset(s.refused) + PoolIds(s.pool) + multiset(BusyIds(s.busy)) + Held(s.released)
        + Held(s.sending)
  }

  lemma IdsAppend(a: seq<Copy>, c: Copy)
    ensures Ids(a + [c]) == Ids(a) + [c.id]
  {
  }

  lemma IdsHead(a: seq<Copy>)
    requires a != []
    ensures multiset(Ids(a)) == multiset{a[0].id} + multiset(Ids(a[1..]))
  {
    assert Ids(a) == [a[0].id] + Ids(a[1..]);
  }

  lemma BusyWithout(busy: seq<Attempt>, i: nat)
    requires i < |busy|
    ensures multiset(BusyIds(busy)) == multiset(BusyIds(Without(busy, i))) + multiset{busy[i].copy.id}
  {
    WithoutOne(BusyIds(busy), i);
    assert BusyIds(Without(busy, i)) == Without(BusyIds(busy), i);
  }

  lemma BusyUpdate(busy: seq<Attempt>, i: nat, a: Attempt)
    requires i < |busy| && a.copy.id == busy[i].copy.id
    ensures BusyIds(busy[i := a]) == BusyIds(busy)
  {
  }

  /** The order of the heap does not matter for counting. */
  lemma {:induction false} IdsUnordered(a: seq<Copy>, b: seq<Copy>)
    requires multiset(a) == multiset(b)
    ensures multiset(Ids(a)) == multiset(Ids(b))
  {
    if a == [] {
      assert |multiset(b)| == |b| == 0;
    } else {
      assert a[0] in multiset(b);
      var i :| 0 <= i < |b| && b[i] == a[0];
      WithoutOne(b, i);
      HeadAndTail(a);
      SameWithoutOne(a[1..], Without(b, i), a[0]);
      IdsUnordered(a[1..], Without(b, i));
      IdsHead(a);
      WithoutOne(Ids(b), i);
      assert Ids(Without(b, i)) == Without(Ids(b), i);
    }
  }

  lemma IdsGrow(a: seq<Copy>, b: seq<Copy>, c: Copy)
    requires multiset(b) == multiset(a) + multiset{c}
    ensures multiset(Ids(b)) == multiset(Ids(a)) + multiset{c.id}
  {
    IdsUnordered(b, a + [c]);
    IdsAppend(a, c);
  }

  /** The task that a step brings to the node, and the one it takes away; other steps only move copies about. */
  function Brings(s: Node, a: Action): multiset<string> {
    match a
    case Add(id) => if id in s.keys then multiset{} else multiset{id}
    case _ => multiset{}
  }

  function TakesAway(s: Node, a: Action): multiset<string> {
    match a
    case NoExecutor(i) => if i < |s.adding| then multiset{s.adding[i]} else multiset{}
    case Remove(i) => if i < |s.refused| then multiset{s.refused[i]} else multiset{}
    case OnDone(i) => if At(s, i, Returned(true)) then multiset{s.busy[i].copy.id} else multiset{}
    case _ => multiset{}
  }

  ghost predicate Accounted(s: Node, a: Action, s': Node) {
    Present(s') + TakesAway(s, a) == Present(s) + Brings(s, a)
  }

  lemma AddIsAccounted(s: Node, id: string, s': Node)
    requires Next(s, Add(id), s')
    ensures Accounted(s, Add(id), s')
  {
  }

  lemma SubmitIsAccounted(s: Node, i: nat, s': Node)
    requires Next(s, Submit(i), s')
    ensures Accounted(s, Submit(i), s')
  {
    WithoutOne(s.adding, i);
    IdsAppend(s.pool.chan, Copy(s.adding[i], 0));
  }

  lemma NoExecutorIsAccounted(s: Node, i: nat, s': Node)
    requires Next(s, NoExecutor(i), s')
    ensures Accounted(s, NoExecutor(i), s')
  {
    WithoutOne(s.adding, i);
  }

  lemma RefuseIsAccounted(s: Node, i: nat, s': Node)
    requires Next(s, Refuse(i), s')
    ensures Accounted(s, Refuse(i), s')
  {
    WithoutOne(s.adding, i);
  }

  lemma RemoveIsAccounted(s: Node, i: nat, s': Node)
    requires Next(s, Remove(i), s')
    ensures Accounted(s, Remove(i), s')
  {
    WithoutOne(s.refused, i);
  }

  lemma TakeIsAccounted(s: Node, s': Node)
    requires Next(s, Take, s')
    ensures Accounted(s, Take, s')
  {
    IdsHead(s.pool.chan);
    BusyAppend(s.busy, Attempt(s.pool.chan[0], Taken));
  }

  lemma BusyAppend(busy: seq<Attempt>, a: Attempt)
    ensures multiset(BusyIds(busy + [a])) == multiset(BusyIds(busy)) + multiset{a.copy.id}
  {
    assert BusyIds(busy + [a]) == BusyIds(busy) + [a.copy.id];
  }

  /** An attempt that only changes its stage or its due time. */
  lemma StageIsAccounted(s: Node, a: Action, i: nat, x: Attempt, s': Node)
    requires i < |s.busy| && x.copy.id == s.busy[i].copy.id
    requires s' == s.(keys := s'.keys, nextHandle := s'.nextHandle, busy := s.busy[i := x])
    requires Brings(s, a) == TakesAway(s, a) == multiset{}
    ensures Accounted(s, a, s')
  {
    BusyUpdate(s.busy, i, x);
  }

  lemma DoneIsAccounted(s: Node, i: nat, s': Node)
    requires Next(s, OnDone(i), s') && At(s, i, Returned(true))
    ensures Accounted(s, OnDone(i), s')
  {
    BusyWithout(s.busy, i);
  }

  lemma EnqueueIsAccounted(s: Node, i: nat, s': Node)
    requires Next(s, Enqueue(i), s')
    ensures Accounted(s, Enqueue(i), s')
  {
    IdsGrow(s.pool.retryQ, s'.pool.retryQ, s.busy[i].copy);
    BusyWithout(s.busy, i);
  }

  lemma ReleaseIsAccounted(s: Node, s': Node)
    requires Next(s, Release, s') && s.released.None?
    ensures Accounted(s, Release, s')
  {
    IdsGrow(s'.pool.retryQ, s.pool.retryQ, s'.released.value);
  }

  lemma QueueJobIsAccounted(s: Node, s': Node)
    requires Next(s, QueueJob, s')
    ensures Accounted(s, QueueJob, s')
  {
    IdsAppend(s.pool.jobsQ, s.released.value);
  }

  lemma NextJobIsAccounted(s: Node, s': Node)
    requires Next(s, NextJob, s')
    ensures Accounted(s, NextJob, s')
  {
    IdsHead(s.pool.jobsQ);
  }

  lemma SendJobIsAccounted(s: Node, s': Node)
    requires Next(s, SendJob, s')
    ensures Accounted(s, SendJob, s')
  {
    IdsAppend(s.pool.chan, s.sending.value);
  }

  lemma DispatchIsAccounted(s: Node, a: Action, s': Node)
    requires Next(s, a, s') && InDispatch(a)
    ensures Accounted(s, a, s')
  {
    match a
    case Add(id) => AddIsAccounted(s, id, s');
    case NoExecutor(i) => NoExecutorIsAccounted(s, i, s');
    case Submit(i) => SubmitIsAccounted(s, i, s');
    case Refuse(i) => RefuseIsAccounted(s, i, s');
    case Remove(i) => RemoveIsAccounted(s, i, s');
  }

  lemma OnDoneIsAccounted(s: Node, i: nat, s': Node)
    requires Next(s, OnDone(i), s')
    ensures Accounted(s, OnDone(i), s')
  {
    if At(s, i, Returned(true)) {
      DoneIsAccounted(s, i, s');
    } else {
      StageIsAccounted(s, OnDone(i), i, s'.busy[i], s');
    }
  }

  lemma AttemptIsAccounted(s: Node, a: Action, s': Node)
    requires Next(s, a, s') && InAttempt(a)
    ensures Accounted(s, a, s')
  {
    match a
    case Take => TakeIsAccounted(s, s');
    case SetCancel(i) => StageIsAccounted(s, a, i, s'.busy[i], s');
    case Return(i, _) => StageIsAccounted(s, a, i, s'.busy[i], s');
    case OnDone(i) => OnDoneIsAccounted(s, i, s');
    case Delay(i, _) => StageIsAccounted(s, a, i, s'.busy[i], s');
    case Enqueue(i) => EnqueueIsAccounted(s, i, s');
  }

  lemma LoopsAreAccounted(s: Node, a: Action, s': Node)
    requires LoopInOrder(s) && Next(s, a, s') && !InDispatch(a) && !InAttempt(a)
    ensures Accounted(s, a, s')
  {
    match a
    case Release => ReleaseIsAccounted(s, s');
    case QueueJob => QueueJobIsAccounted(s, s');
    case NextJob => NextJobIsAccounted(s, s');
    case SendJob => SendJobIsAccounted(s, s');
    case _ =>
  }

  /** A step adds a task only if its key is free, and removes only one whose key it frees or whose dispatch found no
      executor; nothing else creates, loses or doubles a copy. */
  lemma {:induction false} StepIsAccounted(s: Node, a: Action, s': Node)
    requires LoopInOrder(s) && Next(s, a, s')
    ensures Accounted(s, a, s')
  {
    if InDispatch(a) {
      DispatchIsAccounted(s, a, s');
    } else if InAttempt(a) {
      AttemptIsAccounted(s, a, s');
    } else {
      LoopsAreAccounted(s, a, s');
    }
  }

  // ---------------------------------------------------------------- at most one copy

  /** No task is present twice, and a key is taken exactly while its task is present or after a dispatch of it found
      no executor. */
  ghost predicate UniqueKeys(present: multiset<string>, keys: Keys, orphans: set<string>) {
    && (forall id :: present[id] <= 1)
    && (forall id :: id in keys <==> id in present || id in orphans)
    && (forall id | id in orphans :: id !in present)
  }

  ghost predicate Unique(s: Node) {
    UniqueKeys(Present(s), s.keys, s.orphans)
  }

  /** The retry loop looks at the heap only with empty hands. */
  predicate LoopInOrder(s: Node) {
    s.released.Some? ==> s.seen.None?
  }

  /** A running attempt can be cancelled: its key holds its own handle. */
  ghost predicate Cancellable(keys: Keys, busy: seq<Attempt>) {
    forall i | 0 <= i < |busy| && busy[i].stage.Running? ::
        HandleOf(keys, busy[i].copy.id) == Some(busy[i].stage.handle)
  }

  lemma BusyIsPresent(s: Node, i: nat)
    requires i < |s.busy|
    ensures s.busy[i].copy.id in Present(s)
  {
    assert BusyIds(s.busy)[i] in multiset(BusyIds(s.busy));
  }

  lemma KeyAdded(present: multiset<string>, keys: Keys, orphans: set<string>, id: string)
    requires UniqueKeys(present, keys, orphans)
    ensures UniqueKeys(if id in keys then present else present + multiset{id}, AddKey(keys, id), orphans)
  {
  }

  lemma KeyRemoved(present: multiset<string>, keys: Keys, orphans: set<string>, id: string)
    requires UniqueKeys(present + multiset{id}, keys, orphans)
    ensures UniqueKeys(present, RemoveKey(keys, id), orphans)
  {
    assert id in present + multiset{id};
    assert forall x | x != id :: x in present + multiset{id} <==> x in present;
    assert (present + multiset{id})[id] == present[id] + 1;
  }

  lemma KeyOrphaned(present: multiset<string>, keys: Keys, orphans: set<string>, id: string)
    requires UniqueKeys(present + multiset{id}, keys, orphans)
    ensures UniqueKeys(present, keys, orphans + {id})
  {
    assert id in present + multiset{id};
    assert forall x | x != id :: x in present + multiset{id} <==> x in present;
    assert (present + multiset{id})[id] == present[id] + 1;
  }

  lemma KeyBound(present: multiset<string>, keys: Keys, orphans: set<string>, id: string, handle: nat)
    requires UniqueKeys(present, keys, orphans) && id in present
    ensures UniqueKeys(present, keys[id := Some(handle)], orphans)
  {
  }

  lemma UniqueAfterAdd(s: Node, id: string, s': Node)
    requires Unique(s) && Next(s, Add(id), s')
    ensures Unique(s')
  {
    AddIsAccounted(s, id, s');
    KeyAdded(Present(s), s.keys, s.orphans, id);
  }

  lemma UniqueAfterNoExecutor(s: Node, i: nat, s': Node)
    requires Unique(s) && Next(s, NoExecutor(i), s')
    ensures Unique(s')
  {
    NoExecutorIsAccounted(s, i, s');
    KeyOrphaned(Present(s'), s.keys, s.orphans, s.adding[i]);
  }

  lemma UniqueAfterRemove(s: Node, i: nat, s': Node)
    requires Unique(s) && Next(s, Remove(i), s')
    ensures Unique(s')
  {
    RemoveIsAccounted(s, i, s');
    KeyRemoved(Present(s'), s.keys, s.orphans, s.refused[i]);
  }

  lemma UniqueAfterDone(s: Node, i: nat, s': Node)
    requires Unique(s) && Next(s, OnDone(i), s') && At(s, i, Returned(true))
    ensures Unique(s')
  {
    DoneIsAccounted(s, i, s');
    KeyRemoved(Present(s'), s.keys, s.orphans, s.busy[i].copy.id);
  }

  lemma UniqueAfterSetCancel(s: Node, i: nat, s': Node)
    requires Unique(s) && Next(s, SetCancel(i), s')
    ensures Unique(s')
  {
    BusyUpdate(s.busy, i, s'.busy[i]);
    assert Present(s') == Present(s);
    BusyIsPresent(s, i);
    KeyBound(Present(s), s.keys, s.orphans, s.busy[i].copy.id, s.nextHandle);
  }

  predicate LeavesKeys(s: Node, a: Action) {
    !a.Add? && !a.NoExecutor? && !a.Remove? && !a.SetCancel? && !(a.OnDone? && At(s, a.i, Returned(true)))
  }

  lemma NothingAdded(m: multiset<string>, m': multiset<string>)
    requires m' + multiset{} == m + multiset{}
    ensures m' == m
  {
    assert m' + multiset{} == m' && m + multiset{} == m;
  }

  lemma DispatchLeavesKeys(s: Node, a: Action, s': Node)
    requires Next(s, a, s') && InDispatch(a) && LeavesKeys(s, a)
    ensures s'.keys == s.keys && s'.orphans == s.orphans
  {
  }

  lemma AttemptLeavesKeys(s: Node, a: Action, s': Node)
    requires Next(s, a, s') && InAttempt(a) && LeavesKeys(s, a)
    ensures s'.keys == s.keys && s'.orphans == s.orphans
  {
  }

  lemma LoopsLeaveKeys(s: Node, a: Action, s': Node)
    requires Next(s, a, s') && !InDispatch(a) && !InAttempt(a)
    ensures s'.keys == s.keys && s'.orphans == s.orphans && s'.busy == s.busy && s'.nextHandle == s.nextHandle
  {
  }

  lemma UniqueAfterOther(s: Node, a: Action, s': Node)
    requires Unique(s) && LeavesKeys(s, a) && Accounted(s, a, s')
    requires s'.keys == s.keys && s'.orphans == s.orphans
    ensures Unique(s')
  {
    assert Brings(s, a) == multiset{} && TakesAway(s, a) == multiset{};
    NothingAdded(Present(s), Present(s'));
  }

  lemma OtherStepKeepsUnique(s: Node, a: Action, s': Node)
    requires Unique(s) && LoopInOrder(s) && Next(s, a, s') && LeavesKeys(s, a)
    ensures Unique(s')
  {
    StepIsAccounted(s, a, s');
    if InDispatch(a) {
      DispatchLeavesKeys(s, a, s');
    } else if InAttempt(a) {
      AttemptLeavesKeys(s, a, s');
    } else {
      LoopsLeaveKeys(s, a, s');
    }
    UniqueAfterOther(s, a, s');
  }

  lemma DispatchKeepsUnique(s: Node, a: Action, s': Node)
    requires Unique(s) && Next(s, a, s') && InDispatch(a) && !LeavesKeys(s, a)
    ensures Unique(s')
  {
    match a
    case Add(id) => UniqueAfterAdd(s, id, s');
    case NoExecutor(i) => UniqueAfterNoExecutor(s, i, s');
    case Remove(i) => UniqueAfterRemove(s, i, s');
  }

  lemma AttemptKeepsUnique(s: Node, a: Action, s': Node)
    requires Unique(s) && Next(s, a, s') && InAttempt(a) && !LeavesKeys(s, a)
    ensures Unique(s')
  {
    match a
    case SetCancel(i) => UniqueAfterSetCancel(s, i, s');
    case OnDone(i) => UniqueAfterDone(s, i, s');
  }

  lemma {:induction false} StepKeepsUnique(s: Node, a: Action, s': Node)
    requires Unique(s) && LoopInOrder(s) && Next(s, a, s')
    ensures Unique(s')
  {
    if LeavesKeys(s, a) {
      OtherStepKeepsUnique(s, a, s');
    } else if InDispatch(a) {
      DispatchKeepsUnique(s, a, s');
    } else {
      AttemptKeepsUnique(s, a, s');
    }
  }

  lemma StepKeepsLoopInOrder(s: Node, a: Action, s': Node)
    requires LoopInOrder(s) && Next(s, a, s')
    ensures LoopInOrder(s')
  {
  }

  lemma BusyOnce(s: Node, i: nat, j: nat)
    requires Unique(s) && i < |s.busy| && j < |s.busy| && i != j
    ensures s.busy[i].copy.id != s.busy[j].copy.id
  {
    var ids := BusyIds(s.busy);
    if ids[i] == ids[j] {
      TwiceCounted(ids, if i < j then i else j, if i < j then j else i);
    }
    assert Present(s)[ids[i]] >= multiset(ids)[ids[i]];
  }

  lemma RefusedApart(s: Node, i: nat, j: nat)
    requires Unique(s) && i < |s.refused| && j < |s.busy|
    ensures s.refused[i] != s.busy[j].copy.id
  {
    var ids := BusyIds(s.busy);
    assert s.refused[i] in multiset(s.refused) && ids[j] in multiset(ids);
    assert Present(s)[ids[j]] >= multiset(s.refused)[ids[j]] + multiset(ids)[ids[j]];
  }

  lemma CancellableWithoutKey(keys: Keys, busy: seq<Attempt>, id: string)
    requires Cancellable(keys, busy) && forall j | 0 <= j < |busy| :: busy[j].copy.id != id
    ensures Cancellable(RemoveKey(keys, id), busy)
  {
  }

  lemma CancellableWithout(keys: Keys, busy: seq<Attempt>, i: nat)
    requires i < |busy| && Cancellable(keys, busy)
    ensures Cancellable(keys, Without(busy, i))
  {
    forall j | 0 <= j < |Without(busy, i)| && Without(busy, i)[j].stage.Running?
      ensures HandleOf(keys, Without(busy, i)[j].copy.id) == Some(Without(busy, i)[j].stage.handle)
    {
      assert Without(busy, i)[j] == busy[if j < i then j else j + 1];
    }
  }

  lemma OthersElsewhere(s: Node, i: nat)
    requires Unique(s) && i < |s.busy|
    ensures forall j | 0 <= j < |s.busy| && j != i :: s.busy[j].copy.id != s.busy[i].copy.id
  {
    forall j | 0 <= j < |s.busy| && j != i
      ensures s.busy[j].copy.id != s.busy[i].copy.id
    {
      BusyOnce(s, i, j);
    }
  }

  lemma RemoveKeepsCancellable(s: Node, i: nat, s': Node)
    requires Unique(s) && Cancellable(s.keys, s.busy) && Next(s, Remove(i), s')
    ensures Cancellable(s'.keys, s'.busy)
  {
    forall j | 0 <= j < |s.busy|
      ensures s.refused[i] != s.busy[j].copy.id
    {
      RefusedApart(s, i, j);
    }
    CancellableWithoutKey(s.keys, s.busy, s.refused[i]);
  }

  lemma SetCancelKeepsCancellable(s: Node, i: nat, s': Node)
    requires Unique(s) && Cancellable(s.keys, s.busy) && Next(s, SetCancel(i), s')
    ensures Cancellable(s'.keys, s'.busy)
  {
    OthersElsewhere(s, i);
  }

  lemma DoneKeepsCancellable(s: Node, i: nat, s': Node)
    requires Unique(s) && Cancellable(s.keys, s.busy) && Next(s, OnDone(i), s') && At(s, i, Returned(true))
    ensures Cancellable(s'.keys, s'.busy)
  {
    OthersElsewhere(s, i);
    CancellableWithout(s.keys, s.busy, i);
    forall j | 0 <= j < |s'.busy|
      ensures s'.busy[j].copy.id != s.busy[i].copy.id
    {
      assert s'.busy[j] == s.busy[if j < i then j else j + 1];
    }
    CancellableWithoutKey(s.keys, s'.busy, s.busy[i].copy.id);
  }

  lemma StageKeepsCancellable(keys: Keys, busy: seq<Attempt>, i: nat, a: Attempt)
    requires i < |busy| && Cancellable(keys, busy) && !a.stage.Running?
    ensures Cancellable(keys, busy[i := a])
  {
  }

  lemma OnDoneKeepsCancellable(s: Node, i: nat, s': Node)
    requires Unique(s) && Cancellable(s.keys, s.busy) && Next(s, OnDone(i), s')
    ensures Cancellable(s'.keys, s'.busy)
  {
    if At(s, i, Returned(true)) {
      DoneKeepsCancellable(s, i, s');
    } else {
      StageKeepsCancellable(s.keys, s.busy, i, s'.busy[i]);
    }
  }

  lemma TakeKeepsCancellable(s: Node, s': Node)
    requires Cancellable(s.keys, s.busy) && Next(s, Take, s')
    ensures Cancellable(s'.keys, s'.busy)
  {
  }

  lemma AddKeepsCancellable(keys: Keys, busy: seq<Attempt>, id: string)
    requires Cancellable(keys, busy)
    ensures Cancellable(AddKey(keys, id), busy)
  {
  }

  lemma DispatchKeepsCancellable(s: Node, a: Action, s': Node)
    requires Unique(s) && Cancellable(s.keys, s.busy) && Next(s, a, s') && InDispatch(a)
    ensures Cancellable(s'.keys, s'.busy)
  {
    match a
    case Add(id) => AddKeepsCancellable(s.keys, s.busy, id);
    case Remove(i) => RemoveKeepsCancellable(s, i, s');
    case _ =>
  }

  lemma AttemptKeepsCancellable(s: Node, a: Action, s': Node)
    requires Unique(s) && Cancellable(s.keys, s.busy) && Next(s, a, s') && InAttempt(a)
    ensures Cancellable(s'.keys, s'.busy)
  {
    match a
    case Take => TakeKeepsCancellable(s, s');
    case SetCancel(i) => SetCancelKeepsCancellable(s, i, s');
    case OnDone(i) => OnDoneKeepsCancellable(s, i, s');
    case Return(i, _) => StageKeepsCancellable(s.keys, s.busy, i, s'.busy[i]);
    case Delay(i, _) => StageKeepsCancellable(s.keys, s.busy, i, s'.busy[i]);
    case Enqueue(i) => CancellableWithout(s.keys, s.busy, i);
  }

  lemma {:induction false} StepKeepsCancellable(s: Node, a: Action, s': Node)
    requires Unique(s) && Cancellable(s.keys, s.busy) && Next(s, a, s')
    ensures Cancellable(s'.keys, s'.busy)
  {
    if InDispatch(a) {
      DispatchKeepsCancellable(s, a, s');
    } else if InAttempt(a) {
      AttemptKeepsCancellable(s, a, s');
    } else {
      LoopsLeaveKeys(s, a, s');
    }
  }

  // ---------------------------------------------------------------- no two tasks share a handle

  function Handle(keys: Keys, id: string): int {
    if id in keys && keys[id].Some? then keys[id].value else -1
  }

  /** The handles filed are old ones, and no two keys hold the same. */
  ghost predicate HandlesApart(keys: Keys, nextHandle: nat) {
    && (forall id :: Handle(keys, id) < nextHandle)
    && (forall a, b | a != b && Handle(keys, a) >= 0 :: Handle(keys, a) != Handle(keys, b))
  }

  lemma RemoveKeepsHandles(keys: Keys, id: string, nextHandle: nat)
    requires HandlesApart(keys, nextHandle)
    ensures HandlesApart(RemoveKey(keys, id), nextHandle)
  {
    assert forall x :: Handle(RemoveKey(keys, id), x) == if x == id then -1 else Handle(keys, x);
  }

  lemma AddKeepsHandles(keys: Keys, id: string, nextHandle: nat)
    requires HandlesApart(keys, nextHandle)
    ensures HandlesApart(AddKey(keys, id), nextHandle)
  {
    assert forall x :: Handle(AddKey(keys, id), x) == Handle(keys, x);
  }

  lemma BindKeepsHandles(keys: Keys, id: string, nextHandle: nat)
    requires HandlesApart(keys, nextHandle)
    ensures HandlesApart(keys[id := Some(nextHandle)], nextHandle + 1)
  {
    var keys' := keys[id := Some(nextHandle)];
    assert Handle(keys', id) == nextHandle;
    assert forall x | x != id :: Handle(keys', x) == Handle(keys, x);
  }

  lemma {:induction false} StepKeepsHandles(s: Node, a: Action, s': Node)
    requires HandlesApart(s.keys, s.nextHandle) && Next(s, a, s')
    ensures HandlesApart(s'.keys, s'.nextHandle)
  {
    match a
    case Add(id) => AddKeepsHandles(s.keys, id, s.nextHandle);
    case Remove(i) => RemoveKeepsHandles(s.keys, s.refused[i], s.nextHandle);
    case OnDone(i) => RemoveKeepsHandles(s.keys, s.busy[i].copy.id, s.nextHandle);
    case SetCancel(i) => BindKeepsHandles(s.keys, s.busy[i].copy.id, s.nextHandle);
    case _ =>
  }

  // ---------------------------------------------------------------- whose attempt a handle stops

  predicate RunsTask(busy: seq<Attempt>, id: string) {
    exists j :: 0 <= j < |busy| && busy[j].stage.Running? && busy[j].copy.id == id
  }

  predicate RunsHandle(busy: seq<Attempt>, handle: nat) {
    exists j :: 0 <= j < |busy| && busy[j].stage == Running(handle)
  }

  /** The handle belongs to no other task's attempt. */
  ghost predicate OwnHandle(busy: seq<Attempt>, r: Request) {
    forall j | 0 <= j < |busy| && busy[j].stage == Running(r.handle) :: busy[j].copy.id == r.id
  }

  lemma HandleIsOwn(keys: Keys, nextHandle: nat, busy: seq<Attempt>, id: string)
    requires Cancellable(keys, busy) && HandlesApart(keys, nextHandle)
    ensures RunsTask(busy, id) ==> HandleOf(keys, id).Some? && RunsHandle(busy, HandleOf(keys, id).value)
    ensures HandleOf(keys, id).Some? ==>
              HandleOf(keys, id).value < nextHandle && OwnHandle(busy, Request(id, HandleOf(keys, id).value))
  {
    if j :| 0 <= j < |busy| && busy[j].stage.Running? && busy[j].copy.id == id {
      assert busy[j].stage == Running(HandleOf(keys, id).value);
    }
    assert Handle(keys, id) < nextHandle;
    forall j | HandleOf(keys, id).Some? && 0 <= j < |busy| && busy[j].stage == Running(HandleOf(keys, id).value)
      ensures busy[j].copy.id == id
    {
      assert Handle(keys, busy[j].copy.id) == Handle(keys, id);
    }
  }

  /** Every handle read and not yet called is an old one and belongs to no other task's attempt. */
  ghost predicate ReadsOwn(requests: seq<Request>, busy: seq<Attempt>, nextHandle: nat) {
    forall r | r in requests :: r.handle < nextHandle && OwnHandle(busy, r)
  }

  /** The attempts running afterwards were running before, or are new. */
  ghost predicate NoneRevived(busy: seq<Attempt>, busy': seq<Attempt>, nextHandle: nat) {
    forall j | 0 <= j < |busy'| && busy'[j].stage.Running? :: busy'[j] in busy || busy'[j].stage.handle >= nextHandle
  }

  lemma AttemptRevivesNone(s: Node, a: Action, s': Node)
    requires Next(s, a, s') && InAttempt(a)
    ensures NoneRevived(s.busy, s'.busy, s.nextHandle) && s'.cancelling == s.cancelling && s.nextHandle <= s'.nextHandle
  {
    if a.OnDone? || a.Enqueue? {
      forall x | x in Without(s.busy, a.i)
        ensures x in s.busy
      {
      }
    }
  }

  lemma DispatchLeavesBusy(s: Node, a: Action, s': Node)
    requires Next(s, a, s') && InDispatch(a)
    ensures s'.busy == s.busy && s'.cancelling == s.cancelling && s'.nextHandle == s.nextHandle
  {
  }

  lemma OwnAfter(busy: seq<Attempt>, busy': seq<Attempt>, nextHandle: nat, r: Request)
    requires NoneRevived(busy, busy', nextHandle) && OwnHandle(busy, r) && r.handle < nextHandle
    ensures OwnHandle(busy', r)
  {
  }

  lemma LoopsKeepReads(s: Node, a: Action, s': Node)
    requires Next(s, a, s') && !InDispatch(a) && !InAttempt(a)
    requires Cancellable(s.keys, s.busy) && HandlesApart(s.keys, s.nextHandle)
    requires ReadsOwn(s.cancelling, s.busy, s.nextHandle)
    ensures ReadsOwn(s'.cancelling, s'.busy, s'.nextHandle)
  {
    LoopsLeaveKeys(s, a, s');
    match a
    case ReadHandle(id) => HandleIsOwn(s.keys, s.nextHandle, s.busy, id);
    case CallHandle(i) =>
      assert forall r | r in Without(s.cancelling, i) :: r in s.cancelling;
    case _ =>
  }

  lemma {:induction false} StepKeepsReads(s: Node, a: Action, s': Node)
    requires Cancellable(s.keys, s.busy) && HandlesApart(s.keys, s.nextHandle) && Next(s, a, s')
    requires ReadsOwn(s.cancelling, s.busy, s.nextHandle)
    ensures ReadsOwn(s'.cancelling, s'.busy, s'.nextHandle)
  {
    if InDispatch(a) {
      DispatchLeavesBusy(s, a, s');
    } else if InAttempt(a) {
      AttemptRevivesNone(s, a, s');
      forall r | r in s.cancelling
        ensures OwnHandle(s'.busy, r)
      {
        OwnAfter(s.busy, s'.busy, s.nextHandle, r);
      }
    } else {
      LoopsKeepReads(s, a, s');
    }
  }

  /** The attempt with this handle returns. */
  predicate Returns(s: Node, a: Action, handle: nat) {
    a.Return? && At(s, a.i, Running(handle))
  }

  lemma RunningOnce(s: Node, i: nat, j: nat)
    requires Unique(s) && Cancellable(s.keys, s.busy) && HandlesApart(s.keys, s.nextHandle)
    requires i < |s.busy| && j < |s.busy| && s.busy[i].stage.Running? && s.busy[j].stage == s.busy[i].stage
    ensures i == j
  {
    assert Handle(s.keys, s.busy[i].copy.id) == Handle(s.keys, s.busy[j].copy.id) >= 0;
    if i != j {
      BusyOnce(s, i, j);
    }
  }

  lemma ReturnEnds(s: Node, a: Action, s': Node, handle: nat)
    requires Unique(s) && Cancellable(s.keys, s.busy) && HandlesApart(s.keys, s.nextHandle)
    requires Next(s, a, s') && Returns(s, a, handle)
    ensures !RunsHandle(s'.busy, handle)
  {
    forall j | 0 <= j < |s'.busy|
      ensures s'.busy[j].stage != Running(handle)
    {
      if j != a.i && s.busy[j].stage == Running(handle) {
        RunningOnce(s, a.i, j);
      }
    }
  }

  lemma AttemptRunsOn(s: Node, a: Action, s': Node, handle: nat)
    requires Next(s, a, s') && InAttempt(a) && RunsHandle(s.busy, handle) && !Returns(s, a, handle)
    ensures RunsHandle(s'.busy, handle)
  {
    var j :| 0 <= j < |s.busy| && s.busy[j].stage == Running(handle);
    if (a.OnDone? && At(s, a.i, Returned(true))) || a.Enqueue? {
      assert s'.busy[if j < a.i then j else j - 1] == s.busy[j];
    } else {
      assert s'.busy[j] == s.busy[j];
    }
  }

  lemma NeverRunsAgain(busy: seq<Attempt>, busy': seq<Attempt>, nextHandle: nat, handle: nat)
    requires NoneRevived(busy, busy', nextHandle) && handle < nextHandle && RunsHandle(busy', handle)
    ensures RunsHandle(busy, handle)
  {
    var j :| 0 <= j < |busy'| && busy'[j].stage == Running(handle);
    var k :| 0 <= k < |busy| && busy[k] == busy'[j];
  }

  /** The attempt with an old handle runs on until it returns, and does not run again. */
  lemma {:induction false} HandleStep(s: Node, a: Action, s': Node, handle: nat)
    requires Unique(s) && Cancellable(s.keys, s.busy) && HandlesApart(s.keys, s.nextHandle)
    requires Next(s, a, s') && handle < s.nextHandle
    ensures RunsHandle(s'.busy, handle) <==> RunsHandle(s.busy, handle) && !Returns(s, a, handle)
    ensures s.nextHandle <= s'.nextHandle
  {
    if InDispatch(a) {
      DispatchLeavesBusy(s, a, s');
    } else if InAttempt(a) {
      AttemptRevivesNone(s, a, s');
      if Returns(s, a, handle) {
        ReturnEnds(s, a, s', handle);
      } else if RunsHandle(s.busy, handle) {
        AttemptRunsOn(s, a, s', handle);
      } else if RunsHandle(s'.busy, handle) {
        NeverRunsAgain(s.busy, s'.busy, s.nextHandle, handle);
      }
    } else {
      LoopsLeaveKeys(s, a, s');
    }
  }

  // ---------------------------------------------------------------- no attempt before its time

  /** Everything released from the heap was due, and what the retry loop has seen is still the latest it will take. */
  ghost predicate OnTime(s: Node) {
    && s.now >= 0
    && (forall c | c in s.pool.chan || c in s.pool.jobsQ :: c.due <= s.now)
    && (s.released.Some? ==> s.released.value.due <= s.now)
    && (s.sending.Some? ==> s.sending.value.due <= s.now)
    && (s.seen.Some? ==> exists c :: c in s.pool.retryQ && c.due <= s.seen.value)
    && (forall i | 0 <= i < |s.busy| && !s.busy[i].stage.Delayed? :: s.busy[i].copy.due <= s.now)
  }

  lemma DispatchKeepsOnTime(s: Node, a: Action, s': Node)
    requires OnTime(s) && Next(s, a, s') && InDispatch(a)
    ensures OnTime(s')
  {
  }

  lemma EnqueueKeepsOnTime(s: Node, i: nat, s': Node)
    requires OnTime(s) && Next(s, Enqueue(i), s')
    ensures OnTime(s')
  {
    if s.seen.Some? {
      var c :| c in s.pool.retryQ && c.due <= s.seen.value;
      InGrown(s.pool.retryQ, s'.pool.retryQ, s.busy[i].copy, c);
    }
  }

  lemma AttemptKeepsOnTime(s: Node, a: Action, s': Node)
    requires OnTime(s) && Next(s, a, s') && InAttempt(a)
    ensures OnTime(s')
  {
    if a.Enqueue? {
      EnqueueKeepsOnTime(s, a.i, s');
    }
  }

  lemma ReleaseKeepsOnTime(s: Node, s': Node)
    requires OnTime(s) && Next(s, Release, s')
    ensures OnTime(s')
  {
    var c :| c in s.pool.retryQ && c.due <= s.seen.value;
    assert s'.released.value.due <= c.due;
  }

  lemma LoopsKeepOnTime(s: Node, a: Action, s': Node)
    requires OnTime(s) && Next(s, a, s') && !InDispatch(a) && !InAttempt(a)
    ensures OnTime(s')
  {
    if a.Release? {
      ReleaseKeepsOnTime(s, s');
    }
  }

  /** Between a look at the top of the heap and the removal other copies may arrive, but none that makes the removed
      one too early. */
  lemma {:induction false} StepKeepsOnTime(s: Node, a: Action, s': Node)
    requires OnTime(s) && Next(s, a, s')
    ensures OnTime(s')
  {
    if InDispatch(a) {
      DispatchKeepsOnTime(s, a, s');
    } else if InAttempt(a) {
      AttemptKeepsOnTime(s, a, s');
    } else {
      LoopsKeepOnTime(s, a, s');
    }
  }
}
