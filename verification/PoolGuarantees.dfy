/** What holds in every state of every run of a worker node, and runs that show what does not. */
module PoolGuarantees {
  import opened Options
  import opened Sequences
  import opened PoolModel

  ghost predicate NodeInv(s: Node) {
    && Unique(s) && LoopInOrder(s) && OnTime(s)
    && Cancellable(s.keys, s.busy) && HandlesApart(s.keys, s.nextHandle)
    && ReadsOwn(s.cancelling, s.busy, s.nextHandle)
  }

  ghost predicate Follows(ss: seq<Node>, acts: seq<Action>, i: nat)
    requires i < |acts| && |ss| == |acts| + 1
  {
    Next(ss[i], acts[i], ss[i + 1])
  }

  ghost predicate Segment(ss: seq<Node>, acts: seq<Action>) {
    |ss| == |acts| + 1 && forall i {:trigger Follows(ss, acts, i)} | 0 <= i < |acts| :: Follows(ss, acts, i)
  }

  ghost predicate IsRun(ss: seq<Node>, acts: seq<Action>) {
    Segment(ss, acts) && Init(ss[0])
  }

  lemma StepKeepsInvariant(ss: seq<Node>, acts: seq<Action>, i: nat, j: nat)
    requires IsRun(ss, acts) && i < |acts| && j == i + 1 && NodeInv(ss[i])
    ensures NodeInv(ss[j])
  {
    assert Follows(ss, acts, i);
    StepKeepsUnique(ss[i], acts[i], ss[j]);
    StepKeepsLoopInOrder(ss[i], acts[i], ss[j]);
    StepKeepsCancellable(ss[i], acts[i], ss[j]);
    StepKeepsHandles(ss[i], acts[i], ss[j]);
    StepKeepsReads(ss[i], acts[i], ss[j]);
    StepKeepsOnTime(ss[i], acts[i], ss[j]);
  }

  lemma StartIsGood(ss: seq<Node>, acts: seq<Action>)
    requires IsRun(ss, acts)
    ensures NodeInv(ss[0])
  {
  }

  /** In every state of every run no task is on the node twice, running attempts can be cancelled one by one, and
      nothing runs before its time. */
  lemma {:induction false} EveryReachableNodeIsGood(ss: seq<Node>, acts: seq<Action>, i: nat)
    requires IsRun(ss, acts) && i < |ss|
    ensures NodeInv(ss[i])
  {
    StartIsGood(ss, acts);
    for k := 0 to i
      invariant NodeInv(ss[k])
    {
      StepKeepsInvariant(ss, acts, k, k + 1);
    }
  }

  // ---------------------------------------------------------------- copies

  /** Never two live copies: counting dispatches that took the key and copies in the channel, in a worker's hands, in
      either queue or between them, every task is there at most once, and its key is taken. */
  lemma {:induction false} NeverTwoCopies(ss: seq<Node>, acts: seq<Action>, i: nat, id: string)
    requires IsRun(ss, acts) && i < |ss|
    ensures Present(ss[i])[id] <= 1
    ensures Present(ss[i])[id] == 1 ==> id in ss[i].keys
    ensures id in ss[i].keys && id !in ss[i].orphans ==> Present(ss[i])[id] == 1
    ensures forall j, k | 0 <= j < k < |ss[i].busy| :: ss[i].busy[j].copy.id != ss[i].busy[k].copy.id
  {
    EveryReachableNodeIsGood(ss, acts, i);
    forall j, k | 0 <= j < k < |ss[i].busy|
      ensures ss[i].busy[j].copy.id != ss[i].busy[k].copy.id
    {
      BusyOnce(ss[i], j, k);
    }
  }

  /** No attempt is under way before its copy is due, even if another copy enters the heap between the retry loop's
      look at the top and its removal. */
  lemma {:induction false} NoAttemptIsEarly(ss: seq<Node>, acts: seq<Action>, i: nat, j: nat)
    requires IsRun(ss, acts) && i < |ss| && j < |ss[i].busy| && !ss[i].busy[j].stage.Delayed?
    ensures ss[i].busy[j].copy.due <= ss[i].now
  {
    EveryReachableNodeIsGood(ss, acts, i);
  }

  // ---------------------------------------------------------------- orphans

  /** A dispatch of the task finds no executor. */
  predicate Orphans(s: Node, a: Action, id: string) {
    a.NoExecutor? && a.i < |s.adding| && s.adding[a.i] == id
  }

  ghost predicate OrphanedBefore(ss: seq<Node>, acts: seq<Action>, j: nat, id: string)
    requires j <= |acts| && |ss| == |acts| + 1
  {
    exists k :: 0 <= k < j && Orphans(ss[k], acts[k], id)
  }

  lemma OrphanStep(ss: seq<Node>, acts: seq<Action>, i: nat, j: nat, id: string)
    requires IsRun(ss, acts) && j == i + 1 <= |acts|
    requires id in ss[i].orphans <==> OrphanedBefore(ss, acts, i, id)
    ensures id in ss[j].orphans <==> OrphanedBefore(ss, acts, j, id)
  {
    assert Follows(ss, acts, i);
    OrphansAfter(ss[i], acts[i], ss[j], id);
  }

  lemma OrphansAfter(s: Node, a: Action, s': Node, id: string)
    requires Next(s, a, s')
    ensures id in s'.orphans <==> id in s.orphans || Orphans(s, a, id)
  {
  }

  /** A key is taken if and only if its task is on the node or some dispatch of it found no executor; in the second
      case there is no copy behind it, so that every further dispatch is answered like a duplicate and runs nothing. */
  lemma {:induction false} KeyTakenIff(ss: seq<Node>, acts: seq<Action>, j: nat, id: string)
    requires IsRun(ss, acts) && j <= |acts|
    ensures id in ss[j].keys <==> Present(ss[j])[id] == 1 || OrphanedBefore(ss, acts, j, id)
    ensures OrphanedBefore(ss, acts, j, id) ==> Present(ss[j])[id] == 0
  {
    for k := 0 to j
      invariant id in ss[k].orphans <==> OrphanedBefore(ss, acts, k, id)
    {
      OrphanStep(ss, acts, k, k + 1, id);
    }
    EveryReachableNodeIsGood(ss, acts, j);
  }

  // ---------------------------------------------------------------- cancellation

  /** Step `i` reads the handle of the task for a cancellation. */
  ghost predicate ReadAt(ss: seq<Node>, acts: seq<Action>, i: nat, r: Request)
    requires i < |acts| && |ss| == |acts| + 1
  {
    acts[i] == ReadHandle(r.id) && HandleOf(ss[i].keys, r.id) == Some(r.handle)
  }

  /** The attempt with this handle returned in the steps from `i` up to `k`. */
  ghost predicate ReturnedIn(ss: seq<Node>, acts: seq<Action>, i: nat, k: nat, handle: nat)
    requires k <= |acts| && |ss| == |acts| + 1
  {
    exists m :: i <= m < k && Returns(ss[m], acts[m], handle)
  }

  ghost predicate WasRead(ss: seq<Node>, acts: seq<Action>, k: nat, r: Request)
    requires k <= |acts| && |ss| == |acts| + 1
  {
    exists i :: 0 <= i < k && ReadAt(ss, acts, i, r)
  }

  lemma RequestStep(s: Node, a: Action, s': Node, r: Request)
    requires Next(s, a, s') && r in s'.cancelling
    ensures r in s.cancelling || (a == ReadHandle(r.id) && HandleOf(s.keys, r.id) == Some(r.handle))
  {
    if a.CallHandle? {
      assert forall x | x in Without(s.cancelling, a.i) :: x in s.cancelling;
    } else if InDispatch(a) {
      DispatchLeavesBusy(s, a, s');
    } else if InAttempt(a) {
      AttemptRevivesNone(s, a, s');
    }
  }

  lemma RequestRunStep(ss: seq<Node>, acts: seq<Action>, i: nat, j: nat)
    requires IsRun(ss, acts) && j == i + 1 <= |acts| && forall r | r in ss[i].cancelling :: WasRead(ss, acts, i, r)
    ensures forall r | r in ss[j].cancelling :: WasRead(ss, acts, j, r)
  {
    assert Follows(ss, acts, i);
    forall r | r in ss[j].cancelling
      ensures WasRead(ss, acts, j, r)
    {
      RequestStep(ss[i], acts[i], ss[j], r);
      if r in ss[i].cancelling {
        var k :| 0 <= k < i && ReadAt(ss, acts, k, r);
        assert ReadAt(ss, acts, k, r);
      } else {
        assert ReadAt(ss, acts, i, r);
      }
    }
  }

  lemma {:induction false} RequestsWereRead(ss: seq<Node>, acts: seq<Action>, k: nat, r: Request)
    requires IsRun(ss, acts) && k <= |acts| && r in ss[k].cancelling
    ensures WasRead(ss, acts, k, r)
  {
    for m := 0 to k
      invariant forall x | x in ss[m].cancelling :: WasRead(ss, acts, m, x)
    {
      RequestRunStep(ss, acts, m, m + 1);
    }
  }

  lemma HandleRunStep(ss: seq<Node>, acts: seq<Action>, i: nat, m: nat, n: nat, handle: nat)
    requires IsRun(ss, acts) && i <= m && n == m + 1 <= |acts| && handle < ss[m].nextHandle
    requires RunsHandle(ss[m].busy, handle) <==>
             RunsHandle(ss[i].busy, handle) && !ReturnedIn(ss, acts, i, m, handle)
    ensures handle < ss[n].nextHandle
    ensures RunsHandle(ss[n].busy, handle) <==>
            RunsHandle(ss[i].busy, handle) && !ReturnedIn(ss, acts, i, n, handle)
  {
    EveryReachableNodeIsGood(ss, acts, m);
    assert Follows(ss, acts, m);
    HandleStep(ss[m], acts[m], ss[n], handle);
  }

  lemma HandleAtRead(ss: seq<Node>, acts: seq<Action>, i: nat, r: Request)
    requires IsRun(ss, acts) && i < |acts| && ReadAt(ss, acts, i, r)
    ensures r.handle < ss[i].nextHandle && (RunsHandle(ss[i].busy, r.handle) <==> RunsTask(ss[i].busy, r.id))
  {
    EveryReachableNodeIsGood(ss, acts, i);
    HandleIsOwn(ss[i].keys, ss[i].nextHandle, ss[i].busy, r.id);
  }

  /** Read at step `i`, the handle belongs to the task's running attempt if there is one; at any later step it belongs
      to a running attempt if and only if that one has not returned meanwhile, and never to another task's. */
  lemma {:induction false} ReadThenCall(ss: seq<Node>, acts: seq<Action>, i: nat, k: nat, r: Request)
    requires IsRun(ss, acts) && i <= k <= |acts| && i < |acts| && ReadAt(ss, acts, i, r)
    ensures RunsHandle(ss[k].busy, r.handle) <==>
            RunsTask(ss[i].busy, r.id) && !ReturnedIn(ss, acts, i, k, r.handle)
  {
    HandleAtRead(ss, acts, i, r);
    for m := i to k
      invariant r.handle < ss[m].nextHandle
      invariant RunsHandle(ss[m].busy, r.handle) <==>
                RunsHandle(ss[i].busy, r.handle) && !ReturnedIn(ss, acts, i, m, r.handle)
    {
      HandleRunStep(ss, acts, i, m, m + 1, r.handle);
    }
  }

  /** When a cancellation calls the handle it has read, it stops a running attempt if and only if an attempt of this
      task was running at the read and has not returned since; it never stops one of another task. */
  lemma {:induction false} CancelStopsIff(ss: seq<Node>, acts: seq<Action>, k: nat, n: nat)
    requires IsRun(ss, acts) && k < |acts| && acts[k] == CallHandle(n) && n < |ss[k].cancelling|
    ensures var r := ss[k].cancelling[n];
            && r.handle in ss[k + 1].stopped && OwnHandle(ss[k].busy, r)
            && exists i :: 0 <= i < k && ReadAt(ss, acts, i, r) &&
                 (RunsHandle(ss[k].busy, r.handle) <==>
                  RunsTask(ss[i].busy, r.id) && !ReturnedIn(ss, acts, i, k, r.handle))
  {
    var r := ss[k].cancelling[n];
    EveryReachableNodeIsGood(ss, acts, k);
    assert Follows(ss, acts, k);
    RequestsWereRead(ss, acts, k, r);
    var i :| 0 <= i < k && ReadAt(ss, acts, i, r);
    ReadThenCall(ss, acts, i, k, r);
  }

  /** The answer is no only if no attempt of the task is running. */
  lemma {:induction false} NoHandleNoAttempt(ss: seq<Node>, acts: seq<Action>, i: nat, id: string)
    requires IsRun(ss, acts) && i <= |acts| && HandleOf(ss[i].keys, id).None?
    ensures !RunsTask(ss[i].busy, id)
  {
    EveryReachableNodeIsGood(ss, acts, i);
    HandleIsOwn(ss[i].keys, ss[i].nextHandle, ss[i].busy, id);
  }

  // ---------------------------------------------------------------- particular runs

  /** These actions lead from `s` to `s'`. */
  ghost predicate Leads(s: Node, acts: seq<Action>, s': Node) {
    exists ss: seq<Node> :: Segment(ss, acts) && ss[0] == s && ss[|acts|] == s'
  }

  ghost predicate Reachable(s: Node) {
    exists s0, acts :: Init(s0) && Leads(s0, acts, s)
  }

  lemma LeadsNowhere(s: Node)
    ensures Leads(s, [], s)
  {
    var acts: seq<Action> := [];
    assert Segment([s], acts) && [s][0] == s && [s][|acts|] == s;
  }

  lemma LeadsOn(s: Node, acts: seq<Action>, m: Node, a: Action, s': Node)
    requires Leads(s, acts, m) && Next(m, a, s')
    ensures Leads(s, acts + [a], s')
  {
    var ss: seq<Node> :| Segment(ss, acts) && ss[0] == s && ss[|acts|] == m;
    var ss', acts' := ss + [s'], acts + [a];
    forall i | 0 <= i < |acts'|
      ensures Follows(ss', acts', i)
    {
      assert i < |acts| ==> Follows(ss, acts, i);
    }
    assert Segment(ss', acts') && ss'[0] == s && ss'[|acts'|] == s';
  }

  lemma ReachStart(s: Node)
    requires Init(s)
    ensures Reachable(s)
  {
    LeadsNowhere(s);
  }

  lemma ReachStep(s: Node, a: Action, s': Node)
    requires Reachable(s) && Next(s, a, s')
    ensures Reachable(s')
  {
    var s0, acts :| Init(s0) && Leads(s0, acts, s);
    LeadsOn(s0, acts, s, a, s');
  }

  const EMPTY := Node(1, 1, map[], [], [], Pool([], [], []), [], None, None, None, [], 0, 0, {}, {})

  /** A task whose first dispatch found no executor: its key is taken, nothing of it is there, and a second dispatch is
      accepted without any effect. */
  lemma OrphanIgnoresDispatch(id: string)
    ensures exists s :: Reachable(s) && id in s.keys && Present(s)[id] == 0 && Next(s, Add(id), s)
  {
    ReachStart(EMPTY);
    var s1 := EMPTY.(keys := map[id := None], adding := [id]);
    ReachStep(EMPTY, Add(id), s1);
    var s2 := s1.(adding := [], orphans := {id});
    assert Without([id], 0) == [];
    ReachStep(s1, NoExecutor(0), s2);
    assert Reachable(s2) && id in s2.keys && Present(s2)[id] == 0 && Next(s2, Add(id), s2);
  }

  /** The first attempt is running. */
  function Started(id: string): Node {
    EMPTY.(keys := map[id := Some(0)], nextHandle := 1, busy := [Attempt(Copy(id, 0), Running(0))])
  }

  lemma StartedIsReachable(id: string)
    ensures Reachable(Started(id))
  {
    ReachStart(EMPTY);
    var s1 := EMPTY.(keys := map[id := None], adding := [id]);
    ReachStep(EMPTY, Add(id), s1);
    var s2 := s1.(adding := [], pool := Pool([Copy(id, 0)], [], []));
    assert Without([id], 0) == [];
    ReachStep(s1, Submit(0), s2);
    var s3 := s2.(pool := Pool([], [], []), busy := [Attempt(Copy(id, 0), Taken)]);
    ReachStep(s2, Take, s3);
    assert s3.busy[0 := Attempt(Copy(id, 0), Running(0))] == Started(id).busy;
    ReachStep(s3, SetCancel(0), Started(id));
  }

  /** The answer "cancelled" does not mean that an attempt was stopped: after a failed attempt the old handle is still
      filed, although the task only waits for its retry and will run again. */
  lemma CancelMissesWaitingTask(id: string)
    ensures exists s :: Reachable(s) && HandleOf(s.keys, id).Some? && s.busy == [] && Present(s)[id] == 1
  {
    var s4 := FailedAndWaiting(id);
    assert Ids(s4.pool.retryQ) == [id];
    assert Reachable(s4) && HandleOf(s4.keys, id).Some? && s4.busy == [] && Present(s4)[id] == 1;
  }

  lemma FailedAndWaiting(id: string) returns (s4: Node)
    ensures Reachable(s4) && s4 == Started(id).(pool := Pool([], [Copy(id, 2)], []), busy := [])
  {
    StartedIsReachable(id);
    s4 := FailedAndFiled(id, Started(id));
  }

  lemma FailedAndFiled(id: string, s: Node) returns (s4: Node)
    requires Reachable(s) && s == Started(id).(cancelling := s.cancelling)
    ensures Reachable(s4) && s4 == s.(pool := Pool([], [Copy(id, 2)], []), busy := [])
  {
    var s1 := s.(busy := [Attempt(Copy(id, 0), Returned(false))]);
    ReachStep(s, Return(0, false), s1);
    var s2 := s1.(busy := [Attempt(Copy(id, 0), Failed)]);
    ReachStep(s1, OnDone(0), s2);
    var s3 := s2.(busy := [Attempt(Copy(id, 2), Delayed)]);
    ReachStep(s2, Delay(0, 2), s3);
    s4 := s3.(pool := Pool([], [Copy(id, 2)], []), busy := []);
    assert Without(s3.busy, 0) == [];
    ReachStep(s3, Enqueue(0), s4);
  }

  /** The first attempt has failed after a cancellation read its handle, and its time to be retried has come. */
  lemma ReadThenFailed(id: string) returns (s: Node)
    ensures Reachable(s) && s.cancelling == [Request(id, 0)] && s.pool == Pool([], [Copy(id, 2)], [])
    ensures s == Started(id).(cancelling := s.cancelling, busy := [], now := 2, pool := s.pool)
  {
    StartedIsReachable(id);
    var s0 := Started(id).(cancelling := [Request(id, 0)]);
    ReachStep(Started(id), ReadHandle(id), s0);
    var s1 := FailedAndFiled(id, s0);
    s := s1.(now := 2);
    ReachStep(s1, Tick(2), s);
  }

  lemma ReadThenReleased(id: string) returns (s: Node)
    ensures Reachable(s) && s.cancelling == [Request(id, 0)] && s.pool == Pool([], [], [Copy(id, 2)])
    ensures s == Started(id).(cancelling := s.cancelling, busy := [], now := 2, pool := s.pool)
  {
    var s2 := ReadThenFailed(id);
    var s3 := s2.(seen := Some(2));
    assert Copy(id, 2) in s2.pool.retryQ;
    ReachStep(s2, Top, s3);
    var s4 := s3.(seen := None, released := Some(Copy(id, 2)), pool := Pool([], [], []));
    ReachStep(s3, Release, s4);
    s := s4.(released := None, pool := Pool([], [], [Copy(id, 2)]));
    ReachStep(s4, QueueJob, s);
  }

  lemma ReadThenRetried(id: string) returns (s: Node)
    ensures Reachable(s) && s.cancelling == [Request(id, 0)] && s.stopped == {}
    ensures s.busy == [Attempt(Copy(id, 2), Taken)] && s.keys == map[id := Some(0)] && s.nextHandle == 1
  {
    var s1 := ReadThenReleased(id);
    var s2 := s1.(sending := Some(Copy(id, 2)), pool := Pool([], [], []));
    ReachStep(s1, NextJob, s2);
    var s3 := s2.(sending := None, pool := Pool([Copy(id, 2)], [], []));
    ReachStep(s2, SendJob, s3);
    s := s3.(pool := Pool([], [], []), busy := [Attempt(Copy(id, 2), Taken)]);
    ReachStep(s3, Take, s);
  }

  /** The answer is yes, the attempt that had the handle is over, and the next one runs on. */
  lemma CancelMissesRetriedTask(id: string)
    ensures exists s, s' :: Reachable(s) && s.cancelling == [Request(id, 0)] && RunsTask(s.busy, id)
              && Next(s, CallHandle(0), s') && s'.stopped == {0}
                 && s'.busy == s.busy == [Attempt(Copy(id, 2), Running(1))]
  {
    var s1 := ReadThenRetried(id);
    var s := s1.(keys := map[id := Some(1)], nextHandle := 2, busy := [Attempt(Copy(id, 2), Running(1))]);
    assert s1.busy[0 := Attempt(Copy(id, 2), Running(1))] == s.busy;
    ReachStep(s1, SetCancel(0), s);
    var s' := s.(cancelling := [], stopped := {0});
    assert Without(s.cancelling, 0) == [] && s.busy[0].stage.Running?;
    assert Next(s, CallHandle(0), s');
  }

  // ---------------------------------------------------------------- the program's methods as steps

  lemma LastWithout<T>(xs: seq<T>, x: T)
    ensures Without(xs + [x], |xs|) == xs
  {
  }

  lemma DispatchAdds(s: Node, id: string) returns (m: Node)
    requires id !in s.keys
    ensures m == s.(keys := AddKey(s.keys, id), adding := s.adding + [id]) && Leads(s, [Add(id)], m)
  {
    m := s.(keys := AddKey(s.keys, id), adding := s.adding + [id]);
    LeadsNowhere(s);
    LeadsOn(s, [], s, Add(id), m);
    assert [] + [Add(id)] == [Add(id)];
  }

  /** A dispatch run without interruption is a run of the state machine: the duplicate, the unknown type, the free and
      the full pool. */
  lemma {:induction false} DispatchIsModelled(s: Node, id: string, known: bool) returns (acts: seq<Action>, s': Node)
    ensures Leads(s, acts, s')
    ensures s' == if id in s.keys then s
                  else if !known then s.(keys := AddKey(s.keys, id), orphans := s.orphans + {id})
                  else if |s.pool.chan| < s.capacity then
                    s.(keys := AddKey(s.keys, id), pool := s.pool.(chan := s.pool.chan + [Copy(id, 0)]))
                  else s
  {
    LeadsNowhere(s);
    if id in s.keys {
      return [], s;
    }
    var m := DispatchAdds(s, id);
    LastWithout(s.adding, id);
    acts := [Add(id)];
    var i := |s.adding|;
    if !known {
      s' := m.(adding := s.adding, orphans := s.orphans + {id});
      LeadsOn(s, acts, m, NoExecutor(i), s');
      acts := acts + [NoExecutor(i)];
    } else if |s.pool.chan| < s.capacity {
      s' := m.(adding := s.adding, pool := s.pool.(chan := s.pool.chan + [Copy(id, 0)]));
      LeadsOn(s, acts, m, Submit(i), s');
      acts := acts + [Submit(i)];
    } else {
      acts, s' := DispatchIsRefused(s, id, m);
    }
  }

  lemma DispatchIsRefused(s: Node, id: string, m: Node) returns (acts: seq<Action>, s': Node)
    requires id !in s.keys && |s.pool.chan| >= s.capacity && Leads(s, [Add(id)], m)
    requires m == s.(keys := AddKey(s.keys, id), adding := s.adding + [id])
    ensures Leads(s, acts, s') && s' == s
  {
    var i := |s.adding|;
    LastWithout(s.adding, id);
    var n := m.(adding := s.adding, refused := s.refused + [id]);
    LeadsOn(s, [Add(id)], m, Refuse(i), n);
    LastWithout(s.refused, id);
    s' := n.(refused := s.refused, keys := RemoveKey(n.keys, id));
    assert s'.keys == s.keys;
    LeadsOn(s, [Add(id)] + [Refuse(i)], n, Remove(|s.refused|), s');
    acts := [Add(id)] + [Refuse(i)] + [Remove(|s.refused|)];
  }

  /** An attempt run without interruption, with its outcome, is a run of the state machine. */
  lemma {:induction false} AttemptIsModelled(s: Node, i: nat, ok: bool, wait: int) returns (acts: seq<Action>, s': Node)
    requires At(s, i, Taken)
    ensures Leads(s, acts, s')
    ensures var c := s.busy[i].copy;
            && s' == s.(keys := s'.keys, pool := s'.pool, busy := Without(s.busy, i), nextHandle := s.nextHandle + 1)
            && s'.keys == (if ok then RemoveKey(s.keys, c.id) else s.keys[c.id := Some(s.nextHandle)])
            && if ok then s'.pool == s.pool else Enqueued(s.pool, c.(due := s.now + wait), s'.pool)
  {
    var c := s.busy[i].copy;
    var m1 := s.(keys := s.keys[c.id := Some(s.nextHandle)], nextHandle := s.nextHandle + 1,
                 busy := s.busy[i := Attempt(c, Running(s.nextHandle))]);
    LeadsNowhere(s);
    LeadsOn(s, [], s, SetCancel(i), m1);
    var m2 := m1.(busy := s.busy[i := Attempt(c, Returned(ok))]);
    assert m1.busy[i := Attempt(c, Returned(ok))] == m2.busy;
    LeadsOn(s, [] + [SetCancel(i)], m1, Return(i, ok), m2);
    acts := [] + [SetCancel(i)] + [Return(i, ok)];
    if ok {
      s' := m2.(keys := RemoveKey(m2.keys, c.id), busy := Without(s.busy, i));
      assert s'.keys == RemoveKey(s.keys, c.id) && Without(m2.busy, i) == Without(s.busy, i);
      LeadsOn(s, acts, m2, OnDone(i), s');
      acts := acts + [OnDone(i)];
    } else {
      acts, s' := FailureIsModelled(s, i, wait, acts, m2);
    }
  }

  lemma FailureIsModelled(s: Node, i: nat, wait: int, before: seq<Action>, m2: Node)
      returns (acts: seq<Action>, s': Node)
    requires i < |s.busy| && |m2.busy| == |s.busy| && m2.busy == s.busy[i := Attempt(s.busy[i].copy, Returned(false))]
    requires Leads(s, before, m2)
    ensures Leads(s, acts, s') && s' == m2.(pool := s'.pool, busy := Without(s.busy, i))
    ensures Enqueued(m2.pool, s.busy[i].copy.(due := m2.now + wait), s'.pool)
  {
    var c := s.busy[i].copy;
    var d := c.(due := m2.now + wait);
    var m3 := m2.(busy := s.busy[i := Attempt(c, Failed)]);
    assert m2.busy[i := Attempt(c, Failed)] == m3.busy;
    LeadsOn(s, before, m2, OnDone(i), m3);
    var m4 := m3.(busy := s.busy[i := Attempt(d, Delayed)]);
    assert m3.busy[i := Attempt(d, Delayed)] == m4.busy;
    LeadsOn(s, before + [OnDone(i)], m3, Delay(i, wait), m4);
    s' := m4.(pool := m4.pool.(retryQ := m4.pool.retryQ + [d]), busy := Without(s.busy, i));
    assert Without(m4.busy, i) == Without(s.busy, i);
    LeadsOn(s, before + [OnDone(i)] + [Delay(i, wait)], m4, Enqueue(i), s');
    acts := before + [OnDone(i)] + [Delay(i, wait)] + [Enqueue(i)];
  }

  /** A cancellation without interruption is a read and a call; it stops the attempt of the task if one is running. */
  lemma {:induction false} CancelStopsRunning(ss: seq<Node>, acts: seq<Action>, i: nat, id: string)
    returns (s': Node)
    requires IsRun(ss, acts) && i <= |acts| && HandleOf(ss[i].keys, id).Some?
    ensures var n := |ss[i].cancelling|; Leads(ss[i], [ReadHandle(id), CallHandle(n)], s')
    ensures s' == ss[i].(stopped := ss[i].stopped + {HandleOf(ss[i].keys, id).value})
    ensures forall j | 0 <= j < |ss[i].busy| && ss[i].busy[j].stage.Running? && ss[i].busy[j].copy.id == id ::
              ss[i].busy[j].stage.handle in s'.stopped
  {
    EveryReachableNodeIsGood(ss, acts, i);
    var s, h := ss[i], HandleOf(ss[i].keys, id).value;
    var m := s.(cancelling := s.cancelling + [Request(id, h)]);
    LeadsNowhere(s);
    LeadsOn(s, [], s, ReadHandle(id), m);
    s' := s.(stopped := s.stopped + {h});
    LastWithout(s.cancelling, Request(id, h));
    LeadsOn(s, [] + [ReadHandle(id)], m, CallHandle(|s.cancelling|), s');
    assert [] + [ReadHandle(id)] + [CallHandle(|s.cancelling|)] == [ReadHandle(id), CallHandle(|s.cancelling|)];
  }
}
