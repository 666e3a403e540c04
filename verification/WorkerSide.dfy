/** The worker's side as the program runs it: the keys of the tasks in flight, the pool, and the service before them.
    The methods of the keys and of the pool are single locked steps; a dispatch and an attempt are sequences of such
    steps run without interruption, and `PoolGuarantees` has the runs of the state machine they stand for. */
module WorkerSide {
  import opened Options
  import opened Sequences
  import opened PoolModel
  import opened PriorityQueues
  import opened LinkedQueues

  /** The keys of tasks in flight; a key holds the cancel handle of the running attempt once there is one. */
  class Unique {
    var items: Keys

    constructor ()
      ensures items == map[]
    {
      items := map[];
    }

    /** Takes the key; false if it was taken. */
    method Add(id: string) returns (ok: bool)
      modifies this
      ensures ok <==> id !in old(items)
      ensures items == if id in old(items) then old(items) else old(items)[id := None]
    {
      ok := id !in items;
      if ok {
        items := items[id := None];
      }
    }

    method Remove(id: string)
      modifies this
      ensures items == old(items) - {id}
    {
      items := items - {id};
    }

    method SetCancel(id: string, handle: nat)
      modifies this
      ensures items == old(items)[id := Some(handle)]
    {
      items := items[id := Some(handle)];
    }

    /** Reads, under the lock, the handle that is then called, if there is one. */
    method Cancel(id: string) returns (stopped: Option<nat>)
      ensures stopped == if id in items then items[id] else None
    {
      return if id in items then items[id] else None;
    }
  }

  ghost function Copies(items: seq<Item<Copy>>): seq<Copy> {
    seq(|items|, i requires 0 <= i < |items| => items[i].value)
  }

  class WorkerPool {
    const capacity: nat
    const jobsQ: LinkedQueue<Copy>
    const retryQ: PriorityQueue<Copy>
    var jobChan: seq<Copy>
    var busyCount: int

    constructor (capacity: nat)
      ensures Valid() && State() == Pool([], [], []) && busyCount == 0
      ensures this.capacity == if capacity == 0 then 128 else capacity
      ensures fresh(jobsQ) && fresh(retryQ)
    {
      this.capacity := if capacity == 0 then 128 else capacity;
      this.jobsQ := new LinkedQueue();
      this.retryQ := new PriorityQueue();
      this.jobChan, this.busyCount := [], 0;
    }

    /** Every entry of the heap is filed under the time its copy is due. */
    ghost predicate Valid()
      reads this, jobsQ, jobsQ.spine, retryQ, retryQ.items
    {
      jobsQ.Valid() && retryQ.Valid() && |jobChan| <= capacity
          && forall x | x in retryQ.items :: x.waitToTime == x.value.due
    }

    ghost function State(): Pool
      reads this, jobsQ, retryQ
    {
      Pool(jobChan, Copies(retryQ.items), jobsQ.Contents())
    }

    /** Puts a new copy into the channel unless it is full. */
    method TrySubmit(id: string) returns (ok: bool)
      requires Valid()
      modifies this`jobChan
      ensures Valid() && (ok <==> |old(jobChan)| < capacity)
      ensures jobChan == if ok then old(jobChan) + [Copy(id, 0)] else old(jobChan)
      ensures if ok then Sent(old(State()), capacity, Copy(id, 0), State()) else State() == old(State())
    {
      ok := |jobChan| < capacity;
      if ok {
        jobChan := jobChan + [Copy(id, 0)];
      }
    }

    /** A worker takes the next copy from the channel, if there is one. */
    method Receive() returns (c: Option<Copy>)
      requires Valid()
      modifies this`jobChan
      ensures Valid() && (c.None? <==> old(jobChan) == [])
      ensures c.Some? ==> c.value == old(jobChan)[0] && jobChan == old(jobChan)[1..]
      ensures if c.Some? then Received(old(State()), c.value, State()) else State() == old(State())
    {
      if jobChan == [] {
        return None;
      }
      c := Some(jobChan[0]);
      jobChan := jobChan[1..];
    }

    /** Files a failed copy for a retry after `wait`. */
    method MoveToRetry(c: Copy, now: int, wait: int)
      requires Valid()
      modifies retryQ, retryQ.Items()
      ensures Valid() && Enqueued(old(State()), c.(due := now + wait), State())
      ensures multiset(State().retryQ) == multiset(old(State()).retryQ) + multiset{Copy(c.id, now + wait)}
    {
      var due := now + wait;
      var item := new Item(c.(due := due), due);
      ghost var was := retryQ.items;
      retryQ.Enqueue(item);
      CopiesGrow(was, retryQ.items, item);
      assert forall x | x in retryQ.items :: x in multiset(retryQ.items);
      assert jobsQ.Contents() == old(jobsQ.Contents());
    }

    /** The retry loop's look at the heap: whether the top is due. */
    method RetryDue(now: int) returns (seen: Option<int>)
      requires Valid()
      ensures seen.Some? ==> TopDue(State(), seen.value) && seen.value <= now
      ensures seen.Some? ==> (exists c :: c in State().retryQ && c.due == seen.value)
                             && forall c | c in State().retryQ :: seen.value <= c.due
      ensures seen.None? ==> forall c | c in State().retryQ :: now < c.due
    {
      var top := retryQ.Top();
      CopiesMembers(retryQ.items);
      if top.None? || top.value.waitToTime > now {
        return None;
      }
      assert top.value.value in State().retryQ;
      return Some(top.value.waitToTime);
    }

    /** The retry loop takes the first copy out of the heap. */
    method RetryRelease() returns (c: Option<Copy>)
      requires Valid()
      modifies retryQ, retryQ.Items()
      ensures Valid() && (c.None? <==> old(State()).retryQ == [])
      ensures c.Some? ==> multiset(old(State()).retryQ) == multiset(State().retryQ) + multiset{c.value}
                          && forall x | x in old(State()).retryQ :: c.value.due <= x.due
      ensures if c.Some? then DequeuedFirst(old(State()), c.value, State()) else State() == old(State())
    {
      ghost var was := retryQ.items;
      ghost var item;
      c, item := retryQ.Dequeue();
      assert jobsQ.Contents() == old(jobsQ.Contents());
      if c.Some? {
        CopiesGrow(retryQ.items, was, item.value);
        CopiesMembers(was);
        assert forall x | x in retryQ.items :: x in multiset(was);
        assert item.value in multiset(was);
      }
    }

    /** The retry loop hands the released copy on. */
    method QueueReleased(c: Copy)
      requires Valid()
      modifies jobsQ, jobsQ.Nodes()
      ensures Valid() && State().jobsQ == old(State()).jobsQ + [c]
      ensures JobQueued(old(State()), c, State())
    {
      jobsQ.Queue(c);
    }

    /** The jobs loop takes the next copy. */
    method NextReleased() returns (c: Option<Copy>)
      requires Valid()
      modifies jobsQ, jobsQ.Nodes()
      ensures Valid() && (c.None? <==> old(State()).jobsQ == [])
      ensures c.Some? ==> c.value == old(State()).jobsQ[0] && State().jobsQ == old(State()).jobsQ[1..]
      ensures if c.Some? then JobDequeued(old(State()), c.value, State()) else State() == old(State())
    {
      c := jobsQ.Dequeue();
    }

    /** The jobs loop sends it on, or has to wait while the channel is full. */
    method TrySend(c: Copy) returns (ok: bool)
      requires Valid()
      modifies this`jobChan
      ensures Valid() && (ok <==> |old(jobChan)| < capacity)
      ensures jobChan == if ok then old(jobChan) + [c] else old(jobChan)
      ensures if ok then Sent(old(State()), capacity, c, State()) else State() == old(State())
    {
      ok := |jobChan| < capacity;
      if ok {
        jobChan := jobChan + [c];
      }
    }
  }

  /** The answer to a dispatch. */
  datatype Answer = Accepted | Suspended | UnknownType | PoolFull

  class WorkerService {
    const unique: Unique
    const pool: WorkerPool
    const executors: set<string>
    var suspended: bool

    constructor (unique: Unique, pool: WorkerPool, executors: set<string>)
      ensures this.unique == unique && this.pool == pool && this.executors == executors && !suspended
    {
      this.unique, this.pool, this.executors, this.suspended := unique, pool, executors, false;
    }

    /** A dispatch from the control plane. A task whose key is taken is accepted and ignored; a task of unknown type
        is refused but keeps its key; a full pool refuses and leaves no trace. */
    method DispatchTask(id: string, taskType: string) returns (r: Answer)
      requires pool.Valid()
      modifies unique, pool`jobChan
      ensures pool.Valid()
      ensures r == if suspended then Suspended
                   else if id in old(unique.items) then Accepted
                   else if taskType !in executors then UnknownType
                   else if |old(pool.jobChan)| < pool.capacity then Accepted
                   else PoolFull
      ensures unique.items == if id !in old(unique.items) && (r.Accepted? || r.UnknownType?)
                              then old(unique.items)[id := None] else old(unique.items)
      ensures pool.jobChan == if id !in old(unique.items) && r.Accepted? then old(pool.jobChan) + [Copy(id, 0)]
                              else old(pool.jobChan)
      ensures if r.Accepted? && id !in old(unique.items)
              then Sent(old(pool.State()), pool.capacity, Copy(id, 0), pool.State())
              else pool.State() == old(pool.State())
    {
      if suspended {
        return Suspended;
      }
      var added := unique.Add(id);
      if !added {
        return Accepted;
      }
      if taskType !in executors {
        return UnknownType;
      }
      var ok := pool.TrySubmit(id);
      if !ok {
        unique.Remove(id);
        assert unique.items == old(unique.items);
        return PoolFull;
      }
      return Accepted;
    }

    /** For every task named, whether a handle was called; `stopped` are the handles. */
    method CancelTasks(ids: seq<string>) returns (cancelled: map<string, bool>, ghost stopped: set<nat>)
      ensures cancelled.Keys == set id | id in ids
      ensures forall id | id in ids :: cancelled[id] <==> id in unique.items && unique.items[id].Some?
      ensures forall h :: h in stopped <==> exists id :: id in ids && id in unique.items && unique.items[id] == Some(h)
    {
      cancelled, stopped := map[], {};
      for i := 0 to |ids|
        invariant cancelled.Keys == set id | id in ids[..i]
        invariant forall id | id in ids[..i] :: cancelled[id] <==> id in unique.items && unique.items[id].Some?
        invariant forall h :: h in stopped <==>
                    exists id :: id in ids[..i] && id in unique.items && unique.items[id] == Some(h)
      {
        assert ids[..i + 1] == ids[..i] + [ids[i]];
        var handle := unique.Cancel(ids[i]);
        cancelled := cancelled[ids[i] := handle.Some?];
        stopped := stopped + if handle.Some? then {handle.value} else {};
      }
      assert ids[..|ids|] == ids;
    }

    /** One attempt from start to end, with its outcome: files the cancel handle, and on success frees the key, on
        failure files the copy for a retry and keeps the key. */
    method RunAttempt(c: Copy, handle: nat, ok: bool, now: int, wait: int)
      requires pool.Valid()
      modifies unique, pool`busyCount, pool.retryQ, pool.retryQ.Items()
      ensures pool.Valid() && pool.busyCount == old(pool.busyCount)
      ensures unique.items == if ok then old(unique.items) - {c.id} else old(unique.items)[c.id := Some(handle)]
      ensures if ok then pool.State() == old(pool.State())
              else Enqueued(old(pool.State()), c.(due := now + wait), pool.State())
      ensures !ok ==> multiset(pool.State().retryQ) == multiset(old(pool.State()).retryQ)
                                                       + multiset{Copy(c.id, now + wait)}
    {
      pool.busyCount := pool.busyCount + 1;
      unique.SetCancel(c.id, handle);
      if ok {
        unique.Remove(c.id);
      } else {
        pool.MoveToRetry(c, now, wait);
      }
      pool.busyCount := pool.busyCount - 1;
    }
  }

  lemma CopiesMembers(items: seq<Item<Copy>>)
    ensures forall x | x in items :: x.value in Copies(items)
    ensures forall c | c in Copies(items) :: exists x :: x in items && x.value == c
  {
    forall x | x in items
      ensures x.value in Copies(items)
    {
      var i :| 0 <= i < |items| && items[i] == x;
      assert Copies(items)[i] == x.value;
    }
    forall c | c in Copies(items)
      ensures exists x :: x in items && x.value == c
    {
      var i :| 0 <= i < |items| && Copies(items)[i] == c;
      assert items[i] in items && items[i].value == c;
    }
  }

  /** The order of the heap's array does not matter for what is in it. */
  lemma {:induction false} CopiesUnordered(a: seq<Item<Copy>>, b: seq<Item<Copy>>)
    requires multiset(a) == multiset(b)
    ensures multiset(Copies(a)) == multiset(Copies(b))
  {
    if a == [] {
      assert |multiset(b)| == |b| == 0;
    } else {
      assert a[0] in multiset(b);
      var i :| 0 <= i < |b| && b[i] == a[0];
      HeadAndTail(a);
      WithoutOne(b, i);
      SameWithoutOne(a[1..], Without(b, i), a[0]);
      CopiesUnordered(a[1..], Without(b, i));
      assert Copies(a) == [a[0].value] + Copies(a[1..]);
      WithoutOne(Copies(b), i);
      assert Copies(Without(b, i)) == Without(Copies(b), i);
    }
  }

  lemma CopiesGrow(a: seq<Item<Copy>>, b: seq<Item<Copy>>, item: Item<Copy>)
    requires multiset(b) == multiset(a) + multiset{item}
    ensures multiset(Copies(b)) == multiset(Copies(a)) + multiset{item.value}
  {
    CopiesUnordered(b, a + [item]);
    assert Copies(a + [item]) == Copies(a) + [item.value];
  }
}
