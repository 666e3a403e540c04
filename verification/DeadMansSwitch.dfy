/** The retry queue and the worker registry that watches workers with it. */
module DeadMansSwitch {
  import opened Options
  import opened LinkedQueues
  import opened Selection
  import opened SwitchModel

  class RetryQueue {
    var active: map<string, int>
    const list: LinkedQueue<Trigger>

    constructor ()
      ensures Valid() && State() == Watch(map[], []) && fresh(list)
    {
      this.active := map[];
      this.list := new LinkedQueue();
    }

    ghost predicate Valid()
      reads this, list, list.spine
    {
      list.Valid()
    }

    ghost function State(): Watch
      reads this, list
    {
      Watch(active, list.Contents())
    }

    /** Adds a trigger unless its key is active already. */
    method Push(tr: Trigger, now: int)
      requires Valid()
      modifies this, list, list.Nodes()
      ensures Valid() && State() == PushTrigger(old(State()), tr, now)
      ensures State() == if tr.key in old(active) then old(State())
                         else Watch(old(active)[tr.key := (now + tr.timeout) / 1_000_000_000], old(State()).list + [tr])
      ensures fresh(list.Nodes() - old(list.Nodes()))
    {
      if tr.key !in active {
        active := active[tr.key := Unix(now + tr.timeout)];
        list.Queue(tr);
      }
    }

    method Cancel(key: string)
      requires Valid()
      modifies this
      ensures Valid() && active == old(active) - {key} && State().list == old(State()).list
      ensures State() == CancelTrigger(old(State()), key)
    {
      active := active - {key};
    }

    /** The loop's first locked section: takes the next trigger and looks up its deadline. */
    method TakeNext() returns (got: Option<(Trigger, int)>)
      requires Valid()
      modifies list, list.Nodes()
      ensures Valid() && (got, State()) == PopTrigger(old(State())) && active == old(active)
      ensures State().list == if old(State()).list == [] then [] else old(State()).list[1..]
      ensures got.Some? <==> old(State()).list != [] && old(State()).list[0].key in active
      ensures got.Some? ==> got.value.0 == old(State()).list[0] && got.value.1 == active[got.value.0.key]
      ensures list.Nodes() <= old(list.Nodes())
    {
      var tr := list.Dequeue();
      if tr.None? || tr.value.key !in active {
        return None;
      }
      return Some((tr.value, active[tr.value.key]));
    }

    /** The loop's last locked section: puts the trigger back with its deadline if its key is still active. */
    method PutBack(tr: Trigger, t: int)
      requires Valid()
      modifies this, list, list.Nodes()
      ensures Valid() && State() == RequeueTrigger(old(State()), tr, t)
      ensures State() == if tr.key in old(active) then Watch(old(active)[tr.key := t], old(State()).list + [tr])
                         else old(State())
      ensures fresh(list.Nodes() - old(list.Nodes()))
    {
      if tr.key in active {
        active := active[tr.key := t];
        list.Queue(tr);
      }
    }
  }

  class WorkerNode {
    const id: string
    var address: string
    var capabilities: seq<string>
    var capacity: int
    var runningTasks: int
    var lastHeartbeat: int
    var status: WorkerStatus

    constructor (id: string, address: string, capabilities: seq<string>, capacity: int, now: int)
      ensures this.id == id && Record() == WorkerRecord(address, capabilities, capacity, 0, Beat(now, Alive))
    {
      this.id, this.address, this.capabilities, this.capacity := id, address, capabilities, capacity;
      this.runningTasks, this.lastHeartbeat, this.status := 0, now, Alive;
    }

    function Record(): WorkerRecord
      reads this
    {
      WorkerRecord(address, capabilities, capacity, runningTasks, Beat(lastHeartbeat, status))
    }
  }

  /** A worker's entry in the registry, as a value. */
  datatype WorkerRecord = WorkerRecord(address: string, capabilities: seq<string>, capacity: int, running: int,
                                       beat: Beat)

  function Beats(records: map<string, WorkerRecord>): map<string, Beat> {
    map id | id in records :: records[id].beat
  }

  class WorkerRegistry {
    var workers: map<string, WorkerNode>
    const retryQueue: RetryQueue

    constructor ()
      ensures Valid() && Records() == map[] && fresh(retryQueue) && fresh(retryQueue.list)
      ensures retryQueue.State() == Watch(map[], [])
    {
      this.workers := map[];
      this.retryQueue := new RetryQueue();
    }

    ghost predicate Valid()
      reads this, workers.Values, retryQueue, retryQueue.list, retryQueue.list.spine
    {
      Filed() && retryQueue.Valid()
    }

    /** Workers are filed under their IDs. */
    ghost predicate Filed()
      reads this, workers.Values
    {
      forall id | id in workers :: workers[id].id == id
    }

    ghost function Records(): map<string, WorkerRecord>
      reads this, workers.Values
    {
      map id | id in workers :: workers[id].Record()
    }

    /** Enters a worker, or brings a known one up to date; either way it is ALIVE. Then a trigger is pushed, without
        effect while an old one is active, even one that the loop is about to drop. */
    method Register(id: string, address: string, capabilities: seq<string>, capacity: int, now: int, pushedAt: int)
      requires Valid()
      modifies this`workers, workers.Values, retryQueue, retryQueue.list, retryQueue.list.Nodes()
      ensures Valid() && Registered(old(Records()), id, address, capabilities, capacity, now, Records())
      ensures Beats(Records()) == Beats(old(Records()))[id := Beat(now, Alive)]
      ensures retryQueue.State() == PushTrigger(old(retryQueue.State()), Trigger(id, GRACE), pushedAt)
    {
      Enter(id, address, capabilities, capacity, now);
      Arm(id, pushedAt);
      RegisteredIsHeard(old(Records()), id, address, capabilities, capacity, now, Records());
    }

    method Arm(id: string, now: int)
      requires Valid()
      modifies retryQueue, retryQueue.list, retryQueue.list.Nodes()
      ensures Valid() && Records() == old(Records())
      ensures retryQueue.State() == PushTrigger(old(retryQueue.State()), Trigger(id, GRACE), now)
    {
      retryQueue.Push(Trigger(id, GRACE), now);
    }

    method Enter(id: string, address: string, capabilities: seq<string>, capacity: int, now: int)
      requires Valid()
      modifies this`workers, workers.Values
      ensures Valid() && Registered(old(Records()), id, address, capabilities, capacity, now, Records())
    {
      if id in workers {
        var existing := workers[id];
        existing.address := address;
        existing.capacity := capacity;
        existing.capabilities := capabilities;
        existing.lastHeartbeat := now;
        existing.status := Alive;
      } else {
        var node := new WorkerNode(id, address, capabilities, capacity, now);
        workers := workers[id := node];
      }
    }

    /** A heartbeat of a known worker makes it ALIVE; it sets no trigger. */
    method Heartbeat(id: string, runningTasks: int, now: int) returns (ok: bool)
      requires Valid()
      modifies workers.Values
      ensures Valid() && (ok <==> id in old(Records()))
      ensures Records() == if ok then old(Records())[id :=
                                                     old(Records())[id].(running := runningTasks,
              beat := Beat(now, Alive))] else old(Records())
    {
      if id !in workers {
        return false;
      }
      var node := workers[id];
      node.runningTasks := runningTasks;
      node.lastHeartbeat := now;
      node.status := Alive;
      return true;
    }

    /** Counts a task that a known worker has just been given. */
    method IncrementRunning(id: string)
      requires Filed()
      modifies workers.Values
      ensures Filed() && Records() == OneMoreRunning(old(Records()), id)
    {
      if id in workers {
        var node := workers[id];
        node.runningTasks := node.runningTasks + 1;
      }
    }

    /** A snapshot of the ALIVE workers, each once, in any order. */
    method AliveWorkers() returns (alive: seq<Worker>)
      requires Filed()
      ensures Snapshot(alive, Records()) && Filed() && Records() == old(Records())
      ensures forall w | w in alive ::
                && w.id in workers && workers[w.id].status.Alive? && w.capabilities == workers[w.id].capabilities
                && w.capacity == workers[w.id].capacity && w.running == workers[w.id].runningTasks
    {
      alive := [];
      ghost var records := Records();
      var left := workers.Keys;
      while left != {}
        invariant left <= workers.Keys
        invariant forall w :: w in alive <==>
                    w.id in records && w.id !in left && records[w.id].beat.status.Alive?
                        && w.capabilities == records[w.id].capabilities && w.capacity == records[w.id].capacity
                        && w.running == records[w.id].running
        invariant forall i, j | 0 <= i < j < |alive| :: alive[i].id != alive[j].id
      {
        var id :| id in left;
        var node := workers[id];
        assert records[id] == node.Record();
        if node.status.Alive? {
          alive := alive + [Worker(node.id, node.capabilities, node.capacity, node.runningTasks)];
        }
        left := left - {id};
      }
      assert forall w | w in alive :: records[w.id] == workers[w.id].Record();
    }

    /** Sets the status of a known worker; true if that calls the hooks for a dead one. */
    method UpdateWorkerStatus(id: string, status: WorkerStatus) returns (hooks: bool)
      requires Valid()
      modifies workers.Values
      ensures Valid() && (hooks <==> id in old(Records()) && status.Dead?)
      ensures Records() == if id in old(Records())
                           then old(Records())[id := old(Records())[id].(beat :=
                                                                         old(Records())[id].beat.(status := status))]
                           else old(Records())
    {
      if id !in workers {
        return false;
      }
      workers[id].status := status;
      return status.Dead?;
    }

    /** The check behind a trigger, run without interruption: one missed grace period makes a worker SUSPECT, a second
        one DEAD. */
    method CheckHeartbeat(id: string, now: int) returns (again: bool, died: bool)
      requires Valid()
      modifies workers.Values
      ensures Valid() && (Beats(Records()), again) == CheckNow(Beats(old(Records())), id, now)
      ensures died <==> Died(Beats(old(Records())), Beats(Records()), id)
      ensures OnlyChecked(old(Records()), id, now, Records(), again, died)
    {
      ghost var records := Records();
      if id !in workers || workers[id].status.Dead? {
        assert id in workers ==> records[id] == workers[id].Record();
        return false, false;
      }
      var node := workers[id];
      assert records[id] == node.Record();
      if now - node.lastHeartbeat > GRACE {
        if node.status.Alive? {
          BeatsWithStatus(records, id, Suspect);
          died := UpdateWorkerStatus(id, Suspect);
          return true, died;
        }
        BeatsWithStatus(records, id, Dead);
        died := UpdateWorkerStatus(id, Dead);
        return false, died;
      }
      BeatsWithStatus(records, id, Alive);
      died := UpdateWorkerStatus(id, Alive);
      return true, died;
    }

    method TakeTrigger() returns (got: Option<(Trigger, int)>)
      requires Valid()
      modifies retryQueue.list, retryQueue.list.Nodes()
      ensures Valid() && Records() == old(Records()) && retryQueue.list.Nodes() <= old(retryQueue.list.Nodes())
      ensures (got, retryQueue.State()) == PopTrigger(old(retryQueue.State()))
    {
      got := retryQueue.TakeNext();
    }

    method Disarm(key: string)
      requires Valid()
      modifies retryQueue
      ensures Valid() && Records() == old(Records()) && retryQueue.list.Nodes() == old(retryQueue.list.Nodes())
      ensures retryQueue.State() == CancelTrigger(old(retryQueue.State()), key)
    {
      retryQueue.Cancel(key);
    }

    method ReturnTrigger(tr: Trigger, t: int)
      requires Valid()
      modifies retryQueue, retryQueue.list, retryQueue.list.Nodes()
      ensures Valid() && Records() == old(Records())
      ensures retryQueue.State() == RequeueTrigger(old(retryQueue.State()), tr, t)
    {
      retryQueue.PutBack(tr, t);
    }

    /** What the loop does with a trigger in its hands: checks the worker if the deadline has passed, and then either
        sets a new deadline or cancels the trigger. */
    method Attend(tr: Trigger, t: int, dueAt: int, checkedAt: int, rearmedAt: int)
        returns (t': int, died: Option<string>)
      requires Valid()
      modifies workers.Values, retryQueue
      ensures Valid() && retryQueue.list.Nodes() == old(retryQueue.list.Nodes())
      ensures (retryQueue.State(), Beats(Records()), t') ==
              AttendOf(old(retryQueue.State()), Beats(old(Records())), tr, t, dueAt, checkedAt, rearmedAt)
      ensures died == if Died(Beats(old(Records())), Beats(Records()), tr.key) then Some(tr.key) else None
    {
      if Unix(dueAt) < t {
        return t, None;
      }
      ghost var w := retryQueue.State();
      var again, dead := CheckHeartbeat(tr.key, checkedAt);
      died := if dead then Some(tr.key) else None;
      if again {
        return Unix(rearmedAt + tr.timeout), died;
      }
      Disarm(tr.key);
      return t, died;
    }

    /** One turn of the loop, run without interruption, with the times at which it looks at the clock. */
    method Turn(dueAt: int, checkedAt: int, rearmedAt: int) returns (died: Option<string>)
      requires Valid()
      modifies workers.Values, retryQueue, retryQueue.list, retryQueue.list.Nodes()
      ensures Valid()
      ensures (retryQueue.State(), Beats(Records())) ==
              TurnOf(old(retryQueue.State()), Beats(old(Records())), dueAt, checkedAt, rearmedAt)
      ensures RightTurn(old(retryQueue.State()), Beats(old(Records())), dueAt, checkedAt, rearmedAt,
                        retryQueue.State(), Beats(Records()))
      ensures died.Some? ==> Died(Beats(old(Records())), Beats(Records()), died.value)
    {
      TurnIsRight(retryQueue.State(), Beats(Records()), dueAt, checkedAt, rearmedAt);
      var got := TakeTrigger();
      if got.None? {
        return None;
      }
      var (tr, t) := got.value;
      t, died := Attend(tr, t, dueAt, checkedAt, rearmedAt);
      ReturnTrigger(tr, t);
    }
  }

  /** A worker has registered: its record holds what it gave, it was heard from just now and is ALIVE, and a known one
      keeps its count of running tasks. */
  ghost predicate Registered(was: map<string, WorkerRecord>, id: string, address: string, capabilities: seq<string>,
                             capacity: int, now: int, records: map<string, WorkerRecord>) {
    && records.Keys == was.Keys + {id}
    && records[id].address == address && records[id].capabilities == capabilities && records[id].capacity == capacity
    && records[id].running == (if id in was then was[id].running else 0)
    && records[id].beat.last == now && records[id].beat.status == Alive
    && forall v | v in was && v != id :: records[v] == was[v]
  }

  lemma RegisteredIsHeard(was: map<string, WorkerRecord>, id: string, address: string, capabilities: seq<string>,
                          capacity: int, now: int, records: map<string, WorkerRecord>)
    requires Registered(was, id, address, capabilities, capacity, now, records)
    ensures Beats(records) == Beats(was)[id := Beat(now, Alive)]
  {
  }

  /** A check has changed at most what is known of this worker's presence, and that as it should. */
  ghost predicate OnlyChecked(was: map<string, WorkerRecord>, id: string, now: int, records: map<string, WorkerRecord>,
                          again: bool, died: bool) {
    && RightCheck(Beats(was), id, now, Beats(records), again)
    && records.Keys == was.Keys
    && (forall v | v in was :: records[v] == was[v].(beat := records[v].beat))
    && (died <==> id in was && was[id].beat.status != Dead && !again)
  }

  /** The worker was not DEAD before and is now. */
  predicate Died(was: map<string, Beat>, now: map<string, Beat>, id: string) {
    id in was && !was[id].status.Dead? && id in now && now[id].status.Dead?
  }

  lemma BeatsWithStatus(records: map<string, WorkerRecord>, id: string, status: WorkerStatus)
    requires id in records
    ensures var records' := records[id := records[id].(beat := records[id].beat.(status := status))];
            Beats(records') == Beats(records)[id := Beat(records[id].beat.last, status)]
  {
  }

  /** Exactly the ALIVE workers, each once, with what their records say. */
  ghost predicate Snapshot(alive: seq<Worker>, records: map<string, WorkerRecord>) {
    && (forall w :: w in alive <==>
         && w.id in records && records[w.id].beat.status.Alive?
         && w.capabilities == records[w.id].capabilities && w.capacity == records[w.id].capacity
         && w.running == records[w.id].running)
    && (forall i, j | 0 <= i < j < |alive| :: alive[i].id != alive[j].id)
  }

  function OneMoreRunning(records: map<string, WorkerRecord>, id: string): map<string, WorkerRecord> {
    if id in records then records[id := records[id].(running := records[id].running + 1)] else records
  }
}
