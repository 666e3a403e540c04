/** One tick of the scheduler: pop a batch, pick a worker for every job, send it, and queue again what did not go
    out. */
module Scheduling {
  import opened Options
  import opened EngineModel
  import opened Orchestration
  import opened ReadyQueues
  import opened Selection
  import opened DeadMansSwitch

  /** What happens around one job: the jobs the engine pushes meanwhile, the worker chosen, and whether the call
      that sends the job succeeds. */
  datatype Turn = Turn(pushed: seq<Job>, choice: Option<string>, delivered: bool)

  /** A tick under way: the queue, the rest of the batch, and what was sent. */
  datatype Round = Round(queue: seq<Job>, left: seq<Job>, sent: seq<Delivery>)

  predicate GoesOut(t: Turn) {
    t.choice.Some? && t.delivered
  }

  function Take(r: Round, t: Turn): Round
    requires r.left != []
  {
    if GoesOut(t) then Round(r.queue + t.pushed, r.left[1..], r.sent + [Delivery(r.left[0], t.choice.value)])
    else Round(r.queue + t.pushed + [r.left[0]], r.left[1..], r.sent)
  }

  function Play(r: Round, turns: seq<Turn>): (r': Round)
    requires |turns| <= |r.left|
    ensures r'.left == r.left[|turns|..]
  {
    if turns == [] then r else Take(Play(r, turns[..|turns| - 1]), turns[|turns| - 1])
  }

  function CountSent(sent: seq<Delivery>, worker: string): nat {
    if sent == [] then 0 else CountSent(sent[..|sent| - 1], worker) + if sent[|sent| - 1].worker == worker then 1 else 0
  }

  /** The workers' records after deliveries, each counted at its worker. */
  ghost predicate Counted(was: map<string, WorkerRecord>, now: map<string, WorkerRecord>, sent: seq<Delivery>) {
    && now.Keys == was.Keys
    && forall id | id in was :: now[id] == was[id].(running := was[id].running + CountSent(sent, id))
  }

  function Bumped(records: map<string, WorkerRecord>, t: Turn): map<string, WorkerRecord> {
    if GoesOut(t) then OneMoreRunning(records, t.choice.value) else records
  }

  class Scheduler {
    const queue: ReadyQueue
    const registry: WorkerRegistry

    constructor (registry: WorkerRegistry)
      requires registry.Filed()
      ensures Valid() && queue.Contents() == [] && this.registry == registry
      ensures fresh(queue) && fresh(queue.items.arr)
    {
      this.queue := new ReadyQueue();
      this.registry := registry;
    }

    ghost predicate Valid()
      reads this, queue, registry, registry.workers.Values
    {
      queue.Valid() && registry.Filed()
    }

    /** The engine pushes jobs while the tick is under way. */
    method PushAll(jobs: seq<Job>, spare: nat, ghost batch: Slice)
      requires queue.Valid() && queue.Behind(batch)
      modifies queue, queue.items.arr
      ensures queue.Valid() && queue.Contents() == old(queue.Contents()) + jobs
      ensures queue.Behind(batch) && batch.Contents() == old(batch.Contents())
      ensures queue.items.arr == old(queue.items.arr) || fresh(queue.items.arr)
    {
      for i := 0 to |jobs|
        invariant queue.Valid() && queue.Contents() == old(queue.Contents()) + jobs[..i]
        invariant queue.Behind(batch) && batch.Contents() == old(batch.Contents())
        invariant queue.items.arr == old(queue.items.arr) || fresh(queue.items.arr)
      {
        queue.Push(jobs[i], spare, batch);
        assert jobs[..i + 1] == jobs[..i] + [jobs[i]];
      }
      assert jobs[..|jobs|] == jobs;
    }

    /** One job of the batch, read from the batch's slice when its turn comes: it goes back into the queue, or is
        sent. */
    method AssignOne(batch: Slice, i: nat, workers: seq<Worker>, pushed: seq<Job>, delivered: bool, spare: nat,
                     sent: seq<Delivery>)
      returns (turn: Turn, sent': seq<Delivery>)
      requires queue.Valid() && queue.Behind(batch) && i < batch.len
      modifies queue, queue.items.arr
      ensures queue.Valid() && queue.Behind(batch) && batch.Contents() == old(batch.Contents())
      ensures queue.items.arr == old(queue.items.arr) || fresh(queue.items.arr)
      ensures turn.pushed == pushed && turn.delivered == delivered
      ensures RightChoice(workers, batch.Contents()[i].taskType, turn.choice)
      ensures Round(queue.Contents(), batch.Contents()[i + 1..], sent') ==
              Take(Round(old(queue.Contents()), batch.Contents()[i..], sent), turn)
    {
      var job := batch.arr[batch.off + i];
      ghost var jobs := batch.Contents();
      assert jobs[i] == job && jobs[i..][0] == job && jobs[i..][1..] == jobs[i + 1..];
      PushAll(pushed, spare, batch);
      var choice := SelectWorker(workers, job.taskType);
      turn, sent' := Turn(pushed, choice, delivered), sent;
      if choice.None? || !delivered {
        queue.Push(job, spare, batch);
      } else {
        sent' := sent + [Delivery(job, choice.value)];
      }
    }

    /** A whole turn: the job, and the count of its worker if it went out. */
    method TakeTurn(batch: Slice, i: nat, workers: seq<Worker>, pushed: seq<Job>, delivered: bool, spare: nat,
                    sent: seq<Delivery>)
      returns (turn: Turn, sent': seq<Delivery>)
      requires Valid() && queue.Behind(batch) && i < batch.len
      modifies queue, queue.items.arr, registry.workers.Values
      ensures Valid() && queue.Behind(batch) && batch.Contents() == old(batch.Contents())
      ensures queue.items.arr == old(queue.items.arr) || fresh(queue.items.arr)
      ensures turn.pushed == pushed && turn.delivered == delivered
      ensures RightChoice(workers, batch.Contents()[i].taskType, turn.choice)
      ensures Round(queue.Contents(), batch.Contents()[i + 1..], sent') ==
              Take(Round(old(queue.Contents()), batch.Contents()[i..], sent), turn)
      ensures registry.Records() == Bumped(old(registry.Records()), turn)
    {
      ghost var records := registry.Records();
      turn, sent' := AssignOne(batch, i, workers, pushed, delivered, spare, sent);
      assert registry.Records() == records && registry.Filed();
      if turn.choice.Some? && turn.delivered {
        registry.IncrementRunning(turn.choice.value);
      }
    }

    /** One tick. `pushes(i)` is what the engine queues before the end of turn `i`, and `rpc(i)` the outcome of the
        call that sends the job, if there is one. The workers are those ALIVE when the batch has been popped. */
    method AssignOnce(pushes: nat -> seq<Job>, rpc: nat -> bool, spare: nat)
      returns (workers: seq<Worker>, ghost turns: seq<Turn>, sent: seq<Delivery>)
      requires Valid()
      modifies queue, queue.items.arr, registry.workers.Values
      ensures Valid()
      ensures Ticked(old(queue.Contents()), workers, pushes, rpc, turns, queue.Contents(), sent)
      ensures turns != [] ==> Snapshot(workers, old(registry.Records()))
      ensures |turns| == if |old(queue.Contents())| < 50 then |old(queue.Contents())| else 50
      ensures SentRight(old(queue.Contents()), turns, rpc, sent)
      ensures forall d | d in sent ::
                && d.worker in old(registry.Records()) && old(registry.Records())[d.worker].beat.status.Alive?
                && d.job.taskType in old(registry.Records())[d.worker].capabilities
      ensures registry.Records().Keys == old(registry.Records()).Keys
      ensures forall id | id in old(registry.Records()) ::
                registry.Records()[id] == old(registry.Records())[id].(running :=
                  old(registry.Records())[id].running + |set k | 0 <= k < |sent| && sent[k].worker == id|)
    {
      ghost var jobs, records := queue.Contents(), registry.Records();
      var batch := queue.PopBatch(BATCH);
      NothingPlayed(jobs[Popped(|jobs|)..], jobs[..Popped(|jobs|)], [], pushes, rpc);
      workers := [];
      if batch.len == 0 {
        assert registry.Records() == records;
        TickSends(jobs, [], pushes, rpc, [], queue.Contents(), []);
        CountedRight(records, records, []);
        return [], [], [];
      }
      workers := registry.AliveWorkers();
      assert registry.Records() == records && registry.Filed();
      ghost var done;
      turns, sent, done := AssignBatch(batch, workers, pushes, rpc, spare);
      TickIsDone(jobs, workers, pushes, rpc, turns, done);
      TickSends(jobs, workers, pushes, rpc, turns, queue.Contents(), sent);
      SentToCapable(jobs, records, workers, pushes, rpc, turns, sent);
      CountedRight(records, registry.Records(), sent);
    }

    /** Turn `i` of the batch, added to the turns played so far. */
    method NextTurn(batch: Slice, i: nat, workers: seq<Worker>, pushes: nat -> seq<Job>, rpc: nat -> bool, spare: nat,
                    sent: seq<Delivery>, ghost tail: seq<Job>, ghost turns: seq<Turn>, ghost r: Round,
                    ghost was: map<string, WorkerRecord>)
      returns (ghost turn: Turn, sent': seq<Delivery>, ghost r': Round)
      requires Valid() && queue.Behind(batch) && i < batch.len && |turns| == i
      requires r == Round(queue.Contents(), batch.Contents()[i..], sent)
      requires PlayedAndCounted(tail, batch.Contents(), workers, pushes, rpc, turns, r, was, registry.Records())
      modifies queue, queue.items.arr, registry.workers.Values
      ensures Valid() && queue.Behind(batch) && batch.Contents() == old(batch.Contents())
      ensures queue.items.arr == old(queue.items.arr) || fresh(queue.items.arr)
      ensures r' == Round(queue.Contents(), batch.Contents()[i + 1..], sent')
      ensures PlayedAndCounted(tail, batch.Contents(), workers, pushes, rpc, turns + [turn], r', was,
                               registry.Records())
    {
      ghost var jobs, now := batch.Contents(), registry.Records();
      var done;
      done, sent' := TakeTurn(batch, i, workers, pushes(i), rpc(i), spare, sent);
      turn := done;
      r' := Round(queue.Contents(), jobs[i + 1..], sent');
      OneMoreTurn(tail, jobs, workers, pushes, rpc, turns, turn, r, r', was, now, registry.Records());
    }

    method AssignBatch(batch: Slice, workers: seq<Worker>, pushes: nat -> seq<Job>, rpc: nat -> bool, spare: nat)
      returns (ghost turns: seq<Turn>, sent: seq<Delivery>, ghost done: Round)
      requires Valid() && queue.Behind(batch)
      modifies queue, queue.items.arr, registry.workers.Values
      ensures Valid() && done == Round(queue.Contents(), [], sent)
      ensures Played(old(queue.Contents()), old(batch.Contents()), workers, pushes, rpc, turns, done)
      ensures Counted(old(registry.Records()), registry.Records(), sent)
    {
      ghost var jobs, tail, was := batch.Contents(), queue.Contents(), registry.Records();
      turns, sent := [], [];
      done := Round(tail, jobs, []);
      NothingPlayed(tail, jobs, workers, pushes, rpc);
      for i := 0 to batch.len
        invariant Valid() && queue.Behind(batch) && batch.Contents() == jobs
        invariant queue.items.arr == old(queue.items.arr) || fresh(queue.items.arr)
        invariant registry.workers == old(registry.workers)
        invariant |turns| == i && done == Round(queue.Contents(), jobs[i..], sent)
        invariant PlayedAndCounted(tail, jobs, workers, pushes, rpc, turns, done, was, registry.Records())
      {
        ghost var turn;
        turn, sent, done := NextTurn(batch, i, workers, pushes, rpc, spare, sent, tail, turns, done, was);
        turns := turns + [turn];
      }
    }
  }

  /** The turns so far were right, and lead from the popped batch to `r`. */
  ghost predicate Played(tail: seq<Job>, batch: seq<Job>, workers: seq<Worker>, pushes: nat -> seq<Job>,
                         rpc: nat -> bool, turns: seq<Turn>, r: Round) {
    TurnsRight(turns, batch, workers, pushes, rpc) && r == Play(Round(tail, batch, []), turns)
  }

  lemma NothingPlayed(tail: seq<Job>, batch: seq<Job>, workers: seq<Worker>, pushes: nat -> seq<Job>, rpc: nat -> bool)
    ensures Played(tail, batch, workers, pushes, rpc, [], Round(tail, batch, []))
  {
  }

  lemma OneMorePlayed(tail: seq<Job>, batch: seq<Job>, workers: seq<Worker>, pushes: nat -> seq<Job>, rpc: nat -> bool,
                      turns: seq<Turn>, turn: Turn, r: Round, r': Round)
    requires Played(tail, batch, workers, pushes, rpc, turns, r) && |turns| < |batch| && r' == Take(r, turn)
    requires turn.pushed == pushes(|turns|) && turn.delivered == rpc(|turns|)
    requires RightChoice(workers, batch[|turns|].taskType, turn.choice)
    ensures Played(tail, batch, workers, pushes, rpc, turns + [turn], r')
  {
    assert (turns + [turn])[..|turns|] == turns;
  }

  /** What a tick does to the queue `jobs`: its turns are played over the popped batch, all of it. */
  ghost predicate Ticked(jobs: seq<Job>, workers: seq<Worker>, pushes: nat -> seq<Job>, rpc: nat -> bool,
                         turns: seq<Turn>, queue: seq<Job>, sent: seq<Delivery>) {
    var n := Popped(|jobs|);
    |turns| == n && Played(jobs[n..], jobs[..n], workers, pushes, rpc, turns, Round(queue, [], sent))
  }

  lemma TickIsDone(jobs: seq<Job>, workers: seq<Worker>, pushes: nat -> seq<Job>, rpc: nat -> bool, turns: seq<Turn>,
                   r: Round)
    requires var n := Popped(|jobs|); Played(jobs[n..], jobs[..n], workers, pushes, rpc, turns, r)
    requires r.left == []
    ensures Ticked(jobs, workers, pushes, rpc, turns, r.queue, r.sent)
  {
  }

  /** The turns `at`, in this order, are those that sent their job to the worker chosen; these are the deliveries. */
  ghost predicate SentAt(jobs: seq<Job>, turns: seq<Turn>, rpc: nat -> bool, sent: seq<Delivery>, at: seq<nat>) {
    && |at| == |sent| && |turns| <= |jobs|
    && (forall k | 0 <= k < |at| ::
          && at[k] < |turns| && turns[at[k]].choice.Some? && rpc(at[k])
          && sent[k] == Delivery(jobs[at[k]], turns[at[k]].choice.value))
    && (forall k, l | 0 <= k < l < |at| :: at[k] < at[l])
    && (forall i: nat | i < |turns| && turns[i].choice.Some? && rpc(i) :: i in at)
  }

  ghost predicate SentRight(jobs: seq<Job>, turns: seq<Turn>, rpc: nat -> bool, sent: seq<Delivery>) {
    exists at :: SentAt(jobs, turns, rpc, sent, at)
  }

  lemma {:induction false} PlaySends(tail: seq<Job>, batch: seq<Job>, turns: seq<Turn>, rpc: nat -> bool)
    returns (at: seq<nat>)
    requires |turns| <= |batch| && forall i: nat | i < |turns| :: turns[i].delivered == rpc(i)
    ensures SentAt(batch, turns, rpc, Play(Round(tail, batch, []), turns).sent, at)
  {
    if turns == [] {
      return [];
    }
    var n := |turns| - 1;
    at := PlaySends(tail, batch, turns[..n], rpc);
    assert Play(Round(tail, batch, []), turns[..n]).left[0] == batch[n];
    if GoesOut(turns[n]) {
      at := at + [n];
    }
  }

  lemma TickSends(jobs: seq<Job>, workers: seq<Worker>, pushes: nat -> seq<Job>, rpc: nat -> bool, turns: seq<Turn>,
                  queue: seq<Job>, sent: seq<Delivery>)
    requires Ticked(jobs, workers, pushes, rpc, turns, queue, sent)
    ensures SentRight(jobs, turns, rpc, sent)
  {
    var n := Popped(|jobs|);
    var at := PlaySends(jobs[n..], jobs[..n], turns, rpc);
    assert SentAt(jobs, turns, rpc, sent, at);
  }

  /** A right choice is a worker that is ALIVE and can run the job. */
  lemma ChosenIsCapable(workers: seq<Worker>, records: map<string, WorkerRecord>, taskType: string, id: string)
    requires Snapshot(workers, records) && RightChoice(workers, taskType, Some(id))
    ensures id in records && records[id].beat.status.Alive? && taskType in records[id].capabilities
  {
  }

  /** Every job that was sent went to such a worker. */
  lemma SentToCapable(jobs: seq<Job>, records: map<string, WorkerRecord>, workers: seq<Worker>,
                      pushes: nat -> seq<Job>, rpc: nat -> bool, turns: seq<Turn>, sent: seq<Delivery>)
    requires SentRight(jobs, turns, rpc, sent) && Snapshot(workers, records)
    requires |turns| <= |jobs| && TurnsRight(turns, jobs[..|turns|], workers, pushes, rpc)
    ensures forall d | d in sent ::
              && d.worker in records && records[d.worker].beat.status.Alive?
              && d.job.taskType in records[d.worker].capabilities
  {
    var at :| SentAt(jobs, turns, rpc, sent, at);
    forall k | 0 <= k < |sent|
      ensures sent[k].worker in records && records[sent[k].worker].beat.status.Alive?
              && sent[k].job.taskType in records[sent[k].worker].capabilities
    {
      assert jobs[..|turns|][at[k]] == jobs[at[k]];
      ChosenIsCapable(workers, records, sent[k].job.taskType, sent[k].worker);
    }
  }

  function Popped(length: nat): nat {
    if length < BATCH then length else BATCH
  }

  /** Every turn saw its own pushes and its own call, and made a right choice. */
  ghost predicate TurnsRight(turns: seq<Turn>, jobs: seq<Job>, workers: seq<Worker>, pushes: nat -> seq<Job>,
                             rpc: nat -> bool) {
    |turns| <= |jobs| && forall i | 0 <= i < |turns| ::
      turns[i].pushed == pushes(i) && turns[i].delivered == rpc(i)
          && RightChoice(workers, jobs[i].taskType, turns[i].choice)
  }

  lemma OneMoreCounted(was: map<string, WorkerRecord>, before: map<string, WorkerRecord>, now: map<string,
                       WorkerRecord>,
                       sent: seq<Delivery>, turn: Turn, job: Job)
    requires Counted(was, before, sent) && now == Bumped(before, turn)
    ensures Counted(was, now, if GoesOut(turn) then sent + [Delivery(job, turn.choice.value)] else sent)
  {
    if GoesOut(turn) {
      var sent' := sent + [Delivery(job, turn.choice.value)];
      assert sent'[..|sent|] == sent;
    }
  }

  function Places(sent: seq<Delivery>, worker: string, n: nat): set<nat>
    requires n <= |sent|
  {
    set k | 0 <= k < n && sent[k].worker == worker
  }

  lemma OneMorePlace(sent: seq<Delivery>, worker: string, n: nat)
    requires n < |sent|
    ensures |Places(sent, worker, n + 1)| == |Places(sent, worker, n)| + if sent[n].worker == worker then 1 else 0
  {
    assert Places(sent, worker, n + 1) == Places(sent, worker, n) + if sent[n].worker == worker then {n} else {};
  }

  /** What is counted are the deliveries to the worker. */
  lemma {:induction false} CountedBySending(sent: seq<Delivery>, worker: string)
    ensures CountSent(sent, worker) == |set k | 0 <= k < |sent| && sent[k].worker == worker|
  {
    for n := 0 to |sent|
      invariant CountSent(sent[..n], worker) == |Places(sent, worker, n)|
    {
      assert sent[..n + 1][..n] == sent[..n];
      OneMorePlace(sent, worker, n);
    }
    assert sent[..|sent|] == sent;
    assert Places(sent, worker, |sent|) == set k | 0 <= k < |sent| && sent[k].worker == worker;
  }

  ghost predicate PlayedAndCounted(tail: seq<Job>, batch: seq<Job>, workers: seq<Worker>, pushes: nat -> seq<Job>,
                                   rpc: nat -> bool, turns: seq<Turn>, r: Round, was: map<string, WorkerRecord>,
                                   now: map<string, WorkerRecord>) {
    Played(tail, batch, workers, pushes, rpc, turns, r) && Counted(was, now, r.sent)
  }

  lemma OneMoreTurn(tail: seq<Job>, batch: seq<Job>, workers: seq<Worker>, pushes: nat -> seq<Job>, rpc: nat -> bool,
                    turns: seq<Turn>, turn: Turn, r: Round, r': Round, was: map<string, WorkerRecord>,
                    before: map<string, WorkerRecord>, now: map<string, WorkerRecord>)
    requires PlayedAndCounted(tail, batch, workers, pushes, rpc, turns, r, was, before)
    requires |turns| < |batch| && r' == Take(r, turn) && now == Bumped(before, turn)
    requires turn.pushed == pushes(|turns|) && turn.delivered == rpc(|turns|)
    requires RightChoice(workers, batch[|turns|].taskType, turn.choice)
    ensures PlayedAndCounted(tail, batch, workers, pushes, rpc, turns + [turn], r', was, now)
  {
    OneMorePlayed(tail, batch, workers, pushes, rpc, turns, turn, r, r');
    OneMoreCounted(was, before, now, r.sent, turn, r.left[0]);
  }

  lemma CountedRight(was: map<string, WorkerRecord>, now: map<string, WorkerRecord>, sent: seq<Delivery>)
    requires Counted(was, now, sent)
    ensures forall id | id in was ::
              now[id] == was[id].(running := was[id].running + |set k | 0 <= k < |sent| && sent[k].worker == id|)
  {
    forall id | id in was
      ensures now[id] == was[id].(running := was[id].running + |set k | 0 <= k < |sent| && sent[k].worker == id|)
    {
      CountedBySending(sent, id);
    }
  }

  // ---------------------------------------------------------------- what a tick amounts to

  /** The jobs of the batch that did not go out, in batch order. */
  function Failures(batch: seq<Job>, turns: seq<Turn>): seq<Job>
    requires |turns| <= |batch|
  {
    if turns == [] then []
    else
      var n := |turns| - 1;
      Failures(batch, turns[..n]) + if GoesOut(turns[n]) then [] else [batch[n]]
  }

  /** Everything the engine pushed meanwhile, in order. */
  function PushedIn(turns: seq<Turn>): seq<Job> {
    if turns == [] then [] else PushedIn(turns[..|turns| - 1]) + turns[|turns| - 1].pushed
  }

  /** `c` is made of `a` and `b`, each in its own order. */
  ghost predicate Interleaves<T>(c: seq<T>, a: seq<T>, b: seq<T>)
    decreases |c|
  {
    if c == [] then a == [] && b == []
    else
      || (a != [] && a[|a| - 1] == c[|c| - 1] && Interleaves(c[..|c| - 1], a[..|a| - 1], b))
      || (b != [] && b[|b| - 1] == c[|c| - 1] && Interleaves(c[..|c| - 1], a, b[..|b| - 1]))
  }

  lemma {:induction false} InterleaveRight<T>(c: seq<T>, a: seq<T>, b: seq<T>, more: seq<T>)
    requires Interleaves(c, a, b)
    ensures Interleaves(c + more, a, b + more)
  {
    if more == [] {
      assert c + more == c && b + more == b;
    } else {
      var front := more[..|more| - 1];
      InterleaveRight(c, a, b, front);
      assert (c + more)[..|c + more| - 1] == c + front && (b + more)[..|b + more| - 1] == b + front;
    }
  }

  lemma InterleaveLeft<T>(c: seq<T>, a: seq<T>, b: seq<T>, x: T)
    requires Interleaves(c, a, b)
    ensures Interleaves(c + [x], a + [x], b)
  {
    assert (c + [x])[..|c|] == c && (a + [x])[..|a|] == a;
  }

  /** After a tick the queue is what was not popped, followed by the failed jobs in batch order interleaved with
      what the engine pushed. */
  lemma {:induction false} QueueAfterTick(tail: seq<Job>, batch: seq<Job>, turns: seq<Turn>) returns (c: seq<Job>)
    requires |turns| <= |batch|
    ensures Play(Round(tail, batch, []), turns).queue == tail + c
    ensures Interleaves(c, Failures(batch, turns), PushedIn(turns))
  {
    if turns == [] {
      c := [];
    } else {
      var n := |turns| - 1;
      var before := QueueAfterTick(tail, batch, turns[..n]);
      assert turns[..n] + [turns[n]] == turns;
      c := before + turns[n].pushed + if GoesOut(turns[n]) then [] else [batch[n]];
      QueueAfterTurn(before, Failures(batch, turns[..n]), PushedIn(turns[..n]), turns[n], batch[n]);
    }
  }

  lemma QueueAfterTurn(c: seq<Job>, a: seq<Job>, b: seq<Job>, t: Turn, job: Job)
    requires Interleaves(c, a, b)
    ensures var back := if GoesOut(t) then [] else [job]; Interleaves(c + t.pushed + back, a + back, b + t.pushed)
  {
    InterleaveRight(c, a, b, t.pushed);
    if GoesOut(t) {
      assert c + t.pushed + [] == c + t.pushed && a + [] == a;
    } else {
      InterleaveLeft(c + t.pushed, a, b + t.pushed, job);
    }
  }

  lemma {:induction false} OnlyLeft<T>(c: seq<T>, a: seq<T>)
    requires Interleaves(c, a, [])
    ensures c == a
  {
    if c != [] {
      OnlyLeft(c[..|c| - 1], a[..|a| - 1]);
      assert c == c[..|c| - 1] + [c[|c| - 1]] && a == a[..|a| - 1] + [a[|a| - 1]];
    }
  }

  /** Undisturbed, a tick leaves exactly the unpopped jobs followed by the failed ones. */
  lemma {:induction false} UndisturbedTick(tail: seq<Job>, batch: seq<Job>, turns: seq<Turn>)
    requires |turns| <= |batch| && PushedIn(turns) == []
    ensures Play(Round(tail, batch, []), turns).queue == tail + Failures(batch, turns)
  {
    var c := QueueAfterTick(tail, batch, turns);
    OnlyLeft(c, Failures(batch, turns));
  }

  function JobsOf(sent: seq<Delivery>): seq<Job> {
    seq(|sent|, i requires 0 <= i < |sent| => sent[i].job)
  }

  ghost function AllJobs(r: Round): multiset<Job> {
    multiset(r.queue) + multiset(r.left) + multiset(JobsOf(r.sent))
  }

  lemma TakeKeepsJobs(r: Round, t: Turn)
    requires r.left != []
    ensures AllJobs(Take(r, t)) == AllJobs(r) + multiset(t.pushed)
  {
    assert r.left == [r.left[0]] + r.left[1..];
    if GoesOut(t) {
      assert JobsOf(r.sent + [Delivery(r.left[0], t.choice.value)]) == JobsOf(r.sent) + [r.left[0]];
    }
  }

  /** No job is lost or doubled: what is queued, left and sent is what there was and what was pushed. */
  lemma {:induction false} TickConservesJobs(r: Round, turns: seq<Turn>)
    requires |turns| <= |r.left|
    ensures AllJobs(Play(r, turns)) == AllJobs(r) + multiset(PushedIn(turns))
  {
    if turns != [] {
      TickConservesJobs(r, turns[..|turns| - 1]);
      TakeKeepsJobs(Play(r, turns[..|turns| - 1]), turns[|turns| - 1]);
    }
  }

  // ---------------------------------------------------------------- a tick is a run of the model's steps

  /** A state of the model that stands for a tick under way. */
  ghost predicate Stands(s: Sys, r: Round) {
    s.engine.queue == r.queue && s.held == r.left && s.inflight.None?
  }

  /** The engine is called, any number of times, while the scheduler is between two of its own steps. */
  ghost predicate Calls(s: Sys, s': Sys) {
    exists acts: seq<Action> :: Leads(s, acts, s') && forall i | 0 <= i < |acts| :: acts[i].EngineCall?
  }

  lemma CallsOnlyPush(s: Sys, s': Sys)
    requires Calls(s, s')
    ensures s.engine.queue <= s'.engine.queue && s'.held == s.held && s'.inflight == s.inflight
  {
    var acts: seq<Action> :| Leads(s, acts, s') && forall i | 0 <= i < |acts| :: acts[i].EngineCall?;
    var ss: seq<Sys> :| Segment(ss, acts) && ss[0] == s && ss[|acts|] == s';
    for k := 0 to |acts|
      invariant s.engine.queue <= ss[k].engine.queue && ss[k].held == s.held && ss[k].inflight == s.inflight
    {
      assert Follows(ss, acts, k);
    }
  }

  /** A turn in the model: the engine is called; if a worker was found the job is sent and the engine is called again
      while it is on its way; then the job goes back or arrives. */
  ghost predicate TurnSteps(s: Sys, t: Turn, a: Sys, b: Sys, c: Sys, s': Sys) {
    && Calls(s, a)
    && c.engine.queue == s.engine.queue + t.pushed
    && if t.choice.None? then a == b == c && Next(c, NoWorker, s')
       else Next(a, Send(t.choice.value), b) && Calls(b, c) && Next(c, if t.delivered then RpcDone else RpcFailed, s')
  }

  /** Such a turn leaves the queue and the batch as `Take` does, and what it delivers is what `Take` counts as sent. */
  lemma {:induction false} TurnIsModelled(s: Sys, r: Round, t: Turn, a: Sys, b: Sys, c: Sys, s': Sys)
    requires r.left != [] && Stands(s, r) && TurnSteps(s, t, a, b, c, s')
    ensures Stands(s', Take(r, t))
    ensures GoesOut(t) ==> c.inflight == Some(Take(r, t).sent[|r.sent|])
  {
    CallsOnlyPush(s, a);
    if t.choice.Some? {
      CallsOnlyPush(b, c);
      assert c.inflight == Some(Delivery(r.left[0], t.choice.value));
      if t.delivered {
        ArrivalPushesNothing(c, s');
      }
    }
  }

  lemma ArrivalPushesNothing(s: Sys, s': Sys)
    requires Next(s, RpcDone, s')
    ensures s'.engine.queue == s.engine.queue && s'.held == s.held && s'.inflight.None?
  {
    var Delivery(job, worker) := s.inflight.value;
    DispatchMakesNothingReady(s.engine.workflows, job.workflowId, job.id, worker);
    AppendsNothing(s.engine.queue, s'.engine.queue);
  }

  ghost predicate Turned(s: Sys, t: Turn, s': Sys) {
    exists a, b, c :: TurnSteps(s, t, a, b, c, s')
  }

  ghost predicate TurnedAt(ms: seq<Sys>, turns: seq<Turn>, i: nat)
    requires i < |turns| && |ms| == |turns| + 1
  {
    Turned(ms[i], turns[i], ms[i + 1])
  }

  /** The turns of a tick one after the other, with the states between them. */
  ghost predicate TickSteps(ms: seq<Sys>, turns: seq<Turn>) {
    |ms| == |turns| + 1 && forall i {:trigger TurnedAt(ms, turns, i)} | 0 <= i < |turns| :: TurnedAt(ms, turns, i)
  }

  lemma TurnInTick(ms: seq<Sys>, turns: seq<Turn>, i: nat, j: nat, r: Round, r': Round)
    requires TickSteps(ms, turns) && j == i + 1 <= |turns| && r.left != [] && Stands(ms[i], r)
             && r' == Take(r, turns[i])
    ensures Stands(ms[j], r')
  {
    assert TurnedAt(ms, turns, i);
    var a, b, c :| TurnSteps(ms[i], turns[i], a, b, c, ms[j]);
    TurnIsModelled(ms[i], r, turns[i], a, b, c, ms[j]);
  }

  /** A whole tick of the model, popping a batch and playing its turns with the engine called in between, ends with the
      queue that `AssignOnce` leaves and nothing in the scheduler's hands. */
  lemma {:induction false} TickIsModelled(s: Sys, ms: seq<Sys>, turns: seq<Turn>)
    requires TickSteps(ms, turns) && Next(s, PopBatch, ms[0]) && |turns| == Popped(|s.engine.queue|)
    ensures var jobs, n := s.engine.queue, Popped(|s.engine.queue|);
            Stands(ms[|turns|], Play(Round(jobs[n..], jobs[..n], []), turns)) && ms[|turns|].held == []
  {
    var jobs, n := s.engine.queue, Popped(|s.engine.queue|);
    var start := Round(jobs[n..], jobs[..n], []);
    assert turns[..0] == [];
    for i := 0 to |turns|
      invariant Stands(ms[i], Play(start, turns[..i]))
    {
      assert turns[..i + 1][..i] == turns[..i] && turns[..i + 1][i] == turns[i];
      TurnInTick(ms, turns, i, i + 1, Play(start, turns[..i]), Play(start, turns[..i + 1]));
    }
    assert turns[..|turns|] == turns;
  }

  // ---------------------------------------------------------------- every tick is possible

  lemma TurnLeads(s: Sys, t: Turn, a: Sys, b: Sys, c: Sys, s': Sys)
    requires TurnSteps(s, t, a, b, c, s')
    ensures exists acts :: Leads(s, acts, s')
  {
    var acts: seq<Action> :| Leads(s, acts, a);
    if t.choice.None? {
      LeadsOn(s, acts, a, NoWorker, s');
    } else {
      LeadsOn(s, acts, a, Send(t.choice.value), b);
      var more: seq<Action> :| Leads(b, more, c);
      LeadsVia(s, acts + [Send(t.choice.value)], b, more, c);
      LeadsOn(s, acts + [Send(t.choice.value)] + more, c, if t.delivered then RpcDone else RpcFailed, s');
    }
  }

  lemma NoCalls(s: Sys)
    ensures Calls(s, s)
  {
    LeadsNowhere(s);
  }

  /** Whatever the engine has pushed, the model can take any turn: no worker, a failed call, or a delivery. */
  lemma {:induction false} TurnIsPossible(s: Sys, a: Sys, choice: Option<string>, delivered: bool)
    returns (t: Turn, b: Sys, s': Sys)
    requires s.held != [] && s.inflight.None? && Calls(s, a)
    ensures t.choice == choice && t.delivered == delivered && a.engine.queue == s.engine.queue + t.pushed
    ensures TurnSteps(s, t, a, b, if choice.None? then a else b, s')
    ensures exists acts :: Leads(s, acts, s')
  {
    CallsOnlyPush(s, a);
    t := Turn(a.engine.queue[|s.engine.queue|..], choice, delivered);
    if choice.None? {
      b := a;
      s' := a.(engine := a.engine.(queue := a.engine.queue + [a.held[0]]), held := a.held[1..]);
      assert Next(a, NoWorker, s');
    } else {
      b := a.(held := a.held[1..], inflight := Some(Delivery(a.held[0], choice.value)));
      assert Next(a, Send(choice.value), b);
      NoCalls(b);
      s' := Delivered(b, delivered);
    }
    TurnLeads(s, t, a, b, if choice.None? then a else b, s');
  }

  lemma Delivered(b: Sys, delivered: bool) returns (s': Sys)
    requires b.inflight.Some?
    ensures Next(b, if delivered then RpcDone else RpcFailed, s')
  {
    var Delivery(job, worker) := b.inflight.value;
    if delivered {
      var e := CanCall(b.engine, OnTaskDispatched(job.workflowId, job.id, worker));
      s' := b.(engine := e, inflight := None, target := b.target[(job.workflowId, job.id) := worker]);
    } else {
      s' := b.(engine := b.engine.(queue := b.engine.queue + [job]), inflight := None);
    }
  }
}
