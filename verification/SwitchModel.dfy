/** The dead man's switch as a state machine: a loop that takes triggers from a queue and checks the worker behind each,
    interleaved with registrations, heartbeats and the passing of time. Times are nanoseconds. */
module SwitchModel {
  import opened Options
  import opened Sequences

  datatype WorkerStatus = Alive | Suspect | Dead

  datatype Beat = Beat(last: int, status: WorkerStatus)

  datatype Trigger = Trigger(key: string, timeout: int)

  /** The retry queue: the deadline of every active key, in whole seconds, and the triggers in turn. */
  datatype Watch = Watch(active: map<string, int>, list: seq<Trigger>)

  const SECOND: int := 1_000_000_000
  const GRACE: int := 15 * SECOND

  /** A time in whole seconds, rounded down. */
  function Unix(now: int): int {
    now / SECOND
  }

  function Deadline(now: int, timeout: int): int {
    Unix(now + timeout)
  }

  /** A new trigger for a key that has none. */
  function PushTrigger(w: Watch, tr: Trigger, now: int): Watch {
    if tr.key in w.active then w else Watch(w.active[tr.key := Deadline(now, tr.timeout)], w.list + [tr])
  }

  function CancelTrigger(w: Watch, key: string): Watch {
    w.(active := w.active - {key})
  }

  /** The trigger whose turn it is, with its deadline if its key is still active. */
  function PopTrigger(w: Watch): (Option<(Trigger, int)>, Watch) {
    if w.list == [] then (None, w)
    else (if w.list[0].key in w.active then Some((w.list[0], w.active[w.list[0].key])) else None,
          w.(list := w.list[1..]))
  }

  /** Back into the queue with a deadline, unless the key was cancelled meanwhile. */
  function RequeueTrigger(w: Watch, tr: Trigger, t: int): Watch {
    if tr.key in w.active then Watch(w.active[tr.key := t], w.list + [tr]) else w
  }

  // ---------------------------------------------------------------- the switch

  /** How far the loop has come with the trigger in its hands: popped, found due, heartbeat found stale, verdict
      reached, check over, deadline settled. */
  datatype Phase =
    | Idle
    | Popped(tr: Trigger, t: int)
    | Due(tr: Trigger, t: int)
    | Stale(tr: Trigger, t: int)
    | Judged(tr: Trigger, t: int, verdict: WorkerStatus)
    | Checked(tr: Trigger, t: int, again: bool)
    | Settled(tr: Trigger, t: int)

  /** `registering` are registrations whose trigger is not pushed yet. The rest is memory nobody reads: when the check
      under way and the one that found a worker SUSPECT looked at the heartbeat, and the keys whose last heartbeat or
      registration came between a look and the verdict it led to. */
  datatype Switch = Switch(
    beats: map<string, Beat>, watch: Watch, phase: Phase, registering: seq<string>, now: int,
    lookedAt: int, suspectAt: map<string, int>, raced: set<string>)

  datatype Action =
    | Register(id: string)
    | Push(i: nat)
    | Heartbeat(id: string)
    | Disarm(key: string)
    | Tick(delta: nat)
    | Pop
    | NotDue
    | StartCheck
    | Look
    | Judge
    | Apply
    | Rearm
    | Drop
    | Requeue

  ghost predicate Init(s: Switch) {
    s == Switch(map[], Watch(map[], []), Idle, [], s.now, s.now, map[], {})
  }

  predicate Holds(p: Phase, key: string) {
    !p.Idle? && p.tr.key == key
  }

  /** The heartbeat of `key` has been looked at and the verdict is not in force yet. */
  predicate MidCheck(p: Phase, key: string) {
    (p.Stale? || p.Judged?) && p.tr.key == key
  }

  function HeardFrom(s: Switch, id: string): Switch {
    s.(beats := s.beats[id := Beat(s.now, Alive)], raced := if MidCheck(s.phase, id) then s.raced + {id}
       else s.raced - {id})
  }

  /** What a look at the worker's record leads to. */
  function LookAt(s: Switch, tr: Trigger, t: int): Phase {
    if tr.key !in s.beats || s.beats[tr.key].status.Dead? then Checked(tr, t, false)
    else if s.now - s.beats[tr.key].last > GRACE then Stale(tr, t)
    else Judged(tr, t, Alive)
  }

  function MarkWorker(beats: map<string, Beat>, id: string, status: WorkerStatus): map<string, Beat> {
    if id in beats then beats[id := beats[id].(status := status)] else beats
  }

  ghost predicate Next(s: Switch, a: Action, s': Switch) {
    match a
    case Register(id) => s' == HeardFrom(s, id).(registering := s.registering + [id])
    case Push(i) => i < |s.registering| && s' == s.(registering := Without(s.registering, i),
                                                    watch := PushTrigger(s.watch, Trigger(s.registering[i], GRACE),
      s.now))
    case Heartbeat(id) => s' == if id in s.beats then HeardFrom(s, id) else s
    case Disarm(key) => s' == s.(watch := CancelTrigger(s.watch, key))
    case Tick(delta) => s' == s.(now := s.now + delta)
    case Pop =>
      && s.phase.Idle?
      && var (got, rest) := PopTrigger(s.watch);
      s' == s.(watch := rest, phase := if got.Some? then Popped(got.value.0, got.value.1) else Idle)
    case NotDue => s.phase.Popped? && Unix(s.now) < s.phase.t && s' == s.(phase := Settled(s.phase.tr, s.phase.t))
    case StartCheck => s.phase.Popped? && Unix(s.now) >= s.phase.t && s' == s.(phase := Due(s.phase.tr, s.phase.t))
    case Look =>
      && s.phase.Due?
      && s' == s.(phase := LookAt(s, s.phase.tr, s.phase.t), lookedAt := s.now)
    case Judge =>
      && s.phase.Stale? && s.phase.tr.key in s.beats
      && s' == s.(phase := Judged(s.phase.tr, s.phase.t, if s.beats[s.phase.tr.key].status.Alive? then Suspect
                                  else Dead))
    case Apply =>
      && s.phase.Judged?
      && s' == s.(beats := MarkWorker(s.beats, s.phase.tr.key, s.phase.verdict),
                  phase := Checked(s.phase.tr, s.phase.t, !s.phase.verdict.Dead?),
                  suspectAt := if s.phase.verdict.Suspect? then s.suspectAt[s.phase.tr.key := s.lookedAt]
                      else s.suspectAt)
    case Rearm => s.phase.Checked? && s.phase.again
      && s' == s.(phase := Settled(s.phase.tr, Deadline(s.now, s.phase.tr.timeout)))
    case Drop => s.phase.Checked? && !s.phase.again
      && s' == s.(watch := CancelTrigger(s.watch, s.phase.tr.key), phase := Settled(s.phase.tr, s.phase.t))
    case Requeue => s.phase.Settled? && s' == s.(watch := RequeueTrigger(s.watch, s.phase.tr, s.phase.t), phase := Idle)
  }

  /** What a check without interruption makes of the records, and whether the worker is to be checked again. */
  function CheckNow(beats: map<string, Beat>, id: string, now: int): (map<string, Beat>, bool) {
    if id !in beats || beats[id].status.Dead? then (beats, false)
    else if now - beats[id].last <= GRACE then (MarkWorker(beats, id, Alive), true)
    else if beats[id].status.Alive? then (MarkWorker(beats, id, Suspect), true)
    else (MarkWorker(beats, id, Dead), false)
  }

  /** A check leaves unknown and DEAD workers alone for good. One heard from in the last 15 seconds is ALIVE; one silent
      for longer is SUSPECT if it was ALIVE, and otherwise DEAD and not checked again. */
  ghost predicate RightCheck(was: map<string, Beat>, id: string, now: int, beats: map<string, Beat>, again: bool) {
    if id !in was || was[id].status == Dead then beats == was && !again
    else if now - was[id].last <= 15_000_000_000 then beats == was[id := Beat(was[id].last, Alive)] && again
    else if was[id].status == Alive then beats == was[id := Beat(was[id].last, Suspect)] && again
    else beats == was[id := Beat(was[id].last, Dead)] && !again
  }

  /** Uninterrupted, the steps of a check come to that. */
  lemma {:induction false} CheckIsModelled(s: Switch, s1: Switch, s2: Switch, s3: Switch)
    requires s.phase.Due? && Next(s, Look, s1)
    requires if s1.phase.Stale? then Next(s1, Judge, s2) else s2 == s1
    requires if s2.phase.Judged? then Next(s2, Apply, s3) else s3 == s2
    ensures s3.phase.Checked? && s3.phase.tr == s.phase.tr && s3.watch == s.watch
    ensures (s3.beats, s3.phase.again) == CheckNow(s.beats, s.phase.tr.key, s.now)
    ensures RightCheck(s.beats, s.phase.tr.key, s.now, s3.beats, s3.phase.again)
  {
    var id := s.phase.tr.key;
    if s1.phase.Checked? {
      assert s3 == s1;
    } else {
      assert s2.phase.Judged?;
    }
  }

  // ---------------------------------------------------------------- no trigger is lost

  /** Some trigger in the queue bears the key. */
  predicate Listed(list: seq<Trigger>, key: string) {
    exists i :: 0 <= i < |list| && list[i].key == key
  }

  /** Every active key has a trigger in the queue or in the loop's hands. */
  ghost predicate Armed(w: Watch, p: Phase) {
    forall key {:trigger Listed(w.list, key)} | key in w.active :: Listed(w.list, key) || Holds(p, key)
  }

  lemma ListedAppend(list: seq<Trigger>, tr: Trigger, key: string)
    ensures Listed(list + [tr], key) <==> Listed(list, key) || key == tr.key
  {
    if Listed(list, key) {
      var i :| 0 <= i < |list| && list[i].key == key;
      assert (list + [tr])[i].key == key;
    }
    assert (list + [tr])[|list|] == tr;
    if Listed(list + [tr], key) && key != tr.key {
      var i :| 0 <= i < |list + [tr]| && (list + [tr])[i].key == key;
      assert list[i].key == key;
    }
  }

  lemma ListedTail(list: seq<Trigger>, key: string)
    requires list != [] && key != list[0].key && Listed(list, key)
    ensures Listed(list[1..], key)
  {
    var i :| 0 <= i < |list| && list[i].key == key;
    assert list[1..][i - 1].key == key;
  }

  lemma {:induction false} StepKeepsArmed(s: Switch, a: Action, s': Switch)
    requires Armed(s.watch, s.phase) && Next(s, a, s')
    ensures Armed(s'.watch, s'.phase)
  {
    forall key | key in s'.watch.active
      ensures Listed(s'.watch.list, key) || Holds(s'.phase, key)
    {
      match a
      case Push(i) => ListedAppend(s.watch.list, Trigger(s.registering[i], GRACE), key);
      case Pop =>
        if s.watch.list != [] && key != s.watch.list[0].key {
          ListedTail(s.watch.list, key);
        }
      case Requeue => ListedAppend(s.watch.list, s.phase.tr, key);
      case _ =>
    }
  }

  // ---------------------------------------------------------------- two strikes

  /** What is known of a SUSPECT worker whose last heartbeat did not come in the middle of a check. */
  predicate Struck(s: Switch, key: string) {
    && key in s.suspectAt && key in s.beats
    && s.beats[key].last + GRACE < s.suspectAt[key] <= s.now
  }

  predicate SuspectKey(s: Switch, key: string) {
    key in s.beats && s.beats[key].status.Suspect? && key !in s.raced
  }

  /** The deadline that the next check of `key` will wait for. */
  predicate Spaced(s: Switch, key: string)
    requires key in s.suspectAt
  {
    if Holds(s.phase, key) then
      match s.phase
      case Checked(_, _, again) => again
      case _ => s.phase.t >= Deadline(s.suspectAt[key], GRACE)
    else key in s.watch.active ==> s.watch.active[key] >= Deadline(s.suspectAt[key], GRACE)
  }

  /** What the check under way has established. */
  predicate CheckSound(s: Switch) {
    match s.phase
    case Due(_, t) => Unix(s.now) >= t
    case Stale(tr, t) => && Unix(s.now) >= t && tr.key in s.beats && !s.beats[tr.key].status.Dead?
                         && (tr.key !in s.raced ==> s.beats[tr.key].last + GRACE < s.lookedAt <= s.now)
    case Judged(tr, t, verdict) =>
      && Unix(s.now) >= t && tr.key in s.beats
      && (verdict.Suspect? && tr.key !in s.raced ==> s.beats[tr.key].last + GRACE < s.lookedAt <= s.now)
      && (verdict.Dead? && tr.key !in s.raced ==> SuspectKey(s, tr.key))
    case _ => true
  }

  /** All triggers come from registrations. */
  predicate Uniform(s: Switch) {
    (forall i | 0 <= i < |s.watch.list| :: s.watch.list[i].timeout == GRACE)
        && (!s.phase.Idle? ==> s.phase.tr.timeout == GRACE)
  }

  ghost predicate TwoStrikes(s: Switch) {
    forall key | SuspectKey(s, key) :: Struck(s, key) && Spaced(s, key)
  }

  ghost predicate SwitchInv(s: Switch) {
    Armed(s.watch, s.phase) && Uniform(s) && CheckSound(s) && TwoStrikes(s)
  }

  lemma LaterDeadline(a: int, b: int, timeout: int)
    requires a <= b
    ensures Deadline(a, timeout) <= Deadline(b, timeout)
  {
  }

  lemma StepKeepsUniform(s: Switch, a: Action, s': Switch)
    requires Uniform(s) && Next(s, a, s')
    ensures Uniform(s')
  {
  }

  lemma StepKeepsCheckSound(s: Switch, a: Action, s': Switch)
    requires SwitchInv(s) && Next(s, a, s')
    ensures CheckSound(s')
  {
  }

  /** Steps that are not the loop's. */
  predicate Outside(a: Action) {
    a.Register? || a.Push? || a.Heartbeat? || a.Disarm? || a.Tick?
  }

  lemma OutsideKeepsStrike(s: Switch, a: Action, s': Switch, key: string)
    requires TwoStrikes(s) && Next(s, a, s') && Outside(a) && SuspectKey(s', key)
    ensures Struck(s', key) && Spaced(s', key)
  {
    assert SuspectKey(s, key);
    if a.Push? {
      LaterDeadline(s.suspectAt[key], s.now, GRACE);
    }
  }

  lemma ApplyKeepsStrike(s: Switch, s': Switch, key: string)
    requires TwoStrikes(s) && CheckSound(s) && Next(s, Apply, s') && SuspectKey(s', key)
    ensures Struck(s', key) && Spaced(s', key)
  {
    assert SuspectKey(s, key) || s.phase.tr.key == key;
  }

  lemma CheckKeepsStrike(s: Switch, a: Action, s': Switch, key: string)
    requires TwoStrikes(s) && Next(s, a, s') && SuspectKey(s', key)
    requires a.Pop? || a.NotDue? || a.StartCheck? || a.Look? || a.Judge?
    ensures Struck(s', key) && Spaced(s', key)
  {
    assert SuspectKey(s, key);
  }

  lemma EndKeepsStrike(s: Switch, a: Action, s': Switch, key: string)
    requires TwoStrikes(s) && Uniform(s) && Next(s, a, s') && SuspectKey(s', key)
    requires a.Rearm? || a.Drop? || a.Requeue?
    ensures Struck(s', key) && Spaced(s', key)
  {
    assert SuspectKey(s, key);
    if a.Rearm? {
      LaterDeadline(s.suspectAt[key], s.now, GRACE);
    }
  }

  lemma {:induction false} StepKeepsStrikes(s: Switch, a: Action, s': Switch)
    requires TwoStrikes(s) && CheckSound(s) && Uniform(s) && Next(s, a, s')
    ensures TwoStrikes(s')
  {
    forall key | SuspectKey(s', key)
      ensures Struck(s', key) && Spaced(s', key)
    {
      if Outside(a) {
        OutsideKeepsStrike(s, a, s', key);
      } else if a.Apply? {
        ApplyKeepsStrike(s, s', key);
      } else if a.Rearm? || a.Drop? || a.Requeue? {
        EndKeepsStrike(s, a, s', key);
      } else {
        CheckKeepsStrike(s, a, s', key);
      }
    }
  }

  // ---------------------------------------------------------------- runs

  ghost predicate Follows(ss: seq<Switch>, acts: seq<Action>, i: nat)
    requires i < |acts| && |ss| == |acts| + 1
  {
    Next(ss[i], acts[i], ss[i + 1])
  }

  ghost predicate Segment(ss: seq<Switch>, acts: seq<Action>) {
    |ss| == |acts| + 1 && forall i {:trigger Follows(ss, acts, i)} | 0 <= i < |acts| :: Follows(ss, acts, i)
  }

  ghost predicate IsRun(ss: seq<Switch>, acts: seq<Action>) {
    Segment(ss, acts) && Init(ss[0])
  }

  lemma StartIsGood(ss: seq<Switch>, acts: seq<Action>)
    requires IsRun(ss, acts)
    ensures SwitchInv(ss[0])
  {
  }

  lemma StepKeepsInvariant(ss: seq<Switch>, acts: seq<Action>, i: nat, j: nat)
    requires IsRun(ss, acts) && i < |acts| && j == i + 1 && SwitchInv(ss[i])
    ensures SwitchInv(ss[j])
  {
    assert Follows(ss, acts, i);
    StepKeepsArmed(ss[i], acts[i], ss[j]);
    StepKeepsUniform(ss[i], acts[i], ss[j]);
    StepKeepsCheckSound(ss[i], acts[i], ss[j]);
    StepKeepsStrikes(ss[i], acts[i], ss[j]);
  }

  lemma {:induction false} EveryReachableSwitchIsGood(ss: seq<Switch>, acts: seq<Action>, i: nat)
    requires IsRun(ss, acts) && i < |ss|
    ensures SwitchInv(ss[i])
  {
    StartIsGood(ss, acts);
    for k := 0 to i
      invariant SwitchInv(ss[k])
    {
      StepKeepsInvariant(ss, acts, k, k + 1);
    }
  }

  /** Every active key has a trigger in the queue or in the loop's hands, in every state of every run. */
  lemma {:induction false} NoTriggerIsLost(ss: seq<Switch>, acts: seq<Action>, i: nat, key: string)
    requires IsRun(ss, acts) && i < |ss| && key in ss[i].watch.active
    ensures Listed(ss[i].watch.list, key) || Holds(ss[i].phase, key)
  {
    EveryReachableSwitchIsGood(ss, acts, i);
  }

  /** A check and the one before it are more than fourteen seconds apart, because deadlines are rounded down to
      seconds. */
  lemma ChecksAreSpaced(before: int, now: int, t: int)
    requires t >= Deadline(before, GRACE) && Unix(now) >= t
    ensures now > before + 14 * SECOND
  {
  }

  // ---------------------------------------------------------------- when a death is premature

  /** A heartbeat or registration of the worker. */
  predicate BeatOf(s: Switch, a: Action, id: string) {
    a == Register(id) || (a == Heartbeat(id) && id in s.beats)
  }

  /** ... that comes between a look at the worker's record and the verdict the look leads to. */
  predicate BeatMidCheck(s: Switch, a: Action, id: string) {
    BeatOf(s, a, id) && MidCheck(s.phase, id)
  }

  /** The last heartbeat came mid-check, before step `i`. */
  ghost predicate LastBeatMidCheck(ss: seq<Switch>, acts: seq<Action>, i: nat, id: string)
    requires i <= |acts| && |ss| == |acts| + 1
  {
    && id in ss[i].beats
    && exists b :: 0 <= b < i && BeatMidCheck(ss[b], acts[b], id) && ss[b].now == ss[i].beats[id].last
  }

  lemma BeatsAfter(s: Switch, a: Action, s': Switch, id: string)
    requires Next(s, a, s')
    ensures s.now <= s'.now
    ensures BeatOf(s, a, id) ==> id in s'.beats && s'.beats[id].last == s.now
    ensures !BeatOf(s, a, id) ==> (id in s'.beats <==> id in s.beats) && (id in s.raced <==> id in s'.raced)
    ensures !BeatOf(s, a, id) && id in s.beats ==> s'.beats[id].last == s.beats[id].last
    ensures id in s'.raced && BeatOf(s, a, id) ==> BeatMidCheck(s, a, id)
  {
  }

  lemma RacedStep(ss: seq<Switch>, acts: seq<Action>, i: nat, j: nat, id: string)
    requires IsRun(ss, acts) && j == i + 1 <= |acts|
    requires id in ss[i].raced ==> LastBeatMidCheck(ss, acts, i, id)
    ensures id in ss[j].raced ==> LastBeatMidCheck(ss, acts, j, id)
  {
    assert Follows(ss, acts, i);
    BeatsAfter(ss[i], acts[i], ss[j], id);
  }

  lemma {:induction false} RacedMeansMidCheck(ss: seq<Switch>, acts: seq<Action>, i: nat, id: string)
    requires IsRun(ss, acts) && i <= |acts| && id in ss[i].raced
    ensures LastBeatMidCheck(ss, acts, i, id)
  {
    for k := 0 to i
      invariant id in ss[k].raced ==> LastBeatMidCheck(ss, acts, k, id)
    {
      RacedStep(ss, acts, k, k + 1, id);
    }
  }

  lemma LaterStep(ss: seq<Switch>, acts: seq<Action>, i: nat, j: nat, id: string, t: int)
    requires IsRun(ss, acts) && j == i + 1 <= |acts|
    requires id in ss[i].beats && t <= ss[i].beats[id].last && t <= ss[i].now
    ensures id in ss[j].beats && t <= ss[j].beats[id].last && t <= ss[j].now
  {
    assert Follows(ss, acts, i);
    BeatsAfter(ss[i], acts[i], ss[j], id);
  }

  lemma FirstStep(ss: seq<Switch>, acts: seq<Action>, i: nat, j: nat, id: string)
    requires IsRun(ss, acts) && j == i + 1 <= |acts| && BeatOf(ss[i], acts[i], id)
    ensures id in ss[j].beats && ss[i].now <= ss[j].beats[id].last && ss[i].now <= ss[j].now
  {
    assert Follows(ss, acts, i);
    BeatsAfter(ss[i], acts[i], ss[j], id);
  }

  /** The record holds the last heartbeat: none that came before is later. */
  lemma {:induction false} RecordIsLatest(ss: seq<Switch>, acts: seq<Action>, b: nat, i: nat, id: string)
    requires IsRun(ss, acts) && b < i <= |acts| && BeatOf(ss[b], acts[b], id)
    ensures id in ss[i].beats && ss[b].now <= ss[i].beats[id].last
  {
    FirstStep(ss, acts, b, b + 1, id);
    for k := b + 1 to i
      invariant id in ss[k].beats && ss[b].now <= ss[k].beats[id].last && ss[b].now <= ss[k].now
    {
      LaterStep(ss, acts, k, k + 1, id, ss[b].now);
    }
  }

  /** The step that declares a worker DEAD. */
  predicate Declares(s: Switch, a: Action, id: string) {
    a.Apply? && s.phase.Judged? && s.phase.verdict.Dead? && s.phase.tr.key == id && id in s.beats
  }

  lemma SilentUnlessRaced(ss: seq<Switch>, acts: seq<Action>, i: nat, id: string)
    requires IsRun(ss, acts) && i < |acts| && Declares(ss[i], acts[i], id)
    ensures id in ss[i].raced || ss[i].now - ss[i].beats[id].last > 29 * SECOND
  {
    EveryReachableSwitchIsGood(ss, acts, i);
    var s := ss[i];
    if id !in s.raced {
      assert SuspectKey(s, id);
      ChecksAreSpaced(s.suspectAt[id], s.now, s.phase.t);
    }
  }

  /** A worker is declared DEAD although it was heard from in the last 29 seconds if and only if in these 29 seconds a
      heartbeat or registration of it came in the middle of a check, between the look and the verdict. */
  lemma {:induction false} PrematureDeathIff(ss: seq<Switch>, acts: seq<Action>, i: nat, id: string)
    requires IsRun(ss, acts) && i < |acts| && Declares(ss[i], acts[i], id)
    ensures ss[i].now - ss[i].beats[id].last <= 29 * SECOND <==>
            exists b :: 0 <= b < i && BeatMidCheck(ss[b], acts[b], id) && ss[i].now - ss[b].now <= 29 * SECOND
  {
    if ss[i].now - ss[i].beats[id].last <= 29 * SECOND {
      SilentUnlessRaced(ss, acts, i, id);
      RacedMeansMidCheck(ss, acts, i, id);
    }
    if b :| 0 <= b < i && BeatMidCheck(ss[b], acts[b], id) && ss[i].now - ss[b].now <= 29 * SECOND {
      RecordIsLatest(ss, acts, b, i, id);
    }
  }

  lemma OnlyVerdictsKill(s: Switch, a: Action, s': Switch, id: string)
    requires Next(s, a, s') && id in s.beats && id in s'.beats
    requires !s.beats[id].status.Dead? && s'.beats[id].status.Dead?
    ensures Declares(s, a, id) && s'.beats[id].last == s.beats[id].last
  {
  }

  /** Where no heartbeat or registration of it ever comes in the middle of a check, a worker becomes DEAD only when its
      last heartbeat is more than 29 seconds old. */
  lemma {:induction false} DeadOnlyAfterSilence(ss: seq<Switch>, acts: seq<Action>, i: nat, id: string)
    requires IsRun(ss, acts) && i < |acts| && id in ss[i].beats && id in ss[i + 1].beats
    requires !ss[i].beats[id].status.Dead? && ss[i + 1].beats[id].status.Dead?
    requires forall b | 0 <= b < i :: !BeatMidCheck(ss[b], acts[b], id)
    ensures ss[i].now - ss[i + 1].beats[id].last > 29 * SECOND
  {
    assert Follows(ss, acts, i);
    OnlyVerdictsKill(ss[i], acts[i], ss[i + 1], id);
    PrematureDeathIff(ss, acts, i, id);
  }

  // ---------------------------------------------------------------- which workers are watched

  predicate Pushes(s: Switch, a: Action, key: string) {
    a.Push? && a.i < |s.registering| && s.registering[a.i] == key
  }

  /** The loop drops the trigger after its verdict, or somebody cancels it. */
  predicate Disarms(s: Switch, a: Action, key: string) {
    a == Disarm(key) || (a.Drop? && s.phase.Checked? && s.phase.tr.key == key)
  }

  lemma ActiveStep(s: Switch, a: Action, s': Switch, key: string)
    requires Next(s, a, s')
    ensures key in s'.watch.active <==> Pushes(s, a, key) || (key in s.watch.active && !Disarms(s, a, key))
  {
  }

  /** A registration's push at step `i` that nothing has undone before step `j`. */
  ghost predicate ArmedSince(ss: seq<Switch>, acts: seq<Action>, i: nat, j: nat, key: string)
    requires i < j <= |acts| && |ss| == |acts| + 1
  {
    Pushes(ss[i], acts[i], key) && forall k | i < k < j :: !Disarms(ss[k], acts[k], key)
  }

  ghost predicate ArmedAt(ss: seq<Switch>, acts: seq<Action>, j: nat, key: string)
    requires j <= |acts| && |ss| == |acts| + 1
  {
    exists i :: 0 <= i < j && ArmedSince(ss, acts, i, j, key)
  }

  lemma ArmedStep(ss: seq<Switch>, acts: seq<Action>, i: nat, j: nat, key: string)
    requires IsRun(ss, acts) && j == i + 1 <= |acts|
    requires key in ss[i].watch.active <==> ArmedAt(ss, acts, i, key)
    ensures key in ss[j].watch.active <==> ArmedAt(ss, acts, j, key)
  {
    assert Follows(ss, acts, i);
    ActiveStep(ss[i], acts[i], ss[j], key);
    if ArmedAt(ss, acts, i, key) && !Disarms(ss[i], acts[i], key) {
      var k :| 0 <= k < i && ArmedSince(ss, acts, k, i, key);
      assert ArmedSince(ss, acts, k, j, key);
    }
    if Pushes(ss[i], acts[i], key) {
      assert ArmedSince(ss, acts, i, j, key);
    }
    if ArmedAt(ss, acts, j, key) {
      var k :| 0 <= k < j && ArmedSince(ss, acts, k, j, key);
      assert k < i ==> ArmedSince(ss, acts, k, i, key) && !Disarms(ss[i], acts[i], key);
    }
  }

  /** A worker's trigger is active if and only if some push of it has not been followed by a cancellation or by the
      loop's dropping it. */
  lemma {:induction false} WatchedIff(ss: seq<Switch>, acts: seq<Action>, j: nat, key: string)
    requires IsRun(ss, acts) && j <= |acts|
    ensures key in ss[j].watch.active <==> ArmedAt(ss, acts, j, key)
  {
    for k := 0 to j
      invariant key in ss[k].watch.active <==> ArmedAt(ss, acts, k, key)
    {
      ArmedStep(ss, acts, k, k + 1, key);
    }
  }

  /** The loop is bound to drop the trigger of this key: the verdict DEAD is reached, or the check over without a
      next one. */
  predicate Doomed(p: Phase, key: string) {
    Holds(p, key) && ((p.Judged? && p.verdict.Dead?) || (p.Checked? && !p.again))
  }

  lemma DoomedStep(ss: seq<Switch>, acts: seq<Action>, i: nat, j: nat, key: string)
    requires IsRun(ss, acts) && j == i + 1 <= |acts| && !Pushes(ss[i], acts[i], key)
    requires Doomed(ss[i].phase, key) || key !in ss[i].watch.active
    ensures Doomed(ss[j].phase, key) || key !in ss[j].watch.active
  {
    assert Follows(ss, acts, i);
  }

  lemma DoomedPush(ss: seq<Switch>, acts: seq<Action>, i: nat, j: nat, key: string)
    requires IsRun(ss, acts) && j == i + 1 <= |acts| && Pushes(ss[i], acts[i], key) && Doomed(ss[i].phase, key)
    ensures Doomed(ss[j].phase, key)
  {
    assert Follows(ss, acts, i);
  }

  /** A registration that pushes while the loop is bound to drop the key's trigger is void: once the loop has done so,
      and until another push, the worker has no trigger. */
  lemma {:induction false} VoidRegistration(ss: seq<Switch>, acts: seq<Action>, i: nat, j: nat, key: string)
    requires IsRun(ss, acts) && i < j <= |acts| && Pushes(ss[i], acts[i], key) && Doomed(ss[i].phase, key)
    requires (forall k | i < k < j :: !Pushes(ss[k], acts[k], key)) && !Doomed(ss[j].phase, key)
    ensures key !in ss[j].watch.active
  {
    DoomedPush(ss, acts, i, i + 1, key);
    for k := i + 1 to j
      invariant Doomed(ss[k].phase, key) || key !in ss[k].watch.active
    {
      DoomedStep(ss, acts, k, k + 1, key);
    }
  }

  // ---------------------------------------------------------------- a worker that nobody watches

  /** Nothing will check this worker: no trigger is active, in the loop's hands, or about to be pushed. */
  predicate Unwatched(s: Switch, id: string) {
    id !in s.watch.active && !Holds(s.phase, id) && id !in s.registering
  }

  lemma UnwatchedStep(s: Switch, a: Action, s': Switch, id: string)
    requires Unwatched(s, id) && id in s.beats && Next(s, a, s') && a != Register(id)
    ensures Unwatched(s', id) && id in s'.beats
    ensures s'.beats[id].status == s.beats[id].status || s'.beats[id].status.Alive?
  {
  }

  lemma UnwatchedRunStep(ss: seq<Switch>, acts: seq<Action>, i: nat, j: nat, id: string)
    requires IsRun(ss, acts) && i < |acts| && j == i + 1 && acts[i] != Register(id)
    requires Unwatched(ss[i], id) && id in ss[i].beats
    ensures Unwatched(ss[j], id) && id in ss[j].beats
    ensures ss[j].beats[id].status == ss[i].beats[id].status || ss[j].beats[id].status.Alive?
  {
    assert Follows(ss, acts, i);
    UnwatchedStep(ss[i], acts[i], ss[j], id);
  }

  /** A worker that nobody watches stays ALIVE for the rest of the run, however long it is silent, until it registers
      again. */
  lemma {:induction false} UnwatchedStaysAlive(ss: seq<Switch>, acts: seq<Action>, i: nat, j: nat, id: string)
    requires IsRun(ss, acts) && i <= j < |ss| && (forall k | i <= k < j :: acts[k] != Register(id))
    requires Unwatched(ss[i], id) && id in ss[i].beats && ss[i].beats[id].status.Alive?
    ensures id in ss[j].beats && ss[j].beats[id].status.Alive?
  {
    for k := i to j
      invariant Unwatched(ss[k], id) && id in ss[k].beats && ss[k].beats[id].status.Alive?
    {
      UnwatchedRunStep(ss, acts, k, k + 1, id);
    }
  }

  // ---------------------------------------------------------------- particular runs

  /** Some actions lead from `s` to `s'`. */
  ghost predicate Leads(s: Switch, s': Switch) {
    exists ss: seq<Switch>, acts: seq<Action> :: Segment(ss, acts) && ss[0] == s && ss[|acts|] == s'
  }

  ghost predicate Reachable(s: Switch) {
    exists s0 :: Init(s0) && Leads(s0, s)
  }

  lemma LeadsNowhere(s: Switch)
    ensures Leads(s, s)
  {
    var acts: seq<Action> := [];
    assert Segment([s], acts) && [s][0] == s && [s][|acts|] == s;
  }

  lemma LeadsOn(s: Switch, m: Switch, a: Action, s': Switch)
    requires Leads(s, m) && Next(m, a, s')
    ensures Leads(s, s')
  {
    var ss: seq<Switch>, acts: seq<Action> :| Segment(ss, acts) && ss[0] == s && ss[|acts|] == m;
    var ss', acts' := ss + [s'], acts + [a];
    forall i | 0 <= i < |acts'|
      ensures Follows(ss', acts', i)
    {
      assert i < |acts| ==> Follows(ss, acts, i);
    }
    assert Segment(ss', acts') && ss'[0] == s && ss'[|acts'|] == s';
  }

  lemma ReachStart(s: Switch)
    requires Init(s)
    ensures Reachable(s)
  {
    LeadsNowhere(s);
  }

  lemma ReachStep(s: Switch, a: Action, s': Switch)
    requires Reachable(s) && Next(s, a, s')
    ensures Reachable(s')
  {
    var s0 :| Init(s0) && Leads(s0, s);
    LeadsOn(s0, s, a, s');
  }

  /** A worker that was silent for sixteen seconds and has just been found SUSPECT. */
  function Found(id: string): Switch {
    Switch(map[id := Beat(0, Suspect)], Watch(map[id := 31], [Trigger(id, GRACE)]), Idle, [], 16 * SECOND, 16 * SECOND,
           map[id := 16 * SECOND], {})
  }

  /** Sixteen seconds later, with the verdict DEAD reached but not in force. */
  function Condemned(id: string): Switch {
    Switch(map[id := Beat(0, Suspect)], Watch(map[id := 31], []), Judged(Trigger(id, GRACE), 31, Dead), [], 32 * SECOND,
           32 * SECOND, map[id := 16 * SECOND], {})
  }

  lemma FoundIsReachable(id: string)
    ensures Reachable(Found(id))
  {
    var tr := Trigger(id, GRACE);
    var s0 := Switch(map[], Watch(map[], []), Idle, [], 0, 0, map[], {});
    ReachStart(s0);
    var s1 := s0.(beats := map[id := Beat(0, Alive)], registering := [id]);
    ReachStep(s0, Register(id), s1);
    var s2 := s1.(registering := [], watch := Watch(map[id := 15], [tr]));
    ReachStep(s1, Push(0), s2);
    var s3 := s2.(now := 16 * SECOND);
    ReachStep(s2, Tick(16 * SECOND), s3);
    FoundAfterCheck(id, s3);
  }

  lemma FoundAfterCheck(id: string, s3: Switch)
    requires s3 == Switch(map[id := Beat(0, Alive)], Watch(map[id := 15], [Trigger(id, GRACE)]), Idle, [], 16 * SECOND,
                          0, map[], {})
    requires Reachable(s3)
    ensures Reachable(Found(id))
  {
    var tr := Trigger(id, GRACE);
    var s4 := s3.(watch := Watch(map[id := 15], []), phase := Popped(tr, 15));
    ReachStep(s3, Pop, s4);
    var s5 := s4.(phase := Due(tr, 15));
    ReachStep(s4, StartCheck, s5);
    var s6 := s5.(phase := Stale(tr, 15), lookedAt := 16 * SECOND);
    ReachStep(s5, Look, s6);
    var s7 := s6.(phase := Judged(tr, 15, Suspect));
    ReachStep(s6, Judge, s7);
    FoundAfterVerdict(id, s7);
  }

  lemma FoundAfterVerdict(id: string, s7: Switch)
    requires s7 == Switch(map[id := Beat(0, Alive)], Watch(map[id := 15], []), Judged(Trigger(id, GRACE), 15, Suspect),
                          [],
                          16 * SECOND, 16 * SECOND, map[], {})
    requires Reachable(s7)
    ensures Reachable(Found(id))
  {
    var tr := Trigger(id, GRACE);
    var s8 := s7.(phase := Checked(tr, 15, true), beats := map[id := Beat(0, Suspect)],
                  suspectAt := map[id := 16 * SECOND]);
    ReachStep(s7, Apply, s8);
    var s9 := s8.(phase := Settled(tr, 31));
    ReachStep(s8, Rearm, s9);
    ReachStep(s9, Requeue, Found(id));
  }

  lemma CondemnedIsReachable(id: string)
    ensures Reachable(Condemned(id))
  {
    FoundIsReachable(id);
    var tr := Trigger(id, GRACE);
    var s1 := Found(id).(now := 32 * SECOND);
    ReachStep(Found(id), Tick(16 * SECOND), s1);
    var s2 := s1.(watch := Watch(map[id := 31], []), phase := Popped(tr, 31));
    ReachStep(s1, Pop, s2);
    var s3 := s2.(phase := Due(tr, 31));
    ReachStep(s2, StartCheck, s3);
    var s4 := s3.(phase := Stale(tr, 31), lookedAt := 32 * SECOND);
    ReachStep(s3, Look, s4);
    ReachStep(s4, Judge, Condemned(id));
  }

  /** Without the exception the bound fails: a heartbeat between the verdict and its application is overruled, and the
      worker is DEAD with a heartbeat that is no time old. */
  lemma FreshlyHeardYetDead(id: string)
    ensures exists s :: Reachable(s) && id in s.beats && s.beats[id] == Beat(s.now, Dead)
  {
    CondemnedIsReachable(id);
    var s1 := Condemned(id).(beats := map[id := Beat(32 * SECOND, Alive)], raced := {id});
    ReachStep(Condemned(id), Heartbeat(id), s1);
    var s2 := s1.(beats := map[id := Beat(32 * SECOND, Dead)], phase := Checked(Trigger(id, GRACE), 31, false));
    ReachStep(s1, Apply, s2);
    assert Reachable(s2) && s2.beats[id] == Beat(s2.now, Dead);
  }

  /** A worker that was declared DEAD and sends a heartbeat again is ALIVE and unwatched. */
  lemma RevivedIsUnwatched(id: string)
    ensures exists s :: Reachable(s) && id in s.beats && s.beats[id].status.Alive? && Unwatched(s, id)
  {
    CondemnedIsReachable(id);
    var tr := Trigger(id, GRACE);
    var s1 := Condemned(id).(beats := map[id := Beat(0, Dead)], phase := Checked(tr, 31, false));
    ReachStep(Condemned(id), Apply, s1);
    var s2 := s1.(watch := Watch(map[], []), phase := Settled(tr, 31));
    ReachStep(s1, Drop, s2);
    var s3 := s2.(phase := Idle);
    ReachStep(s2, Requeue, s3);
    var s4 := s3.(beats := map[id := Beat(32 * SECOND, Alive)]);
    ReachStep(s3, Heartbeat(id), s4);
    assert Reachable(s4) && s4.beats[id].status.Alive? && Unwatched(s4, id);
  }

  /** Declared DEAD and registered again, its trigger still to be dropped. */
  lemma RegisteredLate(id: string) returns (s3: Switch)
    ensures Reachable(s3) && s3.beats == map[id := Beat(s3.now, Alive)] && s3.watch == Watch(map[id := 31], [])
    ensures s3.phase == Checked(Trigger(id, GRACE), 31, false) && s3.registering == []
  {
    CondemnedIsReachable(id);
    var s1 := Condemned(id).(beats := map[id := Beat(0, Dead)], phase := Checked(Trigger(id, GRACE), 31, false));
    ReachStep(Condemned(id), Apply, s1);
    var s2 := s1.(beats := map[id := Beat(32 * SECOND, Alive)], registering := [id]);
    ReachStep(s1, Register(id), s2);
    s3 := s2.(registering := []);
    assert Without([id], 0) == [];
    ReachStep(s2, Push(0), s3);
  }

  /** A worker that registers after it was declared DEAD, but before the loop has dropped its old trigger, is ALIVE, has
      just been heard from, and is unwatched. */
  lemma RegisteredYetUnwatched(id: string)
    ensures exists s :: Reachable(s) && id in s.beats && s.beats[id] == Beat(s.now, Alive) && Unwatched(s, id)
  {
    var tr := Trigger(id, GRACE);
    var s3 := RegisteredLate(id);
    var s4 := s3.(watch := Watch(map[], []), phase := Settled(tr, 31));
    ReachStep(s3, Drop, s4);
    var s5 := s4.(phase := Idle);
    ReachStep(s4, Requeue, s5);
    assert Reachable(s5) && s5.beats[id] == Beat(s5.now, Alive) && Unwatched(s5, id);
  }

  // ---------------------------------------------------------------- the program's methods as steps

  lemma TimePasses(s: Switch, m: Switch, now: int) returns (s': Switch)
    requires Leads(s, m) && m.now <= now
    ensures Leads(s, s') && s' == m.(now := now)
  {
    s' := m.(now := now);
    LeadsOn(s, m, Tick(now - m.now), s');
  }

  /** A registration without interruption: the record, some time, the push. */
  lemma {:induction false} RegistrationIsModelled(s: Switch, id: string, pushedAt: int) returns (s': Switch)
    requires s.now <= pushedAt
    ensures Leads(s, s') && s'.beats == s.beats[id := Beat(s.now, Alive)] && s'.now == pushedAt
    ensures s'.watch == PushTrigger(s.watch, Trigger(id, GRACE), pushedAt) && s'.registering == s.registering
  {
    LeadsNowhere(s);
    var m := HeardFrom(s, id).(registering := s.registering + [id]);
    LeadsOn(s, s, Register(id), m);
    var n := TimePasses(s, m, pushedAt);
    s' := n.(registering := s.registering, watch := PushTrigger(s.watch, Trigger(id, GRACE), pushedAt));
    assert Without(s.registering + [id], |s.registering|) == s.registering;
    LeadsOn(s, n, Push(|s.registering|), s');
  }

  /** What the loop makes of a trigger in its hands, uninterrupted: the records, the queue, and the deadline. */
  function AttendOf(w: Watch, beats: map<string, Beat>, tr: Trigger, t: int, dueAt: int, checkedAt: int, rearmedAt: int)
    : (Watch, map<string, Beat>, int)
  {
    if Unix(dueAt) < t then (w, beats, t)
    else
      var (beats', again) := CheckNow(beats, tr.key, checkedAt);
      if again then (w, beats', Deadline(rearmedAt, tr.timeout)) else (CancelTrigger(w, tr.key), beats', t)
  }

  /** What one uninterrupted turn makes of the queue and of the records. */
  function TurnOf(w: Watch, beats: map<string, Beat>, dueAt: int, checkedAt: int, rearmedAt: int)
    : (Watch, map<string, Beat>)
  {
    var (got, rest) := PopTrigger(w);
    if got.None? then (rest, beats)
    else
      var (w', beats', t') := AttendOf(rest, beats, got.value.0, got.value.1, dueAt, checkedAt, rearmedAt);
      (RequeueTrigger(w', got.value.0, t'), beats')
  }

  /** A turn takes the first trigger. If its key was cancelled, that is all; if its deadline, in whole seconds, has not
      come, it goes to the end of the line as it is; if it has, the worker is checked,
          and either the trigger goes to the
      end of the line with a new deadline or its key is cancelled. */
  ghost predicate RightTurn(w: Watch, was: map<string, Beat>, dueAt: int, checkedAt: int, rearmedAt: int, w': Watch,
                            beats: map<string, Beat>) {
    if w.list == [] then w' == w && beats == was
    else
      var tr := w.list[0];
      if tr.key !in w.active then w' == Watch(w.active, w.list[1..]) && beats == was
      else if dueAt / 1_000_000_000 < w.active[tr.key] then w' == Watch(w.active, w.list[1..] + [tr]) && beats == was
      else
        || (RightCheck(was, tr.key, checkedAt, beats, true)
            && w' == Watch(w.active[tr.key := (rearmedAt + tr.timeout) / 1_000_000_000], w.list[1..] + [tr]))
        || (RightCheck(was, tr.key, checkedAt, beats, false) && w' == Watch(w.active - {tr.key}, w.list[1..]))
  }

  lemma TurnIsRight(w: Watch, beats: map<string, Beat>, dueAt: int, checkedAt: int, rearmedAt: int)
    ensures var (w', beats') := TurnOf(w, beats, dueAt, checkedAt, rearmedAt);
            RightTurn(w, beats, dueAt, checkedAt, rearmedAt, w', beats')
  {
    if w.list != [] && w.list[0].key in w.active && dueAt / 1_000_000_000 < w.active[w.list[0].key] {
      assert w.active[w.list[0].key := w.active[w.list[0].key]] == w.active;
    }
  }

  lemma CheckLeads(s: Switch, m: Switch) returns (s': Switch)
    requires Leads(s, m) && m.phase.Due?
    ensures Leads(s, s') && s'.phase.Checked? && s'.phase.tr == m.phase.tr && s'.phase.t == m.phase.t
    ensures s'.watch == m.watch && s'.now == m.now && (s'.beats, s'.phase.again) ==
            CheckNow(m.beats, m.phase.tr.key, m.now)
  {
    var tr, t := m.phase.tr, m.phase.t;
    var m1 := m.(phase := LookAt(m, tr, t), lookedAt := m.now);
    LeadsOn(s, m, Look, m1);
    if m1.phase.Checked? {
      return m1;
    }
    var m2 := m1;
    if m1.phase.Stale? {
      m2 := m1.(phase := Judged(tr, t, if m1.beats[tr.key].status.Alive? then Suspect else Dead));
      LeadsOn(s, m1, Judge, m2);
    }
    s' := Applied(m2);
    LeadsOn(s, m2, Apply, s');
  }

  function Applied(s: Switch): Switch
    requires s.phase.Judged?
  {
    s.(beats := MarkWorker(s.beats, s.phase.tr.key, s.phase.verdict),
       phase := Checked(s.phase.tr, s.phase.t, !s.phase.verdict.Dead?),
       suspectAt := if s.phase.verdict.Suspect? then s.suspectAt[s.phase.tr.key := s.lookedAt] else s.suspectAt)
  }

  /** From a popped trigger to its settled deadline. */
  lemma AttendLeads(s: Switch, m: Switch, checkedAt: int, rearmedAt: int) returns (s': Switch)
    requires Leads(s, m) && m.phase.Popped? && m.now <= checkedAt <= rearmedAt
    ensures Leads(s, s') && s'.phase.Settled? && s'.phase.tr == m.phase.tr
    ensures (s'.watch, s'.beats, s'.phase.t) ==
            AttendOf(m.watch, m.beats, m.phase.tr, m.phase.t, m.now, checkedAt, rearmedAt)
  {
    var tr, t := m.phase.tr, m.phase.t;
    if Unix(m.now) < t {
      s' := m.(phase := Settled(tr, t));
      LeadsOn(s, m, NotDue, s');
      return;
    }
    var m1 := m.(phase := Due(tr, t));
    LeadsOn(s, m, StartCheck, m1);
    m1 := TimePasses(s, m1, checkedAt);
    var m2 := CheckLeads(s, m1);
    if m2.phase.again {
      m2 := TimePasses(s, m2, rearmedAt);
      s' := m2.(phase := Settled(tr, Deadline(rearmedAt, tr.timeout)));
      LeadsOn(s, m2, Rearm, s');
    } else {
      s' := m2.(watch := CancelTrigger(m2.watch, tr.key), phase := Settled(tr, t));
      LeadsOn(s, m2, Drop, s');
    }
  }

  /** A turn of the loop without interruption is a run of the state machine. */
  lemma {:induction false} TurnIsModelled(s: Switch, dueAt: int, checkedAt: int, rearmedAt: int) returns (s': Switch)
    requires s.phase.Idle? && s.now <= dueAt <= checkedAt <= rearmedAt
    ensures Leads(s, s') && s'.phase.Idle? && (s'.watch, s'.beats) ==
            TurnOf(s.watch, s.beats, dueAt, checkedAt, rearmedAt)
  {
    LeadsNowhere(s);
    var (got, rest) := PopTrigger(s.watch);
    var m := s.(watch := rest, phase := if got.Some? then Popped(got.value.0, got.value.1) else Idle);
    LeadsOn(s, s, Pop, m);
    if got.None? {
      return m;
    }
    m := TimePasses(s, m, dueAt);
    var n := AttendLeads(s, m, checkedAt, rearmedAt);
    s' := n.(watch := RequeueTrigger(n.watch, n.phase.tr, n.phase.t), phase := Idle);
    LeadsOn(s, n, Requeue, s');
  }
}
