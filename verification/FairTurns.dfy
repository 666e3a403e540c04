/** The loop of the dead man's switch attends its triggers in turn, and what a check of a silent worker leads to. */
module FairTurns {
  import opened SwitchModel

  // ---------------------------------------------------------------- the line of triggers

  /** A trigger leaves the line at its head, to the loop's hands, and joins it at the end; nothing else moves. */
  lemma LineStep(s: Switch, a: Action, s': Switch)
    requires Next(s, a, s')
    ensures a.Pop? && s.watch.list != [] ==> s'.watch.list == s.watch.list[1..]
    ensures a.Requeue? ==>
              && s.phase.Settled?
              && s'.watch.list == (if s.phase.tr.key in s.watch.active then s.watch.list + [s.phase.tr]
                                   else s.watch.list)
    ensures !a.Pop? ==> s.watch.list <= s'.watch.list
    ensures a.Pop? && s.watch.list == [] ==> s'.watch.list == []
  {
  }

  predicate Takes(s: Switch, a: Action) {
    a.Pop? && s.watch.list != []
  }

  /** How many triggers the loop takes in the steps from `i` up to `j`. */
  ghost function TakenIn(ss: seq<Switch>, acts: seq<Action>, i: nat, j: nat): nat
    requires j <= |acts| && |ss| == |acts| + 1
  {
    if j <= i then 0 else TakenIn(ss, acts, i, j - 1) + if Takes(ss[j - 1], acts[j - 1]) then 1 else 0
  }

  /** Those of the line at `i` that have not been taken are still in front at `j`, in their order. */
  ghost predicate InLine(ss: seq<Switch>, acts: seq<Action>, i: nat, j: nat)
    requires i <= j <= |acts| && |ss| == |acts| + 1
  {
    TakenIn(ss, acts, i, j) <= |ss[i].watch.list| ==> ss[i].watch.list[TakenIn(ss, acts, i, j)..] <= ss[j].watch.list
  }

  lemma InLineStep(ss: seq<Switch>, acts: seq<Action>, i: nat, k: nat, l: nat)
    requires IsRun(ss, acts) && i <= k && l == k + 1 <= |acts| && InLine(ss, acts, i, k)
    ensures InLine(ss, acts, i, l)
  {
    assert Follows(ss, acts, k);
    LineStep(ss[k], acts[k], ss[l]);
    var n := TakenIn(ss, acts, i, k);
    if Takes(ss[k], acts[k]) && n < |ss[i].watch.list| {
      assert ss[i].watch.list[n..][1..] == ss[i].watch.list[n + 1..];
    }
  }

  lemma {:induction false} StillInLine(ss: seq<Switch>, acts: seq<Action>, i: nat, j: nat)
    requires IsRun(ss, acts) && i <= j <= |acts|
    ensures InLine(ss, acts, i, j)
  {
    assert ss[i].watch.list[0..] == ss[i].watch.list;
    for k := i to j
      invariant InLine(ss, acts, i, k)
    {
      InLineStep(ss, acts, i, k, k + 1);
    }
  }

  /** The trigger that stands at place `q` of the line is the one the loop takes after `q` others, and if it is still
      active the loop then has it in its hands with its deadline. */
  lemma {:induction false} TakesItsTurn(ss: seq<Switch>, acts: seq<Action>, i: nat, k: nat, q: nat)
    requires IsRun(ss, acts) && i <= k < |acts| && acts[k].Pop?
    requires q < |ss[i].watch.list| && TakenIn(ss, acts, i, k) == q
    ensures ss[k].watch.list != [] && ss[k].watch.list[0] == ss[i].watch.list[q]
    ensures var tr := ss[i].watch.list[q];
            tr.key in ss[k].watch.active ==> ss[k + 1].phase == Popped(tr, ss[k].watch.active[tr.key])
  {
    StillInLine(ss, acts, i, k);
    assert ss[i].watch.list[q..][0] == ss[i].watch.list[q];
    assert Follows(ss, acts, k);
  }

  /** A trigger put back stands behind all that are waiting. */
  lemma {:induction false} PutBackLast(ss: seq<Switch>, acts: seq<Action>, i: nat)
    requires IsRun(ss, acts) && i < |acts| && acts[i].Requeue?
    ensures ss[i].phase.Settled?
    ensures ss[i].phase.tr.key in ss[i].watch.active ==>
              ss[i + 1].watch.list == ss[i].watch.list + [ss[i].phase.tr]
  {
    assert Follows(ss, acts, i);
    LineStep(ss[i], acts[i], ss[i + 1]);
  }

  lemma {:induction false} SomeStepTakes(ss: seq<Switch>, acts: seq<Action>, i: nat, j: nat, q: nat) returns (m: nat)
    requires |ss| == |acts| + 1 && i <= j <= |acts| && q < TakenIn(ss, acts, i, j)
    ensures i <= m < j && Takes(ss[m], acts[m]) && TakenIn(ss, acts, i, m) == q
  {
    if Takes(ss[j - 1], acts[j - 1]) && TakenIn(ss, acts, i, j - 1) == q {
      return j - 1;
    }
    m := SomeStepTakes(ss, acts, i, j - 1, q);
  }

  /** Between two turns of one worker everybody gets a turn: if the loop takes a trigger of `key`, no other trigger of
      it waits, and it takes one of `key` again, then it has taken every trigger that was waiting. */
  lemma {:induction false} EverybodyBetween(ss: seq<Switch>, acts: seq<Action>, i: nat, k: nat, key: string, q: nat)
    requires IsRun(ss, acts) && i < k < |acts| && Takes(ss[i], acts[i]) && Takes(ss[k], acts[k])
    requires ss[i].watch.list[0].key == key == ss[k].watch.list[0].key
    requires forall p | 0 < p < |ss[i].watch.list| :: ss[i].watch.list[p].key != key
    requires 0 < q < |ss[i].watch.list|
    ensures exists m :: i < m < k && Takes(ss[m], acts[m]) && ss[m].watch.list[0] == ss[i].watch.list[q]
  {
    if TakenIn(ss, acts, i, k) < |ss[i].watch.list| {
      FirstIsCounted(ss, acts, i, k);
      TakesItsTurn(ss, acts, i, k, TakenIn(ss, acts, i, k));
    }
    var m := SomeStepTakes(ss, acts, i, k, q);
    TakesItsTurn(ss, acts, i, m, q);
    assert m != i;
  }

  lemma {:induction false} FirstIsCounted(ss: seq<Switch>, acts: seq<Action>, i: nat, j: nat)
    requires |ss| == |acts| + 1 && i < j <= |acts| && Takes(ss[i], acts[i])
    ensures TakenIn(ss, acts, i, j) > 0
  {
    if j > i + 1 {
      FirstIsCounted(ss, acts, i, j - 1);
    }
  }

  // ---------------------------------------------------------------- a silent worker

  /** The check that began with the look at `i` goes on at `k`, and nothing has changed about the worker. */
  ghost predicate Unheard(ss: seq<Switch>, i: nat, k: nat, id: string)
    requires i < |ss| && k < |ss|
  {
    && id in ss[i].beats && id in ss[k].beats && ss[k].beats[id] == ss[i].beats[id]
    && !ss[k].phase.Idle? && ss[k].phase.tr.key == id
    && (ss[k].phase.Stale?
        || (ss[k].phase.Judged? && ss[k].phase.verdict == if ss[i].beats[id].status.Alive? then Suspect else Dead))
  }

  lemma UnheardStep(ss: seq<Switch>, acts: seq<Action>, i: nat, k: nat, l: nat, id: string)
    requires IsRun(ss, acts) && i <= k && l == k + 1 <= |acts| && !acts[k].Apply? && !BeatOf(ss[k], acts[k], id)
    requires Unheard(ss, i, k, id)
    ensures Unheard(ss, i, l, id)
  {
    assert Follows(ss, acts, k);
  }

  /** A check that finds a worker silent for more than 15 seconds, and during which it stays silent, makes it SUSPECT if
      it was ALIVE and DEAD if it was SUSPECT. */
  lemma {:induction false} SilenceIsNoticed(ss: seq<Switch>, acts: seq<Action>, i: nat, j: nat, id: string)
    requires IsRun(ss, acts) && i < j < |acts| && acts[i].Look? && acts[j].Apply? && Holds(ss[i].phase, id)
    requires id in ss[i].beats && !ss[i].beats[id].status.Dead?
    requires ss[i].now - ss[i].beats[id].last > 15_000_000_000
    requires forall k | i < k < j :: !acts[k].Apply? && !BeatOf(ss[k], acts[k], id)
    ensures id in ss[j + 1].beats && ss[j + 1].beats[id].last == ss[i].beats[id].last
    ensures ss[j + 1].beats[id].status == if ss[i].beats[id].status.Alive? then Suspect else Dead
  {
    assert Follows(ss, acts, i);
    for k := i + 1 to j
      invariant Unheard(ss, i, k, id)
    {
      UnheardStep(ss, acts, i, k, k + 1, id);
    }
    assert Follows(ss, acts, j);
  }

  /** A check that finds a worker heard from in the last 15 seconds makes it ALIVE, whatever it was short of DEAD. */
  lemma {:induction false} PresenceIsNoticed(ss: seq<Switch>, acts: seq<Action>, i: nat, j: nat, id: string)
    requires IsRun(ss, acts) && i < j < |acts| && acts[i].Look? && acts[j].Apply? && Holds(ss[i].phase, id)
    requires id in ss[i].beats && !ss[i].beats[id].status.Dead?
    requires ss[i].now - ss[i].beats[id].last <= 15_000_000_000
    requires forall k | i < k < j :: !acts[k].Apply?
    ensures id in ss[j + 1].beats && ss[j + 1].beats[id].status.Alive?
  {
    assert Follows(ss, acts, i);
    for k := i + 1 to j
      invariant id in ss[k].beats && ss[k].phase.Judged? && ss[k].phase.tr.key == id && ss[k].phase.verdict.Alive?
    {
      assert Follows(ss, acts, k);
    }
    assert Follows(ss, acts, j);
  }

  // ---------------------------------------------------------------- outside the loop

  /** A registration or heartbeat of a worker is what was last heard of it, and it is ALIVE; nobody else is touched. */
  lemma {:induction false} HeardOutcome(ss: seq<Switch>, acts: seq<Action>, i: nat, id: string)
    requires IsRun(ss, acts) && i < |acts| && BeatOf(ss[i], acts[i], id)
    ensures ss[i + 1].beats == ss[i].beats[id := Beat(ss[i].now, Alive)] && ss[i + 1].watch == ss[i].watch
  {
    assert Follows(ss, acts, i);
  }

  /** A heartbeat of a worker that never registered changes nothing. */
  lemma StrangerIsIgnored(ss: seq<Switch>, acts: seq<Action>, i: nat, id: string)
    requires IsRun(ss, acts) && i < |acts| && acts[i] == Heartbeat(id) && id !in ss[i].beats
    ensures ss[i + 1] == ss[i]
  {
    assert Follows(ss, acts, i);
  }

  /** The push of a registration arms the worker's trigger 15 seconds ahead, in whole seconds, unless it is armed. */
  lemma {:induction false} PushOutcome(ss: seq<Switch>, acts: seq<Action>, i: nat, id: string)
    requires IsRun(ss, acts) && i < |acts| && Pushes(ss[i], acts[i], id)
    ensures var w, w' := ss[i].watch, ss[i + 1].watch;
            if id in w.active then w' == w
            else w'.active == w.active[id := (ss[i].now + 15_000_000_000) / 1_000_000_000]
                 && w'.list == w.list + [Trigger(id, 15_000_000_000)]
  {
    assert Follows(ss, acts, i);
  }
}
