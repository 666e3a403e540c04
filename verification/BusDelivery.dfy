/** What the event bus delivers: the channel loses nothing it took, every turn of the dispatcher serves every subscriber
    on the bus, and a subscriber gets exactly the events it was served while its queue had room. */
module BusDelivery {
  import opened BusModel

  // ---------------------------------------------------------------- one step

  /** Serving an event: a queue of fewer than 128 events gets it as its last, a full one keeps what it has. */
  lemma ServeOutcome(s: Bus, s': Bus)
    requires Next(s, Serve, s')
    ensures var p := s.transit.served;
            && p < |s.listed| == |s'.listed| && s'.gone == s.gone && s'.transit == Serving(s.transit.event, p + 1)
            && s'.listed[p].id == s.listed[p].id && s'.listed[p].handled == s.listed[p].handled
            && s'.listed[p].queue == (if |s.listed[p].queue| < 128 then s.listed[p].queue + [s.transit.event]
                                      else s.listed[p].queue)
            && forall q | 0 <= q < |s.listed| && q != p :: s'.listed[q] == s.listed[q]
  {
  }

  /** The step gives the event in the dispatcher's hands to the subscriber with this ID, which has room for it. */
  predicate ServesWithRoom(s: Bus, a: Action, id: string) {
    && a.Serve? && s.transit.Serving? && s.transit.served < |s.listed|
    && s.listed[s.transit.served].id == id && |s.listed[s.transit.served].queue| < 128
  }

  /** A subscriber on the bus with this ID has been given `xs`, handled or still in its queue. */
  predicate Given(s: Bus, id: string, xs: seq<nat>) {
    exists p :: 0 <= p < |s.listed| && s.listed[p].id == id && s.listed[p].handled + s.listed[p].queue == xs
  }

  lemma GivenAfterServe(s: Bus, s': Bus, id: string, xs: seq<nat>)
    requires DistinctIds(s.listed) && Next(s, Serve, s') && Given(s, id, xs)
    ensures Given(s', id, xs + if ServesWithRoom(s, Serve, id) then [s.transit.event] else [])
  {
    ServeOutcome(s, s');
    var p :| 0 <= p < |s.listed| && s.listed[p].id == id && s.listed[p].handled + s.listed[p].queue == xs;
    var q := s.transit.served;
    assert p == q <==> s.listed[q].id == id;
    if ServesWithRoom(s, Serve, id) {
      assert s'.listed[p].handled + s'.listed[p].queue == xs + [s.transit.event];
    } else {
      assert s'.listed[p].handled + s'.listed[p].queue == xs + [];
    }
  }

  lemma GivenAfterHandling(s: Bus, a: Action, s': Bus, id: string, xs: seq<nat>)
    requires Next(s, a, s') && Given(s, id, xs) && BySubscriber(a)
    ensures Given(s', id, xs)
  {
    var p :| 0 <= p < |s.listed| && s.listed[p].id == id && s.listed[p].handled + s.listed[p].queue == xs;
    assert s'.listed[p].handled + s'.listed[p].queue == xs;
    assert s'.listed[p].id == id;
  }

  lemma GivenAfterClose(s: Bus, other: string, id: string, xs: seq<nat>)
    requires Given(s, id, xs) && other != id
    ensures Given(Close(s, other), id, xs)
  {
    var p :| 0 <= p < |s.listed| && s.listed[p].id == id && s.listed[p].handled + s.listed[p].queue == xs;
    var q := Find(s.listed, other);
    if q < |s.listed| {
      assert Close(s, other).listed[if p < q then p else p - 1] == s.listed[p];
    }
  }

  lemma GivenAfterAppend(s: Bus, sub: Sub, id: string, xs: seq<nat>)
    requires Given(s, id, xs)
    ensures Given(s.(listed := s.listed + [sub]), id, xs)
  {
    var p :| 0 <= p < |s.listed| && s.listed[p].id == id && s.listed[p].handled + s.listed[p].queue == xs;
    assert (s.listed + [sub])[p] == s.listed[p];
  }

  lemma GivenStep(s: Bus, a: Action, s': Bus, id: string, xs: seq<nat>)
    requires DistinctIds(s.listed) && Next(s, a, s') && Given(s, id, xs) && a != Subscribe(id) && a != Unsubscribe(id)
    ensures Given(s', id, xs + if ServesWithRoom(s, a, id) then [s.transit.event] else [])
  {
    assert xs + [] == xs;
    if BySubscriber(a) {
      GivenAfterHandling(s, a, s', id, xs);
    } else {
      match a
      case Serve => GivenAfterServe(s, s', id, xs);
      case Subscribe(other) =>
        GivenAfterClose(s, other, id, xs);
        GivenAfterAppend(Close(s, other), Sub(other, [], [], true), id, xs);
      case Unsubscribe(other) => GivenAfterClose(s, other, id, xs);
      case _ =>
    }
  }

  // ---------------------------------------------------------------- what a subscriber gets

  /** The events given to the subscriber with this ID in the steps from `i` up to `j`. */
  ghost function GivenIn(ss: seq<Bus>, acts: seq<Action>, i: nat, j: nat, id: string): seq<nat>
    requires j <= |acts| && |ss| == |acts| + 1
  {
    if j <= i then []
    else GivenIn(ss, acts, i, j - 1, id)
         + if ServesWithRoom(ss[j - 1], acts[j - 1], id) then [ss[j - 1].transit.event] else []
  }

  lemma GivenRunStep(ss: seq<Bus>, acts: seq<Action>, i: nat, k: nat, l: nat, id: string)
    requires IsRun(ss, acts) && i <= k && l == k + 1 <= |acts|
    requires acts[k] != Subscribe(id) && acts[k] != Unsubscribe(id)
    requires Given(ss[k], id, GivenIn(ss, acts, i, k, id))
    ensures Given(ss[l], id, GivenIn(ss, acts, i, l, id))
  {
    EveryReachableBusIsGood(ss, acts, k);
    assert Follows(ss, acts, k);
    GivenStep(ss[k], acts[k], ss[l], id, GivenIn(ss, acts, i, k, id));
  }

  lemma GivenAtStart(ss: seq<Bus>, acts: seq<Action>, i: nat, j: nat, id: string)
    requires IsRun(ss, acts) && j == i + 1 <= |acts| && acts[i] == Subscribe(id) && !ss[i].stopped
    ensures Given(ss[j], id, [])
  {
    assert Follows(ss, acts, i);
    var last := ss[j].listed[|ss[j].listed| - 1];
    assert last == Sub(id, [], [], true) && last.handled + last.queue == [];
  }

  /** From its subscription on, as long as it is not replaced or unsubscribed, a subscriber has been given exactly the
      events that it was served while its queue held fewer than 128, in that order. */
  lemma {:induction false} ReceivedExactly(ss: seq<Bus>, acts: seq<Action>, i: nat, j: nat, id: string)
    requires IsRun(ss, acts) && i < j <= |acts| && acts[i] == Subscribe(id) && !ss[i].stopped
    requires forall k | i < k < j :: acts[k] != Subscribe(id) && acts[k] != Unsubscribe(id)
    ensures exists p :: 0 <= p < |ss[j].listed| && ss[j].listed[p].id == id
                        && ss[j].listed[p].handled + ss[j].listed[p].queue == GivenIn(ss, acts, i + 1, j, id)
  {
    GivenAtStart(ss, acts, i, i + 1, id);
    for k := i + 1 to j
      invariant Given(ss[k], id, GivenIn(ss, acts, i + 1, k, id))
    {
      GivenRunStep(ss, acts, i + 1, k, k + 1, id);
    }
  }

  // ---------------------------------------------------------------- nothing is taken back

  /** Some subscriber with this ID, on the bus or off it, was given at least `xs`. */
  predicate Kept(s: Bus, id: string, xs: seq<nat>) {
    || (exists p :: 0 <= p < |s.listed| && s.listed[p].id == id && xs <= s.listed[p].handled + s.listed[p].queue)
    || (exists p :: 0 <= p < |s.gone| && s.gone[p].id == id && xs <= s.gone[p].handled + s.gone[p].queue)
  }

  lemma KeptAfterClose(s: Bus, other: string, id: string, xs: seq<nat>)
    requires Kept(s, id, xs)
    ensures Kept(Close(s, other), id, xs)
  {
    var s', q := Close(s, other), Find(s.listed, other);
    if p :| 0 <= p < |s.gone| && s.gone[p].id == id && xs <= s.gone[p].handled + s.gone[p].queue {
      assert s'.gone[p] == s.gone[p];
    } else {
      var p :| 0 <= p < |s.listed| && s.listed[p].id == id && xs <= s.listed[p].handled + s.listed[p].queue;
      if q < |s.listed| {
        if p == q {
          assert s'.gone[|s.gone|] == s.listed[p];
        } else {
          assert s'.listed[if p < q then p else p - 1] == s.listed[p];
        }
      }
    }
  }

  lemma KeptInPlace(s: Bus, s': Bus, id: string, xs: seq<nat>)
    requires Kept(s, id, xs) && |s.listed| <= |s'.listed| && |s.gone| == |s'.gone|
    requires forall p | 0 <= p < |s.listed| ::
               s'.listed[p].id == s.listed[p].id
               && s.listed[p].handled + s.listed[p].queue <= s'.listed[p].handled + s'.listed[p].queue
    requires forall p | 0 <= p < |s.gone| ::
               s'.gone[p].id == s.gone[p].id
               && s.gone[p].handled + s.gone[p].queue <= s'.gone[p].handled + s'.gone[p].queue
    ensures Kept(s', id, xs)
  {
    if p :| 0 <= p < |s.gone| && s.gone[p].id == id && xs <= s.gone[p].handled + s.gone[p].queue {
      assert xs <= s'.gone[p].handled + s'.gone[p].queue;
    } else {
      var p :| 0 <= p < |s.listed| && s.listed[p].id == id && xs <= s.listed[p].handled + s.listed[p].queue;
      assert xs <= s'.listed[p].handled + s'.listed[p].queue;
    }
  }

  lemma GrowsInPlace(s: Bus, a: Action, s': Bus)
    requires Next(s, a, s') && !a.Subscribe? && !a.Unsubscribe?
    ensures |s.listed| == |s'.listed| && |s.gone| == |s'.gone|
    ensures forall p | 0 <= p < |s.listed| ::
              s'.listed[p].id == s.listed[p].id
              && s.listed[p].handled + s.listed[p].queue <= s'.listed[p].handled + s'.listed[p].queue
    ensures forall p | 0 <= p < |s.gone| ::
              s'.gone[p].id == s.gone[p].id
              && s.gone[p].handled + s.gone[p].queue <= s'.gone[p].handled + s'.gone[p].queue
  {
    match a
    case Handle(p) =>
      assert s'.listed[p].handled + s'.listed[p].queue == s.listed[p].handled + s.listed[p].queue;
    case HandleGone(p) =>
      assert s'.gone[p].handled + s'.gone[p].queue == s.gone[p].handled + s.gone[p].queue;
    case Serve =>
      ServeOutcome(s, s');
      var p := s.transit.served;
      assert s'.listed[p].handled + s'.listed[p].queue == s.listed[p].handled + s.listed[p].queue
             + if |s.listed[p].queue| < 128 then [s.transit.event] else [];
    case _ =>
  }

  lemma KeptStep(s: Bus, a: Action, s': Bus, id: string, xs: seq<nat>)
    requires Next(s, a, s') && Kept(s, id, xs)
    ensures Kept(s', id, xs)
  {
    match a
    case Subscribe(other) =>
      if !s.stopped {
        KeptAfterClose(s, other, id, xs);
        KeptInPlace(Close(s, other), s', id, xs);
      }
    case Unsubscribe(other) => KeptAfterClose(s, other, id, xs);
    case _ =>
      GrowsInPlace(s, a, s');
      KeptInPlace(s, s', id, xs);
  }

  lemma KeptRunStep(ss: seq<Bus>, acts: seq<Action>, i: nat, j: nat, id: string, xs: seq<nat>)
    requires IsRun(ss, acts) && j == i + 1 <= |acts| && Kept(ss[i], id, xs)
    ensures Kept(ss[j], id, xs)
  {
    assert Follows(ss, acts, i);
    KeptStep(ss[i], acts[i], ss[j], id, xs);
  }

  /** What a subscriber was given stays so for the rest of the run. */
  lemma {:induction false} KeptForGood(ss: seq<Bus>, acts: seq<Action>, i: nat, j: nat, id: string, xs: seq<nat>)
    requires IsRun(ss, acts) && i <= j <= |acts| && Kept(ss[i], id, xs)
    ensures Kept(ss[j], id, xs)
  {
    for k := i to j
      invariant Kept(ss[k], id, xs)
    {
      KeptRunStep(ss, acts, k, k + 1, id, xs);
    }
  }

  lemma KeptAfterServe(s: Bus, s': Bus)
    requires Next(s, Serve, s')
    ensures var sub := s.listed[s.transit.served];
            Kept(s', sub.id, sub.handled + sub.queue + if |sub.queue| < 128 then [s.transit.event] else [])
  {
    ServeOutcome(s, s');
    var p := s.transit.served;
    var sub, sub' := s.listed[p], s'.listed[p];
    assert sub'.handled + sub'.queue ==
           sub.handled + sub.queue + if |sub.queue| < 128 then [s.transit.event] else [];
    assert sub.id == sub'.id && p < |s'.listed|;
  }

  /** An event served to a subscriber whose queue holds fewer than 128 events is the last of its queue then, and stays
      among what the subscriber was given for the rest of the run, on the bus or off it. */
  lemma {:induction false} ServedIsKept(ss: seq<Bus>, acts: seq<Action>, i: nat, j: nat)
    requires IsRun(ss, acts) && i < j <= |acts| && acts[i].Serve?
    ensures ss[i].transit.Serving? && ss[i].transit.served < |ss[i].listed| == |ss[i + 1].listed|
    ensures var e, p := ss[i].transit.event, ss[i].transit.served;
            var sub, sub' := ss[i].listed[p], ss[i + 1].listed[p];
            && sub' == (if |sub.queue| < 128 then sub.(queue := sub.queue + [e]) else sub)
            && Kept(ss[j], sub.id, sub.handled + sub.queue + if |sub.queue| < 128 then [e] else [])
  {
    assert Follows(ss, acts, i);
    ServeOutcome(ss[i], ss[i + 1]);
    KeptAfterServe(ss[i], ss[i + 1]);
    var sub := ss[i].listed[ss[i].transit.served];
    KeptForGood(ss, acts, i + 1, j, sub.id,
                sub.handled + sub.queue + if |sub.queue| < 128 then [ss[i].transit.event] else []);
  }

  // ---------------------------------------------------------------- a turn serves everybody

  /** The step serves the subscriber at position `p`. */
  predicate ServesAt(s: Bus, a: Action, p: nat) {
    a.Serve? && s.transit.Serving? && s.transit.served == p
  }

  ghost predicate ServedAt(ss: seq<Bus>, acts: seq<Action>, k: nat, p: nat)
    requires k < |acts| && |ss| == |acts| + 1
  {
    ServesAt(ss[k], acts[k], p)
  }

  ghost predicate OnlyServedAt(ss: seq<Bus>, acts: seq<Action>, i: nat, j: nat, p: nat, k: nat)
    requires k < j <= |acts| && |ss| == |acts| + 1
  {
    ServedAt(ss, acts, k, p) && forall l | i < l < j && l != k :: !ServedAt(ss, acts, l, p)
  }

  /** Exactly one of the steps after `i` and before `j` serves the subscriber at position `p`. */
  ghost predicate ServedOnce(ss: seq<Bus>, acts: seq<Action>, i: nat, j: nat, p: nat)
    requires j <= |acts| && |ss| == |acts| + 1
  {
    exists k :: i < k < j && OnlyServedAt(ss, acts, i, j, p, k)
  }

  ghost predicate NotServed(ss: seq<Bus>, acts: seq<Action>, i: nat, j: nat, p: nat)
    requires j <= |acts| && |ss| == |acts| + 1
  {
    forall k | i < k < j :: !ServedAt(ss, acts, k, p)
  }

  predicate SameIds(a: seq<Sub>, b: seq<Sub>) {
    |a| == |b| && forall p | 0 <= p < |a| :: a[p].id == b[p].id
  }

  lemma LockedStep(s: Bus, a: Action, s': Bus)
    requires Next(s, a, s') && s.transit.Serving? && !a.Unlock?
    ensures SameIds(s.listed, s'.listed)
    ensures s'.transit == Serving(s.transit.event, s.transit.served + if a.Serve? then 1 else 0)
  {
    GrowsInPlace(s, a, s');
  }

  /** The turn under way at `k`, which began with the lock at `i`, as far as the subscriber at `p` is concerned. */
  ghost predicate InTurn(ss: seq<Bus>, acts: seq<Action>, i: nat, k: nat, p: nat)
    requires i < k <= |acts| && |ss| == |acts| + 1
  {
    && SameIds(ss[i].listed, ss[k].listed) && ss[i].transit.Taken? && ss[k].transit.Serving?
    && ss[k].transit.event == ss[i].transit.event
    && if p < ss[k].transit.served then ServedOnce(ss, acts, i, k, p) else NotServed(ss, acts, i, k, p)
  }

  lemma ServedOneFurther(ss: seq<Bus>, acts: seq<Action>, i: nat, k: nat, l: nat, p: nat)
    requires |ss| == |acts| + 1 && i < k && l == k + 1 <= |acts|
    requires NotServed(ss, acts, i, k, p) || (ServedOnce(ss, acts, i, k, p) && !ServedAt(ss, acts, k, p))
    ensures if NotServed(ss, acts, i, k, p) && !ServedAt(ss, acts, k, p) then NotServed(ss, acts, i, l, p)
            else ServedOnce(ss, acts, i, l, p)
  {
    if NotServed(ss, acts, i, k, p) {
      assert ServedAt(ss, acts, k, p) ==> OnlyServedAt(ss, acts, i, l, p, k);
    } else {
      var m :| i < m < k && OnlyServedAt(ss, acts, i, k, p, m);
      assert OnlyServedAt(ss, acts, i, l, p, m);
    }
  }

  lemma ServesNext(ss: seq<Bus>, acts: seq<Action>, k: nat, l: nat, p: nat)
    requires IsRun(ss, acts) && l == k + 1 <= |acts| && !acts[k].Unlock? && ss[k].transit.Serving?
    ensures SameIds(ss[k].listed, ss[l].listed) && ss[l].transit.Serving?
    ensures ss[l].transit.event == ss[k].transit.event
    ensures ServedAt(ss, acts, k, p) <==> ss[k].transit.served == p < ss[l].transit.served
    ensures ss[k].transit.served <= ss[l].transit.served <= ss[k].transit.served + 1
  {
    assert Follows(ss, acts, k);
    LockedStep(ss[k], acts[k], ss[l]);
  }

  lemma TurnStep(ss: seq<Bus>, acts: seq<Action>, i: nat, k: nat, l: nat, p: nat)
    requires IsRun(ss, acts) && i < k && l == k + 1 <= |acts| && !acts[k].Unlock? && InTurn(ss, acts, i, k, p)
    ensures InTurn(ss, acts, i, l, p)
  {
    ServesNext(ss, acts, k, l, p);
    ServedOneFurther(ss, acts, i, k, l, p);
  }

  /** Between a lock of the dispatcher and the next unlock, every subscriber on the bus is served the event once. */
  lemma {:induction false} TurnServesAll(ss: seq<Bus>, acts: seq<Action>, i: nat, j: nat, p: nat)
    requires IsRun(ss, acts) && i < j < |acts| && acts[i].Lock? && acts[j].Unlock?
    requires (forall k | i < k < j :: !acts[k].Unlock?) && p < |ss[i].listed|
    ensures exists k :: i < k < j && OnlyServedAt(ss, acts, i, j, p, k) && SameIds(ss[i].listed, ss[k].listed)
                        && ss[i].transit.Taken? && ss[k].transit.event == ss[i].transit.event
  {
    assert Follows(ss, acts, i);
    assert NotServed(ss, acts, i, i + 1, p);
    for k := i + 1 to j
      invariant InTurn(ss, acts, i, k, p)
      invariant forall m | i < m <= k :: InTurn(ss, acts, i, m, p)
    {
      TurnStep(ss, acts, i, k, k + 1, p);
    }
    assert Follows(ss, acts, j);
    var k :| i < k < j && OnlyServedAt(ss, acts, i, j, p, k);
    assert InTurn(ss, acts, i, k, p);
  }

  // ---------------------------------------------------------------- the channel

  /** The events put into the channel by the first `n` steps: published while it had room and the bus was running. */
  ghost function Accepted(ss: seq<Bus>, acts: seq<Action>, n: nat): seq<nat>
    requires n <= |acts| && |ss| == |acts| + 1
  {
    if n == 0 then []
    else Accepted(ss, acts, n - 1)
         + if acts[n - 1].Publish? && !ss[n - 1].stopped && |ss[n - 1].ch| < ss[n - 1].capacity
           then [ss[n - 1].next] else []
  }

  /** The events that the dispatcher has taken out of the channel. */
  ghost function TakenOut(ss: seq<Bus>, acts: seq<Action>, n: nat): seq<nat>
    requires n <= |acts| && |ss| == |acts| + 1
  {
    if n == 0 then []
    else TakenOut(ss, acts, n - 1) + if acts[n - 1].Receive? && ss[n].transit.Taken? then [ss[n].transit.event] else []
  }

  lemma ChannelStep(ss: seq<Bus>, acts: seq<Action>, i: nat, j: nat)
    requires IsRun(ss, acts) && j == i + 1 <= |acts| && TakenOut(ss, acts, i) + ss[i].ch == Accepted(ss, acts, i)
    ensures TakenOut(ss, acts, j) + ss[j].ch == Accepted(ss, acts, j)
  {
    assert Follows(ss, acts, i);
    match acts[i]
    case Publish =>
    case Receive => assert ss[i].ch == [ss[i].ch[0]] + ss[i].ch[1..];
    case _ =>
  }

  /** The dispatcher takes exactly the events that the channel had room for, in the order of publication; those it has
      not taken yet are in the channel. */
  lemma {:induction false} ChannelLosesNothing(ss: seq<Bus>, acts: seq<Action>, n: nat)
    requires IsRun(ss, acts) && n <= |acts|
    ensures TakenOut(ss, acts, n) + ss[n].ch == Accepted(ss, acts, n)
  {
    for k := 0 to n
      invariant TakenOut(ss, acts, k) + ss[k].ch == Accepted(ss, acts, k)
    {
      ChannelStep(ss, acts, k, k + 1);
    }
  }
}
