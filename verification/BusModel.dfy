/** The event bus as a state machine. Events are numbered in the order of publication; a full channel or queue loses
    them. */
module BusModel {
  import opened Sequences

  /** A subscriber: what waits in its queue and what its handler has been given. */
  datatype Sub = Sub(id: string, queue: seq<nat>, handled: seq<nat>, running: bool)

  /** The dispatcher's hands: an event taken from the channel and, once it holds the lock, how many subscribers have
      been served. */
  datatype Transit = Nothing | Taken(event: nat) | Serving(event: nat, served: nat)

  /** `listed` are the subscribers on the bus; those replaced or unsubscribed are `gone` but may go on for a while. */
  datatype Bus = Bus(capacity: nat, stopped: bool, next: nat, ch: seq<nat>, transit: Transit, listed: seq<Sub>,
                     gone: seq<Sub>)

  const QUEUE: nat := 128

  datatype Action =
    | Publish
    | Subscribe(id: string)
    | Unsubscribe(id: string)
    | Shutdown
    | Receive
    | Lock
    | Serve
    | Unlock
    | Handle(p: nat)
    | HandleGone(p: nat)
    | Exit(p: nat)
    | ExitGone(p: nat)

  ghost predicate Init(s: Bus) {
    s == Bus(s.capacity, false, 0, [], Nothing, [], [])
  }

  predicate Unlocked(s: Bus) {
    !s.transit.Serving?
  }

  /** The first subscriber on the list with this ID, or the end of the list. */
  function Find(listed: seq<Sub>, id: string): (p: nat)
    ensures p <= |listed| && (p < |listed| ==> listed[p].id == id)
    ensures forall k | 0 <= k < p :: listed[k].id != id
  {
    if listed == [] || listed[0].id == id then 0 else 1 + Find(listed[1..], id)
  }

  /** Takes the subscriber with this ID off the list. */
  function Close(s: Bus, id: string): Bus {
    var p := Find(s.listed, id);
    if p == |s.listed| then s else s.(listed := Without(s.listed, p), gone := s.gone + [s.listed[p]])
  }

  function Offer(sub: Sub, event: nat): Sub {
    if |sub.queue| < QUEUE then sub.(queue := sub.queue + [event]) else sub
  }

  function HandleNext(sub: Sub): Sub
    requires sub.queue != []
  {
    sub.(queue := sub.queue[1..], handled := sub.handled + [sub.queue[0]])
  }

  ghost predicate Next(s: Bus, a: Action, s': Bus) {
    match a
    case Publish => Unlocked(s) && s' == s.(next := s.next + 1, ch := if s.stopped
                                            || |s.ch| >= s.capacity then s.ch else s.ch + [s.next])
    case Subscribe(id) => Unlocked(s) && s' == if s.stopped then s
      else Close(s, id).(listed := Close(s, id).listed + [Sub(id, [], [], true)])
    case Unsubscribe(id) => Unlocked(s) && s' == Close(s, id)
    case Shutdown => Unlocked(s) && s' == s.(stopped := true)
    case Receive => s.transit.Nothing? && s.ch != [] && s' == s.(transit := Taken(s.ch[0]), ch := s.ch[1..])
    case Lock => s.transit.Taken? && s' == s.(transit := Serving(s.transit.event, 0))
    case Serve =>
      && s.transit.Serving? && s.transit.served < |s.listed|
      && s' == s.(transit := Serving(s.transit.event, s.transit.served + 1),
                  listed := s.listed[s.transit.served := Offer(s.listed[s.transit.served], s.transit.event)])
    case Unlock => s.transit.Serving? && s.transit.served == |s.listed| && s' == s.(transit := Nothing)
    case Handle(p) => p < |s.listed| && s.listed[p].running && s.listed[p].queue != []
      && s' == s.(listed := s.listed[p := HandleNext(s.listed[p])])
    case HandleGone(p) => p < |s.gone| && s.gone[p].running && s.gone[p].queue != []
      && s' == s.(gone := s.gone[p := HandleNext(s.gone[p])])
    case Exit(p) => p < |s.listed| && s.stopped && s' == s.(listed := s.listed[p := s.listed[p].(running := false)])
    case ExitGone(p) => p < |s.gone| && s' == s.(gone := s.gone[p := s.gone[p].(running := false)])
  }

  // ---------------------------------------------------------------- what every subscriber can rely on

  predicate Increasing(xs: seq<nat>) {
    forall i, j | 0 <= i < j < |xs| :: xs[i] < xs[j]
  }

  predicate AllBelow(xs: seq<nat>, bound: nat) {
    forall i | 0 <= i < |xs| :: xs[i] < bound
  }

  /** What a subscriber has been given and will be given, in order, is older than `bound`. */
  predicate Sound(sub: Sub, bound: nat) {
    Increasing(sub.handled + sub.queue) && AllBelow(sub.handled + sub.queue, bound)
  }

  /** The earliest event that the subscriber at position `p` of the list may still be offered. */
  function Front(s: Bus, p: nat): nat {
    match s.transit
    case Nothing => if s.ch != [] then s.ch[0] else s.next
    case Taken(e) => e
    case Serving(e, served) => if p < served then e + 1 else e
  }

  /** Events on their way keep their order. */
  predicate InOrder(s: Bus) {
    && Increasing(s.ch) && AllBelow(s.ch, s.next)
    && (!s.transit.Nothing? ==> s.transit.event < s.next && forall i | 0 <= i < |s.ch| :: s.transit.event < s.ch[i])
  }

  predicate DistinctIds(listed: seq<Sub>) {
    forall p, q | 0 <= p < q < |listed| :: listed[p].id != listed[q].id
  }

  predicate ServedInRange(s: Bus) {
    s.transit.Serving? ==> s.transit.served <= |s.listed|
  }

  predicate SubsSound(s: Bus) {
    && (forall p | 0 <= p < |s.listed| :: Sound(s.listed[p], Front(s, p)))
    && (forall p | 0 <= p < |s.gone| :: Sound(s.gone[p], s.next))
  }

  ghost predicate BusInv(s: Bus) {
    InOrder(s) && DistinctIds(s.listed) && ServedInRange(s) && SubsSound(s)
  }

  lemma SoundLater(sub: Sub, bound: nat, bound': nat)
    requires Sound(sub, bound) && bound <= bound'
    ensures Sound(sub, bound')
  {
  }

  lemma OfferKeepsSound(sub: Sub, event: nat)
    requires Sound(sub, event)
    ensures Sound(Offer(sub, event), event + 1)
  {
    assert sub.handled + (sub.queue + [event]) == (sub.handled + sub.queue) + [event];
  }

  lemma HandleKeepsSound(sub: Sub, bound: nat)
    requires Sound(sub, bound) && sub.queue != []
    ensures Sound(HandleNext(sub), bound)
  {
    assert HandleNext(sub).handled + HandleNext(sub).queue == sub.handled + sub.queue;
  }

  lemma FrontBelowNext(s: Bus, p: nat)
    requires InOrder(s)
    ensures Front(s, p) <= s.next
  {
  }

  lemma CloseKeepsOrder(s: Bus, id: string)
    requires InOrder(s)
    ensures InOrder(Close(s, id))
  {
  }

  lemma StepKeepsOrder(s: Bus, a: Action, s': Bus)
    requires InOrder(s) && Next(s, a, s')
    ensures InOrder(s')
  {
    match a
    case Subscribe(id) => CloseKeepsOrder(s, id);
    case Unsubscribe(id) => CloseKeepsOrder(s, id);
    case _ =>
  }

  lemma CloseKeepsDistinct(s: Bus, id: string)
    requires DistinctIds(s.listed)
    ensures DistinctIds(Close(s, id).listed) && forall p | 0 <= p < |Close(s, id).listed| ::
            Close(s, id).listed[p].id != id
  {
    var p := Find(s.listed, id);
    if p < |s.listed| {
      forall q | 0 <= q < |Without(s.listed, p)|
        ensures Without(s.listed, p)[q] == s.listed[if q < p then q else q + 1]
      {
      }
    }
  }

  lemma StepKeepsDistinct(s: Bus, a: Action, s': Bus)
    requires DistinctIds(s.listed) && ServedInRange(s) && Next(s, a, s')
    ensures DistinctIds(s'.listed) && ServedInRange(s')
  {
    match a
    case Subscribe(id) => CloseKeepsDistinct(s, id);
    case Unsubscribe(id) => CloseKeepsDistinct(s, id);
    case _ =>
  }

  lemma CloseKeepsSound(s: Bus, id: string)
    requires InOrder(s) && SubsSound(s) && Unlocked(s)
    ensures SubsSound(Close(s, id)) && InOrder(Close(s, id))
  {
    var p, s' := Find(s.listed, id), Close(s, id);
    if p < |s.listed| {
      forall q | 0 <= q < |s'.listed|
        ensures Sound(s'.listed[q], Front(s', q))
      {
        assert s'.listed[q] == s.listed[if q < p then q else q + 1];
      }
      FrontBelowNext(s, p);
      SoundLater(s.listed[p], Front(s, p), s.next);
    }
  }

  /** The list is unchanged and every bound is at least what it was. */
  lemma SoundAfterMove(s: Bus, s': Bus)
    requires SubsSound(s) && s'.listed == s.listed && s'.gone == s.gone && s.next <= s'.next
    requires forall p | 0 <= p < |s.listed| :: Front(s, p) <= Front(s', p)
    ensures SubsSound(s')
  {
    forall p | 0 <= p < |s.listed|
      ensures Sound(s'.listed[p], Front(s', p))
    {
      SoundLater(s.listed[p], Front(s, p), Front(s', p));
    }
  }

  lemma ServeKeepsSound(s: Bus, s': Bus)
    requires InOrder(s) && SubsSound(s) && Next(s, Serve, s')
    ensures SubsSound(s')
  {
    OfferKeepsSound(s.listed[s.transit.served], s.transit.event);
  }

  lemma SubscribeKeepsSound(s: Bus, id: string, s': Bus)
    requires BusInv(s) && Next(s, Subscribe(id), s')
    ensures SubsSound(s')
  {
    CloseKeepsSound(s, id);
  }

  lemma UnsubscribeKeepsSound(s: Bus, id: string, s': Bus)
    requires BusInv(s) && Next(s, Unsubscribe(id), s')
    ensures SubsSound(s')
  {
    CloseKeepsSound(s, id);
  }

  /** The steps of a subscriber's goroutine. */
  predicate BySubscriber(a: Action) {
    a.Handle? || a.HandleGone? || a.Exit? || a.ExitGone?
  }

  lemma HandlingKeepsSound(s: Bus, a: Action, s': Bus)
    requires SubsSound(s) && Next(s, a, s') && BySubscriber(a)
    ensures SubsSound(s')
  {
    match a
    case Handle(p) => HandleKeepsSound(s.listed[p], Front(s, p));
    case HandleGone(p) => HandleKeepsSound(s.gone[p], s.next);
    case _ =>
  }

  lemma MovesKeepSound(s: Bus, a: Action, s': Bus)
    requires InOrder(s) && SubsSound(s) && Next(s, a, s')
    requires !a.Subscribe? && !a.Unsubscribe? && !a.Serve? && !BySubscriber(a)
    ensures SubsSound(s')
  {
    SoundAfterMove(s, s');
  }

  lemma {:induction false} StepKeepsSound(s: Bus, a: Action, s': Bus)
    requires BusInv(s) && Next(s, a, s')
    ensures SubsSound(s')
  {
    if BySubscriber(a) {
      HandlingKeepsSound(s, a, s');
    } else {
      match a
      case Subscribe(id) => SubscribeKeepsSound(s, id, s');
      case Unsubscribe(id) => UnsubscribeKeepsSound(s, id, s');
      case Serve => ServeKeepsSound(s, s');
      case _ => MovesKeepSound(s, a, s');
    }
  }

  // ---------------------------------------------------------------- a turn of the dispatcher

  /** The first event of the channel has been offered to the first `n` subscribers. */
  function Served(s: Bus, n: nat): Bus
    requires s.ch != []
  {
    s.(transit := Serving(s.ch[0], n), ch := s.ch[1..],
       listed := seq(|s.listed|, i requires 0 <= i < |s.listed| => if i < n then Offer(s.listed[i], s.ch[0])
                     else s.listed[i]))
  }

  /** ... and to all of them. */
  function Dispatched(s: Bus): Bus
    requires s.ch != []
  {
    Served(s, |s.listed|).(transit := Nothing)
  }

  lemma ServedNext(s: Bus, n: nat)
    requires s.ch != [] && n < |s.listed|
    ensures Served(s, n).listed[n] == s.listed[n]
    ensures Served(s, n + 1).listed == Served(s, n).listed[n := Offer(s.listed[n], s.ch[0])]
  {
  }

  /** An uninterrupted turn of the dispatcher is a receive, a lock, a serve for each subscriber, and an unlock. */
  lemma DispatchIsModelled(s: Bus)
    requires s.transit.Nothing? && s.ch != []
    ensures var s1 := s.(transit := Taken(s.ch[0]), ch := s.ch[1..]);
            Next(s, Receive, s1) && Next(s1, Lock, Served(s, 0))
    ensures forall n | 0 <= n < |s.listed| :: Next(Served(s, n), Serve, Served(s, n + 1))
    ensures Next(Served(s, |s.listed|), Unlock, Dispatched(s))
  {
    assert Served(s, 0).listed == s.listed;
    forall n | 0 <= n < |s.listed|
      ensures Next(Served(s, n), Serve, Served(s, n + 1))
    {
      ServedNext(s, n);
    }
  }

  // ---------------------------------------------------------------- runs

  ghost predicate Follows(ss: seq<Bus>, acts: seq<Action>, i: nat)
    requires i < |acts| && |ss| == |acts| + 1
  {
    Next(ss[i], acts[i], ss[i + 1])
  }

  ghost predicate IsRun(ss: seq<Bus>, acts: seq<Action>) {
    && |ss| == |acts| + 1
    && Init(ss[0])
    && forall i {:trigger Follows(ss, acts, i)} | 0 <= i < |acts| :: Follows(ss, acts, i)
  }

  lemma StartIsGood(ss: seq<Bus>, acts: seq<Action>)
    requires IsRun(ss, acts)
    ensures BusInv(ss[0])
  {
  }

  lemma StepKeepsInvariant(ss: seq<Bus>, acts: seq<Action>, i: nat, j: nat)
    requires IsRun(ss, acts) && i < |acts| && j == i + 1 && BusInv(ss[i])
    ensures BusInv(ss[j])
  {
    assert Follows(ss, acts, i);
    StepKeepsOrder(ss[i], acts[i], ss[j]);
    StepKeepsDistinct(ss[i], acts[i], ss[j]);
    StepKeepsSound(ss[i], acts[i], ss[j]);
  }

  lemma {:induction false} EveryReachableBusIsGood(ss: seq<Bus>, acts: seq<Action>, i: nat)
    requires IsRun(ss, acts) && i < |ss|
    ensures BusInv(ss[i])
  {
    StartIsGood(ss, acts);
    for k := 0 to i
      invariant BusInv(ss[k])
    {
      StepKeepsInvariant(ss, acts, k, k + 1);
    }
  }

  /** Every subscriber, on the list or off it, is handed events in the order of publication, none twice and none that
      was not published; and no two subscribers on the list have the same ID. */
  lemma {:induction false} HandledInOrder(ss: seq<Bus>, acts: seq<Action>, i: nat, sub: Sub)
    requires IsRun(ss, acts) && i < |ss| && (sub in ss[i].listed || sub in ss[i].gone)
    ensures Increasing(sub.handled) && AllBelow(sub.handled, ss[i].next)
    ensures DistinctIds(ss[i].listed)
  {
    EveryReachableBusIsGood(ss, acts, i);
    var s := ss[i];
    if sub in s.listed {
      var p :| 0 <= p < |s.listed| && s.listed[p] == sub;
      FrontBelowNext(s, p);
      HandledIsSound(sub, Front(s, p));
    } else {
      HandledIsSound(sub, s.next);
    }
  }

  lemma HandledIsSound(sub: Sub, bound: nat)
    requires Sound(sub, bound)
    ensures Increasing(sub.handled) && AllBelow(sub.handled, bound)
  {
    assert sub.handled == (sub.handled + sub.queue)[..|sub.handled|];
  }
}
