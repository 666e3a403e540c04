/** The event bus as the program keeps it; an event stands for itself by its number in the order of publication. */
module EventBus {
  import opened Sequences
  import opened BusModel

  class Subscriber {
    const id: string
    var queue: seq<nat>
    var closed: bool
    var running: bool
    ghost var handled: seq<nat>

    constructor (id: string)
      ensures this.id == id && !closed && View() == Sub(id, [], [], true)
    {
      this.id, this.queue, this.closed, this.running, this.handled := id, [], false, true, [];
    }

    ghost function View(): Sub
      reads this
    {
      Sub(id, queue, handled, running)
    }

    /** Offers an event without waiting; a full queue loses it. */
    method Offer(event: nat)
      modifies this`queue
      ensures queue == if |old(queue)| < 128 then old(queue) + [event] else old(queue)
      ensures View() == BusModel.Offer(old(View()), event)
    {
      if |queue| < QUEUE {
        queue := queue + [event];
      }
    }

    /** Hands the next event to the handler. */
    method Handle() returns (event: nat)
      requires queue != []
      modifies this`queue, this`handled
      ensures event == old(queue)[0] && queue == old(queue)[1..] && handled == old(handled) + [event]
      ensures View() == HandleNext(old(View()))
    {
      event := queue[0];
      queue := queue[1..];
      handled := handled + [event];
    }
  }

  ghost function Views(subs: seq<Subscriber>): seq<Sub>
    reads set s | s in subs
  {
    seq(|subs|, i requires 0 <= i < |subs| reads set s | s in subs => subs[i].View())
  }

  /** `now` is the list `was` without its first subscriber of this ID, if it has one. */
  ghost predicate TakenOff(was: seq<Subscriber>, id: string, now: seq<Subscriber>) {
    || (now == was && forall k | 0 <= k < |was| :: was[k].id != id)
    || exists i :: 0 <= i < |was| && was[i].id == id && (forall k | 0 <= k < i :: was[k].id != id)
                   && now == was[..i] + was[i + 1..]
  }

  class Bus {
    const capacity: nat
    var subscribers: seq<Subscriber>
    var ch: seq<nat>
    var stopped: bool
    ghost var next: nat
    ghost var gone: seq<Subscriber>

    constructor (capacity: nat)
      ensures Valid() && this.capacity == (if capacity == 0 then 128 else capacity) && Init(State())
    {
      this.capacity := if capacity == 0 then 128 else capacity;
      this.subscribers, this.ch, this.stopped, this.next, this.gone := [], [], false, 0, [];
    }

    /** Subscribers on the bus are open and have distinct IDs; those that left are closed. */
    ghost predicate Valid()
      reads this, subscribers, gone
    {
      && DistinctIds(Views(subscribers))
      && (forall sub | sub in subscribers :: !sub.closed)
      && (forall sub | sub in gone :: sub.closed)
    }

    ghost function State(): BusModel.Bus
      reads this, subscribers, gone
    {
      BusModel.Bus(capacity, stopped, next, ch, Nothing, Views(subscribers), Views(gone))
    }

    /** Takes the subscriber with this ID off the bus, if there is one, and closes it. */
    method Remove(id: string)
      requires Valid()
      modifies this`subscribers, this`gone, subscribers
      ensures Valid() && State() == Close(old(State()), id)
      ensures TakenOff(old(subscribers), id, subscribers)
    {
      for i := 0 to |subscribers|
        invariant forall k | 0 <= k < i :: subscribers[k].id != id
      {
        if subscribers[i].id == id {
          FoundAt(Views(subscribers), id, i);
          RemoveAt(i);
          return;
        }
      }
      NotFound(Views(subscribers), id);
    }

    method RemoveAt(i: nat)
      requires Valid() && i < |subscribers|
      modifies this`subscribers, this`gone, subscribers
      ensures Valid() && subscribers == old(subscribers)[..i] + old(subscribers)[i + 1..]
      ensures State() == old(State()).(listed := Without(old(State()).listed, i),
                                       gone := old(State()).gone + [old(State()).listed[i]])
    {
      ghost var views, left := Views(subscribers), Views(gone);
      var sub := subscribers[i];
      sub.closed := true;
      assert Views(subscribers) == views && Views(gone) == left;
      ViewsWithout(subscribers, i);
      DistinctWithout(views, i);
      OthersWithout(subscribers, i);
      ViewsAppend(gone, sub);
      subscribers := subscribers[..i] + subscribers[i + 1..];
      gone := gone + [sub];
    }

    /** Puts a new subscriber on the bus, in place of one with the same ID. */
    method Subscribe(id: string) returns (ok: bool)
      requires Valid()
      modifies this`subscribers, this`gone, subscribers
      ensures Valid() && (ok <==> !stopped)
      ensures ok ==> |subscribers| > 0 && fresh(subscribers[|subscribers| - 1])
                     && subscribers[|subscribers| - 1].View() == Sub(id, [], [], true)
                     && TakenOff(old(subscribers), id, subscribers[..|subscribers| - 1])
      ensures !ok ==> subscribers == old(subscribers)
      ensures Next(old(State()), BusModel.Subscribe(id), State())
    {
      if stopped {
        return false;
      }
      Remove(id);
      ghost var views := Views(subscribers);
      CloseKeepsDistinct(old(State()), id);
      var sub := new Subscriber(id);
      assert Views(subscribers) == views;
      ViewsAppend(subscribers, sub);
      subscribers := subscribers + [sub];
      return true;
    }

    method Unsubscribe(id: string)
      requires Valid()
      modifies this`subscribers, this`gone, subscribers
      ensures Valid() && TakenOff(old(subscribers), id, subscribers)
      ensures Next(old(State()), BusModel.Unsubscribe(id), State())
    {
      Remove(id);
    }

    /** Puts the next event into the channel unless the bus is stopped or the channel full. */
    method Publish(event: nat)
      requires Valid() && event == next
      modifies this`ch, this`next
      ensures Valid() && ch == if stopped || |old(ch)| >= capacity then old(ch) else old(ch) + [event]
      ensures Next(old(State()), BusModel.Publish, State())
    {
      if !stopped && |ch| < capacity {
        ch := ch + [event];
      }
      next := next + 1;
    }

    method Shutdown()
      requires Valid()
      modifies this`stopped
      ensures Valid() && stopped
      ensures Next(old(State()), BusModel.Shutdown, State())
    {
      stopped := true;
    }

    /** Offers an event to one subscriber. */
    method OfferTo(i: nat, event: nat)
      requires Valid() && i < |subscribers|
      modifies subscribers[i]
      ensures Valid() && Views(gone) == old(Views(gone))
      ensures Views(subscribers) == old(Views(subscribers))[i := BusModel.Offer(old(subscribers[i].View()), event)]
    {
      ghost var views := Views(subscribers);
      assert subscribers[i] !in gone && forall k | 0 <= k < |subscribers| :: views[k].id == subscribers[k].id;
      subscribers[i].Offer(event);
    }

    /** One turn of the dispatcher: takes an event off the channel and offers it to every subscriber on the bus. */
    method Dispatch() returns (ok: bool)
      requires Valid()
      modifies this`ch, subscribers
      ensures Valid() && (ok <==> old(ch) != [])
      ensures ok ==> ch == old(ch)[1..] && forall i | 0 <= i < |subscribers| ::
                       subscribers[i].handled == old(subscribers[i].handled)
                       && subscribers[i].queue == if |old(subscribers[i].queue)| < 128
                                                  then old(subscribers[i].queue) + [old(ch)[0]]
                                                  else old(subscribers[i].queue)
      ensures State() == if ok then Dispatched(old(State())) else old(State())
    {
      if ch == [] {
        return false;
      }
      ghost var s := State();
      var event := ch[0];
      ch := ch[1..];
      assert Served(s, 0).listed == s.listed;
      for i := 0 to |subscribers|
        invariant Valid() && ch == s.ch[1..] && Views(gone) == s.gone && Views(subscribers) == Served(s, i).listed
      {
        ServedNext(s, i);
        assert Views(subscribers)[i] == subscribers[i].View();
        OfferTo(i, event);
      }
      assert forall i | 0 <= i < |subscribers| :: Views(subscribers)[i] == subscribers[i].View();
      return true;
    }
  }

  lemma ViewsWithout(subs: seq<Subscriber>, i: nat)
    requires i < |subs|
    ensures Views(Without(subs, i)) == Without(Views(subs), i)
  {
  }

  lemma ViewsAppend(subs: seq<Subscriber>, sub: Subscriber)
    ensures Views(subs + [sub]) == Views(subs) + [sub.View()]
  {
  }

  lemma DistinctWithout(subs: seq<Sub>, i: nat)
    requires DistinctIds(subs) && i < |subs|
    ensures DistinctIds(Without(subs, i))
  {
    assert forall k | 0 <= k < |subs| - 1 :: Without(subs, i)[k] == subs[if k < i then k else k + 1];
  }

  lemma OthersWithout(subs: seq<Subscriber>, i: nat)
    requires DistinctIds(Views(subs)) && i < |subs|
    ensures forall sub | sub in Without(subs, i) :: sub in subs && sub != subs[i]
  {
    assert forall k | 0 <= k < |subs| :: Views(subs)[k].id == subs[k].id;
  }

  lemma {:induction false} FoundAt(subs: seq<Sub>, id: string, i: nat)
    requires i < |subs| && subs[i].id == id && forall k | 0 <= k < i :: subs[k].id != id
    ensures Find(subs, id) == i
  {
    if i > 0 {
      FoundAt(subs[1..], id, i - 1);
    }
  }

  lemma {:induction false} NotFound(subs: seq<Sub>, id: string)
    requires forall k | 0 <= k < |subs| :: subs[k].id != id
    ensures Find(subs, id) == |subs|
  {
    if subs != [] {
      NotFound(subs[1..], id);
    }
  }
}
