/**
 The in-memory fan-out: one listener per watching stream, each with a channel that holds one event.
 A wakeup is dropped when one is already waiting; an urgent event replaces whatever is waiting.
 */
module ChangeFeed {
  import opened Outcomes

  datatype Event = Changes | Revoked | Disconnected

  /** What an urgent event says, nothing may displace. */
  predicate Urgent(event: Event) { !event.Changes? }

  predicate OneSlot(queue: seq<Event>) { |queue| <= 1 }

  /** A non-blocking send of a wakeup. */
  function Woken(queue: seq<Event>): seq<Event> {
    if queue == [] then [Changes] else queue
  }

  /** Drain, then send. */
  function Replaced(queue: seq<Event>, event: Event): seq<Event> { [event] }

  /** Whether a commit by `author` is news to a device; the administrator's author is the empty one. */
  predicate IsNews(author: string, device: string) { author == "" || author != device }

  /** One subscription: its channel can be sent to until it is closed, and holds at most one event. */
  class Listener {
    const account: string
    const device: string
    var queue: seq<Event>
    var closed: bool

    constructor (account: string, device: string)
      ensures this.account == account && this.device == device && queue == [] && !closed
    {
      this.account, this.device, queue, closed := account, device, [], false;
    }

    /** A blocking send: it must find room, and an open channel. */
    method Send(event: Event)
      requires !closed && queue == []
      modifies this`queue
      ensures queue == [event]
    {
      queue := queue + [event];
    }

    method Drain()
      requires !closed && OneSlot(queue)
      modifies this`queue
      ensures queue == []
    {
      if |queue| > 0 {
        queue := queue[1..];
      }
    }

    /** Closing twice is what a channel does not survive. */
    method Close()
      requires !closed
      modifies this`closed
      ensures closed
    {
      closed := true;
    }

    /** What the stream's loop receives next: an event, or the news that the channel is closed. */
    method Receive() returns (event: Option<Event>)
      requires OneSlot(queue) && (queue != [] || closed)
      modifies this`queue
      ensures event == if old(queue) == [] then None else Some(old(queue)[0])
      ensures queue == []
    {
      if queue == [] {
        return None;
      }
      event := Some(queue[0]);
      queue := queue[1..];
    }
  }

  class Broker {
    var subscribers: set<Listener>

    /** Every subscribed channel is open and has its one slot. */
    ghost predicate Valid()
      reads this, subscribers
    {
      forall listener :: listener in subscribers ==> !listener.closed && OneSlot(listener.queue)
    }

    constructor ()
      ensures Valid() && subscribers == {}
    {
      subscribers := {};
    }

    method Subscribe(account: string, device: string) returns (listener: Listener)
      requires Valid()
      modifies this
      ensures Valid() && fresh(listener) && subscribers == old(subscribers) + {listener}
      ensures listener.account == account && listener.device == device && listener.queue == [] && !listener.closed
    {
      listener := new Listener(account, device);
      subscribers := subscribers + {listener};
    }

    /** The cancel of a subscription; calling it again changes nothing. */
    method Cancel(listener: Listener)
      requires Valid() && (listener !in subscribers ==> listener.closed)
      modifies this, listener`closed
      ensures Valid() && subscribers == old(subscribers) - {listener} && listener.closed
    {
      if listener in subscribers {
        subscribers := subscribers - {listener};
        listener.Close();
      }
    }

    /** Wakes the account's other devices. */
    method Publish(account: string, excluded: string)
      requires Valid()
      modifies subscribers
      ensures Valid()
      ensures forall listener :: listener in subscribers ==>
                listener.queue ==
                if listener.account == account && (excluded == "" || listener.device != excluded) &&
                   old(listener.queue) == []
                then [Changes] else old(listener.queue)
    {
      var remaining := subscribers;
      while remaining != {}
        invariant remaining <= subscribers && Valid()
        invariant forall listener :: listener in remaining ==> listener.queue == old(listener.queue)
        invariant forall listener :: listener in subscribers - remaining ==>
                    listener.queue == if listener.account == account && IsNews(excluded, listener.device)
                                      then Woken(old(listener.queue)) else old(listener.queue)
        decreases |remaining|
      {
        var listener :| listener in remaining;
        remaining := remaining - {listener};
        if listener.account != account || (excluded != "" && listener.device == excluded) {
          continue;
        }
        if listener.queue == [] {
          listener.Send(Changes);
        }
      }
    }

    /** Stops every stream of one device: the event it leaves is the one that is received next. */
    method Revoke(account: string, device: string)
      requires Valid()
      modifies subscribers
      ensures Valid()
      ensures forall listener :: listener in subscribers ==>
                listener.queue == if listener.account == account && listener.device == device
                                  then [Revoked] else old(listener.queue)
    {
      DeliverToDevice(account, device, Revoked);
    }

    method Disconnect(account: string, device: string)
      requires Valid()
      modifies subscribers
      ensures Valid()
      ensures forall listener :: listener in subscribers ==>
                listener.queue == if listener.account == account && listener.device == device
                                  then [Disconnected] else old(listener.queue)
    {
      DeliverToDevice(account, device, Disconnected);
    }

    /** The loop the two have in common. */
    method DeliverToDevice(account: string, device: string, event: Event)
      requires Valid()
      modifies subscribers
      ensures Valid()
      ensures forall listener :: listener in subscribers ==>
                listener.queue == if listener.account == account && listener.device == device
                                  then Replaced(old(listener.queue), event) else old(listener.queue)
    {
      var remaining := subscribers;
      while remaining != {}
        invariant remaining <= subscribers && Valid()
        invariant forall listener :: listener in remaining ==> listener.queue == old(listener.queue)
        invariant forall listener :: listener in subscribers - remaining ==>
                    listener.queue == if listener.account == account && listener.device == device
                                      then Replaced(old(listener.queue), event) else old(listener.queue)
        decreases |remaining|
      {
        var listener :| listener in remaining;
        remaining := remaining - {listener};
        if listener.account == account && listener.device == device {
          DeliverUrgently(listener, event);
        }
      }
    }

    /** Draining first is what makes the blocking send safe. */
    method DeliverUrgently(listener: Listener, event: Event)
      requires !listener.closed && OneSlot(listener.queue)
      modifies listener`queue
      ensures listener.queue == [event]
    {
      listener.Drain();
      listener.Send(event);
    }
  }

  // ------------------------------------------------------------------ what coalescing loses

  /** A broker call, as one listener's channel sees it. */
  datatype Call = Wake | Urge(event: Event)

  function Heard(queue: seq<Event>, calls: seq<Call>): seq<Event> {
    if calls == [] then queue
    else
      var before := Heard(queue, calls[..|calls| - 1]);
      match calls[|calls| - 1]
      case Wake => Woken(before)
      case Urge(event) => Replaced(before, event)
  }

  /**
   Any burst of calls between two receives leaves one event: the last urgent one if there was any,
   otherwise a single wakeup. So nothing urgent is ever displaced by a wakeup, and no wakeup is lost
   altogether.
   */
  lemma {:induction false} ABurstLeavesTheLastUrgentEvent(calls: seq<Call>)
    ensures var left := Heard([], calls);
            && OneSlot(left)
            && (left == [] <==> calls == [])
            && (left == [Changes] && (forall call :: call in calls && call.Urge? ==> Urgent(call.event)) ==>
                  forall call :: call in calls ==> call.Wake?)
            && (forall i :: 0 <= i < |calls| && calls[i].Urge? && (forall j :: i < j < |calls| ==> calls[j].Wake?) ==>
                  left == [calls[i].event])
  {
    if calls != [] {
      var prefix, last := calls[..|calls| - 1], calls[|calls| - 1];
      ABurstLeavesTheLastUrgentEvent(prefix);
      forall i | 0 <= i < |calls| && calls[i].Urge? && (forall j :: i < j < |calls| ==> calls[j].Wake?)
        ensures Heard([], calls) == [calls[i].event]
      {
        if i < |prefix| {
          assert prefix[i].Urge? && forall j :: i < j < |prefix| ==> prefix[j].Wake?;
        }
      }
      assert calls == prefix + [last];
    }
  }
}
