/**
 * The in-process event forwarder: a bounded queue towards the consumer, a lossless and a
 * best-effort tier of events, markers for what was skipped.
 */
module EventForwarder {
  datatype NotificationKind =
    | TurnCompleted
    | ItemCompleted
    | AgentMessageDelta
    | PlanDelta
    | ReasoningSummaryTextDelta
    | ReasoningTextDelta
    | OtherNotification

  /** An event of the runtime.  Its own `Lagged` events are events like any other. */
  datatype Event =
    | Lagged(upstream: nat)
    | ServerNotification(kind: NotificationKind, payload: nat)
    | ServerRequest(requestId: nat, authRefresh: bool)

  /** What is put on the queue: an event, or the forwarder's own marker for skipped events. */
  datatype Item = Ordinary(event: Event) | Marker(skipped: nat)

  datatype ForwardEventResult = Continue | DisableStream

  datatype TrySendResult = Sent | Full | Closed

  const USIZE_MAX: nat := 0xffff_ffff_ffff_ffff

  /** `event_requires_delivery`. */
  predicate RequiresDelivery(event: Event) {
    event.ServerNotification? && event.kind != OtherNotification
  }

  // ---------------------------------------------------------------------------------------
  // What the consumer can reconstruct
  // ---------------------------------------------------------------------------------------

  /** The events that the markers stand for, and how many there are. */
  function Marked(log: seq<Item>): nat {
    if log == [] then 0
    else (if log[0].Marker? then log[0].skipped else 0) + Marked(log[1..])
  }

  /**
   * The log with each marker replaced by as many of the dropped events, in order; the dropped
   * events that no marker stands for yet come last.
   */
  function Fill(log: seq<Item>, dropped: seq<Event>): seq<Event>
    requires Marked(log) <= |dropped|
  {
    if log == [] then dropped
    else match log[0]
         case Ordinary(e) => [e] + Fill(log[1..], dropped)
         case Marker(n) => dropped[..n] + Fill(log[1..], dropped[n..])
  }

  function Delivered(log: seq<Item>): seq<Event> {
    if log == [] then []
    else (if log[0].Ordinary? then [log[0].event] else []) + Delivered(log[1..])
  }

  function One(p: Event -> bool, event: Event): seq<Event> {
    if p(event) then [event] else []
  }

  function Filter(p: Event -> bool, events: seq<Event>): seq<Event> {
    if events == [] then [] else One(p, events[0]) + Filter(p, events[1..])
  }

  predicate IsRequest(event: Event) {
    event.ServerRequest?
  }

  /** Requests to refresh auth tokens are not supported in process. */
  predicate IsAuthRefresh(event: Event) {
    event.ServerRequest? && event.authRefresh
  }

  predicate IsForwardable(event: Event) {
    !IsAuthRefresh(event)
  }

  function Lossless(events: seq<Event>): seq<Event> {
    Filter(RequiresDelivery, events)
  }

  function Requests(events: seq<Event>): seq<Event> {
    Filter(IsRequest, events)
  }

  function Forwardable(events: seq<Event>): seq<Event> {
    Filter(IsForwardable, events)
  }

  function AuthRefreshes(events: seq<Event>): seq<Event> {
    Filter(IsAuthRefresh, events)
  }

  lemma {:induction false} MarkedAppend(log: seq<Item>, item: Item)
    ensures Marked(log + [item]) == Marked(log) + if item.Marker? then item.skipped else 0
  {
    if log != [] {
      assert (log + [item])[1..] == log[1..] + [item];
      MarkedAppend(log[1..], item);
    }
  }

  /** Sending an event when every dropped event has its marker. */
  lemma {:induction false} FillSend(log: seq<Item>, dropped: seq<Event>, event: Event)
    requires Marked(log) == |dropped|
    ensures Marked(log + [Ordinary(event)]) == |dropped|
    ensures Fill(log + [Ordinary(event)], dropped) == Fill(log, dropped) + [event]
  {
    MarkedAppend(log, Ordinary(event));
    if log != [] {
      assert (log + [Ordinary(event)])[1..] == log[1..] + [Ordinary(event)];
      FillSend(log[1..], if log[0].Marker? then dropped[log[0].skipped..] else dropped, event);
    }
  }

  /** Sending the marker for all that is pending. */
  lemma {:induction false} FillMark(log: seq<Item>, dropped: seq<Event>)
    requires Marked(log) <= |dropped|
    ensures var mark := Marker(|dropped| - Marked(log));
      && Marked(log + [mark]) == |dropped|
      && Fill(log + [mark], dropped) == Fill(log, dropped)
  {
    var mark := Marker(|dropped| - Marked(log));
    MarkedAppend(log, mark);
    if log != [] {
      assert (log + [mark])[1..] == log[1..] + [mark];
      FillMark(log[1..], if log[0].Marker? then dropped[log[0].skipped..] else dropped);
    }
  }

  /** Dropping one more event. */
  lemma {:induction false} FillDrop(log: seq<Item>, dropped: seq<Event>, event: Event)
    requires Marked(log) <= |dropped|
    ensures Fill(log, dropped + [event]) == Fill(log, dropped) + [event]
  {
    if log != [] {
      match log[0] {
        case Ordinary(_) => FillDrop(log[1..], dropped, event);
        case Marker(n) =>
          assert (dropped + [event])[..n] == dropped[..n];
          assert (dropped + [event])[n..] == dropped[n..] + [event];
          FillDrop(log[1..], dropped[n..], event);
      }
    }
  }

  lemma {:induction false} FilterSplit(p: Event -> bool, xs: seq<Event>, ys: seq<Event>)
    ensures Filter(p, xs + ys) == Filter(p, xs) + Filter(p, ys)
  {
    if xs == [] {
      assert xs + ys == ys;
    } else {
      assert (xs + ys)[1..] == xs[1..] + ys;
      FilterSplit(p, xs[1..], ys);
    }
  }

  lemma FilterOne(p: Event -> bool, event: Event)
    ensures Filter(p, [event]) == One(p, event)
  {
    assert [event][1..] == [];
  }

  lemma FilterAppend(p: Event -> bool, events: seq<Event>, event: Event)
    ensures Filter(p, events + [event]) == Filter(p, events) + One(p, event)
  {
    FilterSplit(p, events, [event]);
    FilterOne(p, event);
  }

  lemma FilterCons(p: Event -> bool, event: Event, events: seq<Event>)
    ensures Filter(p, [event] + events) == One(p, event) + Filter(p, events)
  {
    FilterSplit(p, [event], events);
    FilterOne(p, event);
  }

  lemma {:induction false} NothingLossless(events: seq<Event>)
    requires forall e | e in events :: !RequiresDelivery(e)
    ensures Lossless(events) == []
  {
    if events != [] {
      NothingLossless(events[1..]);
    }
  }

  /** Events that must be delivered are all delivered, in order. */
  lemma {:induction false} LosslessDelivered(log: seq<Item>, dropped: seq<Event>)
    requires Marked(log) <= |dropped| && forall e | e in dropped :: !RequiresDelivery(e)
    ensures Lossless(Delivered(log)) == Lossless(Fill(log, dropped))
  {
    if log == [] {
      NothingLossless(dropped);
    } else {
      match log[0] {
        case Ordinary(e) =>
          LosslessDelivered(log[1..], dropped);
          FilterCons(RequiresDelivery, e, Delivered(log[1..]));
          FilterCons(RequiresDelivery, e, Fill(log[1..], dropped));
        case Marker(n) =>
          LosslessDelivered(log[1..], dropped[n..]);
          assert Delivered(log) == Delivered(log[1..]);
          LosslessSkips(dropped[..n], Fill(log[1..], dropped[n..]));
      }
    }
  }

  lemma LosslessSkips(skipped: seq<Event>, rest: seq<Event>)
    requires forall e | e in skipped :: !RequiresDelivery(e)
    ensures Lossless(skipped + rest) == Lossless(rest)
  {
    NothingLossless(skipped);
    FilterSplit(RequiresDelivery, skipped, rest);
    assert [] + Lossless(rest) == Lossless(rest);
  }

  lemma RequestsMarked(rest: seq<Event>, delivered: seq<Event>, dropped: seq<Event>, n: nat)
    requires n <= |dropped|
    requires multiset(Requests(rest)) == multiset(Requests(delivered)) + multiset(Requests(dropped[n..]))
    ensures multiset(Requests(dropped[..n] + rest)) == multiset(Requests(delivered)) + multiset(Requests(dropped))
  {
    var front, back := dropped[..n], dropped[n..];
    assert dropped == front + back;
    FilterSplit(IsRequest, front, rest);
    FilterSplit(IsRequest, front, back);
  }

  lemma RequestsDelivered(event: Event, rest: seq<Event>, delivered: seq<Event>, dropped: seq<Event>)
    requires multiset(Requests(rest)) == multiset(Requests(delivered)) + multiset(Requests(dropped))
    ensures multiset(Requests([event] + rest)) == multiset(Requests([event] + delivered)) + multiset(Requests(dropped))
  {
    FilterCons(IsRequest, event, rest);
    FilterCons(IsRequest, event, delivered);
  }

  /** Every request is delivered or dropped, as often as it was forwarded. */
  lemma {:induction false} RequestsConserved(log: seq<Item>, dropped: seq<Event>)
    requires Marked(log) <= |dropped|
    ensures multiset(Requests(Fill(log, dropped)))
         == multiset(Requests(Delivered(log))) + multiset(Requests(dropped))
  {
    if log != [] {
      match log[0] {
        case Ordinary(e) =>
          RequestsConserved(log[1..], dropped);
          RequestsDelivered(e, Fill(log[1..], dropped), Delivered(log[1..]), dropped);
        case Marker(n) =>
          RequestsConserved(log[1..], dropped[n..]);
          assert Delivered(log) == Delivered(log[1..]);
          RequestsMarked(Fill(log[1..], dropped[n..]), Delivered(log), dropped, n);
      }
    }
  }

  /** The six kinds of notification that must be delivered; nothing else must. */
  lemma DeliveryTiers(event: Event)
    ensures RequiresDelivery(event) <==>
      exists payload: nat :: event in {
        ServerNotification(TurnCompleted, payload), ServerNotification(ItemCompleted, payload),
        ServerNotification(AgentMessageDelta, payload), ServerNotification(PlanDelta, payload),
        ServerNotification(ReasoningSummaryTextDelta, payload), ServerNotification(ReasoningTextDelta, payload)}
  {
    if RequiresDelivery(event) {
      assert event == ServerNotification(event.kind, event.payload);
    }
  }

  /** The marker that goes before an event when so many were skipped. */
  function LagBefore(skipped: nat): seq<Item> {
    if skipped == 0 then [] else [Marker(skipped)]
  }

  /** The events as they are queued when nothing is skipped. */
  function Ordinaries(events: seq<Event>): seq<Item> {
    seq(|events|, i requires 0 <= i < |events| => Ordinary(events[i]))
  }

  lemma OrdinariesAppend(events: seq<Event>, event: Event)
    ensures Ordinaries(Forwardable(events + [event])) ==
      Ordinaries(Forwardable(events)) + if IsForwardable(event) then [Ordinary(event)] else []
    ensures |Forwardable(events)| <= |events|
  {
    FilterAppend(IsForwardable, events, event);
    FilterShorter(IsForwardable, events);
  }

  lemma {:induction false} OrdinariesDelivered(events: seq<Event>)
    ensures Delivered(Ordinaries(events)) == events
  {
    if events != [] {
      assert Ordinaries(events)[1..] == Ordinaries(events[1..]);
      OrdinariesDelivered(events[1..]);
    }
  }

  lemma {:induction false} FilterShorter(p: Event -> bool, events: seq<Event>)
    ensures |Filter(p, events)| <= |events|
  {
    if events != [] {
      FilterShorter(p, events[1..]);
    }
  }

  /** The counter at its largest stays there. */
  function SaturatingIncrement(n: nat): nat {
    if n >= USIZE_MAX then USIZE_MAX else n + 1
  }

  // ---------------------------------------------------------------------------------------
  // The queue, with a consumer at its other end
  // ---------------------------------------------------------------------------------------

  class Channel {
    const capacity: nat
    var queue: seq<Item>
    var closed: bool
    ghost var received: seq<Item>

    predicate Valid()
      reads this
    {
      1 <= capacity && |queue| <= capacity
    }

    /** Everything that was ever sent. */
    ghost function Log(): seq<Item>
      reads this
    {
      received + queue
    }

    constructor (channelCapacity: nat)
      ensures Valid() && Log() == [] && !closed
      ensures capacity == if channelCapacity < 1 then 1 else channelCapacity
    {
      capacity := if channelCapacity < 1 then 1 else channelCapacity;
      queue, closed, received := [], false, [];
    }

    /** The consumer: it takes any number of items, at least `least`, and may close its end. */
    method Consume(least: nat)
      requires Valid() && least <= |queue|
      modifies this
      ensures Valid() && Log() == old(Log())
      ensures |queue| <= old(|queue|) - least
      ensures old(closed) ==> closed
    {
      var n: nat :| least <= n <= |queue|;
      var closes: bool :| true;
      assert received + queue == received + queue[..n] + queue[n..];
      received, queue := received + queue[..n], queue[n..];
      closed := closed || closes;
    }

    method TrySend(item: Item) returns (r: TrySendResult)
      requires Valid()
      modifies this
      ensures Valid()
      ensures r == Closed <==> closed
      ensures r == Full ==> |queue| == capacity
      ensures Log() == if r == Sent then old(Log()) + [item] else old(Log())
    {
      Consume(0);
      if closed {
        return Closed;
      }
      if |queue| == capacity {
        return Full;
      }
      assert received + (queue + [item]) == received + queue + [item];
      queue := queue + [item];
      r := Sent;
    }

    /** Waits until the consumer has made room or has gone. */
    method Send(item: Item) returns (ok: bool)
      requires Valid()
      modifies this
      ensures Valid()
      ensures ok <==> !closed
      ensures Log() == if ok then old(Log()) + [item] else old(Log())
    {
      Consume(0);
      if |queue| == capacity && !closed {
        Consume(1);
      }
      if closed {
        return false;
      }
      assert received + (queue + [item]) == received + queue + [item];
      queue := queue + [item];
      ok := true;
    }
  }

  // ---------------------------------------------------------------------------------------
  // The forwarder
  // ---------------------------------------------------------------------------------------

  class Forwarder {
    const channel: Channel
    var skipped: nat
    var overloaded: seq<Event>
    var unsupported: seq<Event>
    ghost var dropped: seq<Event>

    /** After `forwarded`, the log and the counter account for every event. */
    ghost predicate Exact(forwarded: seq<Event>)
      reads this, channel
    {
      && channel.Valid()
      && Marked(channel.Log()) + skipped == |dropped|
      && Fill(channel.Log(), dropped) == forwarded
      && (forall e | e in dropped :: !RequiresDelivery(e))
      && overloaded == Requests(dropped)
    }

    /** An event is dropped only when the queue is full: so many items were sent before. */
    ghost predicate DropsWhenFull()
      reads this, channel
    {
      dropped != [] ==> channel.capacity <= |channel.Log()|
    }

    constructor (channelCapacity: nat)
      ensures Exact([]) && fresh(channel) && !channel.closed && unsupported == [] && dropped == []
      ensures channel.capacity == (if channelCapacity < 1 then 1 else channelCapacity) && Handled([])
    {
      channel := new Channel(channelCapacity);
      skipped, overloaded, unsupported, dropped := 0, [], [], [];
    }

    /** A best-effort event finds the queue full: it is counted, and rejected if it is a request. */
    method Drop(event: Event, ghost forwarded: seq<Event>)
      requires Exact(forwarded) && skipped < USIZE_MAX && !RequiresDelivery(event)
      requires |channel.queue| == channel.capacity
      modifies this
      ensures Exact(forwarded + [event]) && DropsWhenFull() && dropped == old(dropped) + [event]
      ensures skipped == old(skipped) + 1 && unsupported == old(unsupported)
      ensures overloaded == if event.ServerRequest? then old(overloaded) + [event] else old(overloaded)
    {
      FillDrop(channel.Log(), dropped, event);
      FilterAppend(IsRequest, dropped, event);
      skipped := SaturatingIncrement(skipped);
      dropped := dropped + [event];
      if event.ServerRequest? {
        overloaded := overloaded + [event];
      }
    }

    /** The marker for what was skipped goes before the event: waiting for room, if it must. */
    method FlushLag(event: Event, ghost forwarded: seq<Event>) returns (r: TrySendResult)
      requires Exact(forwarded) && 0 < skipped
      modifies this`skipped, channel
      ensures Exact(forwarded)
      ensures r == Sent ==> skipped == 0
      ensures r != Sent ==> skipped == old(skipped)
      ensures r == Full ==> !RequiresDelivery(event) && |channel.queue| == channel.capacity
      ensures r == Closed ==> channel.closed
      ensures channel.Log() == old(channel.Log()) + if r == Sent then [Marker(old(skipped))] else []
    {
      ghost var before := channel.Log();
      if RequiresDelivery(event) {
        var ok := channel.Send(Marker(skipped));
        r := if ok then Sent else Closed;
      } else {
        r := channel.TrySend(Marker(skipped));
      }
      if r == Sent {
        FillMark(before, dropped);
        skipped := 0;
      }
    }

    /** The event itself, when nothing is pending: it is sent, or dropped if the queue is full. */
    method Offer(event: Event, ghost forwarded: seq<Event>) returns (r: TrySendResult)
      requires Exact(forwarded) && DropsWhenFull() && skipped == 0
      modifies this, channel
      ensures unsupported == old(unsupported) && DropsWhenFull()
      ensures r == Closed ==> channel.closed && Exact(forwarded)
      ensures r != Closed ==> Exact(forwarded + [event])
      ensures r == Full ==> !RequiresDelivery(event) && |channel.queue| == channel.capacity
      ensures skipped == if r == Full then 1 else 0
      ensures dropped == old(dropped) + if r == Full then [event] else []
      ensures channel.Log() == old(channel.Log()) + if r == Sent then [Ordinary(event)] else []
    {
      FillSend(channel.Log(), dropped, event);
      if RequiresDelivery(event) {
        var ok := channel.Send(Ordinary(event));
        r := if ok then Sent else Closed;
      } else {
        r := channel.TrySend(Ordinary(event));
      }
      if r == Full {
        Drop(event, forwarded);
      }
    }

    /**
     * `forward_in_process_event`.  Whatever the consumer does meanwhile, the event is sent, behind
     * the marker for all that was skipped before it; unless the queue is full and it need not be
     * delivered, when it is dropped and accounted for, or the consumer has gone.
     */
    method Forward(event: Event, ghost forwarded: seq<Event>)
        returns (r: ForwardEventResult, ghost sent: seq<Item>)
      requires Exact(forwarded) && DropsWhenFull() && skipped < USIZE_MAX
      modifies this, channel
      ensures unsupported == old(unsupported) && skipped <= old(skipped) + 1 && DropsWhenFull()
      ensures channel.Log() == old(channel.Log()) + sent
      ensures r == DisableStream ==>
        channel.closed && Exact(forwarded) && dropped == old(dropped) && skipped <= old(skipped)
      ensures r == Continue ==> Exact(forwarded + [event])
      ensures r == Continue && dropped == old(dropped) ==>
        skipped == 0 && sent == LagBefore(old(skipped)) + [Ordinary(event)]
      ensures dropped != old(dropped) ==>
        && r == Continue && dropped == old(dropped) + [event]
        && !RequiresDelivery(event) && |channel.queue| == channel.capacity
      ensures r == DisableStream || dropped != old(dropped) ==> sent == [] || sent == LagBefore(old(skipped))
    {
      sent := [];
      if skipped > 0 {
        sent := LagBefore(skipped);
        var flushed := FlushLag(event, forwarded);
        match flushed {
          case Sent =>
          case Full =>
            Drop(event, forwarded);
            return Continue, [];
          case Closed =>
            return DisableStream, [];
        }
      }
      var offered := Offer(event, forwarded);
      match offered {
        case Sent =>
          r, sent := Continue, sent + [Ordinary(event)];
        case Full =>
          r := Continue;
        case Closed =>
          r := DisableStream;
      }
    }

    /**
     * What came of these events.  If none was dropped exactly the forwardable ones were queued;
     * one was dropped only if more came than the queue holds.
     */
    ghost predicate Handled(events: seq<Event>)
      reads this, channel
    {
      && Exact(Forwardable(events)) && DropsWhenFull() && skipped <= |events|
      && unsupported == AuthRefreshes(events)
      && if dropped == [] then channel.Log() == Ordinaries(Forwardable(events)) else channel.capacity < |events|
    }

    /** One event: a request to refresh auth tokens is turned down, any other is forwarded. */
    method Handle(event: Event, ghost done: seq<Event>) returns (r: ForwardEventResult)
      requires Handled(done) && |done| < USIZE_MAX
      modifies this, channel
      ensures r == Continue ==> Handled(done + [event])
      ensures r == DisableStream ==> channel.closed && Handled(done)
    {
      FilterAppend(IsForwardable, done, event);
      FilterAppend(IsAuthRefresh, done, event);
      OrdinariesAppend(done, event);
      if event.ServerRequest? && event.authRefresh {
        unsupported := unsupported + [event];
        r := Continue;
      } else {
        ghost var sent;
        r, sent := Forward(event, Forwardable(done));
      }
    }

    /**
     * The worker's event loop: requests to refresh auth tokens are turned down at once, all
     * other events are forwarded until the consumer has gone.  What came out accounts for every
     * event handled: none that must be delivered is missing, each request was delivered or turned
     * down, and the markers count what was skipped.  Nothing was skipped if no more events came
     * than the queue holds.
     */
    method Run(events: seq<Event>) returns (enabled: bool, ghost handled: nat)
      requires Handled([]) && |events| < USIZE_MAX
      modifies this, channel
      ensures handled <= |events| && Handled(events[..handled])
      ensures enabled ==> handled == |events|
      ensures !enabled ==> channel.closed
      ensures var done := events[..handled]; var delivered := Delivered(channel.Log());
        && Lossless(delivered) == Lossless(Forwardable(done))
        && |Forwardable(done)| == |delivered| + Marked(channel.Log()) + skipped
        && multiset(Requests(done))
           == multiset(Requests(delivered)) + multiset(overloaded) + multiset(unsupported)
        && (|done| <= channel.capacity ==> delivered == Forwardable(done))
    {
      enabled, handled := true, 0;
      var i := 0;
      while enabled && i < |events|
        invariant handled <= i <= |events| && Handled(events[..handled])
        invariant if enabled then handled == i else channel.closed
      {
        assert events[..i + 1] == events[..i] + [events[i]];
        var r := Handle(events[i], events[..i]);
        i := i + 1;
        if r == Continue {
          handled := i;
        } else {
          enabled := false;
        }
      }
      ghost var done := events[..handled];
      GapsAreExact(done, channel.Log(), dropped, skipped, overloaded);
      OrdinariesDelivered(Forwardable(done));
    }
  }

  /** Of the events that came in, each request was either forwarded or turned down at once. */
  lemma {:induction false} RequestsOfRun(events: seq<Event>)
    ensures multiset(Requests(events)) == multiset(Requests(Forwardable(events))) + multiset(AuthRefreshes(events))
  {
    if events != [] {
      RequestsOfRun(events[1..]);
      var rest := Forwardable(events[1..]);
      if IsForwardable(events[0]) {
        FilterCons(IsRequest, events[0], rest);
      } else {
        assert [] + rest == rest;
      }
    }
  }

  /**
   * What a consumer may rely on: with the markers filled in it has every event in order, no
   * event that must be delivered is missing, and each request was delivered or rejected, never
   * both and never neither.
   */
  lemma GapsAreExact(events: seq<Event>, log: seq<Item>, dropped: seq<Event>, pending: nat, rejected: seq<Event>)
    requires Marked(log) + pending == |dropped| && Fill(log, dropped) == Forwardable(events)
    requires forall e | e in dropped :: !RequiresDelivery(e)
    requires rejected == Requests(dropped)
    ensures |Forwardable(events)| == |Delivered(log)| + Marked(log) + pending
    ensures Lossless(Delivered(log)) == Lossless(Forwardable(events))
    ensures multiset(Requests(events))
         == multiset(Requests(Delivered(log))) + multiset(rejected) + multiset(AuthRefreshes(events))
  {
    FillLength(log, dropped);
    LosslessDelivered(log, dropped);
    RequestsConserved(log, dropped);
    RequestsOfRun(events);
  }

  lemma {:induction false} FillLength(log: seq<Item>, dropped: seq<Event>)
    requires Marked(log) <= |dropped|
    ensures |Fill(log, dropped)| == |Delivered(log)| + |dropped|
  {
    if log != [] {
      FillLength(log[1..], if log[0].Marker? then dropped[log[0].skipped..] else dropped);
    }
  }
}
