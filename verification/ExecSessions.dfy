/**
 * `command/exec` as a whole: the table of sessions, the control channels, the calls on them, and
 * what a close still has to tell.  Each method of the manager is one atomic section; a run is any
 * sequence of them.
 */
module ExecSessions {
  import opened ExecTable
  import opened Tally
  import opened Wrappers

  const CONTROL_CAPACITY: nat := 32

  datatype Control = Write(delta: seq<bv8>, closeStdin: bool) | Resize(rows: nat, cols: nat) | Terminate

  datatype ControlRequest = ControlRequest(control: Control, caller: Option<nat>)

  datatype ControlResult = NoActiveProcess | UnsupportedForWindows | NoLongerRunning | Handled(ok: bool)

  datatype Channel = Channel(queue: seq<ControlRequest>, open: bool)

  /** A call of `send_control` past its lookup: still sending, or waiting for its answer. */
  datatype Call = Sending(channel: nat, control: Control) | Waiting(channel: nat)

  // ---------------------------------------------------------------------------------------
  // The control channels and the calls on them
  // ---------------------------------------------------------------------------------------

  function Callers(queue: seq<ControlRequest>): seq<nat> {
    if queue == [] then []
    else Callers(queue[..|queue| - 1]) + CallerOf(queue[|queue| - 1])
  }

  function CallerOf(request: ControlRequest): seq<nat> {
    match request.caller
    case None => []
    case Some(call) => [call]
  }

  lemma CallersAppend(queue: seq<ControlRequest>, request: ControlRequest)
    ensures Callers(queue + [request]) == Callers(queue) + CallerOf(request)
  {
    assert (queue + [request])[..|queue|] == queue;
  }

  lemma {:induction false} CallersCons(request: ControlRequest, queue: seq<ControlRequest>)
    ensures Callers([request] + queue) == CallerOf(request) + Callers(queue)
  {
    if queue == [] {
      assert [request] + queue == [] + [request];
      CallersAppend([], request);
    } else {
      var front := queue[..|queue| - 1];
      CallersCons(request, front);
      assert [request] + queue == ([request] + front) + [queue[|queue| - 1]];
      CallersAppend([request] + front, queue[|queue| - 1]);
    }
  }

  predicate ChannelOk(channel: Channel) {
    && |channel.queue| <= CONTROL_CAPACITY
    && Distinct(Callers(channel.queue))
    && (!channel.open ==> channel.queue == [])
  }

  /** A call waits on a channel exactly while its request is queued there. */
  ghost predicate QueuedIffWaiting(channels: map<nat, Channel>, calls: map<nat, Call>, c: nat)
    requires c in channels
  {
    forall w :: w in Callers(channels[c].queue) <==> w in calls && calls[w] == Waiting(c)
  }

  ghost predicate Wired(channels: map<nat, Channel>, calls: map<nat, Call>) {
    && (forall c | c in channels :: ChannelOk(channels[c]) && QueuedIffWaiting(channels, calls, c))
    && forall w | w in calls :: calls[w].channel in channels
  }

  lemma WiredOpen(channels: map<nat, Channel>, calls: map<nat, Call>, channel: nat)
    requires Wired(channels, calls) && channel !in channels
    ensures Wired(channels[channel := Channel([], true)], calls)
  {
    var channels' := channels[channel := Channel([], true)];
    forall c | c in channels' ensures ChannelOk(channels'[c]) && QueuedIffWaiting(channels', calls, c) {
      if c != channel {
        assert QueuedIffWaiting(channels, calls, c);
      }
    }
  }

  /** The receiving end of a channel with nothing queued goes away. */
  lemma WiredShut(channels: map<nat, Channel>, calls: map<nat, Call>, channel: nat)
    requires Wired(channels, calls) && channel in channels && channels[channel].queue == []
    ensures Wired(channels[channel := Channel([], false)], calls)
  {
    var channels' := channels[channel := Channel([], false)];
    forall c | c in channels' ensures ChannelOk(channels'[c]) && QueuedIffWaiting(channels', calls, c) {
      assert QueuedIffWaiting(channels, calls, c);
    }
  }

  lemma WiredLookup(channels: map<nat, Channel>, calls: map<nat, Call>,
      w: nat, channel: nat, control: Control)
    requires Wired(channels, calls) && w !in calls && channel in channels
    ensures Wired(channels, calls[w := Sending(channel, control)])
  {
    var calls' := calls[w := Sending(channel, control)];
    forall c | c in channels ensures QueuedIffWaiting(channels, calls', c) {
      assert QueuedIffWaiting(channels, calls, c);
    }
  }

  /** A request is queued whose caller does not wait. */
  lemma WiredNotify(channels: map<nat, Channel>, calls: map<nat, Call>, channel: nat, control: Control)
    requires Wired(channels, calls) && channel in channels && channels[channel].open
    requires |channels[channel].queue| < CONTROL_CAPACITY
    ensures Wired(
      channels[channel := Channel(channels[channel].queue + [ControlRequest(control, None)], true)], calls)
  {
    var channels' := channels[channel := Channel(channels[channel].queue + [ControlRequest(control, None)], true)];
    CallersAppend(channels[channel].queue, ControlRequest(control, None));
    forall c | c in channels' ensures ChannelOk(channels'[c]) && QueuedIffWaiting(channels', calls, c) {
      assert QueuedIffWaiting(channels, calls, c) && ChannelOk(channels[c]);
    }
  }

  /** A call queues its request and waits. */
  lemma WiredQueue(channels: map<nat, Channel>, calls: map<nat, Call>, w: nat)
    requires Wired(channels, calls) && w in calls && calls[w].Sending? && calls[w].channel in channels
    requires channels[calls[w].channel].open && |channels[calls[w].channel].queue| < CONTROL_CAPACITY
    ensures var c := calls[w].channel;
      Wired(
        channels[c := Channel(channels[c].queue + [ControlRequest(calls[w].control, Some(w))], true)],
        calls[w := Waiting(c)])
  {
    var channel := calls[w].channel;
    var queue := channels[channel].queue;
    var request := ControlRequest(calls[w].control, Some(w));
    var channels' := channels[channel := Channel(queue + [request], true)];
    var calls' := calls[w := Waiting(channel)];
    CallersAppend(queue, request);
    assert QueuedIffWaiting(channels, calls, channel) && ChannelOk(channels[channel]);
    AppendDistinct(Callers(queue), w);
    assert ChannelOk(channels'[channel]);
    assert QueuedIffWaiting(channels', calls', channel);
    forall c | c in channels' ensures ChannelOk(channels'[c]) && QueuedIffWaiting(channels', calls', c) {
      if c != channel {
        assert QueuedIffWaiting(channels, calls, c) && ChannelOk(channels[c]);
      }
    }
  }

  lemma AppendDistinct(s: seq<nat>, x: nat)
    requires Distinct(s) && x !in s
    ensures Distinct(s + [x])
  {
  }

  /** A call leaves before it has queued anything. */
  lemma WiredLeave(channels: map<nat, Channel>, calls: map<nat, Call>, w: nat)
    requires Wired(channels, calls) && w in calls && calls[w].Sending?
    ensures Wired(channels, calls - {w})
  {
    forall c | c in channels ensures QueuedIffWaiting(channels, calls - {w}, c) {
      assert QueuedIffWaiting(channels, calls, c);
    }
  }

  /** The first request leaves the queue, and its caller with it. */
  lemma WiredTake(channels: map<nat, Channel>, calls: map<nat, Call>, channel: nat)
    requires Wired(channels, calls) && channel in channels && channels[channel].queue != []
    ensures channels[channel].open
    ensures var caller := channels[channel].queue[0].caller;
      && (caller.Some? ==> caller.value in calls && calls[caller.value] == Waiting(channel))
      && Wired(channels[channel := Channel(channels[channel].queue[1..], true)],
           if caller.Some? then calls - {caller.value} else calls)
  {
    var queue := channels[channel].queue;
    var caller := queue[0].caller;
    assert ChannelOk(channels[channel]) && QueuedIffWaiting(channels, calls, channel);
    assert queue == [queue[0]] + queue[1..];
    CallersCons(queue[0], queue[1..]);
    TailDistinct(Callers(queue), CallerOf(queue[0]), Callers(queue[1..]));
    if caller.Some? {
      assert Callers(queue)[0] == caller.value;
    }
    var channels' := channels[channel := Channel(queue[1..], true)];
    var calls' := if caller.Some? then calls - {caller.value} else calls;
    forall c | c in channels' ensures ChannelOk(channels'[c]) && QueuedIffWaiting(channels', calls', c) {
      assert QueuedIffWaiting(channels, calls, c) && ChannelOk(channels[c]);
    }
  }

  lemma TakeIsOpen(channels: map<nat, Channel>, calls: map<nat, Call>, channel: nat)
    requires Wired(channels, calls) && channel in channels && channels[channel].queue != []
    ensures channels[channel].open
  {
    assert ChannelOk(channels[channel]);
  }

  lemma TailDistinct(whole: seq<nat>, head: seq<nat>, tail: seq<nat>)
    requires whole == head + tail && Distinct(whole)
    ensures Distinct(tail) && forall x | x in head :: x !in tail
  {
    forall i, j | 0 <= i < j < |tail| ensures tail[i] != tail[j] {
      assert whole[|head| + i] == tail[i] && whole[|head| + j] == tail[j];
    }
    forall i, j | 0 <= i < |head| && 0 <= j < |tail| ensures head[i] != tail[j] {
      assert whole[i] == head[i] && whole[|head| + j] == tail[j];
    }
  }

  /** The calls that do not wait on the channel are as they were. */
  predicate OthersStay(before: map<nat, Call>, after: map<nat, Call>, channel: nat) {
    forall w | w in before && before[w] != Waiting(channel) :: w in after && after[w] == before[w]
  }

  predicate SameBut(before: map<nat, Channel>, after: map<nat, Channel>, channel: nat) {
    after.Keys == before.Keys && forall c | c in before && c != channel :: after[c] == before[c]
  }

  /** Nobody waits for an answer on a closed channel: a call there learns so when it next sends. */
  lemma NobodyWaits(channels: map<nat, Channel>, calls: map<nat, Call>, w: nat)
    requires Wired(channels, calls) && w in calls && !channels[calls[w].channel].open
    ensures calls[w].Sending?
  {
    assert QueuedIffWaiting(channels, calls, calls[w].channel) && ChannelOk(channels[calls[w].channel]);
  }

  // ---------------------------------------------------------------------------------------
  // Closing a connection
  // ---------------------------------------------------------------------------------------

  /**
   * A call of `connection_closed` past its lookup: the channels that it removed, those it has yet
   * to tell, those on which it queued a terminate request, and those it found closed.
   */
  datatype Closing = Closing(removed: set<nat>, todo: seq<nat>, notified: set<nat>, gone: set<nat>)

  /** No channel is forgotten. */
  predicate ClosingOk(closing: Closing) {
    forall c | c in closing.removed :: c in closing.todo || c in closing.notified || c in closing.gone
  }

  datatype NotifyResult = Queued | Gone | NoRoom

  function AfterNotify(closing: Closing, r: NotifyResult): Closing
    requires closing.todo != []
  {
    match r
    case Queued => closing.(todo := closing.todo[1..], notified := closing.notified + {closing.todo[0]})
    case Gone => closing.(todo := closing.todo[1..], gone := closing.gone + {closing.todo[0]})
    case NoRoom => closing
  }

  lemma NotifyForgetsNone(closing: Closing, r: NotifyResult)
    requires closing.todo != [] && ClosingOk(closing)
    ensures ClosingOk(AfterNotify(closing, r))
  {
    assert closing.todo == [closing.todo[0]] + closing.todo[1..];
  }

  // ---------------------------------------------------------------------------------------
  // What happens to the channels and the calls
  // ---------------------------------------------------------------------------------------

  datatype Controls = Controls(
    channels: map<nat, Channel>, lookups: nat, calls: map<nat, Call>, results: seq<(nat, ControlResult)>)

  function SetChannel(s: Controls, c: nat, channel: Channel): Controls {
    s.(channels := s.channels[c := channel])
  }

  /** A call has its result at once. */
  function Answered(s: Controls, result: ControlResult): Controls {
    s.(lookups := s.lookups + 1, results := s.results + [(s.lookups, result)])
  }

  /** `send_control` as far as the lookup, given what the lookup found. */
  function LookedUp(s: Controls, found: Option<Session>, control: Control): Controls {
    match found
    case None => Answered(s, NoActiveProcess)
    case Some(UnsupportedWindowsSandbox) => Answered(s, UnsupportedForWindows)
    case Some(Active(c)) => s.(lookups := s.lookups + 1, calls := s.calls[s.lookups := Sending(c, control)])
  }

  /** A call tries to send: it queues its request, learns that the channel is closed, or stays blocked. */
  function Sent(s: Controls, w: nat): Controls
    requires w in s.calls && s.calls[w].Sending? && s.calls[w].channel in s.channels
  {
    var c := s.calls[w].channel;
    var channel := s.channels[c];
    if !channel.open then s.(calls := s.calls - {w}, results := s.results + [(w, NoLongerRunning)])
    else if |channel.queue| < CONTROL_CAPACITY then
      SetChannel(s, c, Channel(channel.queue + [ControlRequest(s.calls[w].control, Some(w))], true))
        .(calls := s.calls[w := Waiting(c)])
    else s
  }

  /** The first request is taken off the queue and its caller, if it has one, is answered. */
  function Taken(s: Controls, c: nat, result: ControlResult): Controls
    requires c in s.channels && s.channels[c].queue != []
  {
    var next := SetChannel(s, c, Channel(s.channels[c].queue[1..], true));
    match s.channels[c].queue[0].caller
    case None => next
    case Some(w) => next.(calls := s.calls - {w}, results := s.results + [(w, result)])
  }

  /** Every request still queued is dropped, and its caller told. */
  function Drained(s: Controls, c: nat): Controls
    requires c in s.channels
    decreases |s.channels[c].queue|
  {
    if s.channels[c].queue == [] then s else Drained(Taken(s, c, NoLongerRunning), c)
  }

  /** The receiving end goes away. */
  function Shutting(s: Controls, c: nat): Controls
    requires c in s.channels
  {
    SetChannel(Drained(s, c), c, Channel([], false))
  }

  /** What comes of telling a channel to terminate. */
  function NotifyAnswer(channel: Channel): NotifyResult {
    if !channel.open then Gone else if |channel.queue| < CONTROL_CAPACITY then Queued else NoRoom
  }

  /** The queue holds 32 requests. */
  lemma RoomInQueue(channel: Channel)
    ensures NotifyAnswer(channel) == Queued <==> channel.open && |channel.queue| < 32
    ensures NotifyAnswer(channel) == Gone <==> !channel.open
  {
  }

  function Notified(s: Controls, c: nat): Controls
    requires c in s.channels
  {
    var channel := s.channels[c];
    if NotifyAnswer(channel) == Queued
    then SetChannel(s, c, Channel(channel.queue + [ControlRequest(Terminate, None)], true))
    else s
  }

  predicate SameOpen(before: map<nat, Channel>, after: map<nat, Channel>) {
    after.Keys == before.Keys && forall c | c in before :: after[c].open == before[c].open
  }

  /** A call queues its request: it waits, and the same calls are under way. */
  /** Each control call has one result or is under way. */
  ghost predicate Kept(s: Controls) {
    Wired(s.channels, s.calls) && Once(s.results, s.calls.Keys, s.lookups)
  }

  /** A call queues its request. */
  lemma SentKept(s: Controls, w: nat)
    requires Kept(s) && w in s.calls && s.calls[w].Sending? && s.calls[w].channel in s.channels
    requires s.channels[s.calls[w].channel].open && |s.channels[s.calls[w].channel].queue| < CONTROL_CAPACITY
    ensures Kept(Sent(s, w))
  {
    WiredQueue(s.channels, s.calls, w);
    assert Sent(s, w).calls.Keys == s.calls.Keys;
  }

  lemma SentOpen(s: Controls, w: nat)
    requires w in s.calls && s.calls[w].Sending? && s.calls[w].channel in s.channels
    ensures SameOpen(s.channels, Sent(s, w).channels)
  {
  }

  /** One request fewer is left to drop. */
  lemma DrainedStep(s: Controls, c: nat)
    requires c in s.channels && s.channels[c].queue != []
    ensures var next := Taken(s, c, NoLongerRunning);
      && c in next.channels && next.channels[c].queue == s.channels[c].queue[1..]
      && SameBut(s.channels, next.channels, c) && Drained(s, c) == Drained(next, c)
  {
  }

  class ControlChannels {
    var channels: map<nat, Channel>
    var lookups: nat
    var calls: map<nat, Call>
    var results: seq<(nat, ControlResult)>

    ghost function Now(): Controls
      reads this
    {
      Controls(channels, lookups, calls, results)
    }

    /** What every run keeps: each control call has one result or is under way. */
    ghost predicate Valid()
      reads this
    {
      Kept(Now())
    }

    constructor ()
      ensures Valid() && Now() == Controls(map[], 0, map[], [])
    {
      channels, lookups, calls, results := map[], 0, map[], [];
    }

    method Open(channel: nat)
      requires Valid() && channel !in channels
      modifies this`channels
      ensures Valid() && Now() == SetChannel(old(Now()), channel, Channel([], true))
    {
      WiredOpen(channels, calls, channel);
      channels := channels[channel := Channel([], true)];
    }

    method Look(found: Option<Session>, control: Control)
      requires Valid() && (found.Some? && found.value.Active? ==> found.value.control in channels)
      modifies this`lookups, this`calls, this`results
      ensures Valid() && Now() == LookedUp(old(Now()), found, control)
    {
      match found
      case None => Answer(NoActiveProcess);
      case Some(UnsupportedWindowsSandbox) => Answer(UnsupportedForWindows);
      case Some(Active(c)) =>
        OnceIssued(results, calls.Keys, lookups);
        assert Times(results, lookups) + (if lookups in calls.Keys then 1 else 0) == 0;
        WiredLookup(channels, calls, lookups, c, control);
        assert calls[lookups := Sending(c, control)].Keys == calls.Keys + {lookups};
        calls := calls[lookups := Sending(c, control)];
        lookups := lookups + 1;
    }

    method Answer(result: ControlResult)
      requires Valid()
      modifies this`lookups, this`results
      ensures Valid() && Now() == Answered(old(Now()), result)
    {
      OnceRefused(results, calls.Keys, lookups, result);
      results := results + [(lookups, result)];
      lookups := lookups + 1;
    }

    method Send(w: nat)
      requires Valid() && w in calls && calls[w].Sending?
      modifies this`channels, this`calls, this`results
      ensures Valid() && SameOpen(old(channels), channels)
      ensures old(calls)[w].channel in old(channels) && Now() == Sent(old(Now()), w)
    {
      var channel := channels[calls[w].channel];
      if !channel.open {
        Leave(w);
      } else if |channel.queue| < CONTROL_CAPACITY {
        Queue(w);
      }
    }

    /** The request of a call is queued, and the call waits. */
    method Queue(w: nat)
      requires Valid() && w in calls && calls[w].Sending? && calls[w].channel in channels
      requires channels[calls[w].channel].open && |channels[calls[w].channel].queue| < CONTROL_CAPACITY
      modifies this`channels, this`calls
      ensures Valid() && SameOpen(old(channels), channels) && Now() == Sent(old(Now()), w)
    {
      SentKept(Now(), w);
      SentOpen(Now(), w);
      var c, control := calls[w].channel, calls[w].control;
      channels := channels[c := Channel(channels[c].queue + [ControlRequest(control, Some(w))], true)];
      calls := calls[w := Waiting(c)];
      assert Now() == Sent(old(Now()), w);
    }

    method Leave(w: nat)
      requires Valid() && w in calls && calls[w].Sending?
      modifies this`calls, this`results
      ensures Valid() && calls == old(calls) - {w} && results == old(results) + [(w, NoLongerRunning)]
    {
      WiredLeave(channels, calls, w);
      OncePaid(results, calls.Keys, lookups, (w, NoLongerRunning));
      assert (calls - {w}).Keys == calls.Keys - {w};
      results := results + [(w, NoLongerRunning)];
      calls := calls - {w};
    }

    method Take(c: nat, result: ControlResult)
      requires Valid() && c in channels && channels[c].queue != []
      modifies this`channels, this`calls, this`results
      ensures Valid() && Now() == Taken(old(Now()), c, result)
      ensures OthersStay(old(calls), calls, c)
    {
      var caller := channels[c].queue[0].caller;
      WiredTake(channels, calls, c);
      if caller.Some? {
        OncePaid(results, calls.Keys, lookups, (caller.value, result));
        assert (calls - {caller.value}).Keys == calls.Keys - {caller.value};
        results := results + [(caller.value, result)];
        calls := calls - {caller.value};
      }
      channels := channels[c := Channel(channels[c].queue[1..], true)];
    }

    method Shut(c: nat)
      requires Valid() && c in channels
      modifies this`channels, this`calls, this`results
      ensures Valid() && Now() == Shutting(old(Now()), c)
      ensures SameBut(old(channels), channels, c) && channels[c] == Channel([], false)
      ensures OthersStay(old(calls), calls, c) && forall w | w in calls :: calls[w] != Waiting(c)
    {
      Drain(c);
      WiredShut(channels, calls, c);
      assert QueuedIffWaiting(channels, calls, c);
      channels := channels[c := Channel([], false)];
    }

    method Drain(c: nat)
      requires Valid() && c in channels
      modifies this`channels, this`calls, this`results
      ensures Valid() && c in channels && channels[c].queue == [] && Now() == Drained(old(Now()), c)
      ensures SameBut(old(channels), channels, c)
      ensures OthersStay(old(calls), calls, c)
    {
      while channels[c].queue != []
        invariant Valid() && c in channels && Drained(Now(), c) == Drained(old(Now()), c)
        invariant SameBut(old(channels), channels, c)
        invariant OthersStay(old(calls), calls, c)
        decreases |channels[c].queue|
      {
        DrainedStep(Now(), c);
        Take(c, NoLongerRunning);
      }
    }

    method Notify(c: nat) returns (r: NotifyResult)
      requires Valid() && c in channels
      modifies this`channels
      ensures Valid() && r == NotifyAnswer(old(channels)[c]) && Now() == Notified(old(Now()), c)
    {
      var channel := channels[c];
      if !channel.open {
        r := Gone;
      } else if |channel.queue| < CONTROL_CAPACITY {
        WiredNotify(channels, calls, c, Terminate);
        channels := channels[c := Channel(channel.queue + [ControlRequest(Terminate, None)], true)];
        r := Queued;
      } else {
        r := NoRoom;
      }
    }
  }

  // ---------------------------------------------------------------------------------------
  // All of it together
  // ---------------------------------------------------------------------------------------

  /** The receiving end of the channel is held by a task that has not let go of it. */
  predicate Listening(tasks: Tasks, channel: nat) {
    channel in tasks && !tasks[channel].windowsSandbox && tasks[channel].phase != Dropped
  }

  /** A channel is open exactly as long as its task listens. */
  predicate Linked(tasks: Tasks, channels: map<nat, Channel>, starts: nat) {
    && (forall c | c in channels :: c < starts && (channels[c].open <==> Listening(tasks, c)))
    && forall a | a in tasks && !tasks[a].windowsSandbox :: a in channels
  }

  predicate ClosingsOk(closings: seq<Closing>, channels: map<nat, Channel>) {
    forall id | 0 <= id < |closings| ::
      ClosingOk(closings[id]) && forall c | c in closings[id].todo :: c in channels
  }

  /** An active session's channel exists. */
  lemma ActiveIsLinked(s: State, channels: map<nat, Channel>, key: Key)
    requires TableExact(s) && Linked(s.tasks, channels, s.starts)
    requires key in s.sessions && s.sessions[key].Active?
    ensures s.sessions[key].control in channels
  {
    assert MadeBySome(s, key);
    var a :| a in s.tasks && s.tasks[a].key == key && s.tasks[a].entered;
    assert HasEntry(s, a);
  }

  lemma ActiveAreLinked(s: State, channels: map<nat, Channel>, connection: nat)
    requires TableExact(s) && Linked(s.tasks, channels, s.starts)
    ensures ActiveOf(s.sessions, connection) <= channels.Keys
  {
    forall key | key in s.sessions && s.sessions[key].Active? ensures s.sessions[key].control in channels {
      ActiveIsLinked(s, channels, key);
    }
  }

  lemma CloseLinked(s: State, channels: map<nat, Channel>, connection: nat)
    requires Linked(s.tasks, channels, s.starts)
    ensures Linked(Close(s, connection).tasks, channels, s.starts)
  {
  }

  lemma CloseKeeps(s: State, channels: map<nat, Channel>, connection: nat)
    requires Safe(s) && Linked(s.tasks, channels, s.starts)
    ensures var next := Close(s, connection); Safe(next) && Linked(next.tasks, channels, next.starts)
    ensures ActiveOf(s.sessions, connection) <= channels.Keys
  {
    CloseSafe(s, connection);
    CloseLinked(s, channels, connection);
    ActiveAreLinked(s, channels, connection);
  }

  /** A task goes once its channel, if it has one, is closed. */
  lemma RemoveLinked(s: State, channels: map<nat, Channel>, call: nat)
    requires Linked(s.tasks, channels, s.starts) && call in s.tasks && !Listening(s.tasks, call)
    ensures Linked(Remove(s, call).tasks, channels, s.starts)
  {
  }

  /** A task lets go of its channel. */
  lemma LetGoLinked(s: State, channels: map<nat, Channel>, call: nat)
    requires Linked(s.tasks, channels, s.starts) && call in s.tasks && call in channels
    ensures Linked(SetPhase(s, call, Dropped).tasks, channels[call := Channel([], false)], s.starts)
  {
  }

  lemma SameOpenLinked(s: State, before: map<nat, Channel>, after: map<nat, Channel>, closings: seq<Closing>)
    requires SameOpen(before, after) && Linked(s.tasks, before, s.starts) && ClosingsOk(closings, before)
    ensures Linked(s.tasks, after, s.starts) && ClosingsOk(closings, after)
  {
    forall c | c in after ensures c < s.starts && (after[c].open <==> Listening(s.tasks, c)) {
      assert c in before;
    }
  }

  lemma StartLinked(s: State, channels: map<nat, Channel>, p: StartParams, closings: seq<Closing>)
    requires Linked(s.tasks, channels, s.starts) && ClosingsOk(closings, channels)
    ensures s.starts !in channels
    ensures var next := Start(s, p);
      var more :=
        if RefusalOf(s, p).None? && !p.windowsSandbox then channels[s.starts := Channel([], true)] else channels;
      Linked(next.tasks, more, next.starts) && ClosingsOk(closings, more)
  {
  }

  lemma SpawnFailLinked(s: State, channels: map<nat, Channel>, call: nat)
    requires Linked(s.tasks, channels, s.starts) && call in s.tasks && call in channels
    ensures Linked(Remove(s, call).tasks, channels[call := Channel([], false)], s.starts)
  {
  }

  lemma ClosingAdded(closings: seq<Closing>, channels: map<nat, Channel>, removed: seq<nat>)
    requires ClosingsOk(closings, channels) && (set c | c in removed) <= channels.Keys
    ensures ClosingsOk(closings + [Closing((set c | c in removed), removed, {}, {})], channels)
  {
    forall c | c in removed ensures c in channels {
      assert c in (set d | d in removed);
    }
  }

  lemma NothingLeft(s: State)
    requires TableExact(s) && s.tasks == map[]
    ensures s.sessions == map[]
  {
    forall key | key in s.sessions ensures MadeBySome(s, key) {
    }
  }

  /** A step of the table's, or one of the control calls and closes. */
  datatype Action =
    | TableStep(step: Step)
    | Look(key: Key, control: Control)
    | Send(waiter: nat)
    | Serve(call: nat, ok: bool)
    | Notify(closing: nat)

  function TableSteps(actions: seq<Action>): seq<Step> {
    if actions == [] then []
    else
      var last := actions[|actions| - 1];
      TableSteps(actions[..|actions| - 1]) + if last.TableStep? then [last.step] else []
  }

  function CountLooks(actions: seq<Action>): nat {
    if actions == [] then 0
    else CountLooks(actions[..|actions| - 1]) + if actions[|actions| - 1].Look? then 1 else 0
  }

  datatype Whole = Whole(table: State, controls: Controls, closings: seq<Closing>)

  function Found(sessions: Table, key: Key): Option<Session> {
    if key in sessions then Some(sessions[key]) else None
  }

  /** A call is past its lookup and has not queued its request. */
  predicate CanSend(s: Whole, w: nat) {
    w in s.controls.calls && s.controls.calls[w].Sending? && s.controls.calls[w].channel in s.controls.channels
  }

  /** A running process has a request to take. */
  predicate CanServe(s: Whole, call: nat) {
    && call in s.table.tasks && s.table.tasks[call].phase == Running
    && call in s.controls.channels && s.controls.channels[call].queue != []
  }

  predicate CanNotify(s: Whole, id: nat) {
    id < |s.closings| && s.closings[id].todo != [] && s.closings[id].todo[0] in s.controls.channels
  }

  /** What a step of the table does to the channels: a start opens one, and its task closes it. */
  function ControlsAfter(t: State, s: Controls, step: Step): Controls {
    if !Enabled(t, step) then s
    else match step
         case StartCall(p) =>
           if RefusalOf(t, p).None? && !p.windowsSandbox then SetChannel(s, t.starts, Channel([], true)) else s
         case SpawnEnds(call, ok) => if !ok && call in s.channels then Shutting(s, call) else s
         case LetGo(call) => if call in s.channels then Shutting(s, call) else s
         case _ => s
  }

  /** The close of a connection lists the channels of its active sessions, each once. */
  predicate Closed(t: State, connection: nat, closing: Closing) {
    && closing.removed == ActiveOf(t.sessions, connection) == (set c | c in closing.todo)
    && Distinct(closing.todo) && closing.notified == {} && closing.gone == {}
  }

  predicate ClosingsAfter(t: State, before: seq<Closing>, step: Step, after: seq<Closing>) {
    if step.CloseConnection? then
      |after| == |before| + 1 && after[..|before|] == before && Closed(t, step.connection, after[|before|])
    else after == before
  }

  /** One action and what comes of it; one that cannot happen now changes nothing. */
  predicate Acts(s: Whole, action: Action, next: Whole) {
    match action
    case TableStep(step) =>
      && next.table == Next(s.table, step) && next.controls == ControlsAfter(s.table, s.controls, step)
      && ClosingsAfter(s.table, s.closings, step, next.closings)
    case Look(key, control) =>
      next == s.(controls := LookedUp(s.controls, Found(s.table.sessions, key), control))
    case Send(w) => next == if CanSend(s, w) then s.(controls := Sent(s.controls, w)) else s
    case Serve(call, ok) =>
      next == if CanServe(s, call) then s.(controls := Taken(s.controls, call, Handled(ok))) else s
    case Notify(id) =>
      next ==
      if !CanNotify(s, id) then s
      else
        var c := s.closings[id].todo[0];
        s.(controls := Notified(s.controls, c),
           closings := s.closings[id := AfterNotify(s.closings[id], NotifyAnswer(s.controls.channels[c]))])
  }

  // ---------------------------------------------------------------------------------------
  // What the bookkeeping of closes means
  // ---------------------------------------------------------------------------------------

  /** The states that a run of the actions passes through. */
  predicate Traces(trace: seq<Whole>, actions: seq<Action>) {
    |trace| == |actions| + 1 && forall i | 0 <= i < |actions| :: Acts(trace[i], actions[i], trace[i + 1])
  }

  /** Between these two states the channel was told to terminate: the request was queued behind all others. */
  predicate ToldToEnd(s: Whole, next: Whole, c: nat) {
    && c in s.controls.channels && c in next.controls.channels && s.controls.channels[c].open
    && next.controls.channels[c].queue == s.controls.channels[c].queue + [ControlRequest(Terminate, None)]
  }

  predicate FoundClosed(s: Whole, c: nat) {
    c in s.controls.channels && !s.controls.channels[c].open
  }

  /** The turn of a close on this channel. */
  predicate TurnOf(s: Whole, action: Action, id: nat, c: nat) {
    action == Notify(id) && CanNotify(s, id) && s.closings[id].todo[0] == c
  }

  ghost predicate WasTold(trace: seq<Whole>, actions: seq<Action>, id: nat, c: nat)
    requires |trace| == |actions| + 1
  {
    exists i | 0 <= i < |actions| :: TurnOf(trace[i], actions[i], id, c) && ToldToEnd(trace[i], trace[i + 1], c)
  }

  ghost predicate WasClosed(trace: seq<Whole>, actions: seq<Action>, id: nat, c: nat)
    requires |trace| == |actions| + 1
  {
    exists i | 0 <= i < |actions| :: TurnOf(trace[i], actions[i], id, c) && FoundClosed(trace[i], c)
  }

  /** The turn of a close on a channel that it then lists as notified, or as gone. */
  lemma TurnIsReal(s: Whole, action: Action, next: Whole, id: nat, c: nat)
    requires Acts(s, action, next) && id < |next.closings|
    ensures c in next.closings[id].notified ==>
      (id < |s.closings| && c in s.closings[id].notified) || (TurnOf(s, action, id, c) && ToldToEnd(s, next, c))
    ensures c in next.closings[id].gone ==>
      (id < |s.closings| && c in s.closings[id].gone) || (TurnOf(s, action, id, c) && FoundClosed(s, c))
  {
    if action.TableStep? && action.step.CloseConnection? && id < |s.closings| {
      assert next.closings[id] == next.closings[..|s.closings|][id];
    }
  }

  /**
   * Whatever a close lists as notified had a terminate request queued on it in its turn, and
   * whatever it lists as gone was closed then.
   */
  lemma {:induction false} ListedIsReal(trace: seq<Whole>, actions: seq<Action>, id: nat, c: nat)
    requires Traces(trace, actions) && trace[0].closings == [] && id < |trace[|actions|].closings|
    ensures c in trace[|actions|].closings[id].notified ==> WasTold(trace, actions, id, c)
    ensures c in trace[|actions|].closings[id].gone ==> WasClosed(trace, actions, id, c)
    decreases |actions|
  {
    if actions != [] {
      var n := |actions| - 1;
      TurnIsReal(trace[n], actions[n], trace[n + 1], id, c);
      if id < |trace[n].closings| {
        ListedIsReal(trace[..n + 1], actions[..n], id, c);
        ToldEarlier(trace, actions, n, id, c);
      }
    }
  }

  lemma ToldEarlier(trace: seq<Whole>, actions: seq<Action>, n: nat, id: nat, c: nat)
    requires |trace| == |actions| + 1 && n <= |actions|
    ensures WasTold(trace[..n + 1], actions[..n], id, c) ==> WasTold(trace, actions, id, c)
    ensures WasClosed(trace[..n + 1], actions[..n], id, c) ==> WasClosed(trace, actions, id, c)
  {
    if WasTold(trace[..n + 1], actions[..n], id, c) {
      var i :| 0 <= i < n && TurnOf(trace[i], actions[i], id, c) && ToldToEnd(trace[i], trace[i + 1], c);
      assert TurnOf(trace[i], actions[i], id, c);
    }
    if WasClosed(trace[..n + 1], actions[..n], id, c) {
      var i :| 0 <= i < n && TurnOf(trace[i], actions[i], id, c) && FoundClosed(trace[i], c);
      assert TurnOf(trace[i], actions[i], id, c);
    }
  }

  /** A close of a run has told each channel that it removed, or found it closed, or has yet to come to it. */
  lemma CloseTellsAll(trace: seq<Whole>, actions: seq<Action>, id: nat, c: nat)
    requires Traces(trace, actions) && trace[0].closings == [] && id < |trace[|actions|].closings|
    requires ClosingOk(trace[|actions|].closings[id]) && c in trace[|actions|].closings[id].removed
    ensures c in trace[|actions|].closings[id].todo
         || WasTold(trace, actions, id, c) || WasClosed(trace, actions, id, c)
  {
    ListedIsReal(trace, actions, id, c);
  }

  // ---------------------------------------------------------------------------------------
  // What the results of control calls mean
  // ---------------------------------------------------------------------------------------

  predicate HasQueued(s: Controls, c: nat, w: nat) {
    c in s.channels && exists request | request in s.channels[c].queue :: request.caller == Some(w)
  }

  /** The action gives the call this result, for this reason. */
  ghost predicate Earns(s: Whole, action: Action, w: nat, result: ControlResult) {
    match result
    case NoActiveProcess => action.Look? && w == s.controls.lookups && action.key !in s.table.sessions
    case UnsupportedForWindows =>
      && action.Look? && w == s.controls.lookups && action.key in s.table.sessions
      && s.table.sessions[action.key] == UnsupportedWindowsSandbox
    case Handled(ok) =>
      && action.Serve? && action.ok == ok && CanServe(s, action.call)
      && s.controls.channels[action.call].queue[0].caller == Some(w)
    case NoLongerRunning =>
      || (action == Send(w) && CanSend(s, w) && !s.controls.channels[s.controls.calls[w].channel].open)
      || exists c :: action in {TableStep(LetGo(c)), TableStep(SpawnEnds(c, false))} && HasQueued(s.controls, c, w)
  }

  lemma {:induction false} DrainedResults(s: Controls, c: nat, entry: (nat, ControlResult))
    requires c in s.channels && entry in Drained(s, c).results
    ensures entry in s.results || (entry.1 == NoLongerRunning && HasQueued(s, c, entry.0))
    decreases |s.channels[c].queue|
  {
    if s.channels[c].queue != [] {
      var next := Taken(s, c, NoLongerRunning);
      DrainedResults(next, c, entry);
      assert s.channels[c].queue[0] in s.channels[c].queue;
      assert forall request | request in next.channels[c].queue :: request in s.channels[c].queue;
    }
  }

  lemma ResultIsEarned(s: Whole, action: Action, next: Whole, w: nat, result: ControlResult)
    requires Acts(s, action, next) && (w, result) in next.controls.results
    ensures (w, result) in s.controls.results || Earns(s, action, w, result)
  {
    if action.TableStep? && Enabled(s.table, action.step) {
      match action.step
      case SpawnEnds(call, ok) =>
        if !ok && call in s.controls.channels {
          DrainedResults(s.controls, call, (w, result));
        }
      case LetGo(call) =>
        if call in s.controls.channels {
          DrainedResults(s.controls, call, (w, result));
        }
      case _ =>
    }
  }

  /** Every result that a control call has in a run was given to it by an action, for the reason that it states. */
  lemma {:induction false} ResultsAreEarned(trace: seq<Whole>, actions: seq<Action>, w: nat, result: ControlResult)
    requires Traces(trace, actions) && trace[0].controls.results == []
    requires (w, result) in trace[|actions|].controls.results
    ensures exists i | 0 <= i < |actions| :: Earns(trace[i], actions[i], w, result)
    decreases |actions|
  {
    var n := |actions| - 1;
    ResultIsEarned(trace[n], actions[n], trace[n + 1], w, result);
    if !Earns(trace[n], actions[n], w, result) {
      ResultsAreEarned(trace[..n + 1], actions[..n], w, result);
      var i :| 0 <= i < n && Earns(trace[i], actions[i], w, result);
    }
  }

  lemma {:induction false} TraceOfTable(trace: seq<Whole>, actions: seq<Action>)
    requires Traces(trace, actions)
    ensures trace[|actions|].table == Run(trace[0].table, TableSteps(actions))
    ensures trace[|actions|].controls.lookups == trace[0].controls.lookups + CountLooks(actions)
    decreases |actions|
  {
    if actions != [] {
      var n := |actions| - 1;
      TraceOfTable(trace[..n + 1], actions[..n]);
      ActsOnTable(trace[n], actions[n], trace[n + 1]);
      if actions[n].TableStep? {
        RunAppend(trace[0].table, TableSteps(actions[..n]), actions[n].step);
      } else {
        assert TableSteps(actions[..n]) + [] == TableSteps(actions[..n]);
      }
    }
  }

  lemma ActsOnTable(s: Whole, action: Action, next: Whole)
    requires Acts(s, action, next)
    ensures next.table == if action.TableStep? then Next(s.table, action.step) else s.table
    ensures next.controls.lookups == s.controls.lookups + if action.Look? then 1 else 0
  {
    if action.TableStep? && Enabled(s.table, action.step) {
      match action.step
      case SpawnEnds(call, _) => ShutKeepsLookups(s.controls, call);
      case LetGo(call) => ShutKeepsLookups(s.controls, call);
      case _ =>
    }
  }

  lemma {:induction false} ShutKeepsLookups(s: Controls, c: nat)
    ensures c in s.channels ==> Shutting(s, c).lookups == s.lookups
    decreases if c in s.channels then |s.channels[c].queue| else 0
  {
    if c in s.channels && s.channels[c].queue != [] {
      ShutKeepsLookups(Taken(s, c, NoLongerRunning), c);
    }
  }

  lemma StepActs(s: Whole, step: Step, table: State, controls: Controls)
    requires !step.CloseConnection?
    requires table == Next(s.table, step) && controls == ControlsAfter(s.table, s.controls, step)
    ensures Acts(s, TableStep(step), Whole(table, controls, s.closings))
  {
  }

  lemma SendActs(s: Whole, w: nat, next: Whole)
    requires CanSend(s, w) && next == s.(controls := Sent(s.controls, w))
    ensures Acts(s, Send(w), next)
  {
  }

  class CommandExecManager {
    const table: SessionTable
    const controls: ControlChannels
    var closings: seq<Closing>

    ghost function Now(): Whole
      reads this, table, controls
    {
      Whole(table.Now(), controls.Now(), closings)
    }

    /** What every run keeps. */
    ghost predicate Valid()
      reads this, table, controls
    {
      && Safe(table.Now())
      && controls.Valid()
      && Linked(table.tasks, controls.channels, table.starts)
      && ClosingsOk(closings, controls.channels)
    }

    constructor ()
      ensures Valid() && fresh(table) && fresh(controls)
      ensures Now() == Whole(EMPTY, Controls(map[], 0, map[], []), [])
    {
      EmptySafe();
      table := new SessionTable();
      controls := new ControlChannels();
      closings := [];
    }

    method OnStart(p: StartParams)
      requires Valid()
      modifies table, controls
      ensures Valid() && Acts(old(Now()), TableStep(StartCall(p)), Now())
    {
      ghost var before := Now();
      NextSafe(before.table, StartCall(p));
      StartLinked(before.table, before.controls.channels, p, closings);
      var call := table.starts;
      var r := table.DoStart(p);
      if r.Ok? && !p.windowsSandbox {
        controls.Open(call);
      }
      StepActs(before, StartCall(p), table.Now(), controls.Now());
    }

    method OnSpawnEnds(call: nat, ok: bool)
      requires Valid() && Enabled(table.Now(), SpawnEnds(call, ok))
      modifies table, controls
      ensures Valid() && Acts(old(Now()), TableStep(SpawnEnds(call, ok)), Now())
      ensures !ok ==> call in controls.channels && !controls.channels[call].open
    {
      ghost var before := Now();
      NextSafe(before.table, SpawnEnds(call, ok));
      if ok {
        table.MoveTo(call, Running);
      } else {
        SpawnFailLinked(before.table, before.controls.channels, call);
        table.SpawnFails(call);
        Hangup(call);
      }
      StepActs(before, SpawnEnds(call, ok), table.Now(), controls.Now());
    }

    /** The receiving end of a channel goes away. */
    method Hangup(call: nat)
      requires controls.Valid() && call in controls.channels && ClosingsOk(closings, controls.channels)
      modifies controls
      ensures controls.Valid() && controls.Now() == Shutting(old(controls.Now()), call)
      ensures controls.channels == old(controls.channels)[call := Channel([], false)]
      ensures ClosingsOk(closings, controls.channels)
    {
      controls.Shut(call);
      assert controls.channels == old(controls.channels)[call := Channel([], false)];
    }

    method OnProcessEnds(call: nat, isError: bool)
      requires Valid() && Enabled(table.Now(), ProcessEnds(call, isError))
      modifies table
      ensures Valid() && Acts(old(Now()), TableStep(ProcessEnds(call, isError)), Now())
    {
      NextSafe(table.Now(), ProcessEnds(call, isError));
      table.DoRespond(call, isError);
    }

    method OnLetGo(call: nat)
      requires Valid() && Enabled(table.Now(), LetGo(call))
      modifies table, controls
      ensures Valid() && Acts(old(Now()), TableStep(LetGo(call)), Now())
      ensures call in controls.channels && !controls.channels[call].open
    {
      ghost var before := Now();
      NextSafe(before.table, LetGo(call));
      LetGoLinked(before.table, before.controls.channels, call);
      Hangup(call);
      table.MoveTo(call, Dropped);
      StepActs(before, LetGo(call), table.Now(), controls.Now());
    }

    method OnFinish(call: nat)
      requires Valid() && Enabled(table.Now(), Finish(call))
      modifies table
      ensures Valid() && Acts(old(Now()), TableStep(Finish(call)), Now())
    {
      NextSafe(table.Now(), Finish(call));
      RemoveLinked(table.Now(), controls.channels, call);
      table.DoRemove(call);
    }

    /** The part of a close under the lock. */
    method CloseTable(connection: nat) returns (removed: seq<nat>)
      requires Valid()
      modifies table
      ensures Valid() && table.Now() == Close(old(table.Now()), connection)
      ensures (set c | c in removed) == ActiveOf(old(table.sessions), connection) <= controls.channels.Keys
      ensures Distinct(removed)
    {
      CloseKeeps(table.Now(), controls.channels, connection);
      removed := table.DoClose(connection);
    }

    method OnClose(connection: nat)
      requires Valid()
      modifies this, table
      ensures Valid() && Acts(old(Now()), TableStep(CloseConnection(connection)), Now())
      ensures forall key | key in table.sessions :: key.connection != connection
    {
      var removed := CloseTable(connection);
      ClosingAdded(closings, controls.channels, removed);
      closings := closings + [Closing((set c | c in removed), removed, {}, {})];
    }

    method OnLook(key: Key, control: Control)
      requires Valid()
      modifies controls
      ensures Valid() && Acts(old(Now()), Look(key, control), Now())
    {
      var found := None;
      if key in table.sessions {
        found := Some(table.sessions[key]);
        if table.sessions[key].Active? {
          ActiveIsLinked(table.Now(), controls.channels, key);
        }
      }
      controls.Look(found, control);
    }

    method OnNotify(id: nat) returns (r: NotifyResult)
      requires Valid() && id < |closings| && closings[id].todo != []
      modifies this, controls
      ensures Valid() && Acts(old(Now()), Notify(id), Now())
      ensures old(closings)[id].todo[0] in old(controls.channels)
      ensures var c := old(closings)[id].todo[0];
        && r == NotifyAnswer(old(controls.channels)[c])
        && closings == old(closings)[id := AfterNotify(old(closings)[id], r)]
        && (r == Queued ==> ToldToEnd(old(Now()), Now(), c))
        && (r != Queued ==> controls.Now() == old(controls.Now()))
    {
      r := controls.Notify(closings[id].todo[0]);
      NotifyForgetsNone(closings[id], r);
      closings := closings[id := AfterNotify(closings[id], r)];
    }

    method OnSend(w: nat)
      requires Valid() && w in controls.calls && controls.calls[w].Sending?
      modifies controls
      ensures Valid() && CanSend(old(Now()), w) && Acts(old(Now()), Send(w), Now())
    {
      ghost var before := Now();
      controls.Send(w);
      SameOpenLinked(table.Now(), before.controls.channels, controls.channels, closings);
      SendActs(before, w, Now());
    }

    method OnServe(call: nat, ok: bool)
      requires Valid() && call in table.tasks && table.tasks[call].phase == Running
      requires call in controls.channels && controls.channels[call].queue != []
      modifies controls
      ensures Valid() && Acts(old(Now()), Serve(call, ok), Now())
    {
      TakeIsOpen(controls.channels, controls.calls, call);
      controls.Take(call, Handled(ok));
    }

    /** An atomic section of a start, its task, or a close, if it can happen now. */
    method PerformStep(step: Step)
      requires Valid()
      modifies this, table, controls
      ensures Valid() && Acts(old(Now()), TableStep(step), Now())
    {
      if !Enabled(State(table.sessions, table.nextGenerated, table.tasks, table.starts, table.outcomes), step) {
        return;
      }
      match step
      case StartCall(p) => OnStart(p);
      case SpawnEnds(call, ok) => OnSpawnEnds(call, ok);
      case ProcessEnds(call, isError) => OnProcessEnds(call, isError);
      case LetGo(call) => OnLetGo(call);
      case Finish(call) => OnFinish(call);
      case CloseConnection(connection) => OnClose(connection);
    }

    /** An atomic section of a control call or of the rest of a close, if it can happen now. */
    method PerformControl(action: Action)
      requires Valid() && !action.TableStep?
      modifies this, controls
      ensures Valid() && Acts(old(Now()), action, Now())
    {
      match action
      case Look(key, control) => OnLook(key, control);
      case Send(w) =>
        if w in controls.calls && controls.calls[w].Sending? {
          OnSend(w);
        }
      case Serve(call, ok) =>
        if call in table.tasks && call in controls.channels {
          if table.tasks[call].phase == Running && controls.channels[call].queue != [] {
            OnServe(call, ok);
          }
        }
      case Notify(id) =>
        if id < |closings| && closings[id].todo != [] {
          var _ := OnNotify(id);
        }
    }

    method Perform(action: Action)
      requires Valid()
      modifies this, table, controls
      ensures Valid() && Acts(old(Now()), action, Now())
    {
      if action.TableStep? {
        PerformStep(action.step);
      } else {
        PerformControl(action);
      }
    }

    /**
     * Any interleaving of starts, control calls, processes that end and connections that close:
     * the whole follows its steps, one action after the other, and the table its own, whatever
     * else goes on between them.
     */
    method RunAll(actions: seq<Action>) returns (ghost trace: seq<Whole>)
      requires Valid()
      modifies this, table, controls
      ensures Valid() && Traces(trace, actions) && trace[0] == old(Now()) && trace[|actions|] == Now()
      ensures table.Now() == Run(old(table.Now()), TableSteps(actions))
      ensures controls.lookups == old(controls.lookups) + CountLooks(actions)
    {
      trace := [Now()];
      for i := 0 to |actions|
        invariant Valid() && Traces(trace, actions[..i]) && trace[0] == old(Now()) && trace[i] == Now()
      {
        Perform(actions[i]);
        trace := trace + [Now()];
      }
      assert actions[..|actions|] == actions;
      TraceOfTable(trace, actions);
    }

    /**
     * A control call on a process whose task has let go of its channel has its one result, or
     * gets it with its next step, whatever all other tasks do.
     */
    method CompleteCall(w: nat)
      requires Valid() && w < controls.lookups
      requires w in controls.calls ==> !Listening(table.tasks, controls.calls[w].channel)
      modifies controls
      ensures Valid() && controls.lookups == old(controls.lookups)
      ensures controls.calls == old(controls.calls) - {w} && Times(controls.results, w) == 1
    {
      if w in controls.calls {
        NobodyWaits(controls.channels, controls.calls, w);
        OnSend(w);
      } else {
        assert controls.calls - {w} == controls.calls;
      }
      OncePresent(controls.results, controls.calls.Keys, controls.lookups, w);
    }

    /**
     * Once all tasks have finished, everything completes: each start has had exactly one error
     * return or outgoing message, each control call exactly one result, no close waits, and the
     * table is empty.
     */
    method Settle()
      requires Valid() && table.tasks == map[]
      modifies this, controls
      ensures Valid() && table.sessions == map[]
      ensures forall n: nat :: Times(table.outcomes, n) == if n < table.starts then 1 else 0
      ensures controls.calls == map[]
      ensures forall n: nat :: Times(controls.results, n) == if n < controls.lookups then 1 else 0
      ensures forall id | 0 <= id < |closings| :: closings[id].todo == []
      ensures forall id, c | 0 <= id < |closings| && c in closings[id].removed ::
        c in closings[id].notified || c in closings[id].gone
    {
      NothingLeft(table.Now());
      FinishCalls();
      for id := 0 to |closings|
        invariant Valid() && controls.calls == map[] && |closings| == |old(closings)|
        invariant forall i | 0 <= i < id :: closings[i].todo == []
      {
        FinishClosing(id);
      }
      OnceAll(table.outcomes, Owing(table.tasks), table.starts);
      OnceAll(controls.results, controls.calls.Keys, controls.lookups);
    }

    method CompleteOne()
      requires Valid() && table.tasks == map[] && controls.calls != map[]
      modifies controls
      ensures Valid() && |controls.calls| < |old(controls.calls)|
    {
      var w :| w in controls.calls;
      OwedIsIssued(controls.results, controls.calls.Keys, controls.lookups, w);
      CompleteCall(w);
    }

    method FinishCalls()
      requires Valid() && table.tasks == map[]
      modifies controls
      ensures Valid() && controls.calls == map[]
    {
      while controls.calls != map[]
        invariant Valid()
        decreases |controls.calls|
      {
        CompleteOne();
      }
    }

    method FinishClosing(id: nat)
      requires Valid() && table.tasks == map[] && id < |closings|
      modifies this, controls
      ensures Valid() && controls.calls == old(controls.calls)
      ensures |closings| == |old(closings)| && closings[id].todo == []
      ensures forall i | 0 <= i < |closings| && i != id :: closings[i] == old(closings)[i]
    {
      while closings[id].todo != []
        invariant Valid() && controls.calls == old(controls.calls)
        invariant |closings| == |old(closings)|
        invariant forall i | 0 <= i < |closings| && i != id :: closings[i] == old(closings)[i]
        decreases |closings[id].todo|
      {
        var _ := OnNotify(id);
      }
    }
  }
}
