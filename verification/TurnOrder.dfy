/**
 * The parts of one turn arrive in any order, with other facts between them: which event comes of
 * it, when, and which orders can be told apart by it.
 */
module TurnOrder {
  import opened JsonRpc
  import opened TurnAnalytics
  import opened Wrappers

  // ---------------------------------------------------------------------------------------
  // The parts, and what may come between them
  // ---------------------------------------------------------------------------------------

  /**
   * A turn, the three facts that complete it, and the threads that facts about it may name, each
   * with what is known of it.  The request's thread is known.
   */
  datatype Parts = Parts(
    turnId: string, connection: nat, client: Client, request: RequestId,
    threadId: string, numInputImages: nat, config: Config, completion: Fact,
    threads: map<string, Option<ThreadMetadata>>)

  predicate PartsOk(p: Parts) {
    && p.completion.TurnCompleted? && p.completion.turnId == p.turnId && p.config.turnId == p.turnId
    && p.threadId in p.threads && p.threads[p.threadId].Some? && p.config.threadId in p.threads
  }

  /** Request, config and token usage are about one thread, and report the same images. */
  predicate Agrees(p: Parts) {
    p.threads.Keys == {p.threadId} && p.config.threadId == p.threadId && p.config.numInputImages == p.numInputImages
  }

  function ResponseFact(p: Parts): Fact {
    TurnStartResponse(p.connection, p.request, p.turnId)
  }

  function ConfigFact(p: Parts): Fact {
    ResolvedConfig(p.config)
  }

  predicate IsPart(p: Parts, f: Fact) {
    f == ResponseFact(p) || f == ConfigFact(p) || f == p.completion
  }

  predicate IsUsage(p: Parts, f: Fact) {
    f.TokenUsage? && f.turnId == p.turnId
  }

  /**
   * A fact about other turns and requests, or the start, a steer or the token usage of this turn,
   * which leaves the connection and the threads as they are.
   */
  predicate Passing(p: Parts, f: Fact) {
    match f
    case Initialize(connection, client) => connection != p.connection || client == p.client
    case ThreadResponse(_, threadId, metadata) => threadId in p.threads ==> p.threads[threadId] == Some(metadata)
    case TurnStartRequest(connection, request, _, _) => (connection, request) != (p.connection, p.request)
    case TurnSteerRequest(connection, request, _, _, _, _) => (connection, request) != (p.connection, p.request)
    case ErrorResponse(connection, request, _) => (connection, request) != (p.connection, p.request)
    case TurnStartResponse(connection, request, turnId) =>
      (connection, request) != (p.connection, p.request) && turnId != p.turnId
    case TurnSteerResponse(connection, request, _) => (connection, request) != (p.connection, p.request)
    case TurnStarted(_, _) => true
    case TurnCompleted(turnId, _, _, _, _) => turnId != p.turnId
    case ResolvedConfig(config) => config.turnId != p.turnId
    case TokenUsage(turnId, threadId, _) => turnId == p.turnId ==> threadId in p.threads
    case Unrelated => true
  }

  /** Each part at most once, in any order, and passing facts anywhere. */
  predicate Interleaves(p: Parts, facts: seq<Fact>) {
    facts == [] ||
    (var front, last := facts[..|facts| - 1], facts[|facts| - 1];
     Interleaves(p, front) && (Passing(p, last) || (IsPart(p, last) && last !in front)))
  }

  // ---------------------------------------------------------------------------------------
  // What has arrived
  // ---------------------------------------------------------------------------------------

  /**
   * Which parts are there, whether of response and config the config came later, and the thread
   * of the last token usage since then.
   */
  datatype Arrived = Arrived(
    response: bool, config: bool, completion: bool, configLater: bool, moved: Option<string>)

  const NONE := Arrived(false, false, false, false, None)

  function With(a: Arrived, p: Parts, f: Fact): Arrived {
    Arrived(
      a.response || f == ResponseFact(p), a.config || f == ConfigFact(p), a.completion || f == p.completion,
      if f == ConfigFact(p) then true else if f == ResponseFact(p) then false else a.configLater,
      if f == ConfigFact(p) || f == ResponseFact(p) then None
      else if IsUsage(p, f) then Some(f.threadId) else a.moved)
  }

  function ArrivedIn(p: Parts, facts: seq<Fact>): Arrived {
    if facts == [] then NONE else With(ArrivedIn(p, facts[..|facts| - 1]), p, facts[|facts| - 1])
  }

  predicate All(a: Arrived) {
    a.response && a.config && a.completion
  }

  /** The thread that the turn is taken to be on: the last one named. */
  function Thread(p: Parts, a: Arrived): string {
    if a.moved.Some? then a.moved.value else if a.configLater then p.config.threadId else p.threadId
  }

  function Metadata(p: Parts, a: Arrived): Option<ThreadMetadata> {
    if Thread(p, a) in p.threads then p.threads[Thread(p, a)] else None
  }

  function Images(p: Parts, a: Arrived): nat {
    if a.configLater then p.config.numInputImages else p.numInputImages
  }

  /** All parts are there, on a thread that is known. */
  predicate Due(p: Parts, a: Arrived) {
    All(a) && Metadata(p, a).Some?
  }

  /** What may be known of the turn before its parts arrive: its start, its tokens, its steers. */
  predicate Early(base: TurnState) {
    base.connectionId.None? && base.resolvedConfig.None? && base.completed.None?
  }

  /** The start, the token usage and the steers of the turn as a passing fact leaves them. */
  function Noted(s: State, p: Parts, base: TurnState, f: Fact): TurnState {
    if f.TurnStarted? && f.turnId == p.turnId then base.(startedAt := ToU64(f.startedAt))
    else if IsUsage(p, f) then base.(tokenUsage := Some(f.usage))
    else if p.turnId in s.turns && AcceptsSteer(s, f, p.turnId) then base.(steerCount := base.steerCount + 1)
    else base
  }

  function Notes(s: State, p: Parts, base: TurnState, facts: seq<Fact>): TurnState {
    if facts == [] then base
    else
      var front := facts[..|facts| - 1];
      Noted(Run(s, front).0, p, Notes(s, p, base, front), facts[|facts| - 1])
  }

  function Partial(p: Parts, base: TurnState, a: Arrived): TurnState
    requires PartsOk(p)
  {
    base.(
      threadId := if a.moved.Some? || a.response || a.config then Some(Thread(p, a)) else base.threadId,
      numInputImages := if a.response || a.config then Some(Images(p, a)) else base.numInputImages,
      connectionId := if a.response then Some(p.connection) else base.connectionId,
      resolvedConfig := if a.config then Some(p.config) else base.resolvedConfig,
      completed := if a.completion then Some(CompletionOf(p.completion)) else base.completed)
  }

  /** The turn's event, once it is due. */
  function Expected(p: Parts, base: TurnState, a: Arrived): seq<TurnEventParams>
    requires PartsOk(p)
  {
    if Due(p, a) then
      [TurnEventParams(p.client, p.turnId, Thread(p, a), Metadata(p, a).value, Images(p, a), p.config.settings,
                       CompletionOf(p.completion), base.startedAt, base.tokenUsage, base.steerCount)]
    else []
  }

  // ---------------------------------------------------------------------------------------
  // The states on the way
  // ---------------------------------------------------------------------------------------

  predicate Knows(s: State, threadId: string, metadata: Option<ThreadMetadata>) {
    match metadata
    case None => threadId !in s.threads
    case Some(m) => threadId in s.threads && s.threads[threadId] == m
  }

  predicate Surroundings(s: State, p: Parts) {
    && p.connection in s.connections && s.connections[p.connection] == p.client
    && forall threadId | threadId in p.threads :: Knows(s, threadId, p.threads[threadId])
  }

  predicate IsPending(s: State, p: Parts) {
    var key := (p.connection, p.request);
    key in s.requests && s.requests[key] == TurnStart(p.threadId, p.numInputImages)
  }

  /** The turn's parts so far are in its state; once its event is out it has no config any more. */
  predicate Tracks(s: State, p: Parts, base: TurnState, a: Arrived, sent: bool)
    requires PartsOk(p)
  {
    && Surroundings(s, p)
    && (!a.response ==> IsPending(s, p))
    && if sent then TurnOf(s, p.turnId).resolvedConfig.None? else TurnOf(s, p.turnId) == Partial(p, base, a)
  }

  /** Before the first part: the connection is initialised, the threads as given, the request pending. */
  predicate Ready(s: State, p: Parts, base: TurnState) {
    PartsOk(p) && Early(base) && Tracks(s, p, base, NONE, false)
  }

  predicate IsNew(a: Arrived, p: Parts, f: Fact) {
    && (f == ResponseFact(p) ==> !a.response)
    && (f == ConfigFact(p) ==> !a.config)
    && (f == p.completion ==> !a.completion)
  }

  predicate Orderly(p: Parts, a: Arrived) {
    (a.configLater ==> a.config) && (a.moved.Some? ==> a.moved.value in p.threads)
  }

  // ---------------------------------------------------------------------------------------
  // One fact
  // ---------------------------------------------------------------------------------------

  lemma PassingSurroundings(s: State, p: Parts, f: Fact)
    requires PartsOk(p) && Passing(p, f) && Surroundings(s, p)
    ensures Surroundings(Step(s, f).0, p)
  {
    var next := Step(s, f).0;
    forall threadId | threadId in p.threads ensures Knows(next, threadId, p.threads[threadId]) {
      assert Knows(s, threadId, p.threads[threadId]);
    }
  }

  lemma PassingRequest(s: State, p: Parts, f: Fact)
    requires Passing(p, f) && IsPending(s, p)
    ensures IsPending(Step(s, f).0, p)
  {
  }

  /** Passing facts other than token usage: the turn takes note, and no event of it comes. */
  lemma QuietFact(s: State, p: Parts, f: Fact)
    requires PartsOk(p) && Passing(p, f) && !IsUsage(p, f)
    ensures TurnOf(Step(s, f).0, p.turnId) == Noted(s, p, TurnOf(s, p.turnId), f)
    ensures forall a :: With(a, p, f) == a
  {
  }

  lemma QuietEvents(s: State, p: Parts, f: Fact)
    requires PartsOk(p) && Passing(p, f) && !IsUsage(p, f)
    ensures EventsFor(Step(s, f).1, p.turnId) == []
  {
    AtMostOneEvent(s, f, p.turnId);
  }

  lemma EventsOf(params: TurnEventParams, turnId: string)
    requires params.turnId == turnId
    ensures EventsFor([TurnEvent(params)], turnId) == [params]
  {
    assert [TurnEvent(params)][..0] == [];
  }

  /** Emitting a turn whose state is the one with these parts. */
  lemma EmitWhenDue(s: State, p: Parts, base: TurnState, a: Arrived)
    requires PartsOk(p) && Early(base) && Surroundings(s, p) && Orderly(p, a)
    requires p.turnId in s.turns && s.turns[p.turnId] == Partial(p, base, a)
    ensures var r := MaybeEmit(s, p.turnId);
      && EventsFor(r.1, p.turnId) == Expected(p, base, a)
      && Surroundings(r.0, p) && r.0.requests == s.requests
      && if Due(p, a) then p.turnId !in r.0.turns else r.0 == s
  {
    assert Thread(p, a) in p.threads && Knows(s, Thread(p, a), p.threads[Thread(p, a)]);
    if Due(p, a) {
      assert TurnEventOf(s, p.turnId) == Some(Expected(p, base, a)[0]);
      EventsOf(Expected(p, base, a)[0], p.turnId);
    } else {
      assert TurnEventOf(s, p.turnId) == None;
    }
  }

  lemma Touched(s: State, p: Parts, turn: TurnState)
    requires Surroundings(s, p)
    ensures Surroundings(SetTurn(s, p.turnId, turn), p)
  {
  }

  /** A fact that sets the state of the turn and then emits it if it is due. */
  lemma FactEmits(s: State, now: State, p: Parts, base: TurnState, a: Arrived, f: Fact)
    requires PartsOk(p) && Early(base) && Surroundings(now, p) && Orderly(p, a)
    requires (a.response || IsPending(now, p)) && p.turnId in now.turns && now.turns[p.turnId] == Partial(p, base, a)
    requires Step(s, f) == MaybeEmit(now, p.turnId)
    ensures Tracks(Step(s, f).0, p, base, a, Due(p, a))
    ensures EventsFor(Step(s, f).1, p.turnId) == Expected(p, base, a)
  {
    EmitWhenDue(now, p, base, a);
  }

  lemma ResponseArrives(s: State, p: Parts, base: TurnState, a: Arrived)
    requires PartsOk(p) && Early(base) && Orderly(p, a) && Tracks(s, p, base, a, false) && !a.response
    ensures var f, next := ResponseFact(p), With(a, p, ResponseFact(p));
      Tracks(Step(s, f).0, p, base, next, Due(p, next)) && EventsFor(Step(s, f).1, p.turnId) == Expected(p, base, next)
  {
    var key, next := (p.connection, p.request), With(a, p, ResponseFact(p));
    var now := SetTurn(s.(requests := s.requests - {key}), p.turnId, Partial(p, base, next));
    assert Surroundings(now, p);
    FactEmits(s, now, p, base, next, ResponseFact(p));
  }

  lemma ConfigArrives(s: State, p: Parts, base: TurnState, a: Arrived)
    requires PartsOk(p) && Early(base) && Orderly(p, a) && Tracks(s, p, base, a, false) && !a.config
    ensures var f, next := ConfigFact(p), With(a, p, ConfigFact(p));
      Tracks(Step(s, f).0, p, base, next, Due(p, next)) && EventsFor(Step(s, f).1, p.turnId) == Expected(p, base, next)
  {
    var next := With(a, p, ConfigFact(p));
    Touched(s, p, Partial(p, base, next));
    FactEmits(s, SetTurn(s, p.turnId, Partial(p, base, next)), p, base, next, ConfigFact(p));
  }

  lemma CompletionArrives(s: State, p: Parts, base: TurnState, a: Arrived)
    requires PartsOk(p) && Early(base) && Orderly(p, a) && Tracks(s, p, base, a, false) && !a.completion
    ensures var f, next := p.completion, With(a, p, p.completion);
      Tracks(Step(s, f).0, p, base, next, Due(p, next)) && EventsFor(Step(s, f).1, p.turnId) == Expected(p, base, next)
  {
    var next := With(a, p, p.completion);
    Touched(s, p, Partial(p, base, next));
    FactEmits(s, SetTurn(s, p.turnId, Partial(p, base, next)), p, base, next, p.completion);
  }

  /** One more part is recorded, and brings the event if it is due then. */
  lemma PartArrives(s: State, p: Parts, base: TurnState, a: Arrived, f: Fact)
    requires PartsOk(p) && Early(base) && Orderly(p, a) && Tracks(s, p, base, a, false)
    requires IsPart(p, f) && IsNew(a, p, f)
    ensures var next := With(a, p, f);
      Tracks(Step(s, f).0, p, base, next, Due(p, next)) && EventsFor(Step(s, f).1, p.turnId) == Expected(p, base, next)
  {
    if f == ResponseFact(p) {
      ResponseArrives(s, p, base, a);
    } else if f == ConfigFact(p) {
      ConfigArrives(s, p, base, a);
    } else {
      CompletionArrives(s, p, base, a);
    }
  }

  /** So does token usage, which moves the turn to its thread. */
  lemma UsageArrives(s: State, p: Parts, base: TurnState, a: Arrived, f: Fact)
    requires PartsOk(p) && Early(base) && Orderly(p, a) && Tracks(s, p, base, a, false)
    requires IsUsage(p, f) && Passing(p, f)
    ensures var next, noted := With(a, p, f), Noted(s, p, base, f);
      && Tracks(Step(s, f).0, p, noted, next, Due(p, next))
      && EventsFor(Step(s, f).1, p.turnId) == Expected(p, noted, next)
  {
    var next, noted := With(a, p, f), Noted(s, p, base, f);
    Touched(s, p, Partial(p, noted, next));
    FactEmits(s, SetTurn(s, p.turnId, Partial(p, noted, next)), p, noted, next, f);
  }

  lemma NotedPartial(s: State, p: Parts, base: TurnState, a: Arrived, f: Fact)
    requires PartsOk(p)
    ensures Noted(s, p, Partial(p, base, a), f) == Partial(p, Noted(s, p, base, f), a)
  {
  }

  /** What passes leaves the parts as they are. */
  lemma QuietArrives(s: State, p: Parts, base: TurnState, a: Arrived, f: Fact)
    requires PartsOk(p) && Tracks(s, p, base, a, false) && Passing(p, f) && !IsUsage(p, f)
    ensures Tracks(Step(s, f).0, p, Noted(s, p, base, f), a, false)
  {
    PassingSurroundings(s, p, f);
    if !a.response {
      PassingRequest(s, p, f);
    }
    QuietFact(s, p, f);
    NotedPartial(s, p, base, a, f);
  }

  /** Once the event is out, no more comes of what passes. */
  lemma NothingMore(s: State, p: Parts, base: TurnState, a: Arrived, f: Fact)
    requires PartsOk(p) && a.response && Tracks(s, p, base, a, true) && Passing(p, f)
    ensures Tracks(Step(s, f).0, p, base, a, true) && EventsFor(Step(s, f).1, p.turnId) == []
  {
    PassingSurroundings(s, p, f);
    if !IsUsage(p, f) {
      QuietFact(s, p, f);
      QuietEvents(s, p, f);
    }
  }

  // ---------------------------------------------------------------------------------------
  // Any number of facts
  // ---------------------------------------------------------------------------------------

  /** At some point the event was due. */
  predicate SentIn(p: Parts, facts: seq<Fact>) {
    facts != [] && (SentIn(p, facts[..|facts| - 1]) || Due(p, ArrivedIn(p, facts)))
  }

  /** The facts up to where the event is first due, or all of them. */
  function UntilSent(p: Parts, facts: seq<Fact>): seq<Fact> {
    if facts == [] || !SentIn(p, facts[..|facts| - 1]) then facts else UntilSent(p, facts[..|facts| - 1])
  }

  /** One event with what was there when it was first due, or none. */
  function Reported(s: State, p: Parts, base: TurnState, facts: seq<Fact>): seq<TurnEventParams>
    requires PartsOk(p)
  {
    var until := UntilSent(p, facts);
    Expected(p, Notes(s, p, base, until), ArrivedIn(p, until))
  }

  lemma {:induction false} ArrivedAre(p: Parts, facts: seq<Fact>)
    ensures var a := ArrivedIn(p, facts);
      && (a.response <==> ResponseFact(p) in facts)
      && (a.config <==> ConfigFact(p) in facts)
      && (a.completion <==> p.completion in facts)
      && (a.configLater ==> a.config)
  {
    if facts != [] {
      ArrivedAre(p, facts[..|facts| - 1]);
      assert facts == facts[..|facts| - 1] + [facts[|facts| - 1]];
    }
  }

  lemma {:induction false} MovedAmong(p: Parts, facts: seq<Fact>)
    requires PartsOk(p) && Interleaves(p, facts)
    ensures Orderly(p, ArrivedIn(p, facts))
  {
    ArrivedAre(p, facts);
    if facts != [] {
      MovedAmong(p, facts[..|facts| - 1]);
    }
  }

  lemma {:induction false} SentHasAll(p: Parts, facts: seq<Fact>)
    requires SentIn(p, facts)
    ensures All(ArrivedIn(p, facts))
  {
    if SentIn(p, facts[..|facts| - 1]) {
      SentHasAll(p, facts[..|facts| - 1]);
    }
  }

  lemma {:induction false} NotesEarly(s: State, p: Parts, base: TurnState, facts: seq<Fact>)
    requires Early(base)
    ensures Early(Notes(s, p, base, facts))
  {
    if facts != [] {
      NotesEarly(s, p, base, facts[..|facts| - 1]);
    }
  }

  lemma PartNotNoted(s: State, p: Parts, base: TurnState, f: Fact)
    requires PartsOk(p) && IsPart(p, f)
    ensures Noted(s, p, base, f) == base
  {
  }

  /** The state tracks the parts that are there, and the events are the reported ones. */
  predicate Joined(s: State, p: Parts, base: TurnState, facts: seq<Fact>)
    requires PartsOk(p)
  {
    && Tracks(Run(s, facts).0, p, Notes(s, p, base, facts), ArrivedIn(p, facts), SentIn(p, facts))
    && EventsFor(Run(s, facts).1, p.turnId) == Reported(s, p, base, facts)
  }

  lemma Appended(s: State, p: Parts, base: TurnState, front: seq<Fact>, last: Fact)
    ensures var before := Run(s, front);
      && Run(s, front + [last]) == (Step(before.0, last).0, before.1 + Step(before.0, last).1)
      && Notes(s, p, base, front + [last]) == Noted(before.0, p, Notes(s, p, base, front), last)
      && ArrivedIn(p, front + [last]) == With(ArrivedIn(p, front), p, last)
      && (SentIn(p, front + [last]) <==> SentIn(p, front) || Due(p, ArrivedIn(p, front + [last])))
      && UntilSent(p, front + [last]) == if SentIn(p, front) then UntilSent(p, front) else front + [last]
  {
    assert (front + [last])[..|front|] == front;
  }

  lemma {:induction false} UnsentReports(s: State, p: Parts, base: TurnState, facts: seq<Fact>)
    requires PartsOk(p) && !SentIn(p, facts)
    ensures UntilSent(p, facts) == facts && Reported(s, p, base, facts) == []
  {
  }

  lemma AfterSent(s: State, p: Parts, base: TurnState, front: seq<Fact>, last: Fact)
    requires PartsOk(p) && Joined(s, p, base, front) && SentIn(p, front) && Passing(p, last)
    ensures Joined(s, p, base, front + [last])
  {
    var before, a := Run(s, front), ArrivedIn(p, front);
    SentHasAll(p, front);
    Appended(s, p, base, front, last);
    NothingMore(before.0, p, Notes(s, p, base, front), a, last);
    EventsForConcat(before.1, Step(before.0, last).1, p.turnId);
  }

  /** One more fact before the event is out. */
  lemma BeforeSent(s: State, p: Parts, base: TurnState, front: seq<Fact>, last: Fact)
    requires PartsOk(p) && Early(base) && Interleaves(p, front) && Joined(s, p, base, front) && !SentIn(p, front)
    requires Passing(p, last) || (IsPart(p, last) && last !in front)
    ensures var before, a, noted := Run(s, front), With(ArrivedIn(p, front), p, last),
                                    Noted(Run(s, front).0, p, Notes(s, p, base, front), last);
      && Tracks(Step(before.0, last).0, p, noted, a, Due(p, a))
      && EventsFor(Step(before.0, last).1, p.turnId) == Expected(p, noted, a)
  {
    var before, a, notes := Run(s, front), ArrivedIn(p, front), Notes(s, p, base, front);
    MovedAmong(p, front);
    NotesEarly(s, p, base, front);
    ArrivedAre(p, front);
    if IsPart(p, last) && !Passing(p, last) {
      PartNotNoted(before.0, p, notes, last);
      PartArrives(before.0, p, notes, a, last);
    } else if IsUsage(p, last) {
      UsageArrives(before.0, p, notes, a, last);
    } else {
      QuietArrives(before.0, p, notes, a, last);
      QuietFact(before.0, p, last);
      QuietEvents(before.0, p, last);
      NotDueYet(p, front);
    }
  }

  lemma NotDueYet(p: Parts, facts: seq<Fact>)
    requires !SentIn(p, facts)
    ensures !Due(p, ArrivedIn(p, facts))
  {
  }

  lemma BeforeSentJoins(s: State, p: Parts, base: TurnState, front: seq<Fact>, last: Fact)
    requires PartsOk(p) && Early(base) && Interleaves(p, front) && Joined(s, p, base, front) && !SentIn(p, front)
    requires Passing(p, last) || (IsPart(p, last) && last !in front)
    ensures Joined(s, p, base, front + [last])
  {
    var before := Run(s, front);
    BeforeSent(s, p, base, front, last);
    Appended(s, p, base, front, last);
    UnsentReports(s, p, base, front);
    EventsForConcat(before.1, Step(before.0, last).1, p.turnId);
  }

  lemma {:induction false} Join(s: State, p: Parts, base: TurnState, facts: seq<Fact>)
    requires Ready(s, p, base) && Interleaves(p, facts)
    ensures Joined(s, p, base, facts)
  {
    if facts != [] {
      var front, last := facts[..|facts| - 1], facts[|facts| - 1];
      assert facts == front + [last];
      Join(s, p, base, front);
      if SentIn(p, front) {
        SentHasAll(p, front);
        ArrivedAre(p, front);
        AfterSent(s, p, base, front, last);
      } else {
        BeforeSentJoins(s, p, base, front, last);
      }
    }
  }

  /**
   * Whatever the order and whatever comes between: one event, when all the parts are first there
   * on a thread that is known, with the thread named last, the images of the later of response and
   * config, and the start, the token usage and the steers as they are then; or no event.
   */
  lemma Confluence(s: State, p: Parts, base: TurnState, facts: seq<Fact>)
    requires Ready(s, p, base) && Interleaves(p, facts)
    ensures EventsFor(Run(s, facts).1, p.turnId) == Reported(s, p, base, facts)
    ensures |Reported(s, p, base, facts)| == if SentIn(p, facts) then 1 else 0
  {
    Join(s, p, base, facts);
    SentIsDue(p, facts);
    if !SentIn(p, facts) {
      UnsentReports(s, p, base, facts);
    }
  }

  lemma {:induction false} SentIsDue(p: Parts, facts: seq<Fact>)
    ensures SentIn(p, facts) ==> Due(p, ArrivedIn(p, UntilSent(p, facts)))
    ensures Interleaves(p, facts) ==> Interleaves(p, UntilSent(p, facts))
  {
    if facts != [] {
      SentIsDue(p, facts[..|facts| - 1]);
    }
  }

  /** The event comes with the fact that makes it due and not before. */
  lemma EmittedWhenDue(s: State, p: Parts, base: TurnState, front: seq<Fact>, last: Fact)
    requires Ready(s, p, base) && Interleaves(p, front + [last]) && !SentIn(p, front)
    ensures EventsFor(Run(s, front).1, p.turnId) == []
    ensures EventsFor(Step(Run(s, front).0, last).1, p.turnId)
         == Expected(p, Notes(s, p, base, front + [last]), ArrivedIn(p, front + [last]))
  {
    assert (front + [last])[..|front|] == front;
    Confluence(s, p, base, front);
    Confluence(s, p, base, front + [last]);
    Appended(s, p, base, front, last);
    EventsForConcat(Run(s, front).1, Step(Run(s, front).0, last).1, p.turnId);
  }

  // ---------------------------------------------------------------------------------------
  // When the order shows
  // ---------------------------------------------------------------------------------------

  /** A whole run of the turn: all its parts, and what comes between. */
  predicate Complete(p: Parts, facts: seq<Fact>) {
    Interleaves(p, facts) && All(ArrivedIn(p, facts))
  }

  /** The start, the token usage and the steers that are known when the event is first due. */
  function NotesWhenDue(s: State, p: Parts, base: TurnState, facts: seq<Fact>): TurnState {
    Notes(s, p, base, UntilSent(p, facts))
  }

  lemma {:induction false} NotesKeepRest(s: State, p: Parts, base: TurnState, facts: seq<Fact>)
    ensures var t := Notes(s, p, base, facts);
      t == base.(startedAt := t.startedAt, tokenUsage := t.tokenUsage, steerCount := t.steerCount)
  {
    if facts != [] {
      NotesKeepRest(s, p, base, facts[..|facts| - 1]);
    }
  }

  lemma AgreedThread(p: Parts, a: Arrived)
    requires PartsOk(p) && Agrees(p) && Orderly(p, a)
    ensures Thread(p, a) == p.threadId && Images(p, a) == p.numInputImages && (Due(p, a) <==> All(a))
  {
    if a.moved.Some? {
      assert a.moved.value in p.threads.Keys;
    }
  }

  lemma CompleteIsSent(p: Parts, facts: seq<Fact>)
    requires PartsOk(p) && Agrees(p) && Complete(p, facts)
    ensures SentIn(p, facts)
  {
    MovedAmong(p, facts);
    AgreedThread(p, ArrivedIn(p, facts));
  }

  lemma ReportedWhenAgreed(s: State, p: Parts, base: TurnState, facts: seq<Fact>)
    requires Ready(s, p, base) && Agrees(p) && Complete(p, facts)
    ensures var notes := NotesWhenDue(s, p, base, facts);
      EventsFor(Run(s, facts).1, p.turnId) ==
      [TurnEventParams(p.client, p.turnId, p.threadId, p.threads[p.threadId].value, p.numInputImages,
                       p.config.settings, CompletionOf(p.completion), notes.startedAt, notes.tokenUsage,
                       notes.steerCount)]
  {
    Confluence(s, p, base, facts);
    CompleteIsSent(p, facts);
    SentIsDue(p, facts);
    MovedAmong(p, UntilSent(p, facts));
    AgreedThread(p, ArrivedIn(p, UntilSent(p, facts)));
  }

  /**
   * If request, config and usage agree there is one event, and two orders differ at most in the
   * start, the usage and the steers that are known when the last part arrives.
   */
  lemma OrderIsInvisible(s: State, p: Parts, base: TurnState, facts: seq<Fact>, others: seq<Fact>)
    requires Ready(s, p, base) && Agrees(p) && Complete(p, facts) && Complete(p, others)
    ensures |EventsFor(Run(s, facts).1, p.turnId)| == 1
    ensures EventsFor(Run(s, facts).1, p.turnId) == EventsFor(Run(s, others).1, p.turnId)
       <==> NotesWhenDue(s, p, base, facts) == NotesWhenDue(s, p, base, others)
  {
    ReportedWhenAgreed(s, p, base, facts);
    ReportedWhenAgreed(s, p, base, others);
    NotesKeepRest(s, p, base, UntilSent(p, facts));
    NotesKeepRest(s, p, base, UntilSent(p, others));
    var x, y := EventsFor(Run(s, facts).1, p.turnId), EventsFor(Run(s, others).1, p.turnId);
    assert x == y ==> x[0] == y[0];
  }

  /** No two orders of arrival, with the same start, usage and steers, can be told apart. */
  ghost predicate OrderNeverShows(s: State, p: Parts, base: TurnState) {
    forall facts, others | Complete(p, facts) && Complete(p, others)
      && NotesWhenDue(s, p, base, facts) == NotesWhenDue(s, p, base, others) ::
      EventsFor(Run(s, facts).1, p.turnId) == EventsFor(Run(s, others).1, p.turnId)
  }

  function ResponseLast(p: Parts): seq<Fact> {
    [p.completion, ConfigFact(p), ResponseFact(p)]
  }

  function ConfigLast(p: Parts): seq<Fact> {
    [p.completion, ResponseFact(p), ConfigFact(p)]
  }

  /** Token usage on a thread, in front of response and config or behind them. */
  function UsageFirst(p: Parts, threadId: string): seq<Fact> {
    [TokenUsage(p.turnId, threadId, 0), ResponseFact(p), ConfigFact(p), p.completion]
  }

  function UsageLater(p: Parts, threadId: string): seq<Fact> {
    [ResponseFact(p), ConfigFact(p), TokenUsage(p.turnId, threadId, 0), p.completion]
  }

  /** A part that comes at the very end: the event is due then or not at all. */
  lemma DueAtTheEnd(s: State, p: Parts, base: TurnState, front: seq<Fact>, last: Fact)
    requires Ready(s, p, base) && Interleaves(p, front + [last]) && IsPart(p, last) && last !in front
    ensures NotesWhenDue(s, p, base, front + [last]) == Notes(s, p, base, front)
    ensures EventsFor(Run(s, front + [last]).1, p.turnId)
         == Expected(p, Notes(s, p, base, front), With(ArrivedIn(p, front), p, last))
  {
    if SentIn(p, front) {
      SentHasAll(p, front);
      ArrivedAre(p, front);
      assert false;
    }
    Appended(s, p, base, front, last);
    PartNotNoted(Run(s, front).0, p, Notes(s, p, base, front), last);
    Confluence(s, p, base, front + [last]);
  }

  lemma TwoFacts(s: State, p: Parts, base: TurnState, x: Fact, y: Fact)
    requires PartsOk(p) && IsPart(p, x) && IsPart(p, y) && x != y
    ensures Interleaves(p, [x, y]) && Notes(s, p, base, [x, y]) == base
    ensures ArrivedIn(p, [x, y]) == With(With(NONE, p, x), p, y)
  {
    assert [x, y][..1] == [x] && [x][..0] == [];
    assert Interleaves(p, []) && Interleaves(p, [x]);
    assert ArrivedIn(p, [x]) == With(NONE, p, x);
    PartNotNoted(s, p, base, x);
    assert Notes(s, p, base, [x]) == base;
    PartNotNoted(Run(s, [x]).0, p, base, y);
  }

  /** The two orders that differ when request and config disagree. */
  lemma LastOneWins(s: State, p: Parts, base: TurnState)
    requires Ready(s, p, base)
    ensures Complete(p, ResponseLast(p)) && Complete(p, ConfigLast(p))
    ensures NotesWhenDue(s, p, base, ResponseLast(p)) == base == NotesWhenDue(s, p, base, ConfigLast(p))
    ensures EventsFor(Run(s, ResponseLast(p)).1, p.turnId) == Expected(p, base, Arrived(true, true, true, false, None))
    ensures EventsFor(Run(s, ConfigLast(p)).1, p.turnId) == Expected(p, base, Arrived(true, true, true, true, None))
  {
    var c, r := [p.completion, ConfigFact(p)], [p.completion, ResponseFact(p)];
    TwoFacts(s, p, base, p.completion, ConfigFact(p));
    TwoFacts(s, p, base, p.completion, ResponseFact(p));
    assert ResponseLast(p) == c + [ResponseFact(p)] && ConfigLast(p) == r + [ConfigFact(p)];
    assert ResponseLast(p)[..2] == c && ConfigLast(p)[..2] == r;
    DueAtTheEnd(s, p, base, c, ResponseFact(p));
    DueAtTheEnd(s, p, base, r, ConfigFact(p));
  }

  lemma OneMore(s: State, p: Parts, base: TurnState, front: seq<Fact>, last: Fact)
    requires Interleaves(p, front) && (Passing(p, last) || (IsPart(p, last) && last !in front))
    ensures Interleaves(p, front + [last])
    ensures ArrivedIn(p, front + [last]) == With(ArrivedIn(p, front), p, last)
    ensures Notes(s, p, base, front + [last]) == Noted(Run(s, front).0, p, Notes(s, p, base, front), last)
  {
    assert (front + [last])[..|front|] == front;
  }

  lemma PartNext(s: State, p: Parts, base: TurnState, front: seq<Fact>, last: Fact)
    requires PartsOk(p) && Interleaves(p, front) && IsPart(p, last) && last !in front
    ensures Interleaves(p, front + [last]) && ArrivedIn(p, front + [last]) == With(ArrivedIn(p, front), p, last)
    ensures Notes(s, p, base, front + [last]) == Notes(s, p, base, front)
  {
    OneMore(s, p, base, front, last);
    PartNotNoted(Run(s, front).0, p, Notes(s, p, base, front), last);
  }

  lemma UsageThenParts(s: State, p: Parts, base: TurnState, threadId: string)
    requires PartsOk(p) && threadId in p.threads
    ensures var front := [TokenUsage(p.turnId, threadId, 0), ResponseFact(p), ConfigFact(p)];
      && Interleaves(p, front) && ArrivedIn(p, front) == Arrived(true, true, false, true, None)
      && Notes(s, p, base, front) == base.(tokenUsage := Some(0))
  {
    var u, r, c := TokenUsage(p.turnId, threadId, 0), ResponseFact(p), ConfigFact(p);
    OneMore(s, p, base, [], u);
    assert [] + [u] == [u];
    PartNext(s, p, base, [u], r);
    assert [u] + [r] == [u, r];
    PartNext(s, p, base, [u, r], c);
    assert [u, r] + [c] == [u, r, c];
  }

  lemma UsageInFront(s: State, p: Parts, base: TurnState, threadId: string)
    requires Ready(s, p, base) && threadId in p.threads
    ensures var facts := UsageFirst(p, threadId);
      && Complete(p, facts) && NotesWhenDue(s, p, base, facts) == base.(tokenUsage := Some(0))
      && EventsFor(Run(s, facts).1, p.turnId)
         == Expected(p, base.(tokenUsage := Some(0)), Arrived(true, true, true, true, None))
  {
    var front := [TokenUsage(p.turnId, threadId, 0), ResponseFact(p), ConfigFact(p)];
    UsageThenParts(s, p, base, threadId);
    assert front + [p.completion] == UsageFirst(p, threadId);
    PartNext(s, p, base, front, p.completion);
    DueAtTheEnd(s, p, base, front, p.completion);
  }

  lemma PartsThenUsage(s: State, p: Parts, base: TurnState, threadId: string)
    requires PartsOk(p) && threadId in p.threads
    ensures var front := [ResponseFact(p), ConfigFact(p), TokenUsage(p.turnId, threadId, 0)];
      && Interleaves(p, front) && ArrivedIn(p, front) == Arrived(true, true, false, true, Some(threadId))
      && Notes(s, p, base, front) == base.(tokenUsage := Some(0))
  {
    var u, r, c := TokenUsage(p.turnId, threadId, 0), ResponseFact(p), ConfigFact(p);
    TwoFacts(s, p, base, r, c);
    OneMore(s, p, base, [r, c], u);
    assert [r, c] + [u] == [r, c, u];
  }

  lemma UsageBehind(s: State, p: Parts, base: TurnState, threadId: string)
    requires Ready(s, p, base) && threadId in p.threads
    ensures var facts := UsageLater(p, threadId);
      && Complete(p, facts) && NotesWhenDue(s, p, base, facts) == base.(tokenUsage := Some(0))
      && EventsFor(Run(s, facts).1, p.turnId)
         == Expected(p, base.(tokenUsage := Some(0)), Arrived(true, true, true, true, Some(threadId)))
  {
    var front := [ResponseFact(p), ConfigFact(p), TokenUsage(p.turnId, threadId, 0)];
    PartsThenUsage(s, p, base, threadId);
    assert front + [p.completion] == UsageLater(p, threadId);
    PartNext(s, p, base, front, p.completion);
    DueAtTheEnd(s, p, base, front, p.completion);
  }

  /** Request and config disagree: one of two orders is on the other thread, or has other images. */
  lemma DisagreementTells(s: State, p: Parts, base: TurnState)
    requires Ready(s, p, base)
    requires p.config.threadId != p.threadId || p.config.numInputImages != p.numInputImages
    ensures EventsFor(Run(s, ResponseLast(p)).1, p.turnId) != EventsFor(Run(s, ConfigLast(p)).1, p.turnId)
  {
    LastOneWins(s, p, base);
    var x := Expected(p, base, Arrived(true, true, true, false, None));
    var y := Expected(p, base, Arrived(true, true, true, true, None));
    assert x[0].threadId == p.threadId && x[0].numInputImages == p.numInputImages;
    if y != [] {
      assert y[0].threadId == p.config.threadId && y[0].numInputImages == p.config.numInputImages;
    }
  }

  /** Usage on another thread: one of two orders is on that thread, or has no event. */
  lemma UsageTells(s: State, p: Parts, base: TurnState, threadId: string)
    requires Ready(s, p, base) && threadId in p.threads && p.config.threadId == p.threadId != threadId
    ensures EventsFor(Run(s, UsageFirst(p, threadId)).1, p.turnId)
         != EventsFor(Run(s, UsageLater(p, threadId)).1, p.turnId)
  {
    UsageInFront(s, p, base, threadId);
    UsageBehind(s, p, base, threadId);
    var x := EventsFor(Run(s, UsageFirst(p, threadId)).1, p.turnId);
    var y := EventsFor(Run(s, UsageLater(p, threadId)).1, p.turnId);
    assert x[0].threadId == p.threadId;
    if y != [] {
      assert y[0].threadId == threadId;
    }
  }

  /**
   * The order never shows exactly if request, config and token usage agree on the thread, and
   * request and config on the images.
   */
  lemma OrderShowsExactly(s: State, p: Parts, base: TurnState)
    requires Ready(s, p, base)
    ensures OrderNeverShows(s, p, base) <==> Agrees(p)
  {
    if Agrees(p) {
      forall facts, others | Complete(p, facts) && Complete(p, others)
        && NotesWhenDue(s, p, base, facts) == NotesWhenDue(s, p, base, others)
        ensures EventsFor(Run(s, facts).1, p.turnId) == EventsFor(Run(s, others).1, p.turnId)
      {
        OrderIsInvisible(s, p, base, facts, others);
      }
    } else if p.config.threadId != p.threadId || p.config.numInputImages != p.numInputImages {
      LastOneWins(s, p, base);
      DisagreementTells(s, p, base);
    } else {
      var threadId :| threadId in p.threads && threadId != p.threadId;
      UsageInFront(s, p, base, threadId);
      UsageBehind(s, p, base, threadId);
      UsageTells(s, p, base, threadId);
    }
  }

  // ---------------------------------------------------------------------------------------
  // Turns whose order shows
  // ---------------------------------------------------------------------------------------

  const SOME_CLIENT := Client("client", "runtime")
  const SOME_METADATA := ThreadMetadata(None, New, None, None)
  const SOME_KEY: Key := (0, IntegerId(1))
  const ONE_KNOWN: map<string, Option<ThreadMetadata>> := map["thread" := Some(SOME_METADATA)]

  /** A turn whose request has no image and whose config reports the given images on the given thread. */
  function Disagreeing(threadId: string, images: nat, threads: map<string, Option<ThreadMetadata>>): Parts {
    Parts("turn", 0, SOME_CLIENT, IntegerId(1), "thread", 0,
          Config("turn", threadId, images, Settings("model", "")),
          TurnCompleted("turn", WireCompleted, None, None, None), threads)
  }

  const PENDING_STATE := State(
    map[SOME_KEY := TurnStart("thread", 0)], map[], map[0 := SOME_CLIENT], map["thread" := 0],
    map["thread" := SOME_METADATA])

  /** One image in the config: the event reports none or one, depending on the order. */
  lemma ImagesShow()
    ensures var p := Disagreeing("thread", 1, ONE_KNOWN);
      var none := EventsFor(Run(PENDING_STATE, ResponseLast(p)).1, p.turnId);
      var one := EventsFor(Run(PENDING_STATE, ConfigLast(p)).1, p.turnId);
      |none| == 1 == |one| && none[0].numInputImages == 0 && one[0].numInputImages == 1
  {
    LastOneWins(PENDING_STATE, Disagreeing("thread", 1, ONE_KNOWN), FRESH_TURN);
  }

  /** An unknown thread in the config: there is an event or none, depending on the order. */
  lemma ThreadShows()
    ensures var p := Disagreeing("elsewhere", 0, ONE_KNOWN["elsewhere" := None]);
      && |EventsFor(Run(PENDING_STATE, ResponseLast(p)).1, p.turnId)| == 1
      && EventsFor(Run(PENDING_STATE, ConfigLast(p)).1, p.turnId) == []
  {
    LastOneWins(PENDING_STATE, Disagreeing("elsewhere", 0, ONE_KNOWN["elsewhere" := None]), FRESH_TURN);
  }

  /** Token usage on an unknown thread, where request and config agree: likewise. */
  lemma UsageShows()
    ensures var p := Disagreeing("thread", 0, ONE_KNOWN["elsewhere" := None]);
      && |EventsFor(Run(PENDING_STATE, UsageFirst(p, "elsewhere")).1, p.turnId)| == 1
      && EventsFor(Run(PENDING_STATE, UsageLater(p, "elsewhere")).1, p.turnId) == []
  {
    var p := Disagreeing("thread", 0, ONE_KNOWN["elsewhere" := None]);
    UsageInFront(PENDING_STATE, p, FRESH_TURN, "elsewhere");
    UsageBehind(PENDING_STATE, p, FRESH_TURN, "elsewhere");
  }

  lemma ReadyExamples()
    ensures Ready(PENDING_STATE, Disagreeing("thread", 1, ONE_KNOWN), FRESH_TURN)
    ensures Ready(PENDING_STATE, Disagreeing("elsewhere", 0, ONE_KNOWN["elsewhere" := None]), FRESH_TURN)
    ensures Ready(PENDING_STATE, Disagreeing("thread", 0, ONE_KNOWN["elsewhere" := None]), FRESH_TURN)
  {
  }

  lemma ThreadsDisagree()
    ensures !Agrees(Disagreeing("thread", 0, ONE_KNOWN["elsewhere" := None]))
  {
    assert "elsewhere" in ONE_KNOWN["elsewhere" := None].Keys;
  }

  lemma DisagreementShows()
    ensures !OrderNeverShows(PENDING_STATE, Disagreeing("thread", 1, ONE_KNOWN), FRESH_TURN)
    ensures !OrderNeverShows(PENDING_STATE, Disagreeing("elsewhere", 0, ONE_KNOWN["elsewhere" := None]), FRESH_TURN)
    ensures !OrderNeverShows(PENDING_STATE, Disagreeing("thread", 0, ONE_KNOWN["elsewhere" := None]), FRESH_TURN)
  {
    ReadyExamples();
    ThreadsDisagree();
    OrderShowsExactly(PENDING_STATE, Disagreeing("thread", 1, ONE_KNOWN), FRESH_TURN);
    OrderShowsExactly(PENDING_STATE, Disagreeing("elsewhere", 0, ONE_KNOWN["elsewhere" := None]), FRESH_TURN);
    OrderShowsExactly(PENDING_STATE, Disagreeing("thread", 0, ONE_KNOWN["elsewhere" := None]), FRESH_TURN);
  }
}
