/**
 * The analytics reducer: facts about requests, responses, notifications and turns arrive in any
 * order and are joined by request, turn, thread and connection; once the parts of a turn are
 * there, one turn event is emitted and the state of the turn forgotten.
 */
module TurnAnalytics {
  import opened JsonRpc
  import opened Sets
  import opened Wrappers

  /** What a connection reported of itself: the client's and the runtime's metadata. */
  datatype Client = Client(productClientId: string, runtime: string)

  datatype InitializationMode = New | Resumed | Forked

  datatype ThreadMetadata = ThreadMetadata(
    threadSource: Option<string>,
    mode: InitializationMode,
    subagentSource: Option<string>,
    parentThreadId: Option<string>)

  datatype UserInput = Text(text: string) | Image(url: string) | LocalImage(path: string)

  datatype Pending =
    | TurnStart(threadId: string, numInputImages: nat)
    | TurnSteer(threadId: string, expectedTurnId: string, numInputImages: nat, createdAt: nat)

  /** The resolved config apart from the turn, the thread and the number of images. */
  datatype Settings = Settings(model: string, rest: string)

  datatype Config = Config(turnId: string, threadId: string, numInputImages: nat, settings: Settings)

  datatype WireTurnStatus = WireCompleted | WireFailed | WireInterrupted | WireInProgress

  datatype TurnStatus = Completed | Failed | Interrupted

  datatype Completion = Completion(
    status: Option<TurnStatus>, turnError: Option<string>, completedAt: nat, durationMs: Option<nat>)

  datatype TurnState = TurnState(
    connectionId: Option<nat>,
    threadId: Option<string>,
    numInputImages: Option<nat>,
    resolvedConfig: Option<Config>,
    startedAt: Option<nat>,
    tokenUsage: Option<int>,
    completed: Option<Completion>,
    steerCount: nat)

  const FRESH_TURN := TurnState(None, None, None, None, None, None, None, 0)

  datatype RejectionReason =
    | NoActiveTurn
    | ExpectedTurnMismatch
    | NonSteerableReview
    | NonSteerableCompact
    | EmptyInput
    | InputTooLarge

  datatype Fact =
    | Initialize(connection: nat, client: Client)
    | TurnStartRequest(connection: nat, request: RequestId, threadId: string, input: seq<UserInput>)
    | TurnSteerRequest(connection: nat, request: RequestId, threadId: string, expectedTurnId: string,
        input: seq<UserInput>, now: nat)
    | ThreadResponse(connection: nat, threadId: string, metadata: ThreadMetadata)
    | TurnStartResponse(connection: nat, request: RequestId, turnId: string)
    | TurnSteerResponse(connection: nat, request: RequestId, turnId: string)
    | ErrorResponse(connection: nat, request: RequestId, reason: Option<RejectionReason>)
    | TurnStarted(turnId: string, startedAt: Option<int>)
    | TurnCompleted(turnId: string, status: WireTurnStatus, turnError: Option<string>,
        completedAt: Option<int>, durationMs: Option<int>)
    | ResolvedConfig(config: Config)
    | TokenUsage(turnId: string, threadId: string, usage: int)
    | Unrelated

  datatype TurnEventParams = TurnEventParams(
    client: Client, turnId: string, threadId: string, metadata: ThreadMetadata, numInputImages: nat,
    settings: Settings, completion: Completion, startedAt: Option<nat>, tokenUsage: Option<int>, steerCount: nat)

  datatype Event =
    | ThreadInitialized(threadId: string, client: Client, metadata: ThreadMetadata)
    | TurnEvent(params: TurnEventParams)
    | TurnSteerEvent(client: Client, metadata: ThreadMetadata, steer: Pending,
        acceptedTurnId: Option<string>, reason: Option<RejectionReason>)

  type Key = (nat, RequestId)

  datatype State = State(
    requests: map<Key, Pending>,
    turns: map<string, TurnState>,
    connections: map<nat, Client>,
    threadConnections: map<string, nat>,
    threads: map<string, ThreadMetadata>)

  const EMPTY := State(map[], map[], map[], map[], map[])

  // ---------------------------------------------------------------------------------------
  // One fact
  // ---------------------------------------------------------------------------------------

  function NumInputImages(input: seq<UserInput>): nat {
    if input == [] then 0
    else NumInputImages(input[..|input| - 1]) + if input[|input| - 1].Text? then 0 else 1
  }

  /** `u64::try_from` on an optional `i64`. */
  function ToU64(i: Option<int>): Option<nat> {
    if i.Some? && 0 <= i.value then Some(i.value) else None
  }

  function AnalyticsTurnStatus(status: WireTurnStatus): Option<TurnStatus> {
    match status
    case WireCompleted => Some(Completed)
    case WireFailed => Some(Failed)
    case WireInterrupted => Some(Interrupted)
    case WireInProgress => None
  }

  function CompletionOf(f: Fact): Completion
    requires f.TurnCompleted?
  {
    Completion(AnalyticsTurnStatus(f.status), f.turnError,
               if ToU64(f.completedAt).Some? then ToU64(f.completedAt).value else 0, ToU64(f.durationMs))
  }

  function TurnOf(s: State, turnId: string): TurnState {
    if turnId in s.turns then s.turns[turnId] else FRESH_TURN
  }

  function SetTurn(s: State, turnId: string, turn: TurnState): State {
    s.(turns := s.turns[turnId := turn])
  }

  /** The event of a turn all of whose parts are there. */
  function TurnEventOf(s: State, turnId: string): Option<TurnEventParams> {
    if turnId !in s.turns then None
    else
      var turn := s.turns[turnId];
      if turn.threadId.None? || turn.numInputImages.None? || turn.resolvedConfig.None? || turn.completed.None?
        || turn.connectionId.None? || turn.connectionId.value !in s.connections
        || turn.threadId.value !in s.threads
      then None
      else Some(TurnEventParams(
        s.connections[turn.connectionId.value], turnId, turn.threadId.value, s.threads[turn.threadId.value],
        turn.numInputImages.value, turn.resolvedConfig.value.settings, turn.completed.value,
        turn.startedAt, turn.tokenUsage, turn.steerCount))
  }

  function MaybeEmit(s: State, turnId: string): (State, seq<Event>) {
    match TurnEventOf(s, turnId)
    case None => (s, [])
    case Some(params) => (s.(turns := s.turns - {turnId}), [TurnEvent(params)])
  }

  function SteerEvents(s: State, connection: nat, steer: Pending, accepted: Option<string>,
      reason: Option<RejectionReason>): seq<Event>
    requires steer.TurnSteer?
  {
    if connection in s.connections && steer.threadId in s.threads
    then [TurnSteerEvent(s.connections[connection], s.threads[steer.threadId], steer, accepted, reason)]
    else []
  }

  function OnTurnStartResponse(s: State, key: Key, turnId: string): (State, seq<Event>) {
    var rest := s.(requests := s.requests - {key});
    if key in s.requests && s.requests[key].TurnStart? then
      MaybeEmit(SetTurn(rest, turnId, TurnOf(s, turnId).(
        connectionId := Some(key.0),
        threadId := Some(s.requests[key].threadId),
        numInputImages := Some(s.requests[key].numInputImages))), turnId)
    else (rest, [])
  }

  function OnTurnSteerResponse(s: State, key: Key, turnId: string): (State, seq<Event>) {
    var rest := s.(requests := s.requests - {key});
    if key in s.requests && s.requests[key].TurnSteer? then
      (if turnId in s.turns
       then SetTurn(rest, turnId, s.turns[turnId].(steerCount := s.turns[turnId].steerCount + 1))
       else rest,
       SteerEvents(s, key.0, s.requests[key], Some(turnId), None))
    else (rest, [])
  }

  function OnErrorResponse(s: State, key: Key, reason: Option<RejectionReason>): (State, seq<Event>) {
    (s.(requests := s.requests - {key}),
     if key in s.requests && s.requests[key].TurnSteer?
     then SteerEvents(s, key.0, s.requests[key], None, reason)
     else [])
  }

  function OnThreadResponse(s: State, f: Fact): (State, seq<Event>)
    requires f.ThreadResponse?
  {
    if f.connection !in s.connections then (s, [])
    else (s.(threadConnections := s.threadConnections[f.threadId := f.connection],
             threads := s.threads[f.threadId := f.metadata]),
          [ThreadInitialized(f.threadId, s.connections[f.connection], f.metadata)])
  }

  /** The state after a fact, and the events that it causes. */
  function Step(s: State, f: Fact): (State, seq<Event>) {
    match f
    case Initialize(connection, client) => (s.(connections := s.connections[connection := client]), [])
    case TurnStartRequest(connection, request, threadId, input) =>
      (s.(requests := s.requests[(connection, request) := TurnStart(threadId, NumInputImages(input))]), [])
    case TurnSteerRequest(connection, request, threadId, expected, input, now) =>
      (s.(requests := s.requests[(connection, request) :=
         TurnSteer(threadId, expected, NumInputImages(input), now)]), [])
    case ThreadResponse(_, _, _) => OnThreadResponse(s, f)
    case TurnStartResponse(connection, request, turnId) => OnTurnStartResponse(s, (connection, request), turnId)
    case TurnSteerResponse(connection, request, turnId) => OnTurnSteerResponse(s, (connection, request), turnId)
    case ErrorResponse(connection, request, reason) => OnErrorResponse(s, (connection, request), reason)
    case TurnStarted(turnId, startedAt) =>
      (SetTurn(s, turnId, TurnOf(s, turnId).(startedAt := ToU64(startedAt))), [])
    case TurnCompleted(turnId, _, _, _, _) =>
      MaybeEmit(SetTurn(s, turnId, TurnOf(s, turnId).(completed := Some(CompletionOf(f)))), turnId)
    case ResolvedConfig(config) =>
      MaybeEmit(SetTurn(s, config.turnId, TurnOf(s, config.turnId).(
        threadId := Some(config.threadId),
        numInputImages := Some(config.numInputImages),
        resolvedConfig := Some(config))), config.turnId)
    case TokenUsage(turnId, threadId, usage) =>
      MaybeEmit(SetTurn(s, turnId, TurnOf(s, turnId).(
        threadId := Some(threadId), tokenUsage := Some(usage))), turnId)
    case Unrelated => (s, [])
  }

  // ---------------------------------------------------------------------------------------
  // What events report
  // ---------------------------------------------------------------------------------------

  /** Images, pasted or local, are counted one by one, and texts are not. */
  lemma {:induction false} ImagesCounted(a: seq<UserInput>, b: seq<UserInput>)
    ensures NumInputImages(a + b) == NumInputImages(a) + NumInputImages(b)
    ensures forall url :: NumInputImages([Image(url)]) == 1
    ensures forall path :: NumInputImages([LocalImage(path)]) == 1
    ensures forall text :: NumInputImages([Text(text)]) == 0
  {
    forall item: UserInput ensures NumInputImages([item]) == if item.Text? then 0 else 1 {
      assert [item][..0] == [];
    }
    if b == [] {
      assert a + b == a;
    } else {
      assert (a + b)[..|a + b| - 1] == a + b[..|b| - 1];
      ImagesCounted(a, b[..|b| - 1]);
    }
  }

  /** What the completion of a turn is reported as, if its event comes with it. */
  lemma CompletionReported(s: State, f: Fact, params: TurnEventParams)
    requires f.TurnCompleted? && TurnEvent(params) in Step(s, f).1
    ensures params.turnId == f.turnId && params.completion.turnError == f.turnError
    ensures params.completion.status ==
      match f.status
      case WireCompleted => Some(Completed)
      case WireFailed => Some(Failed)
      case WireInterrupted => Some(Interrupted)
      case WireInProgress => None
    ensures params.completion.completedAt ==
      match f.completedAt { case Some(n) => if n < 0 then 0 else n case None => 0 }
    ensures params.completion.durationMs ==
      match f.durationMs { case Some(n) => if n < 0 then None else Some(n) case None => None }
  {
  }

  /** A steer is reported with what it asked for, and as accepted by a turn or rejected for a reason. */
  lemma SteerReported(s: State, f: Fact, key: Key, steer: Pending)
    requires f.TurnSteerResponse? || f.ErrorResponse?
    requires key == (f.connection, f.request) && key in s.requests && s.requests[key] == steer && steer.TurnSteer?
    requires f.connection in s.connections && steer.threadId in s.threads
    ensures key !in Step(s, f).0.requests
    ensures Step(s, f).1 ==
      [TurnSteerEvent(s.connections[f.connection], s.threads[steer.threadId], steer,
                      if f.TurnSteerResponse? then Some(f.turnId) else None,
                      if f.TurnSteerResponse? then None else f.reason)]
  {
  }

  /** A connection, and a thread reported on a known connection, are known from then on. */
  lemma ContextKept(s: State, f: Fact)
    requires f.Initialize? || (f.ThreadResponse? && f.connection in s.connections)
    ensures f.Initialize? ==> Step(s, f) == (s.(connections := s.connections[f.connection := f.client]), [])
    ensures f.ThreadResponse? ==>
      && Step(s, f).0.threads == s.threads[f.threadId := f.metadata]
      && Step(s, f).0.threadConnections == s.threadConnections[f.threadId := f.connection]
      && Step(s, f).1 == [ThreadInitialized(f.threadId, s.connections[f.connection], f.metadata)]
  {
  }

  /** A request is kept with the thread, the images and, for a steer, the turn that it names. */
  lemma RequestKept(s: State, f: Fact)
    requires f.TurnStartRequest? || f.TurnSteerRequest?
    ensures var next := Step(s, f).0; var key := (f.connection, f.request);
      && next == s.(requests := next.requests) && key in next.requests && next.requests - {key} == s.requests - {key}
      && next.requests[key] ==
           if f.TurnStartRequest? then TurnStart(f.threadId, NumInputImages(f.input))
           else TurnSteer(f.threadId, f.expectedTurnId, NumInputImages(f.input), f.now)
  {
  }

  function Run(s: State, facts: seq<Fact>): (State, seq<Event>) {
    if facts == [] then (s, [])
    else
      var before := Run(s, facts[..|facts| - 1]);
      var last := Step(before.0, facts[|facts| - 1]);
      (last.0, before.1 + last.1)
  }

  lemma RunAppend(s: State, facts: seq<Fact>, f: Fact)
    ensures Run(s, facts + [f]).0 == Step(Run(s, facts).0, f).0
    ensures Run(s, facts + [f]).1 == Run(s, facts).1 + Step(Run(s, facts).0, f).1
  {
    assert (facts + [f])[..|facts|] == facts;
  }

  // ---------------------------------------------------------------------------------------
  // The reducer itself
  // ---------------------------------------------------------------------------------------

  class AnalyticsReducer {
    var requests: map<Key, Pending>
    var turns: map<string, TurnState>
    var connections: map<nat, Client>
    var threadConnections: map<string, nat>
    var threads: map<string, ThreadMetadata>

    ghost function Now(): State
      reads this
    {
      State(requests, turns, connections, threadConnections, threads)
    }

    constructor ()
      ensures Now() == EMPTY
    {
      requests, turns, connections, threadConnections, threads := map[], map[], map[], map[], map[];
    }

    method MaybeEmitTurnEvent(turnId: string) returns (out: seq<Event>)
      modifies this`turns
      ensures (Now(), out) == MaybeEmit(old(Now()), turnId)
    {
      out := [];
      if turnId !in turns {
        return;
      }
      var turn := turns[turnId];
      if turn.threadId.None? || turn.numInputImages.None? || turn.resolvedConfig.None? || turn.completed.None? {
        return;
      }
      if turn.connectionId.None? || turn.connectionId.value !in connections {
        return;
      }
      if turn.threadId.value !in threads {
        return;
      }
      out := [TurnEvent(TurnEventParams(
        connections[turn.connectionId.value], turnId, turn.threadId.value, threads[turn.threadId.value],
        turn.numInputImages.value, turn.resolvedConfig.value.settings, turn.completed.value,
        turn.startedAt, turn.tokenUsage, turn.steerCount))];
      turns := turns - {turnId};
    }

    /** The state of a turn, made if it is not there. */
    method EntryOrInsert(turnId: string) returns (turn: TurnState)
      modifies this`turns
      ensures turn == TurnOf(old(Now()), turnId)
      ensures Now() == SetTurn(old(Now()), turnId, turn)
    {
      if turnId !in turns {
        turns := turns[turnId := FRESH_TURN];
      }
      turn := turns[turnId];
      assert turns[turnId := turn] == turns;
    }

    method UpdateTurn(turnId: string, turn: TurnState)
      modifies this`turns
      ensures Now() == SetTurn(old(Now()), turnId, turn)
    {
      turns := turns[turnId := turn];
    }

    method CountImages(input: seq<UserInput>) returns (n: nat)
      ensures n == NumInputImages(input)
    {
      n := 0;
      for i := 0 to |input|
        invariant n == NumInputImages(input[..i])
      {
        assert input[..i + 1][..i] == input[..i];
        if !input[i].Text? {
          n := n + 1;
        }
      }
      assert input[..|input|] == input;
    }

    method IngestRequest(f: Fact)
      requires f.TurnStartRequest? || f.TurnSteerRequest?
      modifies this`requests
      ensures (Now(), []) == Step(old(Now()), f)
    {
      var images := CountImages(f.input);
      if f.TurnStartRequest? {
        requests := requests[(f.connection, f.request) := TurnStart(f.threadId, images)];
      } else {
        requests := requests[(f.connection, f.request) := TurnSteer(f.threadId, f.expectedTurnId, images, f.now)];
      }
    }

    method EmitThreadInitialized(f: Fact) returns (out: seq<Event>)
      requires f.ThreadResponse?
      modifies this`threadConnections, this`threads
      ensures (Now(), out) == Step(old(Now()), f)
    {
      if f.connection !in connections {
        return [];
      }
      threadConnections := threadConnections[f.threadId := f.connection];
      threads := threads[f.threadId := f.metadata];
      out := [ThreadInitialized(f.threadId, connections[f.connection], f.metadata)];
    }

    method IngestTurnStartResponse(f: Fact) returns (out: seq<Event>)
      requires f.TurnStartResponse?
      modifies this`requests, this`turns
      ensures (Now(), out) == Step(old(Now()), f)
    {
      var key := (f.connection, f.request);
      var found := if key in requests then Some(requests[key]) else None;
      requests := requests - {key};
      if found.None? || !found.value.TurnStart? {
        return [];
      }
      var turn := EntryOrInsert(f.turnId);
      var updated := turn.(
        connectionId := Some(f.connection),
        threadId := Some(found.value.threadId),
        numInputImages := Some(found.value.numInputImages));
      UpdateTurn(f.turnId, updated);
      SetTwice(old(Now()).(requests := requests), f.turnId, turn, updated);
      out := MaybeEmitTurnEvent(f.turnId);
    }

    method EmitTurnSteerEvent(connection: nat, steer: Pending, accepted: Option<string>,
        reason: Option<RejectionReason>) returns (out: seq<Event>)
      requires steer.TurnSteer?
      ensures out == SteerEvents(Now(), connection, steer, accepted, reason)
    {
      if connection !in connections {
        return [];
      }
      if steer.threadId !in threads {
        return [];
      }
      out := [TurnSteerEvent(connections[connection], threads[steer.threadId], steer, accepted, reason)];
    }

    method IngestTurnSteerResponse(f: Fact) returns (out: seq<Event>)
      requires f.TurnSteerResponse?
      modifies this`requests, this`turns
      ensures (Now(), out) == Step(old(Now()), f)
    {
      var key := (f.connection, f.request);
      var found := if key in requests then Some(requests[key]) else None;
      requests := requests - {key};
      if found.None? || !found.value.TurnSteer? {
        return [];
      }
      if f.turnId in turns {
        turns := turns[f.turnId := turns[f.turnId].(steerCount := turns[f.turnId].steerCount + 1)];
      }
      out := EmitTurnSteerEvent(f.connection, found.value, Some(f.turnId), None);
    }

    method IngestErrorResponse(f: Fact) returns (out: seq<Event>)
      requires f.ErrorResponse?
      modifies this`requests
      ensures (Now(), out) == Step(old(Now()), f)
    {
      var key := (f.connection, f.request);
      if key !in requests {
        assert requests - {key} == requests;
        return [];
      }
      var found := requests[key];
      requests := requests - {key};
      match found
      case TurnStart(_, _) => out := [];
      case TurnSteer(_, _, _, _) => out := EmitTurnSteerEvent(f.connection, found, None, f.reason);
    }

    method IngestNotification(f: Fact) returns (out: seq<Event>)
      requires f.TurnStarted? || f.TurnCompleted?
      modifies this`turns
      ensures (Now(), out) == Step(old(Now()), f)
    {
      var turn := EntryOrInsert(f.turnId);
      if f.TurnStarted? {
        var updated := turn.(startedAt := ToU64(f.startedAt));
        UpdateTurn(f.turnId, updated);
        SetTwice(old(Now()), f.turnId, turn, updated);
        out := [];
      } else {
        var updated := turn.(completed := Some(CompletionOf(f)));
        UpdateTurn(f.turnId, updated);
        SetTwice(old(Now()), f.turnId, turn, updated);
        out := MaybeEmitTurnEvent(f.turnId);
      }
    }

    method IngestTurnFact(f: Fact) returns (out: seq<Event>)
      requires f.ResolvedConfig? || f.TokenUsage?
      modifies this`turns
      ensures (Now(), out) == Step(old(Now()), f)
    {
      var turnId := if f.ResolvedConfig? then f.config.turnId else f.turnId;
      var turn := EntryOrInsert(turnId);
      var updated :=
        if f.ResolvedConfig? then
          turn.(threadId := Some(f.config.threadId),
                numInputImages := Some(f.config.numInputImages),
                resolvedConfig := Some(f.config))
        else turn.(threadId := Some(f.threadId), tokenUsage := Some(f.usage));
      UpdateTurn(turnId, updated);
      SetTwice(old(Now()), turnId, turn, updated);
      out := MaybeEmitTurnEvent(turnId);
    }

    method Ingest(f: Fact) returns (out: seq<Event>)
      modifies this
      ensures (Now(), out) == Step(old(Now()), f)
    {
      match f
      case Initialize(connection, client) =>
        connections := connections[connection := client];
        out := [];
      case TurnStartRequest(_, _, _, _) => IngestRequest(f); out := [];
      case TurnSteerRequest(_, _, _, _, _, _) => IngestRequest(f); out := [];
      case ThreadResponse(_, _, _) => out := EmitThreadInitialized(f);
      case TurnStartResponse(_, _, _) => out := IngestTurnStartResponse(f);
      case TurnSteerResponse(_, _, _) => out := IngestTurnSteerResponse(f);
      case ErrorResponse(_, _, _) => out := IngestErrorResponse(f);
      case TurnStarted(_, _) => out := IngestNotification(f);
      case TurnCompleted(_, _, _, _, _) => out := IngestNotification(f);
      case ResolvedConfig(_) => out := IngestTurnFact(f);
      case TokenUsage(_, _, _) => out := IngestTurnFact(f);
      case Unrelated => out := [];
    }

    /** The task that feeds the reducer. */
    method IngestAll(facts: seq<Fact>) returns (out: seq<Event>)
      modifies this
      ensures (Now(), out) == Run(old(Now()), facts)
    {
      out := [];
      assert facts[..0] == [];
      for i := 0 to |facts|
        invariant (Now(), out) == Run(old(Now()), facts[..i])
      {
        assert facts[..i + 1] == facts[..i] + [facts[i]];
        RunAppend(old(Now()), facts[..i], facts[i]);
        var events := Ingest(facts[i]);
        out := out + events;
      }
      assert facts[..|facts|] == facts;
    }
  }

  lemma SetTwice(s: State, turnId: string, a: TurnState, b: TurnState)
    ensures SetTurn(SetTurn(s, turnId, a), turnId, b) == SetTurn(s, turnId, b)
  {
    assert s.turns[turnId := a][turnId := b] == s.turns[turnId := b];
  }

  // ---------------------------------------------------------------------------------------
  // Conservation
  // ---------------------------------------------------------------------------------------

  /** The turn events for a turn, in order. */
  function EventsFor(events: seq<Event>, turnId: string): seq<TurnEventParams> {
    if events == [] then []
    else EventsFor(events[..|events| - 1], turnId) + OneFor(events[|events| - 1], turnId)
  }

  function OneFor(event: Event, turnId: string): seq<TurnEventParams> {
    if event.TurnEvent? && event.params.turnId == turnId then [event.params] else []
  }

  lemma {:induction false} EventsForConcat(a: seq<Event>, b: seq<Event>, turnId: string)
    ensures EventsFor(a + b, turnId) == EventsFor(a, turnId) + EventsFor(b, turnId)
  {
    if b == [] {
      assert a + b == a;
    } else {
      assert (a + b)[..|a + b| - 1] == a + b[..|b| - 1];
      EventsForConcat(a, b[..|b| - 1], turnId);
    }
  }

  /** Every fact causes at most one event. */
  lemma AtMostOneEvent(s: State, f: Fact, turnId: string)
    ensures |Step(s, f).1| <= 1
    ensures EventsFor(Step(s, f).1, turnId) == if Step(s, f).1 == [] then [] else OneFor(Step(s, f).1[0], turnId)
  {
    var events := Step(s, f).1;
    if events != [] {
      assert events == [events[0]] && events[..0] == [];
    }
  }

  /** The fact is a response to a pending turn/start request and names the turn. */
  predicate MatchesStart(s: State, f: Fact, turnId: string) {
    f.TurnStartResponse? && f.turnId == turnId
    && (f.connection, f.request) in s.requests && s.requests[(f.connection, f.request)].TurnStart?
  }

  function MatchedStarts(facts: seq<Fact>, turnId: string): nat {
    if facts == [] then 0
    else
      var front := facts[..|facts| - 1];
      MatchedStarts(front, turnId)
      + if MatchesStart(Run(EMPTY, front).0, facts[|facts| - 1], turnId) then 1 else 0
  }

  /** A turn that a response has claimed and that has had no event yet. */
  predicate Claimed(s: State, turnId: string) {
    turnId in s.turns && s.turns[turnId].connectionId.Some?
  }

  function One(b: bool): nat {
    if b then 1 else 0
  }

  lemma StepConserves(s: State, f: Fact, turnId: string)
    ensures |EventsFor(Step(s, f).1, turnId)| + One(Claimed(Step(s, f).0, turnId))
         <= One(Claimed(s, turnId)) + One(MatchesStart(s, f, turnId))
  {
    AtMostOneEvent(s, f, turnId);
  }

  /** A turn has no more events than there were responses to pending requests that started it. */
  lemma {:induction false} TurnEventsConserved(facts: seq<Fact>, turnId: string)
    ensures |EventsFor(Run(EMPTY, facts).1, turnId)| + One(Claimed(Run(EMPTY, facts).0, turnId))
         <= MatchedStarts(facts, turnId)
  {
    if facts != [] {
      var front, last := facts[..|facts| - 1], facts[|facts| - 1];
      TurnEventsConserved(front, turnId);
      StepConserves(Run(EMPTY, front).0, last, turnId);
      EventsForConcat(Run(EMPTY, front).1, Step(Run(EMPTY, front).0, last).1, turnId);
    }
  }

  function CountTurnEvents(events: seq<Event>): nat {
    if events == [] then 0
    else CountTurnEvents(events[..|events| - 1]) + One(events[|events| - 1].TurnEvent?)
  }

  function CountSteerEvents(events: seq<Event>): nat {
    if events == [] then 0
    else CountSteerEvents(events[..|events| - 1]) + One(events[|events| - 1].TurnSteerEvent?)
  }

  lemma {:induction false} CountsConcat(a: seq<Event>, b: seq<Event>)
    ensures CountTurnEvents(a + b) == CountTurnEvents(a) + CountTurnEvents(b)
    ensures CountSteerEvents(a + b) == CountSteerEvents(a) + CountSteerEvents(b)
  {
    if b == [] {
      assert a + b == a;
    } else {
      assert (a + b)[..|a + b| - 1] == a + b[..|b| - 1];
      CountsConcat(a, b[..|b| - 1]);
    }
  }

  function CountStartRequests(facts: seq<Fact>): nat {
    if facts == [] then 0
    else CountStartRequests(facts[..|facts| - 1]) + One(facts[|facts| - 1].TurnStartRequest?)
  }

  function CountSteerRequests(facts: seq<Fact>): nat {
    if facts == [] then 0
    else CountSteerRequests(facts[..|facts| - 1]) + One(facts[|facts| - 1].TurnSteerRequest?)
  }

  function PendingStarts(s: State): set<Key> {
    set key | key in s.requests && s.requests[key].TurnStart?
  }

  function PendingSteers(s: State): set<Key> {
    set key | key in s.requests && s.requests[key].TurnSteer?
  }

  function ClaimedTurns(s: State): set<string> {
    set turnId | turnId in s.turns && s.turns[turnId].connectionId.Some?
  }

  /** What a turn fact does to the turns that are claimed. */
  lemma EmitTakesClaim(s: State, turnId: string)
    ensures CountTurnEvents(MaybeEmit(s, turnId).1) + |ClaimedTurns(MaybeEmit(s, turnId).0)| <= |ClaimedTurns(s)|
    ensures CountSteerEvents(MaybeEmit(s, turnId).1) == 0
    ensures MaybeEmit(s, turnId).0.requests == s.requests
  {
    if TurnEventOf(s, turnId).Some? {
      var out := MaybeEmit(s, turnId);
      assert out.1[..0] == [];
      ShrunkByOne(ClaimedTurns(out.0), ClaimedTurns(s), turnId);
    }
  }

  /** A turn is updated without being claimed. */
  lemma UnclaimedUpdate(s: State, turnId: string, turn: TurnState)
    requires turn.connectionId == TurnOf(s, turnId).connectionId
    ensures |ClaimedTurns(SetTurn(s, turnId, turn))| <= |ClaimedTurns(s)|
  {
    SubsetSize(ClaimedTurns(SetTurn(s, turnId, turn)), ClaimedTurns(s));
  }

  lemma SteerEventsOne(events: seq<Event>)
    requires |events| <= 1 && forall e | e in events :: e.TurnSteerEvent?
    ensures CountTurnEvents(events) == 0 && CountSteerEvents(events) == |events|
  {
    if events != [] {
      assert events[0] in events && events[..|events| - 1] == [];
    }
  }

  lemma RequestsRemoved(s: State, key: Key)
    ensures var rest := s.(requests := s.requests - {key});
      && |PendingStarts(rest)| + One(key in PendingStarts(s)) <= |PendingStarts(s)|
      && |PendingSteers(rest)| + One(key in PendingSteers(s)) <= |PendingSteers(s)|
      && ClaimedTurns(rest) == ClaimedTurns(s)
  {
    var rest := s.(requests := s.requests - {key});
    SubsetSize(PendingStarts(rest), PendingStarts(s));
    SubsetSize(PendingSteers(rest), PendingSteers(s));
    if key in PendingStarts(s) {
      ShrunkByOne(PendingStarts(rest), PendingStarts(s), key);
    }
    if key in PendingSteers(s) {
      ShrunkByOne(PendingSteers(rest), PendingSteers(s), key);
    }
  }

  /** The events that may still come. */
  function Owed(s: State): nat {
    |PendingStarts(s)| + |ClaimedTurns(s)|
  }

  lemma StartResponseTotals(s: State, key: Key, turnId: string)
    ensures var out := OnTurnStartResponse(s, key, turnId);
      && CountTurnEvents(out.1) + Owed(out.0) <= Owed(s)
      && CountSteerEvents(out.1) + |PendingSteers(out.0)| <= |PendingSteers(s)|
  {
    RequestsRemoved(s, key);
    if key in s.requests && s.requests[key].TurnStart? {
      var rest := s.(requests := s.requests - {key});
      var claimed := SetTurn(rest, turnId, TurnOf(s, turnId).(
        connectionId := Some(key.0),
        threadId := Some(s.requests[key].threadId),
        numInputImages := Some(s.requests[key].numInputImages)));
      GrownByOne(ClaimedTurns(claimed), ClaimedTurns(rest), turnId);
      EmitTakesClaim(claimed, turnId);
      var out := MaybeEmit(claimed, turnId).0;
      assert PendingStarts(out) == PendingStarts(rest) && PendingSteers(out) == PendingSteers(rest);
    }
  }

  lemma SteerResponseTotals(s: State, key: Key, turnId: string)
    ensures var out := OnTurnSteerResponse(s, key, turnId);
      && CountTurnEvents(out.1) + Owed(out.0) <= Owed(s)
      && CountSteerEvents(out.1) + |PendingSteers(out.0)| <= |PendingSteers(s)|
  {
    RequestsRemoved(s, key);
    var out := OnTurnSteerResponse(s, key, turnId);
    var rest := s.(requests := s.requests - {key});
    assert PendingStarts(out.0) == PendingStarts(rest) && PendingSteers(out.0) == PendingSteers(rest);
    SubsetSize(ClaimedTurns(out.0), ClaimedTurns(rest));
    SteerEventsOne(out.1);
  }

  lemma ErrorResponseTotals(s: State, key: Key, reason: Option<RejectionReason>)
    ensures var out := OnErrorResponse(s, key, reason);
      && CountTurnEvents(out.1) + Owed(out.0) <= Owed(s)
      && CountSteerEvents(out.1) + |PendingSteers(out.0)| <= |PendingSteers(s)|
  {
    RequestsRemoved(s, key);
    SteerEventsOne(OnErrorResponse(s, key, reason).1);
  }

  lemma StartAdded(s: State, key: Key, pending: Pending)
    ensures var next := s.(requests := s.requests[key := pending]);
      |PendingStarts(next)| <= |PendingStarts(s)| + One(pending.TurnStart?)
  {
    var next := s.(requests := s.requests[key := pending]);
    if pending.TurnStart? {
      GrownByOne(PendingStarts(next), PendingStarts(s), key);
    } else {
      SubsetSize(PendingStarts(next), PendingStarts(s));
    }
  }

  lemma SteerAdded(s: State, key: Key, pending: Pending)
    ensures var next := s.(requests := s.requests[key := pending]);
      |PendingSteers(next)| <= |PendingSteers(s)| + One(pending.TurnSteer?)
  {
    var next := s.(requests := s.requests[key := pending]);
    if pending.TurnSteer? {
      GrownByOne(PendingSteers(next), PendingSteers(s), key);
    } else {
      SubsetSize(PendingSteers(next), PendingSteers(s));
    }
  }

  lemma RequestTotals(s: State, key: Key, pending: Pending)
    ensures var next := s.(requests := s.requests[key := pending]);
      && Owed(next) <= Owed(s) + One(pending.TurnStart?)
      && |PendingSteers(next)| <= |PendingSteers(s)| + One(pending.TurnSteer?)
  {
    StartAdded(s, key, pending);
    SteerAdded(s, key, pending);
    assert ClaimedTurns(s.(requests := s.requests[key := pending])) == ClaimedTurns(s);
  }

  lemma TurnFactTotals(s: State, turnId: string, turn: TurnState)
    requires turn.connectionId == TurnOf(s, turnId).connectionId
    ensures var next := SetTurn(s, turnId, turn);
      var out := MaybeEmit(next, turnId);
      && CountTurnEvents(out.1) + Owed(out.0) <= Owed(s)
      && CountSteerEvents(out.1) + |PendingSteers(out.0)| <= |PendingSteers(s)|
      && Owed(next) <= Owed(s) && |PendingSteers(next)| <= |PendingSteers(s)|
  {
    var next := SetTurn(s, turnId, turn);
    UnclaimedUpdate(s, turnId, turn);
    EmitTakesClaim(next, turnId);
    var out := MaybeEmit(next, turnId).0;
    assert PendingStarts(out) == PendingStarts(s) && PendingSteers(out) == PendingSteers(s);
    assert PendingStarts(next) == PendingStarts(s) && PendingSteers(next) == PendingSteers(s);
  }

  lemma StepTotals(s: State, f: Fact)
    ensures CountTurnEvents(Step(s, f).1) + Owed(Step(s, f).0) <= Owed(s) + One(f.TurnStartRequest?)
    ensures CountSteerEvents(Step(s, f).1) + |PendingSteers(Step(s, f).0)|
         <= |PendingSteers(s)| + One(f.TurnSteerRequest?)
  {
    match f
    case Initialize(_, _) =>
    case TurnStartRequest(connection, request, threadId, input) =>
      RequestTotals(s, (connection, request), TurnStart(threadId, NumInputImages(input)));
    case TurnSteerRequest(connection, request, threadId, expected, input, now) =>
      RequestTotals(s, (connection, request), TurnSteer(threadId, expected, NumInputImages(input), now));
    case ThreadResponse(_, _, _) =>
      if Step(s, f).1 != [] {
        assert Step(s, f).1[..0] == [];
      }
    case TurnStartResponse(connection, request, turnId) => StartResponseTotals(s, (connection, request), turnId);
    case TurnSteerResponse(connection, request, turnId) => SteerResponseTotals(s, (connection, request), turnId);
    case ErrorResponse(connection, request, reason) => ErrorResponseTotals(s, (connection, request), reason);
    case TurnStarted(turnId, startedAt) =>
      TurnFactTotals(s, turnId, TurnOf(s, turnId).(startedAt := ToU64(startedAt)));
    case TurnCompleted(turnId, _, _, _, _) =>
      TurnFactTotals(s, turnId, TurnOf(s, turnId).(completed := Some(CompletionOf(f))));
    case ResolvedConfig(config) =>
      TurnFactTotals(s, config.turnId, TurnOf(s, config.turnId).(
        threadId := Some(config.threadId),
        numInputImages := Some(config.numInputImages),
        resolvedConfig := Some(config)));
    case TokenUsage(turnId, threadId, usage) =>
      TurnFactTotals(s, turnId, TurnOf(s, turnId).(threadId := Some(threadId), tokenUsage := Some(usage)));
    case Unrelated =>
  }

  lemma {:induction false} TotalsBehind(facts: seq<Fact>)
    ensures CountTurnEvents(Run(EMPTY, facts).1) + Owed(Run(EMPTY, facts).0) <= CountStartRequests(facts)
    ensures CountSteerEvents(Run(EMPTY, facts).1) + |PendingSteers(Run(EMPTY, facts).0)| <= CountSteerRequests(facts)
  {
    if facts == [] {
      assert PendingStarts(EMPTY) == {} && PendingSteers(EMPTY) == {} && ClaimedTurns(EMPTY) == {};
    } else {
      var front, last := facts[..|facts| - 1], facts[|facts| - 1];
      TotalsBehind(front);
      StepTotals(Run(EMPTY, front).0, last);
      CountsConcat(Run(EMPTY, front).1, Step(Run(EMPTY, front).0, last).1);
    }
  }

  /** There are no more turn events than turn/start requests, nor steer events than steer requests. */
  lemma TotalsConserved(facts: seq<Fact>)
    ensures CountTurnEvents(Run(EMPTY, facts).1) <= CountStartRequests(facts)
    ensures CountSteerEvents(Run(EMPTY, facts).1) <= CountSteerRequests(facts)
  {
    TotalsBehind(facts);
  }

  /** The fact accepts a pending steer request, into this turn. */
  predicate AcceptsSteer(s: State, f: Fact, turnId: string) {
    f.TurnSteerResponse? && f.turnId == turnId
    && (f.connection, f.request) in s.requests && s.requests[(f.connection, f.request)].TurnSteer?
  }

  /** The steers accepted for the turn since its state was last made. */
  function SteersSince(facts: seq<Fact>, turnId: string): nat {
    if facts == [] then 0
    else
      var front := facts[..|facts| - 1];
      var before := Run(EMPTY, front).0;
      if turnId !in before.turns then 0
      else SteersSince(front, turnId) + One(AcceptsSteer(before, facts[|facts| - 1], turnId))
  }

  lemma SteerCountStep(s: State, f: Fact, turnId: string)
    ensures turnId in Step(s, f).0.turns ==>
      Step(s, f).0.turns[turnId].steerCount ==
      if turnId in s.turns then s.turns[turnId].steerCount + One(AcceptsSteer(s, f, turnId)) else 0
  {
  }

  lemma {:induction false} SteerCountExact(facts: seq<Fact>, turnId: string)
    ensures var turns := Run(EMPTY, facts).0.turns;
      turnId in turns ==> turns[turnId].steerCount == SteersSince(facts, turnId)
  {
    if facts != [] {
      var front, last := facts[..|facts| - 1], facts[|facts| - 1];
      SteerCountExact(front, turnId);
      SteerCountStep(Run(EMPTY, front).0, last, turnId);
    }
  }

  /** The number of steers that a turn event reports. */
  lemma ReportedSteers(facts: seq<Fact>, f: Fact, params: TurnEventParams)
    requires TurnEvent(params) in Step(Run(EMPTY, facts).0, f).1
    ensures params.steerCount == SteersSince(facts, params.turnId)
  {
    SteerCountExact(facts, params.turnId);
    var s := Run(EMPTY, facts).0;
    assert params.turnId in s.turns && params.steerCount == s.turns[params.turnId].steerCount;
  }
}
