/**
 * The table of `command/exec` sessions behind its lock, and the tasks that start, run and remove
 * them.  Each function from state to state is one atomic section: what happens under one hold of
 * the lock, or one step of a task between two.
 */
module ExecTable {
  import opened Tally
  import opened Wrappers

  const DEFAULT_OUTPUT_BYTES_CAP: nat := 1024 * 1024

  datatype ProcessId = Generated(n: nat) | Client(id: string)

  datatype Key = Key(connection: nat, process: ProcessId)

  /** A session holds the sending end of a control channel; a channel has the number of its start. */
  datatype Session = Active(control: nat) | UnsupportedWindowsSandbox

  type Table = map<Key, Session>

  datatype StartParams = StartParams(
    connection: nat,
    processId: Option<string>,
    windowsSandbox: bool,
    tty: bool,
    streamStdin: bool,
    streamOutput: bool,
    outputBytesCap: Option<nat>,
    commandEmpty: bool)

  datatype StartError =
    | NeedsProcessId
    | StreamingUnsupported
    | CustomCapUnsupported
    | EmptyCommand
    | DuplicateProcessId
    | SpawnFailed

  /** How the caller of `start` hears of it: an error return, or one message sent later. */
  datatype Outcome = ErrorReturn(error: StartError) | Outgoing(isError: bool)

  /**
   * The life of a start that was let in: while it spawns, while the process runs, once the
   * response is out, and once the receiving end of its channel is gone.
   */
  datatype Phase = Spawning | Running | Responded | Dropped

  /** A live task; `entered` says that the entry it made is still in the table. */
  datatype Task = Task(key: Key, windowsSandbox: bool, phase: Phase, entered: bool)

  type Tasks = map<nat, Task>

  datatype State = State(
    sessions: Table,
    nextGenerated: nat,
    tasks: Tasks,
    starts: nat,
    outcomes: seq<(nat, Outcome)>)

  const EMPTY := State(map[], 1, map[], 0, [])

  // ---------------------------------------------------------------------------------------
  // The steps
  // ---------------------------------------------------------------------------------------

  predicate WantsStreams(p: StartParams) {
    p.tty || p.streamStdin || p.streamOutput
  }

  /** Why a start is refused; `taken` says that the key has an entry. */
  function Refusal(p: StartParams, taken: bool): Option<StartError> {
    if p.processId.None? && WantsStreams(p) then Some(NeedsProcessId)
    else if p.windowsSandbox && WantsStreams(p) then Some(StreamingUnsupported)
    else if p.windowsSandbox && p.outputBytesCap != Some(DEFAULT_OUTPUT_BYTES_CAP) then Some(CustomCapUnsupported)
    else if !p.windowsSandbox && p.commandEmpty then Some(EmptyCommand)
    else if p.processId.Some? && taken then Some(DuplicateProcessId)
    else None
  }

  /** In the windows sandbox only a buffered command with the default cap, one mebibyte, is let in. */
  lemma SandboxTakesDefaults(p: StartParams, taken: bool)
    requires p.windowsSandbox
    ensures Refusal(p, taken).None? <==>
      && !p.tty && !p.streamStdin && !p.streamOutput && p.outputBytesCap == Some(1048576)
      && !(p.processId.Some? && taken)
  {
  }

  /** Outside it, a command that is not empty, under a name of the client's if it has a terminal or streams. */
  lemma PlainTakesCommands(p: StartParams, taken: bool)
    requires !p.windowsSandbox
    ensures Refusal(p, taken).None? <==>
      && !p.commandEmpty
      && (p.processId.None? ==> !p.tty && !p.streamStdin && !p.streamOutput)
      && !(p.processId.Some? && taken)
  {
  }

  function KeyOf(p: StartParams, next: nat): Key {
    Key(p.connection, if p.processId.Some? then Client(p.processId.value) else Generated(next))
  }

  /** A process in the windows sandbox without a client's id is never entered in the table. */
  predicate Registers(key: Key, windowsSandbox: bool) {
    !(windowsSandbox && key.process.Generated?)
  }

  function SessionOf(call: nat, windowsSandbox: bool): Session {
    if windowsSandbox then UnsupportedWindowsSandbox else Active(call)
  }

  function NewTask(key: Key, windowsSandbox: bool): Task {
    Task(key, windowsSandbox, if windowsSandbox then Running else Spawning, Registers(key, windowsSandbox))
  }

  function RefusalOf(s: State, p: StartParams): Option<StartError> {
    Refusal(p, KeyOf(p, s.nextGenerated) in s.sessions)
  }

  /** A generated number is used up once the first check has passed. */
  function NextNumber(s: State, p: StartParams): nat {
    if p.processId.None? && !WantsStreams(p) then s.nextGenerated + 1 else s.nextGenerated
  }

  function Start(s: State, p: StartParams): State {
    var key := KeyOf(p, s.nextGenerated);
    match RefusalOf(s, p)
    case Some(e) =>
      s.(nextGenerated := NextNumber(s, p), starts := s.starts + 1,
         outcomes := s.outcomes + [(s.starts, ErrorReturn(e))])
    case None =>
      s.(nextGenerated := NextNumber(s, p), starts := s.starts + 1,
         tasks := s.tasks[s.starts := NewTask(key, p.windowsSandbox)],
         sessions :=
           if Registers(key, p.windowsSandbox) then s.sessions[key := SessionOf(s.starts, p.windowsSandbox)]
           else s.sessions)
  }

  function SetPhase(s: State, call: nat, phase: Phase): State
    requires call in s.tasks
  {
    s.(tasks := s.tasks[call := s.tasks[call].(phase := phase)])
  }

  /** The tasks once the entry under a key is gone. */
  function Evict(tasks: Tasks, key: Key): Tasks {
    map a | a in tasks :: if tasks[a].key == key then tasks[a].(entered := false) else tasks[a]
  }

  /** A task removes the entry under its key, whoever made it, and is gone. */
  function Remove(s: State, call: nat): State
    requires call in s.tasks
  {
    s.(sessions := s.sessions - {s.tasks[call].key}, tasks := Evict(s.tasks - {call}, s.tasks[call].key))
  }

  function SpawnFail(s: State, call: nat): State
    requires call in s.tasks
  {
    Remove(s, call).(outcomes := s.outcomes + [(call, ErrorReturn(SpawnFailed))])
  }

  function Respond(s: State, call: nat, isError: bool): State
    requires call in s.tasks
  {
    SetPhase(s, call, Responded).(outcomes := s.outcomes + [(call, Outgoing(isError))])
  }

  /** What is left of the table when a connection closes. */
  function Without(sessions: Table, connection: nat): Table {
    map key | key in sessions && key.connection != connection :: sessions[key]
  }

  /** The control channels of the active sessions of a connection. */
  function ActiveOf(sessions: Table, connection: nat): set<nat> {
    set key | key in sessions && key.connection == connection && sessions[key].Active? :: sessions[key].control
  }

  function Close(s: State, connection: nat): State {
    s.(sessions := Without(s.sessions, connection),
       tasks := map a | a in s.tasks ::
         if s.tasks[a].key.connection == connection then s.tasks[a].(entered := false) else s.tasks[a])
  }

  datatype Step =
    | StartCall(params: StartParams)
    | SpawnEnds(call: nat, ok: bool)
    | ProcessEnds(call: nat, isError: bool)
    | LetGo(call: nat)
    | Finish(call: nat)
    | CloseConnection(connection: nat)

  /** A step, if it can happen now. */
  predicate Enabled(s: State, step: Step) {
    match step
    case StartCall(_) => true
    case CloseConnection(_) => true
    case SpawnEnds(call, _) => call in s.tasks && s.tasks[call].phase == Spawning && !s.tasks[call].windowsSandbox
    case ProcessEnds(call, _) => call in s.tasks && s.tasks[call].phase == Running
    case LetGo(call) => call in s.tasks && s.tasks[call].phase == Responded && !s.tasks[call].windowsSandbox
    case Finish(call) =>
      call in s.tasks && s.tasks[call].phase == if s.tasks[call].windowsSandbox then Responded else Dropped
  }

  function Next(s: State, step: Step): State {
    if !Enabled(s, step) then s
    else match step
         case StartCall(p) => Start(s, p)
         case SpawnEnds(call, ok) => if ok then SetPhase(s, call, Running) else SpawnFail(s, call)
         case ProcessEnds(call, isError) => Respond(s, call, isError)
         case LetGo(call) => SetPhase(s, call, Dropped)
         case Finish(call) => Remove(s, call)
         case CloseConnection(connection) => Close(s, connection)
  }

  function Run(s: State, steps: seq<Step>): State {
    if steps == [] then s else Next(Run(s, steps[..|steps| - 1]), steps[|steps| - 1])
  }

  lemma RunAppend(s: State, steps: seq<Step>, step: Step)
    ensures Run(s, steps + [step]) == Next(Run(s, steps), step)
  {
    assert (steps + [step])[..|steps|] == steps;
  }

  // ---------------------------------------------------------------------------------------
  // What the outcomes of starts mean
  // ---------------------------------------------------------------------------------------

  /** What is wrong with a refused start; of several reasons the first is given. */
  predicate Reason(p: StartParams, taken: bool, e: StartError) {
    var streams := p.tty || p.streamStdin || p.streamOutput;
    match e
    case NeedsProcessId => p.processId.None? && streams
    case StreamingUnsupported => p.windowsSandbox && p.processId.Some? && streams
    case CustomCapUnsupported => p.windowsSandbox && !streams && p.outputBytesCap != Some(1048576)
    case EmptyCommand => !p.windowsSandbox && p.commandEmpty && (p.processId.Some? || !streams)
    case DuplicateProcessId =>
      && p.processId.Some? && taken
      && if p.windowsSandbox then !streams && p.outputBytesCap == Some(1048576) else !p.commandEmpty
    case SpawnFailed => false
  }

  /** The step gives the start this outcome, for this reason. */
  predicate Brings(s: State, step: Step, call: nat, outcome: Outcome) {
    match outcome
    case ErrorReturn(SpawnFailed) => step == SpawnEnds(call, false) && Enabled(s, step)
    case ErrorReturn(e) =>
      step.StartCall? && call == s.starts && Reason(step.params, KeyOf(step.params, s.nextGenerated) in s.sessions, e)
    case Outgoing(isError) => step == ProcessEnds(call, isError) && Enabled(s, step)
  }

  /** Every outcome of a start in a run was brought by a step, for the reason that it states. */
  lemma {:induction false} OutcomesAreBrought(steps: seq<Step>, call: nat, outcome: Outcome)
    requires (call, outcome) in Run(EMPTY, steps).outcomes
    ensures exists i | 0 <= i < |steps| :: Brings(Run(EMPTY, steps[..i]), steps[i], call, outcome)
    decreases |steps|
  {
    var n := |steps| - 1;
    assert Run(EMPTY, steps) == Next(Run(EMPTY, steps[..n]), steps[n]);
    if !Brings(Run(EMPTY, steps[..n]), steps[n], call, outcome) {
      OutcomesAreBrought(steps[..n], call, outcome);
      var i :| 0 <= i < n && Brings(Run(EMPTY, steps[..n][..i]), steps[..n][i], call, outcome);
      assert steps[..n][..i] == steps[..i];
    }
  }

  // ---------------------------------------------------------------------------------------
  // What every run keeps
  // ---------------------------------------------------------------------------------------

  /** The tasks that have yet to answer their start. */
  function Owing(tasks: Tasks): set<nat> {
    set a | a in tasks && (tasks[a].phase == Spawning || tasks[a].phase == Running)
  }

  predicate HasEntry(s: State, a: nat)
    requires a in s.tasks
  {
    s.tasks[a].entered ==>
      && s.tasks[a].key in s.sessions
      && s.sessions[s.tasks[a].key] == SessionOf(a, s.tasks[a].windowsSandbox)
  }

  predicate MadeBySome(s: State, key: Key) {
    exists a | a in s.tasks :: s.tasks[a].key == key && s.tasks[a].entered
  }

  /** The table holds exactly the entries that live tasks made and that nobody has removed. */
  ghost predicate TableExact(s: State) {
    && (forall a | a in s.tasks :: HasEntry(s, a))
    && (forall key | key in s.sessions :: MadeBySome(s, key))
    && (forall a, b | a in s.tasks && b in s.tasks && s.tasks[a].entered && s.tasks[b].entered
          && s.tasks[a].key == s.tasks[b].key :: a == b)
  }

  predicate NumbersUsed(s: State) {
    && (forall a | a in s.tasks :: a < s.starts)
    && forall a | a in s.tasks && s.tasks[a].key.process.Generated? :: s.tasks[a].key.process.n < s.nextGenerated
  }

  /** And each start has one outcome, or a task that owes it. */
  ghost predicate Safe(s: State) {
    TableExact(s) && NumbersUsed(s) && Once(s.outcomes, Owing(s.tasks), s.starts)
  }

  /** A generated key is not in the table before its number is used. */
  lemma GeneratedKeyIsFree(s: State)
    requires TableExact(s) && NumbersUsed(s)
    ensures forall key | key in s.sessions && key.process.Generated? :: key.process.n < s.nextGenerated
  {
    forall key | key in s.sessions && key.process.Generated? ensures key.process.n < s.nextGenerated {
      assert MadeBySome(s, key);
    }
  }

  /**
   * A start that is let in runs under its connection and the name the client gave it; it is entered
   * with its control channel, or in the sandbox without one and only under a client's name.
   */
  lemma AdmittedStart(s: State, p: StartParams)
    requires Safe(s) && RefusalOf(s, p).None?
    ensures var next := Start(s, p);
      && s.starts in next.tasks && next.tasks[s.starts].windowsSandbox == p.windowsSandbox
      && var key := next.tasks[s.starts].key;
        && key.connection == p.connection
        && (forall name :: p.processId == Some(name) <==> key.process == Client(name))
        && (!p.windowsSandbox ==> key in next.sessions && next.sessions[key] == Active(s.starts))
        && (p.windowsSandbox ==> (key in next.sessions <==> p.processId.Some?))
        && (p.windowsSandbox && key in next.sessions ==> next.sessions[key] == UnsupportedWindowsSandbox)
        && next.tasks[s.starts].phase == if p.windowsSandbox then Running else Spawning
  {
    if p.processId.None? {
      GeneratedKeyIsFree(s);
    }
  }

  lemma AdmitExact(s: State, p: StartParams)
    requires TableExact(s) && NumbersUsed(s) && RefusalOf(s, p).None?
    ensures TableExact(Start(s, p))
  {
    var key, next := KeyOf(p, s.nextGenerated), Start(s, p);
    GeneratedKeyIsFree(s);
    assert key !in s.sessions;
    forall a | a in next.tasks ensures HasEntry(next, a) {
      if a != s.starts {
        assert HasEntry(s, a);
      }
    }
    forall k | k in next.sessions ensures MadeBySome(next, k) {
      if k in s.sessions {
        assert MadeBySome(s, k);
        var a :| a in s.tasks && s.tasks[a].key == k && s.tasks[a].entered;
        assert next.tasks[a] == s.tasks[a];
      } else {
        assert next.tasks[s.starts].key == k;
      }
    }
    forall a | a in s.tasks && s.tasks[a].entered ensures s.tasks[a].key != key {
      assert HasEntry(s, a);
    }
  }

  lemma StartSafe(s: State, p: StartParams)
    requires Safe(s)
    ensures Safe(Start(s, p))
  {
    var next := Start(s, p);
    match RefusalOf(s, p)
    case Some(e) =>
      OnceRefused(s.outcomes, Owing(s.tasks), s.starts, ErrorReturn(e));
      SameTable(s, next);
    case None =>
      AdmitExact(s, p);
      OnceIssued(s.outcomes, Owing(s.tasks), s.starts);
      assert Owing(next.tasks) == Owing(s.tasks) + {s.starts};
  }

  lemma SameTable(s: State, next: State)
    requires TableExact(s) && next.sessions == s.sessions && next.tasks == s.tasks
    ensures TableExact(next)
  {
    forall a | a in next.tasks ensures HasEntry(next, a) {
      assert HasEntry(s, a);
    }
    forall key | key in next.sessions ensures MadeBySome(next, key) {
      assert MadeBySome(s, key);
    }
  }

  lemma PhaseExact(s: State, call: nat, phase: Phase)
    requires TableExact(s) && call in s.tasks
    ensures TableExact(SetPhase(s, call, phase))
  {
    var next := SetPhase(s, call, phase);
    forall a | a in next.tasks ensures HasEntry(next, a) {
      assert HasEntry(s, a);
    }
    forall key | key in next.sessions ensures MadeBySome(next, key) {
      assert MadeBySome(s, key);
      var a :| a in s.tasks && s.tasks[a].key == key && s.tasks[a].entered;
      assert next.tasks[a].key == key && next.tasks[a].entered;
    }
  }

  lemma RemoveExact(s: State, call: nat)
    requires TableExact(s) && call in s.tasks
    ensures TableExact(Remove(s, call))
  {
    var next := Remove(s, call);
    forall a | a in next.tasks ensures HasEntry(next, a) {
      assert HasEntry(s, a);
    }
    forall key | key in next.sessions ensures MadeBySome(next, key) {
      assert MadeBySome(s, key);
      var a :| a in s.tasks && s.tasks[a].key == key && s.tasks[a].entered;
      assert next.tasks[a] == s.tasks[a];
    }
  }

  lemma CloseExact(s: State, connection: nat)
    requires TableExact(s)
    ensures TableExact(Close(s, connection))
  {
    var next := Close(s, connection);
    forall a | a in next.tasks ensures HasEntry(next, a) {
      assert HasEntry(s, a);
    }
    forall key | key in next.sessions ensures MadeBySome(next, key) {
      assert MadeBySome(s, key);
      var a :| a in s.tasks && s.tasks[a].key == key && s.tasks[a].entered;
      assert next.tasks[a] == s.tasks[a];
    }
  }

  lemma SpawnSafe(s: State, call: nat, ok: bool)
    requires Safe(s) && Enabled(s, SpawnEnds(call, ok))
    ensures Safe(Next(s, SpawnEnds(call, ok)))
  {
    var next := Next(s, SpawnEnds(call, ok));
    if ok {
      PhaseExact(s, call, Running);
      assert Owing(next.tasks) == Owing(s.tasks);
    } else {
      RemoveExact(s, call);
      SameTable(Remove(s, call), next);
      OncePaid(s.outcomes, Owing(s.tasks), s.starts, (call, ErrorReturn(SpawnFailed)));
      assert Owing(next.tasks) == Owing(s.tasks) - {call};
    }
  }

  lemma EndSafe(s: State, call: nat, isError: bool)
    requires Safe(s) && Enabled(s, ProcessEnds(call, isError))
    ensures Safe(Next(s, ProcessEnds(call, isError)))
  {
    var next := Next(s, ProcessEnds(call, isError));
    PhaseExact(s, call, Responded);
    SameTable(SetPhase(s, call, Responded), next);
    OncePaid(s.outcomes, Owing(s.tasks), s.starts, (call, Outgoing(isError)));
    assert Owing(next.tasks) == Owing(s.tasks) - {call};
  }

  lemma CloseSafe(s: State, connection: nat)
    requires Safe(s)
    ensures Safe(Close(s, connection))
  {
    CloseExact(s, connection);
    assert Owing(Close(s, connection).tasks) == Owing(s.tasks);
  }

  /** Every step keeps it, in every state, whatever came before. */
  lemma NextSafe(s: State, step: Step)
    requires Safe(s)
    ensures Safe(Next(s, step))
  {
    if Enabled(s, step) {
      match step
      case StartCall(p) => StartSafe(s, p);
      case SpawnEnds(call, ok) => SpawnSafe(s, call, ok);
      case ProcessEnds(call, isError) => EndSafe(s, call, isError);
      case LetGo(call) =>
        PhaseExact(s, call, Dropped);
        assert Owing(Next(s, step).tasks) == Owing(s.tasks);
      case Finish(call) =>
        RemoveExact(s, call);
        assert Owing(Next(s, step).tasks) == Owing(s.tasks);
      case CloseConnection(connection) => CloseSafe(s, connection);
    }
  }

  lemma {:induction false} RunSafe(s: State, steps: seq<Step>)
    requires Safe(s)
    ensures Safe(Run(s, steps))
  {
    if steps != [] {
      RunSafe(s, steps[..|steps| - 1]);
      NextSafe(Run(s, steps[..|steps| - 1]), steps[|steps| - 1]);
    }
  }

  lemma EmptySafe()
    ensures Safe(EMPTY)
  {
  }

  // ---------------------------------------------------------------------------------------
  // One live session for each key
  // ---------------------------------------------------------------------------------------

  predicate OnePerKey(s: State) {
    forall a, b | a in s.tasks && b in s.tasks && s.tasks[a].key == s.tasks[b].key :: a == b
  }

  predicate KeyFree(s: State, key: Key) {
    forall a | a in s.tasks :: s.tasks[a].key != key
  }

  /** The step lets in a start under the key of a task that is still live. */
  predicate Reuses(s: State, step: Step) {
    step.StartCall? && RefusalOf(s, step.params).None? && !KeyFree(s, KeyOf(step.params, s.nextGenerated))
  }

  /** One step keeps one session for each key exactly if it does not reuse a live one's. */
  lemma NextOnePerKey(s: State, step: Step)
    requires Safe(s) && OnePerKey(s)
    ensures OnePerKey(Next(s, step)) <==> !Reuses(s, step)
  {
    var next := Next(s, step);
    if step.StartCall? && RefusalOf(s, step.params).None? {
      var key := KeyOf(step.params, s.nextGenerated);
      assert next.tasks[s.starts].key == key;
      forall a | a in s.tasks ensures a != s.starts && next.tasks[a] == s.tasks[a] {
      }
      if Reuses(s, step) {
        var a :| a in s.tasks && s.tasks[a].key == key;
        assert next.tasks[a].key == next.tasks[s.starts].key;
      }
    } else {
      forall a | a in next.tasks ensures a in s.tasks && next.tasks[a].key == s.tasks[a].key {
      }
    }
  }

  predicate AlwaysOnePerKey(s: State, steps: seq<Step>) {
    forall i | 0 <= i <= |steps| :: OnePerKey(Run(s, steps[..i]))
  }

  predicate NeverReuses(s: State, steps: seq<Step>) {
    forall i | 0 <= i < |steps| :: !Reuses(Run(s, steps[..i]), steps[i])
  }

  lemma PrefixRun(s: State, steps: seq<Step>, i: nat)
    requires i < |steps|
    ensures Run(s, steps[..i + 1]) == Next(Run(s, steps[..i]), steps[i])
  {
    assert steps[..i + 1] == steps[..i] + [steps[i]];
    RunAppend(s, steps[..i], steps[i]);
  }

  /**
   * At most one live session for each key throughout a run: exactly if no start is ever let in
   * under the key of a task that is still live.
   */
  lemma OneLiveExactly(s: State, steps: seq<Step>)
    requires Safe(s) && OnePerKey(s)
    ensures AlwaysOnePerKey(s, steps) <==> NeverReuses(s, steps)
  {
    assert steps[..0] == [];
    if AlwaysOnePerKey(s, steps) {
      forall i | 0 <= i < |steps| ensures !Reuses(Run(s, steps[..i]), steps[i]) {
        RunSafe(s, steps[..i]);
        PrefixRun(s, steps, i);
        NextOnePerKey(Run(s, steps[..i]), steps[i]);
      }
    }
    if NeverReuses(s, steps) {
      forall i | 0 <= i <= |steps| ensures OnePerKey(Run(s, steps[..i])) {
        OnePerKeyUpTo(s, steps, i);
      }
    }
  }

  lemma {:induction false} OnePerKeyUpTo(s: State, steps: seq<Step>, i: nat)
    requires Safe(s) && OnePerKey(s) && NeverReuses(s, steps) && i <= |steps|
    ensures OnePerKey(Run(s, steps[..i]))
  {
    assert steps[..0] == [];
    if i > 0 {
      OnePerKeyUpTo(s, steps, i - 1);
      RunSafe(s, steps[..i - 1]);
      PrefixRun(s, steps, i - 1);
      NextOnePerKey(Run(s, steps[..i - 1]), steps[i - 1]);
    }
  }

  /** Then a task that ends removes its own entry or none, and no other task loses one. */
  lemma FinishTakesOwn(s: State, call: nat)
    requires Safe(s) && OnePerKey(s) && call in s.tasks
    ensures s.tasks[call].key in s.sessions ==>
      s.sessions[s.tasks[call].key] == SessionOf(call, s.tasks[call].windowsSandbox)
    ensures Remove(s, call).tasks == s.tasks - {call}
  {
    if s.tasks[call].key in s.sessions {
      assert MadeBySome(s, s.tasks[call].key);
      assert HasEntry(s, call);
    }
    assert Evict(s.tasks - {call}, s.tasks[call].key) == s.tasks - {call};
  }

  // ---------------------------------------------------------------------------------------
  // When a key is reused
  // ---------------------------------------------------------------------------------------

  /** The connection was closed after the start of this number. */
  predicate ClosedSince(steps: seq<Step>, call: nat, connection: nat) {
    exists j | 0 <= j < |steps| :: steps[j] == CloseConnection(connection) && call < Run(EMPTY, steps[..j]).starts
  }

  lemma ClosedSinceAppend(steps: seq<Step>, step: Step, call: nat, connection: nat)
    requires ClosedSince(steps, call, connection)
    ensures ClosedSince(steps + [step], call, connection)
  {
    var more := steps + [step];
    var j :| 0 <= j < |steps| && steps[j] == CloseConnection(connection) && call < Run(EMPTY, steps[..j]).starts;
    assert more[j] == steps[j] && more[..j] == steps[..j];
  }

  lemma ClosedNow(steps: seq<Step>, call: nat, connection: nat)
    requires call < Run(EMPTY, steps).starts
    ensures ClosedSince(steps + [CloseConnection(connection)], call, connection)
  {
    var more := steps + [CloseConnection(connection)];
    assert more[|steps|] == CloseConnection(connection) && more[..|steps|] == steps;
  }

  /** A live task has lost the entry it made only if its connection was closed since its start. */
  predicate LostByClose(s: State, steps: seq<Step>) {
    forall a | a in s.tasks && Registers(s.tasks[a].key, s.tasks[a].windowsSandbox) && !s.tasks[a].entered ::
      ClosedSince(steps, a, s.tasks[a].key.connection)
  }

  lemma NextLostByClose(steps: seq<Step>, step: Step)
    requires Safe(Run(EMPTY, steps)) && OnePerKey(Run(EMPTY, steps)) && LostByClose(Run(EMPTY, steps), steps)
    ensures LostByClose(Next(Run(EMPTY, steps), step), steps + [step])
  {
    var s, more := Run(EMPTY, steps), steps + [step];
    var next := Next(s, step);
    if step.Finish? || step.SpawnEnds? {
      if Enabled(s, step) {
        FinishTakesOwn(s, step.call);
      }
    }
    forall a | a in next.tasks && Registers(next.tasks[a].key, next.tasks[a].windowsSandbox) && !next.tasks[a].entered
      ensures ClosedSince(more, a, next.tasks[a].key.connection)
    {
      assert a in s.tasks && s.tasks[a].key == next.tasks[a].key;
      if s.tasks[a].entered {
        assert step.CloseConnection? && step.connection == s.tasks[a].key.connection;
        ClosedNow(steps, a, step.connection);
      } else {
        ClosedSinceAppend(steps, step, a, s.tasks[a].key.connection);
      }
    }
  }

  lemma {:induction false} RunLostByClose(steps: seq<Step>)
    requires NeverReuses(EMPTY, steps)
    ensures Safe(Run(EMPTY, steps)) && OnePerKey(Run(EMPTY, steps)) && LostByClose(Run(EMPTY, steps), steps)
  {
    EmptySafe();
    RunSafe(EMPTY, steps);
    if steps != [] {
      var n := |steps| - 1;
      var front := steps[..n];
      assert steps == front + [steps[n]];
      forall i | 0 <= i < n ensures !Reuses(Run(EMPTY, front[..i]), front[i]) {
        assert front[..i] == steps[..i];
      }
      RunLostByClose(front);
      NextLostByClose(front, steps[n]);
      NextOnePerKey(Run(EMPTY, front), steps[n]);
    }
  }

  /** The task lives under the key, and its connection was closed since its start. */
  predicate Lingers(s: State, steps: seq<Step>, a: nat, key: Key) {
    a in s.tasks && s.tasks[a].key == key && ClosedSince(steps, a, key.connection)
  }

  /** After these steps the start is let in while a task lingers under its key. */
  ghost predicate LateStart(steps: seq<Step>, step: Step) {
    var s := Run(EMPTY, steps);
    && step.StartCall? && RefusalOf(s, step.params).None?
    && exists a :: Lingers(s, steps, a, KeyOf(step.params, s.nextGenerated))
  }

  /** The first reuse of a key is a start after a close, under the key of a task from before it. */
  lemma FirstReuseIsLate(steps: seq<Step>, step: Step)
    requires NeverReuses(EMPTY, steps)
    ensures Reuses(Run(EMPTY, steps), step) <==> LateStart(steps, step)
  {
    var s := Run(EMPTY, steps);
    RunLostByClose(steps);
    if step.StartCall? && RefusalOf(s, step.params).None? {
      var key := KeyOf(step.params, s.nextGenerated);
      if !KeyFree(s, key) {
        var a :| a in s.tasks && s.tasks[a].key == key;
        assert HasEntry(s, a);
        assert Lingers(s, steps, a, key);
      }
    }
  }

  /**
   * At most one live session for each key throughout a run: exactly if no start is let in under
   * the key of a task that lives on from before a close of its connection.
   */
  lemma OneLiveUnlessLate(steps: seq<Step>)
    ensures AlwaysOnePerKey(EMPTY, steps) <==> forall i | 0 <= i < |steps| :: !LateStart(steps[..i], steps[i])
  {
    EmptySafe();
    OneLiveExactly(EMPTY, steps);
    if NeverReuses(EMPTY, steps) {
      forall i | 0 <= i < |steps| ensures !LateStart(steps[..i], steps[i]) {
        NoReuseBefore(steps, i);
        FirstReuseIsLate(steps[..i], steps[i]);
      }
    }
    if forall i | 0 <= i < |steps| :: !LateStart(steps[..i], steps[i]) {
      NoneLateNoReuse(steps, |steps|);
      assert steps[..|steps|] == steps;
    }
  }

  lemma NoReuseBefore(steps: seq<Step>, i: nat)
    requires i <= |steps| && NeverReuses(EMPTY, steps)
    ensures NeverReuses(EMPTY, steps[..i])
  {
    forall j | 0 <= j < i ensures !Reuses(Run(EMPTY, steps[..i][..j]), steps[..i][j]) {
      assert steps[..i][..j] == steps[..j];
    }
  }

  lemma {:induction false} NoneLateNoReuse(steps: seq<Step>, n: nat)
    requires n <= |steps| && forall i | 0 <= i < |steps| :: !LateStart(steps[..i], steps[i])
    ensures NeverReuses(EMPTY, steps[..n])
  {
    if n > 0 {
      NoneLateNoReuse(steps, n - 1);
      FirstReuseIsLate(steps[..n - 1], steps[n - 1]);
      forall j | 0 <= j < n ensures !Reuses(Run(EMPTY, steps[..n][..j]), steps[..n][j]) {
        assert steps[..n][..j] == steps[..j];
        if j < n - 1 {
          assert steps[..n - 1][..j] == steps[..j];
          assert !Reuses(Run(EMPTY, steps[..n - 1][..j]), steps[..n - 1][j]);
        }
      }
    }
  }

  // ---------------------------------------------------------------------------------------
  // No start after the close of its connection
  // ---------------------------------------------------------------------------------------

  /** No start on a connection after its close. */
  predicate NoLateStart(steps: seq<Step>) {
    forall i, j | 0 <= i < j < |steps| && steps[i].CloseConnection? && steps[j].StartCall? ::
      steps[i].connection != steps[j].params.connection
  }

  function Closes(steps: seq<Step>): set<nat> {
    set i | 0 <= i < |steps| && steps[i].CloseConnection? :: steps[i].connection
  }

  lemma ClosesAppend(steps: seq<Step>, step: Step)
    ensures Closes(steps + [step]) == Closes(steps) + if step.CloseConnection? then {step.connection} else {}
  {
    var more := steps + [step];
    assert more[|steps|] == step;
    forall x | x in Closes(steps) ensures x in Closes(more) {
      var i :| 0 <= i < |steps| && steps[i].CloseConnection? && steps[i].connection == x;
      assert more[i] == steps[i];
    }
  }

  /** Every live task is in the table, but for those never entered and those whose connection is closed. */
  predicate EnteredUnlessClosed(s: State, closed: set<nat>) {
    forall a | a in s.tasks && Registers(s.tasks[a].key, s.tasks[a].windowsSandbox)
      && s.tasks[a].key.connection !in closed :: s.tasks[a].entered
  }

  lemma NextEntered(s: State, step: Step, closed: set<nat>)
    requires Safe(s) && OnePerKey(s) && EnteredUnlessClosed(s, closed)
    ensures EnteredUnlessClosed(Next(s, step), closed + if step.CloseConnection? then {step.connection} else {})
  {
    if Enabled(s, step) {
      match step
      case Finish(call) => FinishTakesOwn(s, call);
      case SpawnEnds(call, ok) => FinishTakesOwn(s, call);
      case _ =>
    }
  }

  predicate KeysOpen(s: State, closed: set<nat>) {
    forall key | key in s.sessions :: key.connection !in closed
  }

  lemma NextKeysOpen(s: State, step: Step, closed: set<nat>)
    requires KeysOpen(s, closed) && (step.StartCall? ==> step.params.connection !in closed)
    ensures KeysOpen(Next(s, step), closed + if step.CloseConnection? then {step.connection} else {})
  {
  }

  /** On an open connection a key that is let in belongs to no live task. */
  lemma OpenKeyIsFree(s: State, step: Step, closed: set<nat>)
    requires Safe(s) && EnteredUnlessClosed(s, closed)
    requires step.StartCall? ==> step.params.connection !in closed
    ensures !Reuses(s, step)
  {
    if step.StartCall? && RefusalOf(s, step.params).None? {
      var key := KeyOf(step.params, s.nextGenerated);
      forall a | a in s.tasks ensures s.tasks[a].key != key {
        assert HasEntry(s, a);
      }
    }
  }

  /**
   * Without late starts no key is ever reused, so there is one live session for each key; every
   * live task that was entered is in the table until its connection closes, and no entry of that
   * connection is there afterwards.
   */
  lemma {:induction false} NoLateStartSuffices(steps: seq<Step>)
    requires NoLateStart(steps)
    ensures NeverReuses(EMPTY, steps) && AlwaysOnePerKey(EMPTY, steps)
    ensures EnteredUnlessClosed(Run(EMPTY, steps), Closes(steps)) && KeysOpen(Run(EMPTY, steps), Closes(steps))
  {
    EmptySafe();
    if steps != [] {
      var n := |steps| - 1;
      var front, last := steps[..n], steps[n];
      assert steps == front + [last];
      NoLateStartSuffices(front);
      RunSafe(EMPTY, front);
      ClosesAppend(front, last);
      assert front[..n] == front;
      var before := Run(EMPTY, front);
      assert OnePerKey(before);
      forall i | 0 <= i < |front| && front[i].CloseConnection?
        ensures last.StartCall? ==> front[i].connection != last.params.connection
      {
        assert steps[i] == front[i];
      }
      OpenKeyIsFree(before, last, Closes(front));
      forall i | 0 <= i < |steps| ensures !Reuses(Run(EMPTY, steps[..i]), steps[i]) {
        if i < n {
          assert steps[..i] == front[..i];
        }
      }
      NextEntered(before, last, Closes(front));
      NextKeysOpen(before, last, Closes(front));
    }
    OneLiveExactly(EMPTY, steps);
  }

  // ---------------------------------------------------------------------------------------
  // What a late start does
  // ---------------------------------------------------------------------------------------

  const LATE := StartParams(1, Some("p"), false, false, false, false, None, false)
  const LATE_KEY := Key(1, Client("p"))

  /**
   * A process that is still ending when its connection closes, and two later starts under its
   * key.  The second start is let in while the first task lives; the first task removes the
   * second's entry when it ends, so that the third start is let in while the second lives.
   */
  const LATE_RUN: seq<Step> := [
    StartCall(LATE), SpawnEnds(0, true), CloseConnection(1), StartCall(LATE),
    ProcessEnds(0, false), LetGo(0), Finish(0), StartCall(LATE)]

  function Live(phase: Phase, entered: bool): Task {
    Task(LATE_KEY, false, phase, entered)
  }

  lemma LateStartReuses()
    ensures var four := Run(EMPTY, LATE_RUN[..4]);
      && four.tasks == map[0 := Live(Running, false), 1 := Live(Spawning, true)]
      && four.sessions == map[LATE_KEY := Active(1)]
      && !OnePerKey(four)
    ensures var eight := Run(EMPTY, LATE_RUN);
      && eight.tasks == map[1 := Live(Spawning, false), 2 := Live(Spawning, true)]
      && eight.sessions == map[LATE_KEY := Active(2)]
      && !OnePerKey(eight)
    ensures !NeverReuses(EMPTY, LATE_RUN)
  {
    FirstHalf();
    SecondHalf();
    assert Reuses(Run(EMPTY, LATE_RUN[..3]), LATE_RUN[3]) by {
      assert Run(EMPTY, LATE_RUN[..3]).tasks[0].key == LATE_KEY;
    }
    var four, eight := Run(EMPTY, LATE_RUN[..4]), Run(EMPTY, LATE_RUN);
    assert four.tasks[0].key == four.tasks[1].key;
    assert eight.tasks[1].key == eight.tasks[2].key;
  }

  lemma FirstHalf()
    ensures Run(EMPTY, LATE_RUN[..3]) == State(map[], 1, map[0 := Live(Running, false)], 1, [])
    ensures Run(EMPTY, LATE_RUN[..4]) ==
      State(map[LATE_KEY := Active(1)], 1, map[0 := Live(Running, false), 1 := Live(Spawning, true)], 2, [])
  {
    assert LATE_RUN[..0] == [];
    PrefixRun(EMPTY, LATE_RUN, 0);
    PrefixRun(EMPTY, LATE_RUN, 1);
    PrefixRun(EMPTY, LATE_RUN, 2);
    PrefixRun(EMPTY, LATE_RUN, 3);
    var one := State(map[LATE_KEY := Active(0)], 1, map[0 := Live(Spawning, true)], 1, []);
    assert Run(EMPTY, LATE_RUN[..1]) == one;
    assert Run(EMPTY, LATE_RUN[..2]) == one.(tasks := map[0 := Live(Running, true)]);
    assert Run(EMPTY, LATE_RUN[..3]) == State(map[], 1, map[0 := Live(Running, false)], 1, []);
  }

  const ANSWERED: seq<(nat, Outcome)> := [(0, Outgoing(false))]

  lemma Answer(s: State)
    requires s == State(map[LATE_KEY := Active(1)], 1, map[0 := Live(Running, false), 1 := Live(Spawning, true)], 2, [])
    ensures Next(s, ProcessEnds(0, false)) == State(map[LATE_KEY := Active(1)], 1,
      map[0 := Live(Responded, false), 1 := Live(Spawning, true)], 2, ANSWERED)
  {
    assert s.tasks[0 := Live(Responded, false)] == map[0 := Live(Responded, false), 1 := Live(Spawning, true)];
  }

  lemma FirstAnswers()
    ensures Run(EMPTY, LATE_RUN[..5]) == State(map[LATE_KEY := Active(1)], 1,
      map[0 := Live(Responded, false), 1 := Live(Spawning, true)], 2, ANSWERED)
  {
    FirstHalf();
    PrefixRun(EMPTY, LATE_RUN, 4);
    Answer(Run(EMPTY, LATE_RUN[..4]));
  }

  lemma FirstEnds()
    ensures Run(EMPTY, LATE_RUN[..6]) == State(map[LATE_KEY := Active(1)], 1,
      map[0 := Live(Dropped, false), 1 := Live(Spawning, true)], 2, ANSWERED)
  {
    FirstAnswers();
    PrefixRun(EMPTY, LATE_RUN, 5);
  }

  lemma FirstRemoves()
    ensures Run(EMPTY, LATE_RUN[..7]) == State(map[], 1, map[1 := Live(Spawning, false)], 2, ANSWERED)
  {
    FirstEnds();
    PrefixRun(EMPTY, LATE_RUN, 6);
  }

  lemma SecondHalf()
    ensures Run(EMPTY, LATE_RUN) == State(map[LATE_KEY := Active(2)], 1,
      map[1 := Live(Spawning, false), 2 := Live(Spawning, true)], 3, ANSWERED)
  {
    FirstRemoves();
    assert LATE_RUN[..8] == LATE_RUN;
    PrefixRun(EMPTY, LATE_RUN, 7);
  }

  predicate Distinct(s: seq<nat>) {
    forall i, j | 0 <= i < j < |s| :: s[i] != s[j]
  }

  /** No two sessions have the same control channel. */
  predicate OneControlEach(sessions: Table) {
    forall k, l | k in sessions && l in sessions && sessions[k].Active? && sessions[k] == sessions[l] :: k == l
  }

  lemma ControlsAreOwn(s: State)
    requires TableExact(s)
    ensures OneControlEach(s.sessions)
  {
    forall k, l | k in s.sessions && l in s.sessions && s.sessions[k].Active? && s.sessions[k] == s.sessions[l]
      ensures k == l
    {
      assert MadeBySome(s, k) && MadeBySome(s, l);
      var a :| a in s.tasks && s.tasks[a].key == k && s.tasks[a].entered;
      var b :| b in s.tasks && s.tasks[b].key == l && s.tasks[b].entered;
      assert HasEntry(s, a) && HasEntry(s, b);
    }
  }

  // ---------------------------------------------------------------------------------------
  // The table itself
  // ---------------------------------------------------------------------------------------

  class SessionTable {
    var sessions: Table
    var nextGenerated: nat
    var tasks: Tasks
    var starts: nat
    var outcomes: seq<(nat, Outcome)>

    ghost function Now(): State
      reads this
    {
      State(sessions, nextGenerated, tasks, starts, outcomes)
    }

    constructor ()
      ensures Now() == EMPTY
    {
      sessions, nextGenerated, tasks, starts, outcomes := map[], 1, map[], 0, [];
    }

    /** `start`, up to the point where the process is spawned. */
    method DoStart(p: StartParams) returns (r: Result<(), StartError>)
      requires Safe(Now())
      modifies this
      ensures Now() == Start(old(Now()), p)
      ensures r == match RefusalOf(old(Now()), p) case Some(e) => Err(e) case None => Ok(())
    {
      GeneratedKeyIsFree(Now());
      if p.processId.None? && WantsStreams(p) {
        r := Err(NeedsProcessId);
      } else {
        var key := KeyOf(p, nextGenerated);
        if p.processId.None? {
          nextGenerated := nextGenerated + 1;
        }
        r := Enter(p, key);
      }
      if r.Err? {
        outcomes := outcomes + [(starts, ErrorReturn(r.error))];
      }
      starts := starts + 1;
    }

    /** The checks that come once the key is known, and the entry. */
    method Enter(p: StartParams, key: Key) returns (r: Result<(), StartError>)
      requires p.processId.None? ==> !WantsStreams(p) && key !in sessions && key.process.Generated?
      requires p.processId.Some? ==> key.process.Client?
      modifies this`sessions, this`tasks
      ensures match Refusal(p, key in old(sessions))
        case Some(e) => r == Err(e) && sessions == old(sessions) && tasks == old(tasks)
        case None =>
          && r == Ok(())
          && tasks == old(tasks)[starts := NewTask(key, p.windowsSandbox)]
          && sessions ==
               (if Registers(key, p.windowsSandbox) then old(sessions)[key := SessionOf(starts, p.windowsSandbox)]
                else old(sessions))
    {
      if p.windowsSandbox {
        if WantsStreams(p) {
          return Err(StreamingUnsupported);
        }
        if p.outputBytesCap != Some(DEFAULT_OUTPUT_BYTES_CAP) {
          return Err(CustomCapUnsupported);
        }
        if p.processId.Some? {
          if key in sessions {
            return Err(DuplicateProcessId);
          }
          sessions := sessions[key := UnsupportedWindowsSandbox];
        }
      } else {
        if p.commandEmpty {
          return Err(EmptyCommand);
        }
        if key in sessions {
          return Err(DuplicateProcessId);
        }
        sessions := sessions[key := Active(starts)];
      }
      tasks := tasks[starts := NewTask(key, p.windowsSandbox)];
      r := Ok(());
    }

    method MoveTo(call: nat, phase: Phase)
      requires call in tasks
      modifies this`tasks
      ensures Now() == SetPhase(old(Now()), call, phase)
    {
      tasks := tasks[call := tasks[call].(phase := phase)];
    }

    /** It could not be spawned: the entry is removed and the error returned. */
    method SpawnFails(call: nat)
      requires call in tasks
      modifies this
      ensures Now() == SpawnFail(old(Now()), call)
    {
      DoRemove(call);
      outcomes := outcomes + [(call, ErrorReturn(SpawnFailed))];
    }

    /** The process has ended and its one message goes out. */
    method DoRespond(call: nat, isError: bool)
      requires call in tasks
      modifies this
      ensures Now() == Respond(old(Now()), call, isError)
    {
      outcomes := outcomes + [(call, Outgoing(isError))];
      tasks := tasks[call := tasks[call].(phase := Responded)];
    }

    /** The last thing a task does: it removes the entry under its key. */
    method DoRemove(call: nat)
      requires call in tasks
      modifies this`sessions, this`tasks
      ensures Now() == Remove(old(Now()), call)
    {
      sessions := sessions - {tasks[call].key};
      tasks := Evict(tasks - {call}, tasks[call].key);
    }

    /**
     * `connection_closed` up to where it releases the lock: all entries of the connection are
     * removed, and the control channels of the active ones returned.
     */
    method DoClose(connection: nat) returns (controls: seq<nat>)
      requires TableExact(Now())
      modifies this`sessions, this`tasks
      ensures Now() == Close(old(Now()), connection)
      ensures (set c | c in controls) == ActiveOf(old(sessions), connection) && Distinct(controls)
    {
      ControlsAreOwn(Now());
      controls := RemoveAll(connection);
      tasks := Close(State(sessions, nextGenerated, tasks, starts, outcomes), connection).tasks;
    }

    method RemoveAll(connection: nat) returns (controls: seq<nat>)
      requires OneControlEach(sessions)
      modifies this`sessions
      ensures sessions == Without(old(sessions), connection)
      ensures (set c | c in controls) == ActiveOf(old(sessions), connection) && Distinct(controls)
    {
      var ids := set key | key in sessions && key.connection == connection;
      ghost var before := sessions;
      controls := [];
      while ids != {}
        invariant ids <= sessions.Keys && forall key | key in ids :: key.connection == connection
        invariant forall key | key in sessions :: key in before && sessions[key] == before[key]
        invariant forall key | key in before && key !in sessions :: key.connection == connection
        invariant forall key | key in sessions && key !in ids :: key.connection != connection
        invariant ActiveOf(before, connection) == ActiveOf(sessions, connection) + set c | c in controls
        invariant OneControlEach(sessions) && Distinct(controls)
        invariant forall k | k in sessions && sessions[k].Active? :: sessions[k].control !in controls
      {
        var key :| key in ids;
        ids := ids - {key};
        ActiveWithout(sessions, connection, key);
        if sessions[key].Active? {
          controls := controls + [sessions[key].control];
        }
        sessions := sessions - {key};
      }
    }
  }

  lemma ActiveWithout(sessions: Table, connection: nat, key: Key)
    requires key in sessions && key.connection == connection
    ensures ActiveOf(sessions, connection) ==
      ActiveOf(sessions - {key}, connection) + if sessions[key].Active? then {sessions[key].control} else {}
  {
    forall c | c in ActiveOf(sessions, connection) && sessions[key] != Active(c)
      ensures c in ActiveOf(sessions - {key}, connection)
    {
      var k :| k in sessions && k.connection == connection && sessions[k] == Active(c);
      assert (sessions - {key})[k] == Active(c);
    }
  }
}
