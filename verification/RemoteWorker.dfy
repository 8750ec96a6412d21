/**
 * The websocket client: the initialize handshake, the worker that matches responses to waiting
 * requests by id (section 5 of JSON-RPC 2.0), and the stream of events it feeds.
 */
module RemoteWorker {
  import opened JsonRpc
  import opened Tally
  import opened Wrappers

  /** What the websocket yields, decoded; `known` says whether the method is one of the protocol. */
  datatype WireItem =
    | Response(id: RequestId, result: int)
    | ErrorResponse(id: RequestId, error: int)
    | Notification(payload: int, known: bool)
    | ServerRequest(id: RequestId, payload: int, known: bool)
    | Malformed
    | CloseFrame
    | OtherFrame
    | TransportError
    | EndOfStream

  datatype Event = NotificationEvent(payload: int) | RequestEvent(id: RequestId, payload: int) | Disconnected

  /** A caller's command with the oneshot channel, here a number, on which it waits. */
  datatype Command =
    | Request(id: RequestId, waiter: nat)
    | Notify(waiter: nat)
    | ResolveServerRequest(id: RequestId, result: int, waiter: nat)
    | RejectServerRequest(id: RequestId, error: int, waiter: nat)
    | Shutdown(waiter: nat)

  /**
   * One turn of the worker's `select!`: what it received, whether a write (or closing the stream)
   * succeeds if the turn makes one, and whether the event consumer is still there.
   */
  datatype Step =
    | Received(command: Command, writeOk: bool, consumerOpen: bool)
    | CommandsClosed
    | Wire(item: WireItem, writeOk: bool, consumerOpen: bool)

  datatype Answer =
    | Success(result: int)
    | Failure(error: int)
    | DuplicateId
    | WriteFailed
    | Written(ok: bool)
    | ChannelClosed

  // ---------------------------------------------------------------------------------------
  // The reference: who waits, and which answer each waiter is owed
  // ---------------------------------------------------------------------------------------

  predicate IsRequest(step: Step) {
    step.Received? && step.command.Request?
  }

  predicate IsReply(step: Step) {
    step.Wire? && (step.item.Response? || step.item.ErrorResponse?)
  }

  predicate RepliesTo(step: Step, id: RequestId) {
    IsReply(step) && step.item.id == id
  }

  /** A response and an error response reply to the request of their id, and nothing else does. */
  lemma RepliesAre(step: Step, id: RequestId)
    ensures RepliesTo(step, id) <==>
      && step.Wire?
      && ((exists result :: step.item == Response(id, result)) || exists e :: step.item == ErrorResponse(id, e))
  {
  }

  predicate NoReply(done: seq<Step>, id: RequestId, from: nat, to: nat)
    requires from <= to <= |done|
  {
    forall j | from <= j < to :: !RepliesTo(done[j], id)
  }

  /** Step `k` is a request that went out: its id was free, and writing it succeeded. */
  ghost predicate Accepted(done: seq<Step>, k: nat)
    requires k < |done|
    decreases k, 1
  {
    IsRequest(done[k]) && done[k].writeOk && !InFlight(done[..k], done[k].command.id)
  }

  /** Some request with this id went out and has no reply yet. */
  ghost predicate InFlight(done: seq<Step>, id: RequestId)
    decreases |done|, 0
  {
    exists k | 0 <= k < |done| ::
      Accepted(done, k) && done[k].command.id == id && NoReply(done, id, k + 1, |done|)
  }

  ghost predicate Waiting(done: seq<Step>, id: RequestId, waiter: nat) {
    exists k | 0 <= k < |done| ::
      Accepted(done, k) && done[k].command == Request(id, waiter) && NoReply(done, id, k + 1, |done|)
  }

  /** Step `m` is the first reply to the request that went out at step `k`. */
  ghost predicate Answers(done: seq<Step>, k: nat, m: nat)
    requires k < m < |done|
  {
    && Accepted(done, k)
    && RepliesTo(done[m], done[k].command.id)
    && NoReply(done, done[k].command.id, k + 1, m)
  }

  /** The loop ends with step `k`. */
  ghost predicate EndsAt(done: seq<Step>, k: nat)
    requires k < |done|
  {
    match done[k]
    case Received(Request(id, _), writeOk, _) => !writeOk && !InFlight(done[..k], id)
    case Received(command, _, _) => command.Shutdown?
    case CommandsClosed => true
    case Wire(Notification(_, known), _, consumerOpen) => known && !consumerOpen
    case Wire(ServerRequest(_, _, known), writeOk, consumerOpen) => if known then !consumerOpen else !writeOk
    case Wire(item, _, _) => item.Malformed? || item.CloseFrame? || item.TransportError? || item.EndOfStream?
  }

  /** What the steps so far entitle the waiter to. */
  ghost predicate Justified(done: seq<Step>, waiter: nat, answer: Answer) {
    match answer
    case DuplicateId =>
      exists k | 0 <= k < |done| ::
        IsRequest(done[k]) && done[k].command.waiter == waiter && InFlight(done[..k], done[k].command.id)
    case WriteFailed =>
      exists k | 0 <= k < |done| ::
        IsRequest(done[k]) && done[k].command.waiter == waiter && EndsAt(done, k)
    case Written(ok) =>
      exists k | 0 <= k < |done| ::
        done[k].Received? && !IsRequest(done[k]) && done[k].command.waiter == waiter && done[k].writeOk == ok
    case ChannelClosed =>
      |done| > 0 && EndsAt(done, |done| - 1) && exists id :: Waiting(done, id, waiter)
    case Success(result) =>
      exists k, m | 0 <= k < m < |done| ::
        Answers(done, k, m) && done[k].command.waiter == waiter && done[m].item == Response(done[k].command.id, result)
    case Failure(error) =>
      exists k, m | 0 <= k < m < |done| ::
        Answers(done, k, m) && done[k].command.waiter == waiter
        && done[m].item == ErrorResponse(done[k].command.id, error)
  }

  predicate Got(done: seq<Step>, waiter: nat) {
    exists k | 0 <= k < |done| :: done[k].Received? && done[k].command.waiter == waiter
  }

  /** Every command brings a channel of its own. */
  predicate FreshWaiters(steps: seq<Step>) {
    forall i, j | 0 <= i < j < |steps| && steps[i].Received? && steps[j].Received? ::
      steps[i].command.waiter != steps[j].command.waiter
  }

  /** The loop has not ended before the last step. */
  ghost predicate RunsOn(done: seq<Step>) {
    forall k | 0 <= k < |done| - 1 :: !EndsAt(done, k)
  }

  /** An answer at once: what it says of the command itself. */
  lemma AnswerAtOnce(done: seq<Step>, k: nat, answer: Answer)
    requires FreshWaiters(done) && k < |done| && done[k].Received?
    requires Justified(done, done[k].command.waiter, answer)
    ensures answer.Written? <==> !IsRequest(done[k])
    ensures answer.Written? ==> answer.ok == done[k].writeOk
    ensures answer.DuplicateId? <==> IsRequest(done[k]) && InFlight(done[..k], done[k].command.id)
    ensures answer.WriteFailed? ==> EndsAt(done, k)
    ensures answer.ChannelClosed? ==> Accepted(done, k) && NoReply(done, done[k].command.id, k + 1, |done|)
  {
  }

  /** An answer from the wire: the first reply to the request. */
  lemma AnswerOfReply(done: seq<Step>, k: nat, answer: Answer)
    requires FreshWaiters(done) && k < |done| && done[k].Received?
    requires Justified(done, done[k].command.waiter, answer)
    ensures answer.Success? ==>
      exists m | k < m < |done| :: Answers(done, k, m) && done[m].item == Response(done[k].command.id, answer.result)
    ensures answer.Failure? ==>
      exists m | k < m < |done| ::
        Answers(done, k, m) && done[m].item == ErrorResponse(done[k].command.id, answer.error)
  {
  }

  /** Two answers that a waiter is owed are the same answer. */
  lemma AnswerIsDetermined(done: seq<Step>, waiter: nat, a: Answer, b: Answer)
    requires FreshWaiters(done)
    requires Justified(done, waiter, a) && Justified(done, waiter, b)
    ensures a == b
  {
    var k :| 0 <= k < |done| && done[k].Received? && done[k].command.waiter == waiter;
    AnswerAtOnce(done, k, a);
    AnswerAtOnce(done, k, b);
    AnswerOfReply(done, k, a);
    AnswerOfReply(done, k, b);
  }

  type Pending = map<RequestId, nat>

  predicate Holds(pending: Pending, waiter: nat) {
    exists id | id in pending :: pending[id] == waiter
  }

  /** Each waiter received is held, under one id, or was given one answer. */
  ghost predicate OncePerWaiter(done: seq<Step>, pending: Pending, answers: seq<(nat, Answer)>) {
    && (forall w: nat :: Times(answers, w) + (if Holds(pending, w) then 1 else 0) == if Got(done, w) then 1 else 0)
    && forall i, j | i in pending && j in pending && pending[i] == pending[j] :: i == j
  }

  /** The table holds exactly the requests that are in flight. */
  ghost predicate HoldsWaiting(done: seq<Step>, pending: Pending) {
    forall id, w :: Waiting(done, id, w) <==> id in pending && pending[id] == w
  }

  /** Every answer given was owed; none yet says that the channel is closed. */
  ghost predicate AllJustified(done: seq<Step>, answers: seq<(nat, Answer)>) {
    forall a | a in answers :: Justified(done, a.0, a.1) && a.1 != ChannelClosed
  }

  // ---------------------------------------------------------------------------------------
  // One more step: the reference
  // ---------------------------------------------------------------------------------------

  lemma PrefixSame(done: seq<Step>, step: Step, k: nat)
    requires k < |done|
    ensures (done + [step])[k] == done[k] && (done + [step])[..k] == done[..k]
    ensures Accepted(done + [step], k) <==> Accepted(done, k)
    ensures EndsAt(done + [step], k) <==> EndsAt(done, k)
  {
  }

  lemma LastStep(done: seq<Step>, step: Step)
    ensures (done + [step])[|done|] == step && (done + [step])[..|done|] == done
  {
  }

  lemma InFlightIsWaiting(done: seq<Step>, id: RequestId)
    ensures InFlight(done, id) <==> exists w :: Waiting(done, id, w)
  {
    if InFlight(done, id) {
      var k :| 0 <= k < |done| && Accepted(done, k) && done[k].command.id == id && NoReply(done, id, k + 1, |done|);
      assert Waiting(done, id, done[k].command.waiter);
    }
  }

  /** Who waits after one more step. */
  lemma WaitingStep(done: seq<Step>, step: Step, id: RequestId, w: nat)
    ensures Waiting(done + [step], id, w) <==>
      && !RepliesTo(step, id)
      && (Waiting(done, id, w)
          || (step.Received? && step.command == Request(id, w) && step.writeOk && !InFlight(done, id)))
  {
    var more := done + [step];
    LastStep(done, step);
    if Waiting(more, id, w) {
      var k :| 0 <= k < |more| && Accepted(more, k) && more[k].command == Request(id, w)
        && NoReply(more, id, k + 1, |more|);
      if k < |done| {
        PrefixSame(done, step, k);
        assert !RepliesTo(more[|done|], id);
        assert NoReply(done, id, k + 1, |done|) by {
          assert forall j | k + 1 <= j < |done| :: more[j] == done[j];
        }
      }
    }
    if Waiting(done, id, w) && !RepliesTo(step, id) {
      var k :| 0 <= k < |done| && Accepted(done, k) && done[k].command == Request(id, w)
        && NoReply(done, id, k + 1, |done|);
      PrefixSame(done, step, k);
      assert NoReply(more, id, k + 1, |more|) by {
        assert forall j | k + 1 <= j < |done| :: more[j] == done[j];
      }
    }
    if step.Received? && step.command == Request(id, w) && step.writeOk && !InFlight(done, id) {
      assert Accepted(more, |done|);
    }
  }

  /** A request under an id that is in flight changes nothing for whoever waits under that id. */
  lemma DuplicateKeepsWaiter(done: seq<Step>, step: Step, id: RequestId, w: nat)
    requires InFlight(done, id) && IsRequest(step) && step.command.id == id
    ensures Waiting(done + [step], id, w) <==> Waiting(done, id, w)
  {
    WaitingStep(done, step, id, w);
  }

  lemma GotStep(done: seq<Step>, step: Step, waiter: nat)
    ensures Got(done + [step], waiter)
       <==> Got(done, waiter) || (step.Received? && step.command.waiter == waiter)
  {
    var more := done + [step];
    if Got(done, waiter) {
      var k :| 0 <= k < |done| && done[k].Received? && done[k].command.waiter == waiter;
      assert more[k] == done[k];
    }
    assert more[|done|] == step;
  }

  lemma JustifiedStep(done: seq<Step>, step: Step, waiter: nat, answer: Answer)
    requires Justified(done, waiter, answer) && answer != ChannelClosed
    ensures Justified(done + [step], waiter, answer)
  {
    match answer
    case DuplicateId =>
      var k :| 0 <= k < |done| && IsRequest(done[k]) && done[k].command.waiter == waiter
        && InFlight(done[..k], done[k].command.id);
      PrefixSame(done, step, k);
    case WriteFailed =>
      var k :| 0 <= k < |done| && IsRequest(done[k]) && done[k].command.waiter == waiter && EndsAt(done, k);
      PrefixSame(done, step, k);
    case Written(ok) =>
      var k :| 0 <= k < |done| && done[k].Received? && !IsRequest(done[k])
        && done[k].command.waiter == waiter && done[k].writeOk == ok;
      PrefixSame(done, step, k);
    case Success(result) =>
      var k, m :| 0 <= k < m < |done| && Answers(done, k, m) && done[k].command.waiter == waiter
        && done[m].item == Response(done[k].command.id, result);
      AnswersStep(done, step, k, m);
    case Failure(error) =>
      var k, m :| 0 <= k < m < |done| && Answers(done, k, m) && done[k].command.waiter == waiter
        && done[m].item == ErrorResponse(done[k].command.id, error);
      AnswersStep(done, step, k, m);
    case ChannelClosed =>
  }

  lemma AnswersStep(done: seq<Step>, step: Step, k: nat, m: nat)
    requires k < m < |done| && Answers(done, k, m)
    ensures Answers(done + [step], k, m) && (done + [step])[k] == done[k] && (done + [step])[m] == done[m]
  {
    PrefixSame(done, step, k);
    PrefixSame(done, step, m);
    assert forall j | k + 1 <= j < m :: (done + [step])[j] == done[j];
  }

  lemma AllJustifiedStep(done: seq<Step>, answers: seq<(nat, Answer)>, step: Step)
    requires AllJustified(done, answers)
    ensures AllJustified(done + [step], answers)
  {
    forall a | a in answers ensures Justified(done + [step], a.0, a.1) {
      JustifiedStep(done, step, a.0, a.1);
    }
  }

  /** The answer that a reply brings: its result or its error. */
  predicate Brings(item: WireItem, answer: Answer) {
    match item
    case Response(_, result) => answer == Success(result)
    case ErrorResponse(_, error) => answer == Failure(error)
    case _ => false
  }

  /** The waiter of the request in flight is owed it. */
  lemma ReplyJustified(done: seq<Step>, step: Step, waiter: nat, answer: Answer)
    requires IsReply(step) && Waiting(done, step.item.id, waiter) && Brings(step.item, answer)
    ensures Justified(done + [step], waiter, answer)
  {
    var id, more := step.item.id, done + [step];
    var k :| 0 <= k < |done| && Accepted(done, k) && done[k].command == Request(id, waiter)
      && NoReply(done, id, k + 1, |done|);
    PrefixSame(done, step, k);
    LastStep(done, step);
    assert forall j | k + 1 <= j < |done| :: more[j] == done[j];
    assert Answers(more, k, |done|);
  }

  // ---------------------------------------------------------------------------------------
  // One more step: the table and the answers
  // ---------------------------------------------------------------------------------------

  lemma HoldsAdded(pending: Pending, id: RequestId, waiter: nat, w: nat)
    requires id !in pending
    ensures Holds(pending[id := waiter], w) <==> Holds(pending, w) || w == waiter
  {
    var more := pending[id := waiter];
    if Holds(pending, w) {
      var i :| i in pending && pending[i] == w;
      assert more[i] == w;
    }
    assert more[id] == waiter;
  }

  lemma HoldsRemoved(pending: Pending, id: RequestId, w: nat)
    requires id in pending
    requires forall i, j | i in pending && j in pending && pending[i] == pending[j] :: i == j
    ensures Holds(pending - {id}, w) <==> Holds(pending, w) && w != pending[id]
  {
    var less := pending - {id};
    if Holds(pending, w) && w != pending[id] {
      var i :| i in pending && pending[i] == w;
      assert less[i] == w;
    }
  }

  /** The waiter that a command brings is answered at once. */
  lemma OnceAnswered(done: seq<Step>, pending: Pending, answers: seq<(nat, Answer)>, step: Step, answer: Answer)
    requires OncePerWaiter(done, pending, answers) && step.Received? && !Got(done, step.command.waiter)
    ensures OncePerWaiter(done + [step], pending, answers + [(step.command.waiter, answer)])
  {
    forall w: nat
      ensures Times(answers + [(step.command.waiter, answer)], w) + (if Holds(pending, w) then 1 else 0)
           == if Got(done + [step], w) then 1 else 0
    {
      GotStep(done, step, w);
      TimesAppend(answers, (step.command.waiter, answer), w);
    }
  }

  /** The waiter that a request brings is put in the table. */
  lemma OnceHeld(done: seq<Step>, pending: Pending, answers: seq<(nat, Answer)>, step: Step)
    requires OncePerWaiter(done, pending, answers) && IsRequest(step) && !Got(done, step.command.waiter)
    requires step.command.id !in pending
    ensures OncePerWaiter(done + [step], pending[step.command.id := step.command.waiter], answers)
  {
    var waiter, more := step.command.waiter, pending[step.command.id := step.command.waiter];
    forall w: nat
      ensures Times(answers, w) + (if Holds(more, w) then 1 else 0) == if Got(done + [step], w) then 1 else 0
    {
      GotStep(done, step, w);
      HoldsAdded(pending, step.command.id, waiter, w);
    }
    assert Times(answers, waiter) + (if Holds(pending, waiter) then 1 else 0) == 0;
    assert forall i | i in pending :: pending[i] != waiter;
  }

  /** A waiter is taken from the table and answered. */
  lemma OnceReleased(done: seq<Step>, pending: Pending, answers: seq<(nat, Answer)>, id: RequestId, answer: Answer)
    requires OncePerWaiter(done, pending, answers) && id in pending
    ensures OncePerWaiter(done, pending - {id}, answers + [(pending[id], answer)])
  {
    forall w: nat
      ensures Times(answers + [(pending[id], answer)], w) + (if Holds(pending - {id}, w) then 1 else 0)
           == if Got(done, w) then 1 else 0
    {
      TimesAppend(answers, (pending[id], answer), w);
      HoldsRemoved(pending, id, w);
      assert Holds(pending, pending[id]);
    }
  }

  lemma OnceIdle(done: seq<Step>, pending: Pending, answers: seq<(nat, Answer)>, step: Step)
    requires OncePerWaiter(done, pending, answers) && !step.Received?
    ensures OncePerWaiter(done + [step], pending, answers)
  {
    forall w: nat ensures Got(done + [step], w) == Got(done, w) {
      GotStep(done, step, w);
    }
  }

  lemma InTable(done: seq<Step>, pending: Pending, id: RequestId)
    requires HoldsWaiting(done, pending)
    ensures InFlight(done, id) <==> id in pending
  {
    InFlightIsWaiting(done, id);
    if id in pending {
      assert Waiting(done, id, pending[id]);
    }
  }

  /** The table after a step, with the request that went out added and the one replied to removed. */
  lemma HoldsWaitingStep(done: seq<Step>, pending: Pending, step: Step, next: Pending)
    requires HoldsWaiting(done, pending)
    requires next ==
      if IsReply(step) then pending - {step.item.id}
      else if IsRequest(step) && step.writeOk && step.command.id !in pending
      then pending[step.command.id := step.command.waiter]
      else pending
    ensures HoldsWaiting(done + [step], next)
  {
    forall id, w ensures Waiting(done + [step], id, w) <==> id in next && next[id] == w {
      WaitingStep(done, step, id, w);
      InTable(done, pending, id);
    }
  }

  lemma StepIsFresh(steps: seq<Step>, n: nat)
    requires FreshWaiters(steps) && n < |steps|
    ensures steps[..n + 1] == steps[..n] + [steps[n]]
    ensures steps[n].Received? ==> !Got(steps[..n], steps[n].command.waiter)
  {
  }

  lemma PrefixEnds(steps: seq<Step>, n: nat)
    requires n <= |steps|
    ensures forall k | 0 <= k < n :: EndsAt(steps[..n], k) <==> EndsAt(steps, k)
  {
    forall k | 0 <= k < n ensures EndsAt(steps[..n], k) <==> EndsAt(steps, k) {
      assert steps[..n][..k] == steps[..k];
    }
  }

  /** The table, the answers and what they mean. */
  ghost predicate Consistent(done: seq<Step>, pending: Pending, answers: seq<(nat, Answer)>) {
    OncePerWaiter(done, pending, answers) && HoldsWaiting(done, pending) && AllJustified(done, answers)
  }

  lemma ConsistentIdle(done: seq<Step>, pending: Pending, answers: seq<(nat, Answer)>, step: Step)
    requires Consistent(done, pending, answers) && !step.Received? && !IsReply(step)
    ensures Consistent(done + [step], pending, answers)
  {
    AllJustifiedStep(done, answers, step);
    HoldsWaitingStep(done, pending, step, pending);
    OnceIdle(done, pending, answers, step);
  }

  lemma ConsistentReply(done: seq<Step>, pending: Pending, answers: seq<(nat, Answer)>, step: Step, answer: Answer)
    requires Consistent(done, pending, answers) && IsReply(step) && Brings(step.item, answer)
    ensures step.item.id in pending ==>
      Consistent(done + [step], pending - {step.item.id}, answers + [(pending[step.item.id], answer)])
    ensures step.item.id !in pending ==> Consistent(done + [step], pending, answers)
  {
    var id := step.item.id;
    AllJustifiedStep(done, answers, step);
    HoldsWaitingStep(done, pending, step, pending - {id});
    OnceIdle(done, pending, answers, step);
    if id in pending {
      ReplyJustified(done, step, pending[id], answer);
      OnceReleased(done + [step], pending, answers, id, answer);
    } else {
      assert pending - {id} == pending;
    }
  }

  lemma ConsistentCommand(done: seq<Step>, pending: Pending, answers: seq<(nat, Answer)>, step: Step)
    requires Consistent(done, pending, answers)
    requires step.Received? && !IsRequest(step) && !Got(done, step.command.waiter)
    ensures Consistent(done + [step], pending, answers + [(step.command.waiter, Written(step.writeOk))])
  {
    LastStep(done, step);
    AllJustifiedStep(done, answers, step);
    HoldsWaitingStep(done, pending, step, pending);
    OnceAnswered(done, pending, answers, step, Written(step.writeOk));
    assert Justified(done + [step], step.command.waiter, Written(step.writeOk));
  }

  lemma ConsistentDuplicate(done: seq<Step>, pending: Pending, answers: seq<(nat, Answer)>, step: Step)
    requires Consistent(done, pending, answers) && IsRequest(step) && !Got(done, step.command.waiter)
    requires step.command.id in pending
    ensures Consistent(done + [step], pending, answers + [(step.command.waiter, DuplicateId)])
  {
    LastStep(done, step);
    InTable(done, pending, step.command.id);
    AllJustifiedStep(done, answers, step);
    HoldsWaitingStep(done, pending, step, pending);
    OnceAnswered(done, pending, answers, step, DuplicateId);
    assert Justified(done + [step], step.command.waiter, DuplicateId);
  }

  lemma ConsistentWritten(done: seq<Step>, pending: Pending, answers: seq<(nat, Answer)>, step: Step)
    requires Consistent(done, pending, answers) && IsRequest(step) && !Got(done, step.command.waiter)
    requires step.command.id !in pending && step.writeOk
    ensures Consistent(done + [step], pending[step.command.id := step.command.waiter], answers)
  {
    AllJustifiedStep(done, answers, step);
    OnceHeld(done, pending, answers, step);
    HoldsWaitingStep(done, pending, step, pending[step.command.id := step.command.waiter]);
  }

  lemma ConsistentWriteFailed(done: seq<Step>, pending: Pending, answers: seq<(nat, Answer)>, step: Step)
    requires Consistent(done, pending, answers) && IsRequest(step) && !Got(done, step.command.waiter)
    requires step.command.id !in pending && !step.writeOk
    ensures Consistent(done + [step], pending, answers + [(step.command.waiter, WriteFailed)])
  {
    var id, waiter := step.command.id, step.command.waiter;
    LastStep(done, step);
    InTable(done, pending, id);
    AllJustifiedStep(done, answers, step);
    HoldsWaitingStep(done, pending, step, pending);
    OnceHeld(done, pending, answers, step);
    OnceReleased(done + [step], pending[id := waiter], answers, id, WriteFailed);
    assert pending[id := waiter] - {id} == pending;
    assert Justified(done + [step], waiter, WriteFailed);
  }

  // ---------------------------------------------------------------------------------------
  // Events and rejections
  // ---------------------------------------------------------------------------------------

  function FlatMap<S, T>(f: S -> seq<T>, items: seq<S>): seq<T> {
    if items == [] then [] else f(items[0]) + FlatMap(f, items[1..])
  }

  lemma {:induction false} FlatMapConcat<S, T>(f: S -> seq<T>, xs: seq<S>, ys: seq<S>)
    ensures FlatMap(f, xs + ys) == FlatMap(f, xs) + FlatMap(f, ys)
  {
    if xs == [] {
      assert xs + ys == ys;
    } else {
      assert (xs + ys)[1..] == xs[1..] + ys;
      FlatMapConcat(f, xs[1..], ys);
    }
  }

  lemma FlatMapAppend<S, T>(f: S -> seq<T>, items: seq<S>, item: S)
    ensures FlatMap(f, items + [item]) == FlatMap(f, items) + f(item)
  {
    FlatMapConcat(f, items, [item]);
    assert [item][1..] == [];
    assert FlatMap(f, [item]) == f(item);
  }

  /** The event that a wire item surfaces as. */
  function EventOf(item: WireItem): seq<Event> {
    match item
    case Notification(payload, true) => [NotificationEvent(payload)]
    case ServerRequest(id, payload, true) => [RequestEvent(id, payload)]
    case _ => []
  }

  /** A request with an unknown method, which is owed one error with code -32601. */
  function UnknownOf(item: WireItem): seq<RequestId> {
    match item
    case ServerRequest(id, _, false) => [id]
    case _ => []
  }

  /** Exactly the known notifications and requests surface, as themselves; unknown requests are rejected. */
  lemma SurfacesExactly(item: WireItem, id: RequestId, payload: int)
    ensures EventOf(item) == [NotificationEvent(payload)] <==> item == Notification(payload, true)
    ensures EventOf(item) == [RequestEvent(id, payload)] <==> item == ServerRequest(id, payload, true)
    ensures UnknownOf(item) == [id] <==> item.ServerRequest? && !item.known && item.id == id
    ensures EventOf(item) != [] ==> (item.Notification? || item.ServerRequest?) && item.known
    ensures |EventOf(item)| + |UnknownOf(item)| <= 1
  {
  }

  /** The wire item of a step, unless it is an event that nobody was left to take. */
  function ItemOf(step: Step): seq<WireItem> {
    if step.Wire? && (step.consumerOpen || EventOf(step.item) == []) then [step.item] else []
  }

  function Surfaced(items: seq<WireItem>): seq<Event> {
    FlatMap(EventOf, items)
  }

  function Unknown(items: seq<WireItem>): seq<RequestId> {
    FlatMap(UnknownOf, items)
  }

  function Items(steps: seq<Step>): seq<WireItem> {
    FlatMap(ItemOf, steps)
  }

  lemma ItemsStep(done: seq<Step>, step: Step)
    ensures Surfaced(Items(done + [step]))
         == Surfaced(Items(done)) + if ItemOf(step) == [] then [] else EventOf(step.item)
    ensures Unknown(Items(done + [step]))
         == Unknown(Items(done)) + if ItemOf(step) == [] then [] else UnknownOf(step.item)
  {
    FlatMapAppend(ItemOf, done, step);
    if ItemOf(step) == [] {
      assert Items(done) + [] == Items(done);
    } else {
      FlatMapAppend(EventOf, Items(done), step.item);
      FlatMapAppend(UnknownOf, Items(done), step.item);
    }
  }

  lemma CommandsSurfaceNothing(done: seq<Step>, step: Step)
    requires step.Received?
    ensures Surfaced(Items(done + [step])) == Surfaced(Items(done))
    ensures Unknown(Items(done + [step])) == Unknown(Items(done))
  {
    ItemsStep(done, step);
  }

  /** A request ends the loop exactly if its id was free and it could not be written. */
  lemma RequestEnds(done: seq<Step>, step: Step)
    requires IsRequest(step)
    ensures EndsAt(done + [step], |done|) <==> !step.writeOk && !InFlight(done, step.command.id)
  {
    LastStep(done, step);
  }

  /** What `next_event` reads: the events of the handshake, then those of the worker. */
  class EventStream {
    var pendingEvents: seq<Event>
    var queue: seq<Event>
    ghost var returned: seq<Event>

    /** Everything that was or will be returned, in order. */
    ghost function All(): seq<Event>
      reads this
    {
      returned + pendingEvents + queue
    }

    constructor (handshake: seq<Event>)
      ensures All() == handshake && pendingEvents == handshake
    {
      pendingEvents, queue, returned := handshake, [], [];
    }

    method NextEvent() returns (event: Option<Event>)
      modifies this
      ensures All() == old(All())
      ensures returned == old(returned) + match event { case Some(e) => [e] case None => [] }
      ensures event.None? ==> old(pendingEvents + queue) == []
    {
      if pendingEvents != [] {
        event := Some(pendingEvents[0]);
        assert pendingEvents == [pendingEvents[0]] + pendingEvents[1..];
        returned, pendingEvents := returned + [pendingEvents[0]], pendingEvents[1..];
      } else if queue != [] {
        event := Some(queue[0]);
        assert queue == [queue[0]] + queue[1..];
        returned, queue := returned + [queue[0]], queue[1..];
      } else {
        event := None;
      }
    }

    /** The consumer reads up to so many events. */
    method Poll(times: nat)
      modifies this
      ensures All() == old(All())
    {
      for i := 0 to times
        invariant All() == old(All())
      {
        var _ := NextEvent();
      }
    }

    method Push(event: Event)
      modifies this
      ensures All() == old(All()) + [event]
    {
      queue := queue + [event];
    }
  }

  // ---------------------------------------------------------------------------------------
  // The worker
  // ---------------------------------------------------------------------------------------

  /** Step `k` ends the loop by an end of the connection, not of the consumer or the commands. */
  ghost predicate Disconnects(done: seq<Step>, k: nat)
    requires k < |done|
  {
    match done[k]
    case Received(command, _, _) => command.Request? && EndsAt(done, k)
    case CommandsClosed => false
    case Wire(Notification(_, _), _, _) => false
    case Wire(ServerRequest(_, _, known), writeOk, _) => !known && !writeOk
    case Wire(item, _, _) => EndsAt(done, k)
  }

  /** What a consumer that is still there is told at the end: that the connection is gone. */
  ghost function Farewell(done: seq<Step>): seq<Event> {
    if done != [] && Disconnects(done, |done| - 1) && done[|done| - 1].consumerOpen then [Disconnected] else []
  }

  lemma FarewellOf(done: seq<Step>, step: Step)
    ensures Farewell(done + [step])
         == if Disconnects(done + [step], |done|) && step.consumerOpen then [Disconnected] else []
    ensures Disconnects(done + [step], |done|) ==> EndsAt(done + [step], |done|)
  {
    LastStep(done, step);
  }

  class Worker {
    const stream: EventStream
    var pending: Pending
    var answers: seq<(nat, Answer)>
    var rejected: seq<RequestId>
    var running: bool
    var told: seq<Event>

    /** The table and the answers after the steps in `done`. */
    ghost predicate Matched(done: seq<Step>)
      reads this
    {
      Consistent(done, pending, answers)
    }

    /** The events and rejections after the steps in `done`, behind the events of the handshake. */
    ghost predicate InOrder(handshake: seq<Event>, done: seq<Step>)
      reads this, stream
    {
      && stream.All() == handshake + Surfaced(Items(done)) + told
      && rejected == Unknown(Items(done))
      && told == Farewell(done) && (running ==> told == [])
    }

    constructor (events: EventStream)
      ensures Matched([]) && InOrder(events.All(), []) && running && stream == events
    {
      stream := events;
      pending, answers, rejected, running, told := map[], [], [], true, [];
    }

    /** The loop ends; a consumer that is still there is told that the connection is gone. */
    method Disconnect(consumerOpen: bool)
      requires told == []
      modifies this`running, this`told, stream
      ensures !running && told == if consumerOpen then [Disconnected] else []
      ensures stream.All() == old(stream.All()) + told
    {
      running := false;
      if consumerOpen {
        stream.Push(Disconnected);
        told := [Disconnected];
      }
    }

    /**
     * A request: refused if its id is in flight, else sent.  It is in the table while it is
     * written; when writing fails it is answered and the loop ends.
     */
    method OnRequest(step: Step, ghost handshake: seq<Event>, ghost done: seq<Step>)
      requires Matched(done) && InOrder(handshake, done) && running
      requires IsRequest(step) && !Got(done, step.command.waiter)
      modifies this, stream
      ensures Matched(done + [step]) && InOrder(handshake, done + [step])
      ensures running <==> !EndsAt(done + [step], |done|)
    {
      var id, waiter := step.command.id, step.command.waiter;
      RequestEnds(done, step);
      FarewellOf(done, step);
      CommandsSurfaceNothing(done, step);
      InTable(done, pending, id);
      if id in pending {
        ConsistentDuplicate(done, pending, answers, step);
        answers := answers + [(waiter, DuplicateId)];
        return;
      }
      ghost var before := pending;
      pending := pending[id := waiter];
      if step.writeOk {
        ConsistentWritten(done, before, answers, step);
      } else {
        ConsistentWriteFailed(done, before, answers, step);
        pending := pending - {id};
        assert pending == before;
        answers := answers + [(waiter, WriteFailed)];
        Disconnect(step.consumerOpen);
      }
    }

    method OnOtherCommand(step: Step, ghost handshake: seq<Event>, ghost done: seq<Step>)
      requires Matched(done) && InOrder(handshake, done) && running
      requires step.Received? && !IsRequest(step) && !Got(done, step.command.waiter)
      modifies this
      ensures Matched(done + [step]) && InOrder(handshake, done + [step])
      ensures running <==> !EndsAt(done + [step], |done|)
    {
      LastStep(done, step);
      FarewellOf(done, step);
      CommandsSurfaceNothing(done, step);
      ConsistentCommand(done, pending, answers, step);
      answers := answers + [(step.command.waiter, Written(step.writeOk))];
      running := !step.command.Shutdown?;
    }

    method OnReply(step: Step, ghost handshake: seq<Event>, ghost done: seq<Step>)
      requires Matched(done) && InOrder(handshake, done) && running && IsReply(step)
      modifies this`pending, this`answers
      ensures Matched(done + [step]) && InOrder(handshake, done + [step])
      ensures running && !EndsAt(done + [step], |done|)
    {
      ReplyInOrder(step, handshake, done);
      var id := step.item.id;
      var answer := match step.item case Response(_, result) => Success(result) case ErrorResponse(_, e) => Failure(e);
      ConsistentReply(done, pending, answers, step, answer);
      if id in pending {
        answers := answers + [(pending[id], answer)];
        pending := pending - {id};
      }
    }

    lemma ReplyInOrder(step: Step, handshake: seq<Event>, done: seq<Step>)
      requires InOrder(handshake, done) && running && IsReply(step)
      ensures InOrder(handshake, done + [step]) && !EndsAt(done + [step], |done|)
    {
      LastStep(done, step);
      FarewellOf(done, step);
      ItemsStep(done, step);
    }

    /** Everything else: events, requests with an unknown method, and the ways a connection ends. */
    method OnOther(step: Step, ghost handshake: seq<Event>, ghost done: seq<Step>)
      requires Matched(done) && InOrder(handshake, done) && running && !step.Received? && !IsReply(step)
      modifies this`running, this`rejected, this`told, stream
      ensures Matched(done + [step]) && InOrder(handshake, done + [step])
      ensures running <==> !EndsAt(done + [step], |done|)
    {
      ConsistentIdle(done, pending, answers, step);
      Surface(step, handshake, done);
    }

    method Surface(step: Step, ghost handshake: seq<Event>, ghost done: seq<Step>)
      requires InOrder(handshake, done) && running && !step.Received? && !IsReply(step)
      modifies this`running, this`rejected, this`told, stream
      ensures InOrder(handshake, done + [step])
      ensures running <==> !EndsAt(done + [step], |done|)
    {
      if step.CommandsClosed? {
        LastStep(done, step);
        FarewellOf(done, step);
        ItemsStep(done, step);
        running := false;
      } else if step.item.Notification? || step.item.ServerRequest? {
        OnEvent(step, handshake, done);
      } else {
        OnEnd(step, handshake, done);
      }
    }

    method OnEvent(step: Step, ghost handshake: seq<Event>, ghost done: seq<Step>)
      requires InOrder(handshake, done) && running && step.Wire?
      requires step.item.Notification? || step.item.ServerRequest?
      modifies this`running, this`rejected, this`told, stream
      ensures InOrder(handshake, done + [step])
      ensures running <==> !EndsAt(done + [step], |done|)
    {
      LastStep(done, step);
      FarewellOf(done, step);
      ItemsStep(done, step);
      if step.item.known {
        Deliver(step.item, step.consumerOpen);
      } else if step.item.ServerRequest? {
        rejected := rejected + [step.item.id];
        if !step.writeOk {
          Disconnect(step.consumerOpen);
        }
      }
    }

    method OnEnd(step: Step, ghost handshake: seq<Event>, ghost done: seq<Step>)
      requires InOrder(handshake, done) && running && step.Wire? && !IsReply(step)
      requires !step.item.Notification? && !step.item.ServerRequest?
      modifies this`running, this`told, stream
      ensures InOrder(handshake, done + [step])
      ensures running <==> !EndsAt(done + [step], |done|)
    {
      LastStep(done, step);
      FarewellOf(done, step);
      ItemsStep(done, step);
      match step.item {
        case OtherFrame =>
        case Malformed => Disconnect(step.consumerOpen);
        case CloseFrame => Disconnect(step.consumerOpen);
        case TransportError => Disconnect(step.consumerOpen);
        case EndOfStream => Disconnect(step.consumerOpen);
      }
    }

    /** An event goes to the consumer; without one the worker stops. */
    method Deliver(item: WireItem, consumerOpen: bool)
      requires running && EventOf(item) != []
      modifies this`running, stream
      ensures running == consumerOpen
      ensures stream.All() == old(stream.All()) + if consumerOpen then EventOf(item) else []
    {
      if consumerOpen {
        stream.Push(EventOf(item)[0]);
      } else {
        running := false;
      }
    }

    /** After the loop every request still in the table is told that the channel is closed. */
    method Drain(ghost done: seq<Step>)
      requires Matched(done) && !running && |done| > 0 && EndsAt(done, |done| - 1)
      modifies this`pending, this`answers
      ensures pending == map[]
      ensures OncePerWaiter(done, pending, answers)
      ensures forall a | a in answers :: Justified(done, a.0, a.1)
    {
      while pending != map[]
        invariant OncePerWaiter(done, pending, answers)
        invariant forall id | id in pending :: Waiting(done, id, pending[id])
        invariant forall a | a in answers :: Justified(done, a.0, a.1)
        decreases |pending|
      {
        var id :| id in pending;
        OnceReleased(done, pending, answers, id, ChannelClosed);
        assert Justified(done, pending[id], ChannelClosed);
        answers := answers + [(pending[id], ChannelClosed)];
        pending := pending - {id};
      }
    }

    /** One turn of the loop. */
    method Take(step: Step, ghost handshake: seq<Event>, ghost done: seq<Step>)
      requires Matched(done) && InOrder(handshake, done) && running
      requires step.Received? ==> !Got(done, step.command.waiter)
      modifies this, stream
      ensures Matched(done + [step]) && InOrder(handshake, done + [step])
      ensures running <==> !EndsAt(done + [step], |done|)
    {
      if step.Received? {
        if step.command.Request? {
          OnRequest(step, handshake, done);
        } else {
          OnOtherCommand(step, handshake, done);
        }
      } else if IsReply(step) {
        OnReply(step, handshake, done);
      } else {
        OnOther(step, handshake, done);
      }
    }

    /** One turn, the consumer having read any number of events before it. */
    method Turn(steps: seq<Step>, n: nat, ghost handshake: seq<Event>)
      requires FreshWaiters(steps) && n < |steps|
      requires Matched(steps[..n]) && InOrder(handshake, steps[..n]) && running
      modifies this, stream
      ensures Matched(steps[..n + 1]) && InOrder(handshake, steps[..n + 1])
      ensures running <==> !EndsAt(steps, n)
    {
      var polls: nat :| true;
      stream.Poll(polls);
      StepIsFresh(steps, n);
      Take(steps[n], handshake, steps[..n]);
      PrefixEnds(steps, n + 1);
    }

    /** The `select!` loop. */
    method Loop(steps: seq<Step>, ghost handshake: seq<Event>) returns (taken: nat)
      requires Matched([]) && InOrder(handshake, []) && running && FreshWaiters(steps)
      modifies this, stream
      ensures taken <= |steps| && Matched(steps[..taken]) && InOrder(handshake, steps[..taken])
      ensures forall k | 0 <= k < taken && (running || k < taken - 1) :: !EndsAt(steps, k)
      ensures if running then taken == |steps| else 0 < taken && EndsAt(steps, taken - 1)
    {
      taken := 0;
      while running && taken < |steps|
        invariant taken <= |steps|
        invariant Matched(steps[..taken]) && InOrder(handshake, steps[..taken])
        invariant forall k | 0 <= k < taken && (running || k < taken - 1) :: !EndsAt(steps, k)
        invariant !running ==> 0 < taken && EndsAt(steps, taken - 1)
        decreases |steps| - taken
      {
        Turn(steps, taken, handshake);
        taken := taken + 1;
      }
    }

    /**
     * The worker's task.  When the loop has ended each waiter received has had exactly one
     * answer, one that it was owed.
     */
    method Run(steps: seq<Step>, ghost handshake: seq<Event>) returns (taken: nat)
      requires Matched([]) && InOrder(handshake, []) && running && FreshWaiters(steps)
      modifies this, stream
      ensures taken <= |steps| && RunsOn(steps[..taken]) && InOrder(handshake, steps[..taken])
      ensures running ==> taken == |steps| && Matched(steps) && forall k | 0 <= k < taken :: !EndsAt(steps, k)
      ensures !running ==>
        && 0 < taken && EndsAt(steps[..taken], taken - 1)
        && pending == map[]
        && (forall w: nat :: Times(answers, w) == if Got(steps[..taken], w) then 1 else 0)
        && forall a | a in answers :: Justified(steps[..taken], a.0, a.1)
    {
      taken := Loop(steps, handshake);
      assert steps[..|steps|] == steps;
      PrefixEnds(steps, taken);
      if !running {
        Drain(steps[..taken]);
        forall w: nat ensures Times(answers, w) == if Got(steps[..taken], w) then 1 else 0 {
          assert !Holds(pending, w);
        }
      }
    }
  }

  // ---------------------------------------------------------------------------------------
  // The handshake, and both together
  // ---------------------------------------------------------------------------------------

  const INITIALIZE_ID: RequestId := StringId("initialize")

  datatype ConnectError =
    | HandshakeWriteFailed
    | InvalidResponse
    | Rejected(error: int)
    | Closed
    | TransportFailed
    | UnexpectedEof
    | TimedOut

  /** A wire item read during the handshake, and whether a write that it calls for succeeds. */
  datatype Read = Read(item: WireItem, writeOk: bool)

  /** The first such item ends the handshake. */
  predicate Decides(read: Read) {
    match read.item
    case Response(id, _) => id == INITIALIZE_ID
    case ErrorResponse(id, _) => id == INITIALIZE_ID
    case ServerRequest(_, _, known) => !known && !read.writeOk
    case Notification(_, _) => false
    case OtherFrame => false
    case _ => true
  }

  /** The handshake is decided by the reply to the request `initialize`, and by no other reply. */
  lemma HandshakeReply(read: Read)
    requires read.item.Response? || read.item.ErrorResponse?
    ensures Decides(read) <==> read.item.id == StringId("initialize")
  {
  }

  function Decision(read: Read): Option<ConnectError>
    requires Decides(read)
  {
    match read.item
    case Response(_, _) => None
    case ErrorResponse(_, error) => Some(Rejected(error))
    case ServerRequest(_, _, _) => Some(HandshakeWriteFailed)
    case Malformed => Some(InvalidResponse)
    case CloseFrame => Some(Closed)
    case TransportError => Some(TransportFailed)
    case EndOfStream => Some(UnexpectedEof)
  }

  function ReadItem(read: Read): seq<WireItem> {
    [read.item]
  }

  function ReadItems(incoming: seq<Read>): seq<WireItem> {
    FlatMap(ReadItem, incoming)
  }

  lemma ReadItemsStep(before: seq<Read>, read: Read)
    ensures Surfaced(ReadItems(before + [read])) == Surfaced(ReadItems(before)) + EventOf(read.item)
    ensures Unknown(ReadItems(before + [read])) == Unknown(ReadItems(before)) + UnknownOf(read.item)
  {
    FlatMapAppend(ReadItem, before, read);
    FlatMapAppend(EventOf, ReadItems(before), read.item);
    FlatMapAppend(UnknownOf, ReadItems(before), read.item);
  }

  /**
   * `initialize_remote_connection`, where running out of items to read is the timeout: it reads
   * up to the first item that decides, keeping the events on the way.
   */
  method InitializeRemoteConnection(requestWritten: bool, incoming: seq<Read>, initializedWritten: bool)
      returns (r: Result<seq<Event>, ConnectError>, rejected: seq<RequestId>, taken: nat)
    ensures taken <= |incoming| && rejected == Unknown(ReadItems(incoming[..taken]))
    ensures forall k | 0 <= k < taken - 1 :: !Decides(incoming[k])
    ensures requestWritten && taken < |incoming| ==> 0 < taken && Decides(incoming[taken - 1])
    ensures !requestWritten ==> taken == 0
    ensures r ==
      (if !requestWritten then Err(HandshakeWriteFailed)
       else if taken == 0 || !Decides(incoming[taken - 1]) then Err(TimedOut)
       else match Decision(incoming[taken - 1])
            case Some(e) => Err(e)
            case None =>
              if initializedWritten then Ok(Surfaced(ReadItems(incoming[..taken]))) else Err(HandshakeWriteFailed))
  {
    rejected, taken := [], 0;
    if !requestWritten {
      return Err(HandshakeWriteFailed), rejected, taken;
    }
    var pendingEvents := [];
    var outcome: Option<Option<ConnectError>> := None;
    while outcome.None? && taken < |incoming|
      invariant taken <= |incoming|
      invariant rejected == Unknown(ReadItems(incoming[..taken]))
      invariant pendingEvents == Surfaced(ReadItems(incoming[..taken]))
      invariant forall k | 0 <= k < taken && (outcome.None? || k < taken - 1) :: !Decides(incoming[k])
      invariant outcome.Some? ==>
        0 < taken && Decides(incoming[taken - 1]) && outcome.value == Decision(incoming[taken - 1])
      decreases |incoming| - taken
    {
      var read := incoming[taken];
      assert incoming[..taken + 1] == incoming[..taken] + [read];
      ReadItemsStep(incoming[..taken], read);
      match read.item {
        case Response(id, _) =>
          if id == INITIALIZE_ID {
            outcome := Some(None);
          }
        case ErrorResponse(id, error) =>
          if id == INITIALIZE_ID {
            outcome := Some(Some(Rejected(error)));
          }
        case Notification(payload, known) =>
          if known {
            pendingEvents := pendingEvents + [NotificationEvent(payload)];
          }
        case ServerRequest(id, payload, known) =>
          if known {
            pendingEvents := pendingEvents + [RequestEvent(id, payload)];
          } else {
            rejected := rejected + [id];
            if !read.writeOk {
              outcome := Some(Some(HandshakeWriteFailed));
            }
          }
        case OtherFrame =>
        case Malformed => outcome := Some(Some(InvalidResponse));
        case CloseFrame => outcome := Some(Some(Closed));
        case TransportError => outcome := Some(Some(TransportFailed));
        case EndOfStream => outcome := Some(Some(UnexpectedEof));
      }
      taken := taken + 1;
    }
    match outcome
    case None => r := Err(TimedOut);
    case Some(Some(e)) => r := Err(e);
    case Some(None) => r := if initializedWritten then Ok(pendingEvents) else Err(HandshakeWriteFailed);
  }

  /**
   * A connection from its first byte to the last step of its worker.  What the consumer has read
   * is a prefix of the events in wire order, those of the handshake first, then at most one
   * `Disconnected`; every request with an unknown method had its one rejection, in wire order.
   */
  method RunConnection(requestWritten: bool, incoming: seq<Read>, initializedWritten: bool, steps: seq<Step>)
      returns (r: Result<Worker, ConnectError>, rejected: seq<RequestId>, read: nat, taken: nat)
    requires FreshWaiters(steps)
    ensures read <= |incoming| && taken <= |steps|
    ensures rejected == Unknown(ReadItems(incoming[..read]) + Items(steps[..taken]))
    ensures match r
      case Err(_) => taken == 0
      case Ok(worker) =>
        && worker.stream.All()
           == Surfaced(ReadItems(incoming[..read]) + Items(steps[..taken])) + worker.told
        && worker.stream.returned <= worker.stream.All()
        && worker.told == Farewell(steps[..taken])
        && (worker.running ==> taken == |steps|)
        && (!worker.running ==>
              && 0 < taken && EndsAt(steps[..taken], taken - 1)
              && (forall w: nat :: Times(worker.answers, w) == if Got(steps[..taken], w) then 1 else 0)
              && forall a | a in worker.answers :: Justified(steps[..taken], a.0, a.1))
  {
    taken := 0;
    var handshake;
    handshake, rejected, read := InitializeRemoteConnection(requestWritten, incoming, initializedWritten);
    ghost var first := ReadItems(incoming[..read]);
    if handshake.Err? {
      assert first + Items(steps[..0]) == first;
      return Err(handshake.error), rejected, read, taken;
    }
    var stream := new EventStream(handshake.value);
    var worker := new Worker(stream);
    taken := worker.Run(steps, handshake.value);
    FlatMapConcat(EventOf, first, Items(steps[..taken]));
    FlatMapConcat(UnknownOf, first, Items(steps[..taken]));
    rejected := rejected + worker.rejected;
    r := Ok(worker);
  }
}
