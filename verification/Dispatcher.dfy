/**
 The scheduler worker. Handling a message is a pipeline of remote calls with early
 exits; the phases below are its control flow, one remote answer per step, so that
 other workers can be interleaved between any two calls. The class is the worker's
 own sequential code, proved to walk those phases.
 */
module Dispatcher {
  import opened Common
  import opened Fulfillment
  import opened StationSelector
  import opened Backoff
  import Text
  import Message
  import Idempotency
  import Kds

  datatype Config = Config(maxAttempts: int, backoffBase: int, backoffMax: int)

  datatype Reason =
    | TaskNotReady | NoDispatchCandidates | KitchenServiceUnavailable | FulfillmentServiceUnavailable
    | KdsDeliveryFailed | MarkDisplayedFailed

  // What each remote call may answer; a lost reply and an error status are the same to the worker.
  datatype SnapshotAnswer = NoSuchTask | SnapshotFailed | Snapshot(status: TaskStatus)
  datatype ReadinessAnswer = ReadinessFailed | ReadinessKnown(ready: bool)
  datatype DeliverAnswer = DeliverFailed | DeliverConflict | DeliveredAs(kdsTask: KdsId)
  datatype MarkAnswer = MarkFailed | MarkConflict | Marked

  datatype Verdict = Dispatched | Stale | NotNow(reason: Reason)

  datatype Phase =
    | AskSnapshot
    | AskReadiness
    | AskCandidates
    | Deliver(station: StationId)
    | Mark(station: StationId, kdsTask: Option<KdsId>)
    | Conclude(verdict: Verdict)

  predicate IsDispatchable(s: TaskStatus) { s in {Queued, Retrying} }

  predicate IsTerminal(s: TaskStatus) { s in {Displayed, InProgress, Done, Cancelled, Failed} }

  function AfterSnapshot(a: SnapshotAnswer): Phase {
    match a
    case NoSuchTask => Conclude(Stale)
    case SnapshotFailed => Conclude(NotNow(FulfillmentServiceUnavailable))
    case Snapshot(status) =>
      if IsTerminal(status) then Conclude(Stale)
      else if !IsDispatchable(status) then Conclude(NotNow(TaskNotReady))
      else AskReadiness
  }

  function AfterReadiness(a: ReadinessAnswer): Phase {
    match a
    case ReadinessFailed => Conclude(NotNow(FulfillmentServiceUnavailable))
    case ReadinessKnown(ready) => if ready then AskCandidates else Conclude(NotNow(TaskNotReady))
  }

  function AfterCandidates(choice: Option<StationId>): Phase {
    if choice.Some? then Deliver(choice.value) else Conclude(NotNow(NoDispatchCandidates))
  }

  /** A refusal with status 409 is taken for success, with an empty row identifier. */
  function AfterDeliver(station: StationId, a: DeliverAnswer): Phase {
    match a
    case DeliverFailed => Conclude(NotNow(KdsDeliveryFailed))
    case DeliverConflict => Mark(station, None)
    case DeliveredAs(k) => Mark(station, Some(k))
  }

  function AfterMark(a: MarkAnswer): Phase {
    if a.MarkFailed? then Conclude(NotNow(MarkDisplayedFailed)) else Conclude(Dispatched)
  }

  // ----- retry or dead letter -----

  datatype Disposal = Absorbed | DeadLettered(reason: Reason) | RetryLater(attempt: int, delay: int)

  function Dispose(config: Config, attempt: int, verdict: Verdict): Disposal {
    match verdict
    case Dispatched => Absorbed
    case Stale => Absorbed
    case NotNow(reason) =>
      if attempt >= config.maxAttempts then DeadLettered(reason)
      else RetryLater(attempt + 1, Doubled(config.backoffBase, config.backoffMax, Tries(attempt)))
  }

  // ----- one message against one world -----

  datatype CandidatesAnswer = CandidatesFailed | CandidatesKnown(list: seq<DispatchCandidate>)

  /** What every call would answer if it were made. */
  datatype World = World(snapshot: SnapshotAnswer, readiness: ReadinessAnswer, candidates: CandidatesAnswer,
                         deliver: DeliverAnswer, mark: MarkAnswer)

  datatype Call =
    | GetSnapshot(task: TaskId)
    | GetReadiness(task: TaskId)
    | GetCandidates(kitchen: KitchenId, stationType: string)
    | DeliverTask(station: StationId, delivery: Kds.Delivery)
    | MarkDisplayed(task: TaskId, station: StationId, kdsTask: Option<KdsId>)
    | DispatchFailed(task: TaskId, reason: Reason, attempts: int)

  function ChosenStation(candidates: seq<DispatchCandidate>): Option<StationId> {
    match Choose(candidates) case None => None case Some(c) => Some(c.station)
  }

  function Next(world: World, phase: Phase): Phase {
    match phase
    case AskSnapshot => AfterSnapshot(world.snapshot)
    case AskReadiness => AfterReadiness(world.readiness)
    case AskCandidates =>
      (match world.candidates
       case CandidatesFailed => Conclude(NotNow(KitchenServiceUnavailable))
       case CandidatesKnown(list) => AfterCandidates(ChosenStation(list)))
    case Deliver(station) => AfterDeliver(station, world.deliver)
    case Mark(_, _) => AfterMark(world.mark)
    case Conclude(_) => phase
  }

  /** What the worker asks the kitchen service to show. */
  function DeliveryFor(m: Message.TaskMessage): Kds.Delivery {
    Kds.Delivery(m.taskID, m.orderID, m.kitchenID, m.stationType, m.operation, m.estimatedDurationSeconds,
                 Idempotency.KDSIdempotencyKey(m.taskID))
  }

  function CallOf(m: Message.TaskMessage, phase: Phase): seq<Call> {
    match phase
    case AskSnapshot => [GetSnapshot(m.taskID)]
    case AskReadiness => [GetReadiness(m.taskID)]
    case AskCandidates => [GetCandidates(m.kitchenID, m.stationType)]
    case Deliver(station) => [DeliverTask(station, DeliveryFor(m))]
    case Mark(station, k) => [MarkDisplayed(m.taskID, station, k)]
    case Conclude(_) => []
  }

  function Remaining(phase: Phase): nat {
    match phase
    case AskSnapshot => 5
    case AskReadiness => 4
    case AskCandidates => 3
    case Deliver(_) => 2
    case Mark(_, _) => 1
    case Conclude(_) => 0
  }

  /** The calls made from a phase on. */
  function Trace(world: World, m: Message.TaskMessage, phase: Phase): seq<Call>
    decreases Remaining(phase)
  {
    if phase.Conclude? then [] else CallOf(m, phase) + Trace(world, m, Next(world, phase))
  }

  function VerdictOf(world: World, phase: Phase): Verdict
    decreases Remaining(phase)
  {
    if phase.Conclude? then phase.verdict else VerdictOf(world, Next(world, phase))
  }

  lemma Unfold(world: World, m: Message.TaskMessage, phase: Phase)
    ensures phase.Conclude? ==> Trace(world, m, phase) == [] && VerdictOf(world, phase) == phase.verdict
    ensures !phase.Conclude? ==>
              && Trace(world, m, phase) == CallOf(m, phase) + Trace(world, m, Next(world, phase))
              && VerdictOf(world, phase) == VerdictOf(world, Next(world, phase))
  {
  }

  /** What goes to the dead-letter stream of the task's station type when the attempts are used up. */
  function LastLetter(m: Message.TaskMessage, reason: Reason): DeadLetter {
    DeadLetter(Message.DLQStream(m.kitchenID, m.stationType), Message.ValuesWithAttempt(m, m.attempt), Some(reason))
  }

  datatype DeadLetter = DeadLetter(stream: string, values: Message.Values, reason: Option<Reason>)

  class Worker {
    const config: Config
    var calls: seq<Call>
    var acked: seq<string>
    var requeued: seq<(string, Message.Values)>
    var slept: seq<int>
    var deadLetters: seq<DeadLetter>

    constructor (config: Config)
      ensures this.config == config
      ensures calls == [] && acked == [] && requeued == [] && slept == [] && deadLetters == []
    {
      this.config := config;
      calls, acked, requeued, slept, deadLetters := [], [], [], [], [];
    }

    /** One message: it is always acknowledged once, and in the same breath either left
        absorbed, put on the dead-letter stream once, or put back once with the next attempt. */
    method Handle(stream: string, id: string, values: Message.Values, world: World)
      requires Int64(config.backoffBase) && Int64(config.backoffMax)
      modifies this
      ensures acked == old(acked) + [id]
      ensures Message.ParseTaskMessage(values).Invalid? ==>
                && calls == old(calls) && requeued == old(requeued) && slept == old(slept)
                && deadLetters == old(deadLetters) + [DeadLetter(stream + Message.DLQ_SUFFIX, values, None)]
      ensures Message.ParseTaskMessage(values).Message? ==>
                var m := Message.ParseTaskMessage(values).value;
                var verdict := VerdictOf(world, AskSnapshot);
                if !verdict.NotNow? then
                  && calls == old(calls) + Trace(world, m, AskSnapshot)
                  && requeued == old(requeued) && slept == old(slept) && deadLetters == old(deadLetters)
                else if m.attempt >= config.maxAttempts then
                  && calls == old(calls) + Trace(world, m, AskSnapshot)
                                + [DispatchFailed(m.taskID, verdict.reason, m.attempt)]
                  && requeued == old(requeued) && slept == old(slept)
                  && deadLetters == old(deadLetters) + [LastLetter(m, verdict.reason)]
                else
                  && calls == old(calls) + Trace(world, m, AskSnapshot)
                  && requeued == old(requeued) + [(stream, Message.ValuesWithAttempt(m, m.attempt + 1))]
                  && slept == old(slept) + [Doubled(config.backoffBase, config.backoffMax, m.attempt - 1)]
                  && deadLetters == old(deadLetters)
    {
      hide VerdictOf, Trace, LastLetter, Doubled, Message.ParseTaskMessage, Message.ValuesWithAttempt;
      var parsed := Message.ParseTaskMessage(values);
      if parsed.Invalid? {
        deadLetters := deadLetters + [DeadLetter(stream + Message.DLQ_SUFFIX, values, None)];
        acked := acked + [id];
        return;
      }
      Message.AttemptIsPositive(values);
      var verdict := Dispatch(parsed.value, world);
      if verdict.NotNow? {
        RetryOrDLQ(stream, id, parsed.value, verdict.reason);
      } else {
        acked := acked + [id];
      }
    }

    /** The remote calls of one message, in order, up to the first that ends it. */
    method Dispatch(m: Message.TaskMessage, world: World) returns (verdict: Verdict)
      modifies this`calls
      ensures calls == old(calls) + Trace(world, m, AskSnapshot)
      ensures verdict == VerdictOf(world, AskSnapshot)
    {
      Unfold(world, m, AskSnapshot);
      hide Trace, VerdictOf;
      calls := calls + [GetSnapshot(m.taskID)];
      if world.snapshot.NoSuchTask? {
        Unfold(world, m, Conclude(Stale));
        return Stale;
      }
      if world.snapshot.SnapshotFailed? {
        Unfold(world, m, Conclude(NotNow(FulfillmentServiceUnavailable)));
        return NotNow(FulfillmentServiceUnavailable);
      }
      if IsTerminal(world.snapshot.status) {
        Unfold(world, m, Conclude(Stale));
        return Stale;
      }
      if !IsDispatchable(world.snapshot.status) {
        Unfold(world, m, Conclude(NotNow(TaskNotReady)));
        return NotNow(TaskNotReady);
      }

      Unfold(world, m, AskReadiness);
      calls := calls + [GetReadiness(m.taskID)];
      if world.readiness.ReadinessFailed? {
        Unfold(world, m, Conclude(NotNow(FulfillmentServiceUnavailable)));
        return NotNow(FulfillmentServiceUnavailable);
      }
      if !world.readiness.ready {
        Unfold(world, m, Conclude(NotNow(TaskNotReady)));
        return NotNow(TaskNotReady);
      }

      Unfold(world, m, AskCandidates);
      calls := calls + [GetCandidates(m.kitchenID, m.stationType)];
      if world.candidates.CandidatesFailed? {
        Unfold(world, m, Conclude(NotNow(KitchenServiceUnavailable)));
        return NotNow(KitchenServiceUnavailable);
      }
      var choice := SelectStation(world.candidates.list);
      if choice.None? {
        Unfold(world, m, Conclude(NotNow(NoDispatchCandidates)));
        return NotNow(NoDispatchCandidates);
      }
      var station := choice.value.station;

      Unfold(world, m, Deliver(station));
      calls := calls + [DeliverTask(station, Kds.Delivery(
        m.taskID, m.orderID, m.kitchenID, m.stationType, m.operation, m.estimatedDurationSeconds,
        Idempotency.KDSIdempotencyKey(m.taskID)))];
      if world.deliver.DeliverFailed? {
        Unfold(world, m, Conclude(NotNow(KdsDeliveryFailed)));
        return NotNow(KdsDeliveryFailed);
      }
      var kdsTask := if world.deliver.DeliverConflict? then None else Some(world.deliver.kdsTask);

      Unfold(world, m, Mark(station, kdsTask));
      calls := calls + [MarkDisplayed(m.taskID, station, kdsTask)];
      if world.mark.MarkFailed? {
        Unfold(world, m, Conclude(NotNow(MarkDisplayedFailed)));
        return NotNow(MarkDisplayedFailed);
      }
      Unfold(world, m, Conclude(Dispatched));
      return Dispatched;
    }

    method RetryOrDLQ(stream: string, id: string, m: Message.TaskMessage, reason: Reason)
      requires Int64(config.backoffBase) && Int64(config.backoffMax)
      modifies this
      ensures acked == old(acked) + [id]
      ensures m.attempt >= config.maxAttempts ==>
                && deadLetters == old(deadLetters) + [LastLetter(m, reason)]
                && calls == old(calls) + [DispatchFailed(m.taskID, reason, m.attempt)]
                && requeued == old(requeued) && slept == old(slept)
      ensures m.attempt < config.maxAttempts ==>
                && requeued == old(requeued) + [(stream, Message.ValuesWithAttempt(m, m.attempt + 1))]
                && slept == old(slept) + [Doubled(config.backoffBase, config.backoffMax, Max(0, m.attempt - 1))]
                && deadLetters == old(deadLetters) && calls == old(calls)
    {
      if m.attempt >= config.maxAttempts {
        deadLetters := deadLetters + [LastLetter(m, reason)];
        calls := calls + [DispatchFailed(m.taskID, reason, m.attempt)];
        acked := acked + [id];
        return;
      }
      var delay := Backoff.Backoff(m.attempt, config.backoffBase, config.backoffMax);
      slept := slept + [delay];
      requeued := requeued + [(stream, Message.ValuesWithAttempt(m, m.attempt + 1))];
      acked := acked + [id];
    }
  }

  // ----- what a message's handling means -----

  // How far the calls get in a world: the task may be dispatched, it is ready, a candidate fits, it is delivered.

  predicate MayDispatch(world: World) {
    world.snapshot == Snapshot(Queued) || world.snapshot == Snapshot(Retrying)
  }

  predicate IsReady(world: World) { MayDispatch(world) && world.readiness == ReadinessKnown(true) }

  predicate HasStation(world: World) {
    IsReady(world) && world.candidates.CandidatesKnown? && !NoneFits(world.candidates.list)
  }

  predicate IsDelivered(world: World) { HasStation(world) && !world.deliver.DeliverFailed? }

  /** The phases a message goes through in a world, one after the other. */
  lemma PhasesOf(world: World) returns (s: Phase, r: Phase, c: Phase, d: Phase, e: Phase)
    ensures s == Next(world, AskSnapshot) && r == Next(world, s) && c == Next(world, r) && d == Next(world, c)
    ensures e == Next(world, d) && e.Conclude? && VerdictOf(world, AskSnapshot) == e.verdict
  {
    s := Next(world, AskSnapshot);
    r := Next(world, s);
    c := Next(world, r);
    d := Next(world, c);
    e := Next(world, d);
    assert VerdictOf(world, AskSnapshot) == VerdictOf(world, s) == VerdictOf(world, r);
    assert VerdictOf(world, r) == VerdictOf(world, c) == VerdictOf(world, d) == VerdictOf(world, e);
  }

  /** A message counts as dispatched exactly when every call of the pipeline went through. */
  lemma DispatchedExactlyWhen(world: World)
    ensures VerdictOf(world, AskSnapshot) == Dispatched <==> IsDelivered(world) && !world.mark.MarkFailed?
  {
    hide VerdictOf;
    var s, r, c, d, e := PhasesOf(world);
    if world.candidates.CandidatesKnown? { ChoosesUnlessNoneFits(world.candidates.list); }
  }

  /** A message is dropped as stale exactly when its task does not exist or is past dispatching. */
  lemma StaleExactlyWhen(world: World)
    ensures VerdictOf(world, AskSnapshot) == Stale <==>
              || world.snapshot.NoSuchTask?
              || (world.snapshot.Snapshot? && world.snapshot.status in {Displayed, InProgress, Done, Cancelled, Failed})
  {
    hide VerdictOf;
    var s, r, c, d, e := PhasesOf(world);
  }

  lemma SomeStatus(status: TaskStatus)
    ensures status == Created || IsDispatchable(status) || IsTerminal(status)
  {
    assert status.Created? || status.Queued? || status.Retrying? || IsTerminal(status);
  }

  /** Why a message is not dispatched now: the first call that did not let it through. */
  lemma NotNowExactlyWhen(world: World)
    ensures var verdict := VerdictOf(world, AskSnapshot);
            && (verdict == NotNow(TaskNotReady) <==>
                  || world.snapshot == Snapshot(Created)
                  || (MayDispatch(world) && world.readiness == ReadinessKnown(false)))
            && (verdict == NotNow(FulfillmentServiceUnavailable) <==>
                  world.snapshot.SnapshotFailed? || (MayDispatch(world) && world.readiness.ReadinessFailed?))
            && (verdict == NotNow(KitchenServiceUnavailable) <==>
                  IsReady(world) && world.candidates.CandidatesFailed?)
            && (verdict == NotNow(NoDispatchCandidates) <==>
                  IsReady(world) && world.candidates.CandidatesKnown? && NoneFits(world.candidates.list))
            && (verdict == NotNow(KdsDeliveryFailed) <==> HasStation(world) && world.deliver.DeliverFailed?)
            && (verdict == NotNow(MarkDisplayedFailed) <==> IsDelivered(world) && world.mark.MarkFailed?)
  {
    hide VerdictOf;
    if world.snapshot.Snapshot? { SomeStatus(world.snapshot.status); }
    assert world.readiness.ReadinessKnown? ==> world.readiness == ReadinessKnown(world.readiness.ready);
    var s, r, c, d, e := PhasesOf(world);
    if world.candidates.CandidatesKnown? { ChoosesUnlessNoneFits(world.candidates.list); }
  }

  /** The calls made for a message, each exactly when all before it let it through, with its arguments. */
  lemma CallsExactly(world: World, m: Message.TaskMessage)
    ensures var calls := Trace(world, m, AskSnapshot);
            && |calls| == (if IsDelivered(world) then 5 else if HasStation(world) then 4
                           else if IsReady(world) then 3 else if MayDispatch(world) then 2 else 1)
            && calls[0] == GetSnapshot(m.taskID)
            && (MayDispatch(world) ==> calls[1] == GetReadiness(m.taskID))
            && (IsReady(world) ==> calls[2] == GetCandidates(m.kitchenID, m.stationType))
            && (HasStation(world) ==>
                  && Choose(world.candidates.list).Some?
                  && calls[3] == DeliverTask(
                       Choose(world.candidates.list).value.station,
                       Kds.Delivery(m.taskID, m.orderID, m.kitchenID, m.stationType, m.operation,
                                    m.estimatedDurationSeconds, m.taskID + ":dispatch:v1")))
            && (IsDelivered(world) ==>
                  calls[4] == MarkDisplayed(
                       m.taskID, Choose(world.candidates.list).value.station,
                       if world.deliver.DeliverConflict? then None else Some(world.deliver.kdsTask)))
  {
    var s := Next(world, AskSnapshot);
    var r := Next(world, s);
    var c := Next(world, r);
    var d := Next(world, c);
    if world.candidates.CandidatesKnown? { ChoosesUnlessNoneFits(world.candidates.list); }
    assert Trace(world, m, AskSnapshot) == CallOf(m, AskSnapshot) + Trace(world, m, s);
    assert !s.Conclude? ==> Trace(world, m, s) == CallOf(m, s) + Trace(world, m, r);
    assert !r.Conclude? ==> Trace(world, m, r) == CallOf(m, r) + Trace(world, m, c);
    assert !c.Conclude? ==> Trace(world, m, c) == CallOf(m, c) + Trace(world, m, d);
    assert !d.Conclude? ==> Trace(world, m, d) == CallOf(m, d);
  }

  /** The last letter of a message goes to a stream no worker reads, and still reads as the message itself. */
  lemma LastLetterReads(values: Message.Values, reason: Reason)
    requires Message.ParseTaskMessage(values).Message?
    ensures var m := Message.ParseTaskMessage(values).value;
            var letter := LastLetter(m, reason);
            && letter.stream == "stream:kitchen:" + m.kitchenID + ":station:" + m.stationType + ":dlq"
            && !Message.Dispatchable(letter.stream)
            && Message.ReadsAs(letter.values, m, m.attempt) && letter.reason == Some(reason)
  {
    hide Message.ParseTaskMessage, Message.Dispatchable, Message.ValuesWithAttempt, Text.Itoa;
    Message.AttemptIsPositive(values);
    var m := Message.ParseTaskMessage(values).value;
    Message.DeadLettersAreNotRead("", m.kitchenID, m.stationType);
    Message.RetryRoundTrip(values, m.attempt);
  }

  /** Nothing is delivered unless the task was dispatchable and ready when asked, the station
      is the best of the reported candidates, and the key is the task's own. */
  lemma DeliversOnlyWhenReady(world: World, m: Message.TaskMessage, call: Call)
    requires call in Trace(world, m, AskSnapshot) && call.DeliverTask?
    requires world.candidates.CandidatesKnown? ==> DistinctStations(world.candidates.list)
    ensures world.snapshot.Snapshot? && IsDispatchable(world.snapshot.status) && world.readiness == ReadinessKnown(true)
    ensures world.candidates.CandidatesKnown? && Choose(world.candidates.list).Some?
    ensures var best := Choose(world.candidates.list).value;
            call.station == best.station && Best(world.candidates.list, best)
    ensures call.delivery.task == m.taskID && call.delivery.key == m.taskID + ":dispatch:v1"
  {
    var s := Next(world, AskSnapshot);
    var r := Next(world, s);
    var c := Next(world, r);
    var d := Next(world, c);
    assert Trace(world, m, AskSnapshot) == CallOf(m, AskSnapshot) + Trace(world, m, s);
    assert !s.Conclude? ==> Trace(world, m, s) == CallOf(m, s) + Trace(world, m, r);
    assert !r.Conclude? ==> Trace(world, m, r) == CallOf(m, r) + Trace(world, m, c);
    assert !c.Conclude? ==> Trace(world, m, c) == CallOf(m, c) + Trace(world, m, d);
    assert !d.Conclude? ==> Trace(world, m, d) == CallOf(m, d);
    if world.candidates.CandidatesKnown? { ChooseIsBest(world.candidates.list); }
  }

  /** What a retry puts back reads as the same task on the next attempt. */
  lemma RequeuedReadsBack(config: Config, values: Message.Values, world: World)
    requires Message.ParseTaskMessage(values).Message? && config.maxAttempts <= Text.MAX_INT64
    requires var m := Message.ParseTaskMessage(values).value;
             Dispose(config, m.attempt, VerdictOf(world, AskSnapshot)).RetryLater?
    ensures var m := Message.ParseTaskMessage(values).value;
            var d := Dispose(config, m.attempt, VerdictOf(world, AskSnapshot));
            var again := Message.ValuesWithAttempt(m, d.attempt);
            && Message.ReadsAs(again, m, m.attempt + 1)
            && d.attempt <= config.maxAttempts
  {
    hide VerdictOf;
    Message.RetryRoundTrip(values, Message.ParseTaskMessage(values).value.attempt + 1);
  }
}
