/**
 The four services together, as one transition system. A state holds the tables of
 both databases, the task stream, every handler that is between two steps, and all
 requests and replies ever sent. Requests and replies are never removed: a request
 can be served late, never, or again, and a reply can be lost or received late, so
 everything proved here holds for every behaviour of the network.

 An event that is not possible in a state leaves it unchanged, so every sequence of
 events is a run.
 */
module Protocol {
  import opened Common
  import opened Idempotency
  import F = Fulfillment
  import K = Kds
  import D = Dispatcher
  import B = TaskBuilder
  import C = Candidates
  import Message

  // ----- the stream -----

  datatype Fate = Dispatched | Stale | DeadLettered(reason: D.Reason) | Requeued

  /** Where an entry is: unread, with the worker that read it, waiting to be put back, or done with. */
  datatype Stage = Queued | Working(phase: D.Phase) | Sleeping(attempt: int, delay: int) | Closed(fate: Fate)

  // An entry and the worker handling it share their number; root is the entry first
  // published for the message and slept the time its earlier copies waited in all.
  datatype Entry = Entry(
    task: TaskId, order: OrderId, kitchen: KitchenId, stationType: string, operation: string, estimated: int,
    attempt: int, root: nat, slept: int, stage: Stage)

  // ----- handlers between their transactions -----

  datatype ClaimPhase = Starting | StartFailed | Started | Withdrawn
  datatype Claim = Claim(station: StationId, task: TaskId, worker: WorkerId, at: Time, row: KdsId, phase: ClaimPhase)

  datatype CompletionPhase = Completing | Accepted | Finished | Abandoned
  datatype Completion = Completion(
    station: StationId, task: TaskId, worker: WorkerId, at: Time, row: KdsId, phase: CompletionPhase)

  datatype PublisherPhase = Publishing | Aborted | AllQueued
  datatype Publisher = Publisher(tasks: seq<TaskId>, published: seq<F.Published>, phase: PublisherPhase)

  // ----- messages between the services, tagged with the handler that waits for the reply -----

  datatype Request =
    | DeliverReq(entry: nat, station: StationId, delivery: K.Delivery)
    | MarkReq(entry: nat, task: TaskId, station: StationId, shown: Option<KdsId>, at: Time)
    | FailedReq(task: TaskId, attempts: int)
    | StartReq(claim: nat, task: TaskId, station: StationId, row: KdsId, at: Time)
    | CompleteReq(completion: nat, task: TaskId, station: StationId, row: KdsId, at: Time)

  datatype Response =
    | DeliverRsp(entry: nat, deliver: D.DeliverAnswer)
    | MarkRsp(entry: nat, mark: D.MarkAnswer)
    | StartRsp(claim: nat, ok: bool)
    | CompleteRsp(completion: nat, ok: bool)

  datatype Sys = Sys(
    f: F.Db,
    k: K.Db,
    peak: map<StationId, int>,
    publishers: map<OrderId, Publisher>,
    entries: seq<Entry>,
    claims: seq<Claim>,
    completions: seq<Completion>,
    requests: set<Request>,
    missed: set<Request>,
    responses: set<Response>)

  const INIT := Sys(F.Db(map[], map[], {}), K.Db(map[], []), map[], map[], [], [], [], {}, {}, {})

  datatype Event =
    // administration
    | AddStation(id: StationId, kitchen: KitchenId, stationType: string, capacity: int, limit: int)
    | ChangeCapacity(id: StationId, capacity: int)
    | ChangeStatus(id: StationId, status: K.StationStatus)
    // order creation
    | CreateOrder(order: OrderId, kitchen: KitchenId, items: seq<B.OrderItem>, recipes: B.Recipes, ids: seq<TaskId>)
    | Publish(order: OrderId)
    | AbortPublish(order: OrderId)
    | QueueTasks(order: OrderId, at: Time)
    // the workers
    | Read(entry: nat)
    | AnswerSnapshot(entry: nat, answered: bool)
    | AnswerReadiness(entry: nat, answered: bool)
    | AnswerCandidates(entry: nat, answered: bool, choice: Option<StationId>)
    | ReceiveDeliver(entry: nat, deliver: D.DeliverAnswer, at: Time)
    | ReceiveMark(entry: nat, mark: D.MarkAnswer)
    | Wake(entry: nat)
    // the kitchen service
    | LookupDelivery(request: Request)
    | InsertDelivery(request: Request)
    | ClaimTask(station: StationId, task: TaskId, worker: WorkerId, at: Time)
    | ReceiveStart(claim: nat, ok: bool)
    | LoseStart(claim: nat)
    | Compensate(claim: nat)
    | CompleteTask(station: StationId, task: TaskId, worker: WorkerId, at: Time)
    | ReceiveComplete(completion: nat, ok: bool)
    | LoseComplete(completion: nat)
    | FinishCompletion(completion: nat)
    // the fulfillment service
    | HandleMark(request: Request)
    | HandleFailed(request: Request)
    | HandleStart(request: Request)
    | HandleComplete(request: Request, unseen: set<TaskId>)

  // ----- administration -----

  function AdminStep(s: Sys, ev: Event): Sys {
    match ev
    case AddStation(id, kitchen, stationType, capacity, limit) =>
      if id !in s.k.stations && capacity >= 1 && limit >= 1 then
        s.(k := K.CreateStation(s.k, id, kitchen, stationType, capacity, limit),
            peak := K.RaisePeak(s.peak, id, capacity))
      else s
    case ChangeCapacity(id, capacity) =>
      if id in s.k.stations && capacity >= 1 then
        s.(k := K.SetCapacity(s.k, id, capacity), peak := K.RaisePeak(s.peak, id, capacity))
      else s
    case ChangeStatus(id, status) =>
      if id in s.k.stations then s.(k := K.SetStatus(s.k, id, status)) else s
    case _ => s
  }

  // ----- order creation -----

  predicate Orderable(s: Sys, order: OrderId, items: seq<B.OrderItem>, recipes: B.Recipes, ids: seq<TaskId>) {
    && order !in s.f.orders
    && items != []
    && (forall i | 0 <= i < |items| ::
         && items[i].quantity > 0
         && items[i].menuItem in recipes
         && recipes[items[i].menuItem] != []
         && (forall j | 0 <= j < |recipes[items[i].menuItem]| :: recipes[items[i].menuItem][j].duration > 0))
    && |ids| == |B.OrderTasks(order, items, recipes)|
    && (forall i, j | 0 <= i < j < |ids| :: ids[i] != ids[j])
    && (forall i | 0 <= i < |ids| :: ids[i] !in s.f.tasks)
  }

  function TaskTable(ids: seq<TaskId>, tasks: seq<F.Task>): (r: map<TaskId, F.Task>)
    requires |ids| == |tasks|
  {
    if ids == [] then map[]
    else
      var n := |ids| - 1;
      TaskTable(ids[..n], tasks[..n])[ids[n] := tasks[n]]
  }

  function EdgeSet(ids: seq<TaskId>, edges: seq<B.Edge>): set<(TaskId, TaskId)> {
    set e | e in edges && e.task < |ids| && e.dependsOn < |ids| :: (ids[e.task], ids[e.dependsOn])
  }

  function AddOrder(db: F.Db, order: OrderId, kitchen: KitchenId, ids: seq<TaskId>, tasks: seq<F.Task>): F.Db
    requires |ids| == |tasks|
  {
    F.Db(db.tasks + TaskTable(ids, tasks),
         db.orders[order := F.Order(kitchen, F.Placed)],
         db.deps + EdgeSet(ids, B.ChainEdges(tasks)))
  }

  function NewEntry(f: F.Db, t: TaskId, index: nat): Entry
    requires t in f.tasks && f.tasks[t].order in f.orders
  {
    var task := f.tasks[t];
    Entry(t, task.order, f.orders[task.order].kitchen, task.stationType, task.operation, task.estimated,
          1, index, 0, Queued)
  }

  function OrderStep(s: Sys, ev: Event): Sys {
    match ev
    case CreateOrder(order, kitchen, items, recipes, ids) =>
      if Orderable(s, order, items, recipes, ids) then
        s.(f := AddOrder(s.f, order, kitchen, ids, B.OrderTasks(order, items, recipes)),
           publishers := s.publishers[order := Publisher(ids, [], Publishing)])
      else s
    case Publish(order) =>
      if order in s.publishers && s.publishers[order].phase == Publishing
         && |s.publishers[order].published| < |s.publishers[order].tasks|
         && PublishableNext(s, order)
      then
        var p := s.publishers[order];
        var t := p.tasks[|p.published|];
        var entry := NewEntry(s.f, t, |s.entries|);
        s.(entries := s.entries + [entry],
           publishers := s.publishers[order := p.(published := p.published +
             [F.Published(t, Message.StreamName(entry.kitchen, entry.stationType), |s.entries|)])])
      else s
    case AbortPublish(order) =>
      if order in s.publishers && s.publishers[order].phase == Publishing then
        s.(publishers := s.publishers[order := s.publishers[order].(phase := Aborted)])
      else s
    case QueueTasks(order, at) =>
      if order in s.publishers && s.publishers[order].phase == Publishing
         && |s.publishers[order].published| == |s.publishers[order].tasks|
      then
        s.(f := s.f.(tasks := F.MarkTasksQueued(s.f.tasks, s.publishers[order].published, at)),
           publishers := s.publishers[order := s.publishers[order].(phase := AllQueued)])
      else s
    case _ => s
  }

  /** The task to publish is in the database with its order; always so, by its foreign keys. */
  predicate PublishableNext(s: Sys, order: OrderId)
    requires order in s.publishers && |s.publishers[order].published| < |s.publishers[order].tasks|
  {
    var t := s.publishers[order].tasks[|s.publishers[order].published|];
    t in s.f.tasks && s.f.tasks[t].order in s.f.orders
  }

  // ----- the workers -----

  function DeliveryOf(e: Entry): K.Delivery {
    K.Delivery(e.task, e.order, e.kitchen, e.stationType, e.operation, e.estimated, KDSIdempotencyKey(e.task))
  }

  predicate InPhase(s: Sys, e: nat, phase: D.Phase) {
    e < |s.entries| && s.entries[e].stage == Working(phase)
  }

  /** The stage a worker's entry is left in when the worker goes on to a phase. */
  function StageOf(config: D.Config, attempt: int, phase: D.Phase): Stage {
    if !phase.Conclude? then Working(phase)
    else
      match D.Dispose(config, attempt, phase.verdict)
      case Absorbed => Closed(if phase.verdict.Dispatched? then Dispatched else Stale)
      case DeadLettered(reason) => Closed(DeadLettered(reason))
      case RetryLater(next, delay) => Sleeping(next, delay)
  }

  /** The request a worker sends on entering a phase or on giving a message up. */
  function Sends(config: D.Config, e: nat, entry: Entry, phase: D.Phase, at: Time): set<Request> {
    match phase
    case Deliver(station) => {DeliverReq(e, station, DeliveryOf(entry))}
    case Mark(station, row) => {MarkReq(e, entry.task, station, row, at)}
    case Conclude(verdict) =>
      if D.Dispose(config, entry.attempt, verdict).DeadLettered? then {FailedReq(entry.task, entry.attempt)} else {}
    case _ => {}
  }

  function Proceed(config: D.Config, s: Sys, e: nat, phase: D.Phase, at: Time): Sys
    requires e < |s.entries|
  {
    var entry := s.entries[e];
    s.(entries := s.entries[e := entry.(stage := StageOf(config, entry.attempt, phase))],
       requests := s.requests + Sends(config, e, entry, phase, at))
  }

  function SnapshotOf(f: F.Db, t: TaskId): D.SnapshotAnswer {
    if t in f.tasks then D.Snapshot(f.tasks[t].status) else D.NoSuchTask
  }

  function ReadinessOf(f: F.Db, t: TaskId): D.ReadinessAnswer {
    var r := F.DispatchReadiness(f, t);
    if r.UnknownTask? then D.ReadinessFailed else D.ReadinessKnown(r.Ready?)
  }

  ghost function WorkerStep(config: D.Config, s: Sys, ev: Event): Sys {
    match ev
    case Read(e) =>
      if e < |s.entries| && s.entries[e].stage == Queued then Proceed(config, s, e, D.AskSnapshot, 0) else s
    case AnswerSnapshot(e, answered) =>
      if InPhase(s, e, D.AskSnapshot) then
        Proceed(config, s, e,
          D.AfterSnapshot(if answered then SnapshotOf(s.f, s.entries[e].task) else D.SnapshotFailed), 0)
      else s
    case AnswerReadiness(e, answered) =>
      if InPhase(s, e, D.AskReadiness) then
        Proceed(config, s, e,
          D.AfterReadiness(if answered then ReadinessOf(s.f, s.entries[e].task) else D.ReadinessFailed), 0)
      else s
    case AnswerCandidates(e, answered, choice) =>
      if InPhase(s, e, D.AskCandidates) && !answered then
        Proceed(config, s, e, D.Conclude(D.NotNow(D.KitchenServiceUnavailable)), 0)
      else if InPhase(s, e, D.AskCandidates) && C.RightChoice(s.k, DeliveryOf(s.entries[e]), choice) then
        Proceed(config, s, e, D.AfterCandidates(choice), 0)
      else s
    case ReceiveDeliver(e, answer, at) =>
      if e < |s.entries| && s.entries[e].stage.Working? && s.entries[e].stage.phase.Deliver?
         && (answer == D.DeliverFailed || DeliverRsp(e, answer) in s.responses)
      then Proceed(config, s, e, D.AfterDeliver(s.entries[e].stage.phase.station, answer), at)
      else s
    case ReceiveMark(e, answer) =>
      if e < |s.entries| && s.entries[e].stage.Working? && s.entries[e].stage.phase.Mark?
         && (answer == D.MarkFailed || MarkRsp(e, answer) in s.responses)
      then Proceed(config, s, e, D.AfterMark(answer), 0)
      else s
    case Wake(e) =>
      if e < |s.entries| && s.entries[e].stage.Sleeping? then
        var entry := s.entries[e];
        s.(entries := s.entries[e := entry.(stage := Closed(Requeued))] + [Again(entry)])
      else s
    case _ => s
  }

  /** The copy of a message that goes back on the stream when its worker has slept. */
  function Again(entry: Entry): Entry
    requires entry.stage.Sleeping?
  {
    entry.(attempt := entry.stage.attempt, slept := entry.slept + entry.stage.delay, stage := Queued)
  }

  // ----- the kitchen service -----

  function AnswerOf(reply: K.DeliveryReply): D.DeliverAnswer {
    match reply
    case Delivered(row, _) => D.DeliveredAs(row)
    case Refused(error) => if K.IsConflict(error) then D.DeliverConflict else D.DeliverFailed
  }

  function KitchenStep(s: Sys, ev: Event): Sys {
    match ev
    case LookupDelivery(r) =>
      if r in s.requests && r.DeliverReq? then
        var known := K.FindKey(s.k.rows, r.delivery.key);
        if known.Some? then s.(responses := s.responses + {DeliverRsp(r.entry, D.DeliveredAs(known.value))})
        else s.(missed := s.missed + {r})
      else s
    case InsertDelivery(r) =>
      if r in s.missed && r.DeliverReq? then
        var out := K.DeliverTask(s.k, r.station, r.delivery);
        s.(k := out.db, responses := s.responses + {DeliverRsp(r.entry, AnswerOf(out.reply))})
      else s
    case ClaimTask(station, task, worker, at) =>
      if K.ClaimRefusal(s.k, station, task).None? then
        var row := K.FindTask(s.k.rows, task).value;
        s.(k := K.BeginClaim(s.k, station, task, worker, at),
           claims := s.claims + [Claim(station, task, worker, at, row, Starting)],
           requests := s.requests + {StartReq(|s.claims|, task, station, row, at)})
      else s
    case ReceiveStart(c, ok) =>
      if c < |s.claims| && s.claims[c].phase == Starting && StartRsp(c, ok) in s.responses then
        s.(claims := s.claims[c := s.claims[c].(phase := if ok then Started else StartFailed)])
      else s
    case LoseStart(c) =>
      if c < |s.claims| && s.claims[c].phase == Starting then
        s.(claims := s.claims[c := s.claims[c].(phase := StartFailed)])
      else s
    case Compensate(c) =>
      if c < |s.claims| && s.claims[c].phase == StartFailed then
        s.(k := K.CompensateClaim(s.k, s.claims[c].task, s.claims[c].worker),
           claims := s.claims[c := s.claims[c].(phase := Withdrawn)])
      else s
    case CompleteTask(station, task, worker, at) =>
      if K.CompleteRefusal(s.k, station, task, worker).None? then
        var row := K.FindTask(s.k.rows, task).value;
        s.(completions := s.completions + [Completion(station, task, worker, at, row, Completing)],
           requests := s.requests + {CompleteReq(|s.completions|, task, station, row, at)})
      else s
    case ReceiveComplete(d, ok) =>
      if d < |s.completions| && s.completions[d].phase == Completing && CompleteRsp(d, ok) in s.responses then
        s.(completions := s.completions[d := s.completions[d].(phase := if ok then Accepted else Abandoned)])
      else s
    case LoseComplete(d) =>
      if d < |s.completions| && s.completions[d].phase == Completing then
        s.(completions := s.completions[d := s.completions[d].(phase := Abandoned)])
      else s
    case FinishCompletion(d) =>
      if d < |s.completions| && s.completions[d].phase == Accepted then
        var h := s.completions[d];
        if K.CompleteRefusal(s.k, h.station, h.task, h.worker).None? then
          s.(k := K.FinishComplete(s.k, h.station, h.task, h.at),
             completions := s.completions[d := h.(phase := Finished)])
        else s.(completions := s.completions[d := h.(phase := Abandoned)])
      else s
    case _ => s
  }

  // ----- the fulfillment service -----

  function MarkAnswerOf(error: Option<F.Error>): D.MarkAnswer {
    if error.None? then D.Marked else if error.value.TaskNotFound? then D.MarkFailed else D.MarkConflict
  }

  function FulfillmentStep(s: Sys, ev: Event): Sys {
    match ev
    case HandleMark(r) =>
      if r in s.requests && r.MarkReq? then
        // An empty row identifier does not pass the request schema.
        if r.shown.None? then s.(responses := s.responses + {MarkRsp(r.entry, D.MarkFailed)})
        else
          var out := F.MarkDisplayed(s.f, r.task, F.MarkDisplayedRequest(r.station, r.shown.value, r.at));
          s.(f := out.db, responses := s.responses + {MarkRsp(r.entry, MarkAnswerOf(out.error))})
      else s
    case HandleFailed(r) =>
      if r in s.requests && r.FailedReq? then
        s.(f := F.DispatchFailed(s.f, r.task, Some(r.attempts)).db)
      else s
    case HandleStart(r) =>
      if r in s.requests && r.StartReq? then
        var out := F.StartTask(s.f, r.task, F.StartRequest(r.station, r.row, r.at));
        s.(f := out.db, responses := s.responses + {StartRsp(r.claim, out.error.None?)})
      else s
    case HandleComplete(r, unseen) =>
      if r in s.requests && r.CompleteReq? && r.task !in unseen then
        var out := F.CompleteTask(s.f, r.task, F.CompleteRequest(r.station, r.row, r.at), unseen);
        s.(f := out.db, responses := s.responses + {CompleteRsp(r.completion, out.error.None?)})
      else s
    case _ => s
  }

  // ----- runs -----

  predicate IsAdmin(ev: Event) { ev.AddStation? || ev.ChangeCapacity? || ev.ChangeStatus? }

  predicate IsOrder(ev: Event) { ev.CreateOrder? || ev.Publish? || ev.AbortPublish? || ev.QueueTasks? }

  predicate IsWorker(ev: Event) {
    ev.Read? || ev.AnswerSnapshot? || ev.AnswerReadiness? || ev.AnswerCandidates?
    || ev.ReceiveDeliver? || ev.ReceiveMark? || ev.Wake?
  }

  predicate IsFulfillment(ev: Event) {
    ev.HandleMark? || ev.HandleFailed? || ev.HandleStart? || ev.HandleComplete?
  }

  ghost function Step(config: D.Config, s: Sys, ev: Event): Sys {
    if IsAdmin(ev) then AdminStep(s, ev)
    else if IsOrder(ev) then OrderStep(s, ev)
    else if IsWorker(ev) then WorkerStep(config, s, ev)
    else if IsFulfillment(ev) then FulfillmentStep(s, ev)
    else KitchenStep(s, ev)
  }

  ghost function Run(config: D.Config, s: Sys, events: seq<Event>): Sys {
    if events == [] then s else Step(config, Run(config, s, events[..|events| - 1]), events[|events| - 1])
  }
}
