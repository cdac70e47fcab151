/**
 The global task state of the Fulfillment service, as values: every operation of
 the service maps a database to the database it commits and the error it raises.
 */
module Fulfillment {
  import opened Common

  datatype TaskStatus =
    Created | Queued | Displayed | InProgress | Done | Failed | Retrying | Cancelled

  datatype OrderStatus =
    Placed | Accepted | Scheduled | Cooking | Assembling | ReadyForPickup
    | HandedOff | Delayed | OrderCancelled | OrderFailed

  datatype Task = Task(
    order: OrderId,
    item: nat,
    unit: nat,
    stepOrder: int,
    stationType: string,
    operation: string,
    estimated: int,
    status: TaskStatus,
    station: Option<StationId>,
    kdsTask: Option<KdsId>,
    displayedAt: Option<Time>,
    startedAt: Option<Time>,
    slaDeadlineAt: Option<Time>,
    completedAt: Option<Time>,
    actualDuration: Option<int>,
    delay: Option<int>,
    attempts: int,
    queuedAt: Option<Time>,
    stream: Option<string>,
    messageId: Option<nat>)

  datatype Order = Order(kitchen: KitchenId, status: OrderStatus)

  // deps holds pairs (task, task it depends on).
  datatype Db = Db(
    tasks: map<TaskId, Task>,
    orders: map<OrderId, Order>,
    deps: set<(TaskId, TaskId)>)

  datatype Error =
    | TaskNotFound
    | InvalidTransition
    | AlreadyDisplayed
    | AlreadyStarted
    | AlreadyCompleted
    | StationMismatch
    | KdsTaskMismatch
    | InvalidCompletionTime

  datatype Outcome = Outcome(db: Db, error: Option<Error>)

  const ALLOWED_TRANSITIONS: set<(TaskStatus, TaskStatus)> := {
    (Queued, Displayed),
    (Retrying, Displayed),
    (Displayed, InProgress),
    (InProgress, Done),
    (Queued, Failed),
    (Retrying, Failed)
  }

  predicate CanTransition(current: TaskStatus, target: TaskStatus) {
    (current, target) in ALLOWED_TRANSITIONS
  }

  // ----- requests -----

  datatype MarkDisplayedRequest = MarkDisplayedRequest(station: StationId, kdsTask: KdsId, displayedAt: Time)
  datatype StartRequest = StartRequest(station: StationId, kdsTask: KdsId, startedAt: Time)
  datatype CompleteRequest = CompleteRequest(station: StationId, kdsTask: KdsId, completedAt: Time)
  datatype Published = Published(task: TaskId, stream: string, messageId: nat)

  // ----- queries -----

  function UnfinishedDependencies(db: Db, id: TaskId): set<TaskId> {
    set p | p in db.deps && p.0 == id && p.1 in db.tasks && db.tasks[p.1].status != Done :: p.1
  }

  datatype Readiness = UnknownTask | NotDispatchable | WaitingFor(tasks: set<TaskId>) | Ready

  function DispatchReadiness(db: Db, id: TaskId): Readiness {
    if id !in db.tasks then UnknownTask
    else if db.tasks[id].status !in {Queued, Retrying} then NotDispatchable
    else
      var waiting := UnfinishedDependencies(db, id);
      if waiting == {} then Ready else WaitingFor(waiting)
  }

  /** The count of unfinished tasks of an order is zero. `unseen` are tasks whose
      completion another open transaction has not made visible to this one yet. */
  predicate AllOrderTasksDone(db: Db, order: OrderId, unseen: set<TaskId>) {
    forall t | t in db.tasks :: db.tasks[t].order == order ==> db.tasks[t].status == Done && t !in unseen
  }

  function SamePlacement(task: Task, station: StationId, kdsTask: KdsId, already: Option<Error>): Option<Error> {
    if task.station != Some(station) then
      if already.Some? then already else Some(StationMismatch)
    else if task.kdsTask != Some(kdsTask) then
      if already.Some? then already else Some(KdsTaskMismatch)
    else None
  }

  // Truncation toward zero, as converting a fractional number of seconds to an integer does.
  function WholeSeconds(d: Time): int {
    if d >= 0 then d / SECOND else -((-d) / SECOND)
  }

  // ----- transitions -----

  function SetTask(db: Db, id: TaskId, task: Task): Db {
    db.(tasks := db.tasks[id := task])
  }

  function SetOrderStatus(db: Db, order: OrderId, status: OrderStatus): Db {
    if order in db.orders then db.(orders := db.orders[order := db.orders[order].(status := status)]) else db
  }

  function DisplayedTask(task: Task, req: MarkDisplayedRequest): Task {
    task.(station := Some(req.station), kdsTask := Some(req.kdsTask),
          displayedAt := Some(req.displayedAt), status := Displayed)
  }

  function StartedTask(task: Task, req: StartRequest): Task {
    task.(startedAt := Some(req.startedAt), slaDeadlineAt := Some(req.startedAt + task.estimated * SECOND),
          status := InProgress)
  }

  function CompletedTask(task: Task, req: CompleteRequest): Task
    requires task.startedAt.Some?
  {
    task.(completedAt := Some(req.completedAt),
          actualDuration := Some(WholeSeconds(req.completedAt - task.startedAt.value)),
          delay := Some(if task.slaDeadlineAt.None? then 0
                        else Max(0, WholeSeconds(req.completedAt - task.slaDeadlineAt.value))),
          status := Done)
  }

  function MarkDisplayed(db: Db, id: TaskId, req: MarkDisplayedRequest): Outcome {
    if id !in db.tasks then Outcome(db, Some(TaskNotFound))
    else
      var task := db.tasks[id];
      if task.status == Displayed then
        Outcome(db, SamePlacement(task, req.station, req.kdsTask, Some(AlreadyDisplayed)))
      else if !CanTransition(task.status, Displayed) then Outcome(db, Some(InvalidTransition))
      else
        Outcome(SetTask(db, id, DisplayedTask(task, req)), None)
  }

  function StartTask(db: Db, id: TaskId, req: StartRequest): Outcome {
    if id !in db.tasks then Outcome(db, Some(TaskNotFound))
    else
      var task := db.tasks[id];
      if task.status == InProgress then
        Outcome(db, SamePlacement(task, req.station, req.kdsTask, Some(AlreadyStarted)))
      else if !CanTransition(task.status, InProgress) then Outcome(db, Some(InvalidTransition))
      else
        var mismatch := SamePlacement(task, req.station, req.kdsTask, None);
        if mismatch.Some? then Outcome(db, mismatch)
        else Outcome(SetOrderStatus(SetTask(db, id, StartedTask(task, req)), task.order, Cooking), None)
  }

  function CompleteTask(db: Db, id: TaskId, req: CompleteRequest, unseen: set<TaskId>): Outcome {
    if id !in db.tasks then Outcome(db, Some(TaskNotFound))
    else
      var task := db.tasks[id];
      if task.status == Done then
        Outcome(db, SamePlacement(task, req.station, req.kdsTask, Some(AlreadyCompleted)))
      else if !CanTransition(task.status, Done) then Outcome(db, Some(InvalidTransition))
      else
        var mismatch := SamePlacement(task, req.station, req.kdsTask, None);
        if mismatch.Some? then Outcome(db, mismatch)
        else if task.startedAt.None? || req.completedAt < task.startedAt.value then
          Outcome(db, Some(InvalidCompletionTime))
        else
          var db' := SetTask(db, id, CompletedTask(task, req));
          Outcome(if AllOrderTasksDone(db', task.order, unseen) then SetOrderStatus(db', task.order, ReadyForPickup)
                  else db', None)
  }

  function DispatchFailed(db: Db, id: TaskId, attempts: Option<int>): Outcome {
    if id !in db.tasks then Outcome(db, Some(TaskNotFound))
    else
      var task := db.tasks[id];
      if task.status == Failed then Outcome(db, None)
      else if !CanTransition(task.status, Failed) then Outcome(db, Some(InvalidTransition))
      else
        var counted := if attempts.Some? && attempts.value > task.attempts then attempts.value else task.attempts;
        Outcome(SetTask(db, id, task.(attempts := counted, status := Failed)), None)
  }

  /** What the queued write leaves in one task, whatever its status was. */
  function QueuedTask(task: Task, p: Published, at: Time): Task {
    task.(status := Queued, attempts := 1, queuedAt := Some(at), stream := Some(p.stream),
          messageId := Some(p.messageId))
  }

  function MarkTasksQueued(tasks: map<TaskId, Task>, published: seq<Published>, at: Time): map<TaskId, Task> {
    if published == [] then tasks
    else
      var before := MarkTasksQueued(tasks, published[..|published| - 1], at);
      var p := published[|published| - 1];
      if p.task in before then before[p.task := QueuedTask(before[p.task], p, at)] else before
  }

  /** The task is queued for the first time, under one publication of its own, and is otherwise as it was. */
  predicate QueuedUnder(before: Task, after: Task, p: Published, at: Time) {
    && after.status == Queued && after.attempts == 1 && after.queuedAt == Some(at)
    && after.stream == Some(p.stream) && after.messageId == Some(p.messageId)
    && after == before.(status := after.status, attempts := after.attempts, queuedAt := after.queuedAt,
                        stream := after.stream, messageId := after.messageId)
  }

  /** The i-th entry is the last one for the task. */
  ghost predicate LastFor(published: seq<Published>, t: TaskId, i: int) {
    0 <= i < |published| && published[i].task == t && forall j | i < j < |published| :: published[j].task != t
  }

  /** The loop touches exactly the tasks in its list, and each is left as the last entry for it wrote it. */
  lemma {:induction false} QueuedExactly(tasks: map<TaskId, Task>, published: seq<Published>, at: Time, t: TaskId)
    requires t in tasks
    ensures MarkTasksQueued(tasks, published, at).Keys == tasks.Keys
    ensures var r := MarkTasksQueued(tasks, published, at);
            || (r[t] == tasks[t] && forall i | 0 <= i < |published| :: published[i].task != t)
            || (exists i :: LastFor(published, t, i) && QueuedUnder(tasks[t], r[t], published[i], at))
  {
    if published != [] {
      var n := |published| - 1;
      QueuedExactly(tasks, published[..n], at, t);
      var before := MarkTasksQueued(tasks, published[..n], at);
      if published[n].task == t {
        assert LastFor(published, t, n);
      } else if i :| LastFor(published[..n], t, i) && QueuedUnder(tasks[t], before[t], published[..n][i], at) {
        assert LastFor(published, t, i);
      }
    }
  }

  lemma {:induction false} QueuedKeys(tasks: map<TaskId, Task>, published: seq<Published>, at: Time)
    ensures MarkTasksQueued(tasks, published, at).Keys == tasks.Keys
  {
    if published != [] { QueuedKeys(tasks, published[..|published| - 1], at); }
  }

  // ----- what one transaction may do to a task -----

  predicate Kept<T(==)>(before: Option<T>, after: Option<T>) {
    before.Some? ==> after == before
  }

  /** b is a itself, or a moved along one edge of the transition table (or created to
      queued) with every placement and timing field that was already set kept. */
  predicate TaskStep(a: Task, b: Task) {
    || b == a
    || (&& b.status != a.status
        && (CanTransition(a.status, b.status) || (a.status == Created && b.status == Queued))
        && b.order == a.order && b.item == a.item && b.unit == a.unit && b.stepOrder == a.stepOrder
        && b.stationType == a.stationType && b.operation == a.operation && b.estimated == a.estimated
        && Kept(a.station, b.station) && Kept(a.kdsTask, b.kdsTask) && Kept(a.displayedAt, b.displayedAt)
        && Kept(a.startedAt, b.startedAt) && Kept(a.slaDeadlineAt, b.slaDeadlineAt)
        && Kept(a.completedAt, b.completedAt) && Kept(a.actualDuration, b.actualDuration)
        && Kept(a.delay, b.delay) && Kept(a.queuedAt, b.queuedAt)
        && Kept(a.stream, b.stream) && Kept(a.messageId, b.messageId)
        && a.attempts <= b.attempts)
  }

  /** Position of a status on the only path a task can take; it grows with every effective step. */
  function Rank(s: TaskStatus): nat {
    match s
    case Created => 0
    case Queued => 1
    case Retrying => 1
    case Displayed => 2
    case InProgress => 3
    case Done => 4
    case Failed => 4
    case Cancelled => 4
  }

  const LAST_RANK: nat := 4

  // ----- the shape of a stored task -----

  predicate Placed?(s: TaskStatus) { s in {Displayed, InProgress, Done} }

  /** Which fields a task of each status carries, and the arithmetic of a completed one. */
  ghost predicate TaskShape(t: Task) {
    && t.estimated > 0
    && t.status !in {Retrying, Cancelled}
    && (Placed?(t.status) <==> t.station.Some?)
    && (Placed?(t.status) <==> t.kdsTask.Some?)
    && (Placed?(t.status) <==> t.displayedAt.Some?)
    && (t.status in {InProgress, Done} <==> t.startedAt.Some?)
    && t.slaDeadlineAt == (if t.startedAt.Some? then Some(t.startedAt.value + t.estimated * SECOND) else None)
    && (t.status == Done <==> t.completedAt.Some?)
    && (t.status == Done <==> t.actualDuration.Some?)
    && (t.status == Done <==> t.delay.Some?)
    && (t.status == Done ==> OnSchedule(t))
    && (t.status == Created <==> t.queuedAt.None?)
    && (t.status == Created <==> t.stream.None?)
    && (t.status == Created <==> t.messageId.None?)
    && (if t.status == Created then t.attempts == 0
        else if t.status == Failed then t.attempts >= 1 else t.attempts == 1)
  }

  /** The service-level agreement of a finished task. */
  ghost predicate OnSchedule(t: Task) {
    && t.startedAt.Some? && t.completedAt.Some? && t.actualDuration.Some? && t.delay.Some?
    && t.startedAt.value <= t.completedAt.value
    && 0 <= t.actualDuration.value
    && t.actualDuration.value * SECOND <= t.completedAt.value - t.startedAt.value
    && t.completedAt.value - t.startedAt.value < (t.actualDuration.value + 1) * SECOND
    && t.delay.value == Max(0, t.actualDuration.value - t.estimated)
  }

  ghost predicate ValidDb(db: Db) {
    && (forall t | t in db.tasks :: TaskShape(db.tasks[t]) && db.tasks[t].order in db.orders)
    && (forall p | p in db.deps :: p.0 in db.tasks && p.1 in db.tasks)
  }

  /** No order is ready for pickup before all its tasks are done. */
  ghost predicate ReadyOnlyWhenDone(db: Db) {
    forall t | t in db.tasks && db.tasks[t].order in db.orders ::
      db.orders[db.tasks[t].order].status == ReadyForPickup ==> db.tasks[t].status == Done
  }

  /** An order all of whose tasks are done is ready for pickup. */
  ghost predicate DoneMeansReady(db: Db) {
    forall o | o in db.orders :: AllOrderTasksDone(db, o, {}) ==> db.orders[o].status == ReadyForPickup
  }

  ghost predicate DepsDone(db: Db, id: TaskId) {
    forall p | p in db.deps && p.0 == id :: p.1 in db.tasks && db.tasks[p.1].status == Done
  }

  /** Everything a transaction keeps: tasks move by one step at most, edges of known tasks never change. */
  ghost predicate DbStep(db: Db, db': Db) {
    && db.tasks.Keys <= db'.tasks.Keys
    && db.orders.Keys <= db'.orders.Keys
    && (forall t | t in db.tasks :: TaskStep(db.tasks[t], db'.tasks[t]))
    && db.deps <= db'.deps
    && (forall p | p in db'.deps && p.0 in db.tasks :: p in db.deps)
    && (forall o | o in db.orders :: db'.orders[o].kitchen == db.orders[o].kitchen)
  }

  /** A transaction on one task: nothing else moves, and an error changes nothing. */
  ghost predicate Moves(db: Db, id: TaskId, out: Outcome) {
    && DbStep(db, out.db)
    && out.db.tasks.Keys == db.tasks.Keys && out.db.orders.Keys == db.orders.Keys && out.db.deps == db.deps
    && (forall t | t in db.tasks && t != id :: out.db.tasks[t] == db.tasks[t])
    && (out.error.Some? ==> out.db == db)
    && (id in db.tasks ==> forall o | o in db.orders && o != db.tasks[id].order :: out.db.orders[o] == db.orders[o])
    && (forall t | t in db.tasks :: out.db.tasks[t].status == Created <==> db.tasks[t].status == Created)
  }

  // ----- facts about the transitions -----

  predicate PlacedAt(task: Task, station: StationId, kdsTask: KdsId) {
    task.station == Some(station) && task.kdsTask == Some(kdsTask)
  }

  /** One task is rewritten, and at most the status of its own order. */
  ghost predicate Rewrites(db: Db, db': Db, id: TaskId) {
    && id in db.tasks && db'.deps == db.deps && db'.tasks.Keys == db.tasks.Keys && db'.orders.Keys == db.orders.Keys
    && (forall t | t in db.tasks && t != id :: db'.tasks[t] == db.tasks[t])
    && (forall o | o in db.orders && o != db.tasks[id].order :: db'.orders[o] == db.orders[o])
  }

  // How each call is answered, replays included, and what it writes.

  lemma MarkDisplayedAccepts(db: Db, id: TaskId, req: MarkDisplayedRequest)
    ensures var error := MarkDisplayed(db, id, req).error;
            if id !in db.tasks then error == Some(TaskNotFound)
            else
              var task := db.tasks[id];
              var replay := task.status == Displayed;
              && (error.None? <==>
                    task.status in {Queued, Retrying} || (replay && PlacedAt(task, req.station, req.kdsTask)))
              && (error == Some(AlreadyDisplayed) <==> replay && !PlacedAt(task, req.station, req.kdsTask))
              && (error == Some(InvalidTransition) <==> task.status in {Created, InProgress, Done, Failed, Cancelled})
    ensures var db' := MarkDisplayed(db, id, req).db;
            if id in db.tasks && db.tasks[id].status in {Queued, Retrying} then
              && Rewrites(db, db', id) && db'.orders == db.orders
              && db'.tasks[id] == db.tasks[id].(status := Displayed, station := Some(req.station),
                                                kdsTask := Some(req.kdsTask), displayedAt := Some(req.displayedAt))
            else db' == db
  {
  }

  lemma StartTaskAccepts(db: Db, id: TaskId, req: StartRequest)
    ensures var error := StartTask(db, id, req).error;
            if id !in db.tasks then error == Some(TaskNotFound)
            else
              var task := db.tasks[id];
              var placed := PlacedAt(task, req.station, req.kdsTask);
              && (error.None? <==> task.status in {Displayed, InProgress} && placed)
              && (error == Some(AlreadyStarted) <==> task.status == InProgress && !placed)
              && (error == Some(StationMismatch) <==> task.status == Displayed && task.station != Some(req.station))
              && (error == Some(KdsTaskMismatch) <==>
                    task.status == Displayed && task.station == Some(req.station) && !placed)
              && (error == Some(InvalidTransition) <==> task.status !in {Displayed, InProgress})
    ensures var db' := StartTask(db, id, req).db;
            if id in db.tasks && db.tasks[id].status == Displayed && PlacedAt(db.tasks[id], req.station, req.kdsTask)
            then
              && Rewrites(db, db', id)
              && (db.tasks[id].order in db.orders ==> db'.orders[db.tasks[id].order].status == Cooking)
              && db'.tasks[id] == db.tasks[id].(status := InProgress, startedAt := Some(req.startedAt),
                                                slaDeadlineAt := db'.tasks[id].slaDeadlineAt)
              && db'.tasks[id].slaDeadlineAt == Some(req.startedAt + db.tasks[id].estimated * 1_000_000)
            else db' == db
  {
  }

  lemma CompleteTaskAccepts(db: Db, id: TaskId, req: CompleteRequest, unseen: set<TaskId>)
    ensures var error := CompleteTask(db, id, req, unseen).error;
            if id !in db.tasks then error == Some(TaskNotFound)
            else
              var task := db.tasks[id];
              var placed := PlacedAt(task, req.station, req.kdsTask);
              var inTime := task.startedAt.Some? && req.completedAt >= task.startedAt.value;
              && (error.None? <==> placed && (task.status == Done || (task.status == InProgress && inTime)))
              && (error == Some(AlreadyCompleted) <==> task.status == Done && !placed)
              && (error == Some(StationMismatch) <==> task.status == InProgress && task.station != Some(req.station))
              && (error == Some(KdsTaskMismatch) <==>
                    task.status == InProgress && task.station == Some(req.station) && !placed)
              && (error == Some(InvalidCompletionTime) <==> task.status == InProgress && placed && !inTime)
              && (error == Some(InvalidTransition) <==> task.status !in {InProgress, Done})
    ensures var out := CompleteTask(db, id, req, unseen);
            if id in db.tasks && db.tasks[id].status == InProgress && out.error.None? then
              var order, written := db.tasks[id].order, out.db.tasks[id];
              && Rewrites(db, out.db, id)
              && written == db.tasks[id].(status := Done, completedAt := Some(req.completedAt),
                                          actualDuration := written.actualDuration, delay := written.delay)
              && (order in db.orders ==>
                    if AllOrderTasksDone(out.db, order, unseen) then out.db.orders[order].status == ReadyForPickup
                    else out.db.orders[order] == db.orders[order])
            else out.db == db
  {
    hide AllOrderTasksDone;
    if id in db.tasks && db.tasks[id].status == InProgress && CompleteTask(db, id, req, unseen).error.None? {
      SameTasksSameCount(SetTask(db, id, CompletedTask(db.tasks[id], req)), CompleteTask(db, id, req, unseen).db,
                         db.tasks[id].order, unseen);
    }
  }

  lemma SameTasksSameCount(db: Db, db': Db, order: OrderId, unseen: set<TaskId>)
    requires db'.tasks == db.tasks
    ensures AllOrderTasksDone(db', order, unseen) <==> AllOrderTasksDone(db, order, unseen)
  {
  }

  lemma DispatchFailedAccepts(db: Db, id: TaskId, attempts: Option<int>)
    ensures var error := DispatchFailed(db, id, attempts).error;
            if id !in db.tasks then error == Some(TaskNotFound)
            else
              && (error.None? <==> db.tasks[id].status in {Queued, Retrying, Failed})
              && (error.Some? <==> error == Some(InvalidTransition))
    ensures var db' := DispatchFailed(db, id, attempts).db;
            if id in db.tasks && db.tasks[id].status in {Queued, Retrying} then
              var before := db.tasks[id].attempts;
              && Rewrites(db, db', id) && db'.orders == db.orders
              && db'.tasks[id] == db.tasks[id].(status := Failed, attempts := db'.tasks[id].attempts)
              && db'.tasks[id].attempts == (if attempts.Some? then Max(before, attempts.value) else before)
            else db' == db
  {
  }

  lemma DbStepReflexive(db: Db)
    ensures DbStep(db, db)
  {
  }

  lemma NothingMoves(db: Db, id: TaskId)
    ensures Moves(db, id, Outcome(db, None))
  {
  }

  /** The frame of a transaction that rewrites one task and at most the status of its order. */
  ghost predicate Writes(db: Db, id: TaskId, db': Db) {
    && id in db.tasks && db'.tasks.Keys == db.tasks.Keys
    && db'.orders.Keys == db.orders.Keys && db'.deps == db.deps
    && (forall t | t in db.tasks && t != id :: db'.tasks[t] == db.tasks[t])
    && (forall o | o in db.orders :: db'.orders[o].kitchen == db.orders[o].kitchen)
    && (forall o | o in db.orders && o != db.tasks[id].order :: db'.orders[o] == db.orders[o])
  }

  lemma WriteIsAStep(db: Db, id: TaskId, db': Db)
    requires ValidDb(db) && Writes(db, id, db')
    requires TaskStep(db.tasks[id], db'.tasks[id]) && TaskShape(db'.tasks[id])
    requires db.tasks[id].status != Created
    ensures ValidDb(db') && Moves(db, id, Outcome(db', None))
  {
    assert db'.tasks[id].order == db.tasks[id].order;
  }

  /** A write that leaves a task unfinished cannot disturb either direction of the roll-up. */
  lemma UnfinishedKeepsRollUp(db: Db, id: TaskId, db': Db)
    requires ValidDb(db) && Writes(db, id, db')
    requires db.tasks[id].status != Done && db'.tasks[id].status != Done && db'.tasks[id].order == db.tasks[id].order
    requires var o := db.tasks[id].order; db'.orders[o] == db.orders[o] || db'.orders[o].status == Cooking
    ensures ReadyOnlyWhenDone(db) ==> ReadyOnlyWhenDone(db')
    ensures DoneMeansReady(db) ==> DoneMeansReady(db')
  {
    if DoneMeansReady(db) {
      forall o | o in db'.orders && AllOrderTasksDone(db', o, {})
        ensures db'.orders[o].status == ReadyForPickup
      {
        assert o != db.tasks[id].order by { assert id in db'.tasks; }
        SameOrderTasks(db, id, db', o);
      }
    }
  }

  lemma SameOrderTasks(db: Db, id: TaskId, db': Db, order: OrderId)
    requires Writes(db, id, db') && order != db.tasks[id].order
    requires AllOrderTasksDone(db', order, {})
    ensures AllOrderTasksDone(db, order, {})
  {
  }

  lemma MarkDisplayedFacts(db: Db, id: TaskId, req: MarkDisplayedRequest)
    requires ValidDb(db)
    ensures var out := MarkDisplayed(db, id, req);
            ValidDb(out.db) && Moves(db, id, out)
    ensures var db' := MarkDisplayed(db, id, req).db;
            (db' != db ==>
               && db.tasks[id].status == Queued && db'.tasks[id].status == Displayed
               && db'.tasks[id].station == Some(req.station) && db'.tasks[id].kdsTask == Some(req.kdsTask))
    ensures var out := MarkDisplayed(db, id, req);
            (out.error.None? || !out.error.value.TaskNotFound?) ==>
               && id in db.tasks
               && (db.tasks[id].status == Created || out.db.tasks[id].status in {Displayed, InProgress, Done, Failed})
    ensures var db' := MarkDisplayed(db, id, req).db;
            && (ReadyOnlyWhenDone(db) ==> ReadyOnlyWhenDone(db'))
            && (DoneMeansReady(db) ==> DoneMeansReady(db'))
  {
    hide DbStep, ReadyOnlyWhenDone, DoneMeansReady;
    DbStepReflexive(db);
    var out := MarkDisplayed(db, id, req);
    if out.db != db {
      DisplayedShape(db.tasks[id], req);
      WriteIsAStep(db, id, out.db);
      UnfinishedKeepsRollUp(db, id, out.db);
    }
  }

  lemma StartTaskFacts(db: Db, id: TaskId, req: StartRequest)
    requires ValidDb(db)
    ensures var out := StartTask(db, id, req);
            ValidDb(out.db) && Moves(db, id, out)
    ensures var out := StartTask(db, id, req);
            (out.error.None? ==>
               && id in db.tasks && out.db.tasks[id].status == InProgress
               && out.db.tasks[id].station == Some(req.station) && out.db.tasks[id].kdsTask == Some(req.kdsTask))
    ensures var db' := StartTask(db, id, req).db;
            && (db' != db ==> db.tasks[id].status == Displayed && db'.tasks[id].status == InProgress)
            && (ReadyOnlyWhenDone(db) ==> ReadyOnlyWhenDone(db'))
            && (DoneMeansReady(db) ==> DoneMeansReady(db'))
  {
    hide DbStep, ReadyOnlyWhenDone, DoneMeansReady;
    DbStepReflexive(db);
    var out := StartTask(db, id, req);
    if out.db != db {
      StartedShape(db.tasks[id], req);
      WriteIsAStep(db, id, out.db);
      UnfinishedKeepsRollUp(db, id, out.db);
    }
  }

  /** Completion fills in exactly the service-level figures the shape of a done task demands. */
  lemma CompletedShape(task: Task, req: CompleteRequest)
    requires TaskShape(task) && task.status == InProgress && task.startedAt.value <= req.completedAt
    ensures TaskShape(CompletedTask(task, req)) && TaskStep(task, CompletedTask(task, req))
  {
  }

  lemma SameTask(task: Task)
    ensures TaskStep(task, task)
  {
  }

  lemma QueuedShape(before: Task, after: Task, p: Published, at: Time)
    requires TaskShape(before) && before.status == Created && QueuedUnder(before, after, p, at)
    ensures TaskShape(after) && TaskStep(before, after) && after.status == Queued && after.order == before.order
  {
  }

  lemma DisplayedShape(task: Task, req: MarkDisplayedRequest)
    requires TaskShape(task) && task.status == Queued
    ensures TaskShape(DisplayedTask(task, req)) && TaskStep(task, DisplayedTask(task, req))
  {
  }

  lemma StartedShape(task: Task, req: StartRequest)
    requires TaskShape(task) && task.status == Displayed
    ensures TaskShape(StartedTask(task, req)) && TaskStep(task, StartedTask(task, req))
  {
  }

  lemma CompleteWrites(db: Db, id: TaskId, req: CompleteRequest, unseen: set<TaskId>)
    requires ValidDb(db) && CompleteTask(db, id, req, unseen).db != db
    ensures var db' := CompleteTask(db, id, req, unseen).db;
            && Writes(db, id, db') && db.tasks[id].status == InProgress && db'.tasks[id].status == Done
            && db'.tasks[id].order == db.tasks[id].order
    ensures var db' := CompleteTask(db, id, req, unseen).db;
            var order := db.tasks[id].order;
            db'.orders[order].status ==
              if AllOrderTasksDone(db', order, unseen) then ReadyForPickup else db.orders[order].status
  {
    var db' := CompleteTask(db, id, req, unseen).db;
    var written := SetTask(db, id, db'.tasks[id]);
    assert db'.tasks == written.tasks;
    assert AllOrderTasksDone(db', db.tasks[id].order, unseen)
      <==> AllOrderTasksDone(written, db.tasks[id].order, unseen);
  }

  lemma CompleteRollUp(db: Db, id: TaskId, req: CompleteRequest, unseen: set<TaskId>)
    requires ValidDb(db) && CompleteTask(db, id, req, unseen).db != db
    ensures var db' := CompleteTask(db, id, req, unseen).db;
            && (ReadyOnlyWhenDone(db) ==> ReadyOnlyWhenDone(db'))
            && (DoneMeansReady(db) && unseen == {} ==> DoneMeansReady(db'))
  {
    var db' := CompleteTask(db, id, req, unseen).db;
    CompleteWrites(db, id, req, unseen);
    RollUpAfterDone(db, id, db', unseen);
  }

  /** The completion that leaves nothing of its order unfinished makes the order ready exactly
      when it sees all the others. */
  lemma LastCompletion(db: Db, id: TaskId, req: CompleteRequest, unseen: set<TaskId>)
    requires ValidDb(db) && ReadyOnlyWhenDone(db) && CompleteTask(db, id, req, unseen).db != db
    requires var db' := CompleteTask(db, id, req, unseen).db;
             id in db'.tasks && AllOrderTasksDone(db', db'.tasks[id].order, {})
    ensures var db' := CompleteTask(db, id, req, unseen).db;
            var o := db'.tasks[id].order;
            && o in db'.orders
            && ((db'.orders[o].status == ReadyForPickup) <==> AllSeen(db', o, unseen))
  {
  }

  predicate AllSeen(db: Db, order: OrderId, unseen: set<TaskId>) {
    forall t | t in db.tasks && db.tasks[t].order == order :: t !in unseen
  }

  lemma SeenStays(db: Db, id: TaskId, req: CompleteRequest, unseen: set<TaskId>, order: OrderId)
    requires ValidDb(db) && CompleteTask(db, id, req, unseen).db != db
    requires AllSeen(db, order, unseen)
    ensures AllSeen(CompleteTask(db, id, req, unseen).db, order, unseen)
  {
    hide CompleteTask, TaskShape;
    CompleteWrites(db, id, req, unseen);
  }

  /** Marking the order ready exactly when no visible task is unfinished keeps the roll-up:
      downward whatever is invisible, upward when nothing is. */
  lemma RollUpAfterDone(db: Db, id: TaskId, db': Db, unseen: set<TaskId>)
    requires ValidDb(db) && Writes(db, id, db') && db'.tasks[id].status == Done
    requires db'.tasks[id].order == db.tasks[id].order
    requires var order := db.tasks[id].order;
             db'.orders[order].status ==
               if AllOrderTasksDone(db', order, unseen) then ReadyForPickup else db.orders[order].status
    ensures ReadyOnlyWhenDone(db) ==> ReadyOnlyWhenDone(db')
    ensures DoneMeansReady(db) && unseen == {} ==> DoneMeansReady(db')
  {
    if DoneMeansReady(db) && unseen == {} {
      forall o | o in db'.orders && AllOrderTasksDone(db', o, {})
        ensures db'.orders[o].status == ReadyForPickup
      {
        if o != db.tasks[id].order { SameOrderTasks(db, id, db', o); }
      }
    }
  }

  lemma CompleteTaskFacts(db: Db, id: TaskId, req: CompleteRequest, unseen: set<TaskId>)
    requires ValidDb(db)
    ensures var out := CompleteTask(db, id, req, unseen);
            ValidDb(out.db) && Moves(db, id, out)
    ensures var out := CompleteTask(db, id, req, unseen);
            && (out.error.None? ==> id in db.tasks && out.db.tasks[id].status == Done)
            && (out.db != db ==> db.tasks[id].status == InProgress)
    ensures var db' := CompleteTask(db, id, req, unseen).db;
            && (ReadyOnlyWhenDone(db) ==> ReadyOnlyWhenDone(db'))
            && (DoneMeansReady(db) && unseen == {} ==> DoneMeansReady(db'))
  {
    hide DbStep, ReadyOnlyWhenDone, DoneMeansReady, AllOrderTasksDone;
    DbStepReflexive(db);
    var out := CompleteTask(db, id, req, unseen);
    if out.db != db {
      CompletedShape(db.tasks[id], req);
      WriteIsAStep(db, id, out.db);
      CompleteRollUp(db, id, req, unseen);
    }
  }

  lemma FailedShape(task: Task, attempts: int)
    requires TaskShape(task) && CanTransition(task.status, Failed) && attempts >= task.attempts
    ensures task.status == Queued
    ensures var failed := task.(attempts := attempts, status := Failed); TaskShape(failed) && TaskStep(task, failed)
  {
  }

  lemma DispatchFailedFacts(db: Db, id: TaskId, attempts: Option<int>)
    requires ValidDb(db)
    ensures var out := DispatchFailed(db, id, attempts);
            ValidDb(out.db) && Moves(db, id, out)
    ensures var db' := DispatchFailed(db, id, attempts).db;
            && (db' != db ==> db.tasks[id].status == Queued && db'.tasks[id].status == Failed)
            && (ReadyOnlyWhenDone(db) ==> ReadyOnlyWhenDone(db'))
            && (DoneMeansReady(db) ==> DoneMeansReady(db'))
  {
    hide DbStep, ReadyOnlyWhenDone, DoneMeansReady, TaskShape;
    DbStepReflexive(db);
    var out := DispatchFailed(db, id, attempts);
    if out.db != db {
      FailedShape(db.tasks[id], out.db.tasks[id].attempts);
      WriteIsAStep(db, id, out.db);
      UnfinishedKeepsRollUp(db, id, out.db);
    }
  }

  /** Finished work stays finished, so a task that was ready once stays ready. */
  lemma DepsStayDone(db: Db, db': Db, id: TaskId)
    requires DbStep(db, db') && id in db.tasks && DepsDone(db, id)
    ensures DepsDone(db', id)
  {
  }

  lemma ReadyMeansDepsDone(db: Db, id: TaskId)
    requires ValidDb(db) && id in db.tasks
    ensures DispatchReadiness(db, id) == Ready <==> db.tasks[id].status in {Queued, Retrying} && DepsDone(db, id)
  {
    if DispatchReadiness(db, id) == Ready {
      forall p | p in db.deps && p.0 == id ensures db.tasks[p.1].status == Done {
        assert db.tasks[p.1].status != Done ==> p.1 in UnfinishedDependencies(db, id);
      }
    }
  }
}
