/**
 Concrete runs that show where the guarantees end: a delivery reply lost at the wrong
 moment, a worker that completes what it never claimed, two completions that do not
 see each other, and a start that fails while its row's place has been taken.
 */
module Scenarios {
  import opened Common
  import opened Protocol
  import opened Invariant
  import opened ServiceSteps
  import opened Executions
  import opened Recovery
  import opened Dispatching
  import F = Fulfillment
  import Message
  import K = Kds
  import D = Dispatcher
  import B = TaskBuilder
  import C = Candidates
  import S = StationSelector
  import Agreement
  import Stranding
  import Idempotency
  import Backoff

  // Two stations of one kind, the first before the second in byte order, and one order of
  // two units of a dish with a single step.
  datatype Shop = Shop(a: StationId, b: StationId, kitchen: KitchenId, stationType: string, operation: string,
                       dish: string, order: OrderId, t: TaskId, u: TaskId)
  {
    predicate Valid() { S.TextLess(a, b) && a != b && t != u }
  }

  function Recipe(shop: Shop): seq<B.RecipeStep> { [B.RecipeStep(shop.stationType, shop.operation, 1, 1)] }

  function Items(shop: Shop): seq<B.OrderItem> { [B.OrderItem(shop.dish, 2)] }

  function Job(shop: Shop, unit: nat): F.Task { B.NewTask(shop.order, 0, unit, Recipe(shop)[0]) }

  lemma TwoJobs(shop: Shop)
    ensures var tasks := B.OrderTasks(shop.order, Items(shop), map[shop.dish := Recipe(shop)]);
            tasks == [Job(shop, 1), Job(shop, 2)] && B.ChainEdges(tasks) == []
  {
    var recipes := map[shop.dish := Recipe(shop)];
    assert Recipe(shop)[..0] == [];
    assert B.SortSteps([]) == [];
    assert B.SortSteps(Recipe(shop)) == B.InsertStep([], Recipe(shop)[0]) == Recipe(shop);
    assert B.TasksUpTo(shop.order, Items(shop), recipes, 0) == [];
    var one := B.WithUnits([], shop.order, 0, 1, Recipe(shop));
    assert one == [Job(shop, 1)] by {
      assert B.WithUnits([], shop.order, 0, 0, Recipe(shop)) == [];
      assert B.WithSteps([], shop.order, 0, 1, Recipe(shop), 0) == [];
    }
    assert B.WithUnits([], shop.order, 0, 2, Recipe(shop)) == one + [Job(shop, 2)] by {
      assert B.WithSteps(one, shop.order, 0, 2, Recipe(shop), 0) == one;
    }
    var tasks := one + [Job(shop, 2)];
    assert B.TasksUpTo(shop.order, Items(shop), recipes, 1) == tasks;
    assert B.EdgesUpTo(tasks, 1) == [];
  }

  // ----- opening the shop and taking the order -----

  function OpenEvents(shop: Shop): seq<Event> {
    [AddStation(shop.a, shop.kitchen, shop.stationType, 1, 1), AddStation(shop.b, shop.kitchen, shop.stationType, 1, 1),
     CreateOrder(shop.order, shop.kitchen, Items(shop), map[shop.dish := Recipe(shop)], [shop.t, shop.u])]
  }

  function OrderEvents(shop: Shop): seq<Event> {
    [Publish(shop.order), Publish(shop.order), QueueTasks(shop.order, 0)]
  }

  function NewStation(shop: Shop): K.Station {
    K.Station(shop.kitchen, shop.stationType, K.Available, 1, 0, 1)
  }

  ghost predicate Ordered(shop: Shop, s: Sys) {
    && s.k == K.Db(map[shop.a := NewStation(shop), shop.b := NewStation(shop)], [])
    && s.f == F.Db(map[shop.t := Job(shop, 1), shop.u := Job(shop, 2)],
                   map[shop.order := F.Order(shop.kitchen, F.Placed)], {})
    && s.publishers == map[shop.order := Publisher([shop.t, shop.u], [], Publishing)]
    && s.entries == [] && s.claims == [] && s.completions == [] && s.requests == {}
  }

  lemma TakesOrder(config: D.Config, shop: Shop)
    requires shop.Valid()
    ensures Ordered(shop, Run(config, INIT, OpenEvents(shop)))
  {
    hide Run, F.MarkTasksQueued, B.OrderTasks, B.ChainEdges, WorkerStep, KitchenStep, FulfillmentStep;
    var events := OpenEvents(shop);
    RunThree(config, INIT, events[0], events[1], events[2]);
    TwoJobs(shop);
    var s2 := Step(config, Step(config, INIT, events[0]), events[1]);
    assert s2.f == INIT.f && s2.entries == [] && s2.publishers == map[];
    assert s2.k == K.Db(map[shop.a := NewStation(shop), shop.b := NewStation(shop)], []);
    var tasks := [Job(shop, 1), Job(shop, 2)];
    assert [shop.t, shop.u][..1] == [shop.t] && tasks[..1] == [tasks[0]];
    assert [shop.t][..0] == [] && [tasks[0]][..0] == [];
    assert TaskTable([], []) == map[];
    assert TaskTable([shop.t], [tasks[0]]) == map[shop.t := tasks[0]];
    assert TaskTable([shop.t, shop.u], tasks) == map[shop.t := tasks[0], shop.u := tasks[1]];
    assert EdgeSet([shop.t, shop.u], []) == {};
    assert Orderable(s2, shop.order, Items(shop), map[shop.dish := Recipe(shop)], [shop.t, shop.u]);
  }

  function QueuedJob(shop: Shop, unit: nat, message: nat): F.Task {
    F.QueuedTask(Job(shop, unit), F.Published("", Message.StreamName(shop.kitchen, shop.stationType), message), 0)
  }

  function FirstEntry(shop: Shop, t: TaskId, index: nat): Entry {
    Entry(t, shop.order, shop.kitchen, shop.stationType, shop.operation, 1, 1, index, 0, Queued)
  }

  /** Both tasks are queued, both messages are waiting, and both stations are idle. */
  ghost predicate Waiting(shop: Shop, s: Sys) {
    && s.k == K.Db(map[shop.a := NewStation(shop), shop.b := NewStation(shop)], [])
    && s.f == F.Db(map[shop.t := QueuedJob(shop, 1, 0), shop.u := QueuedJob(shop, 2, 1)],
                   map[shop.order := F.Order(shop.kitchen, F.Placed)], {})
    && s.entries == [FirstEntry(shop, shop.t, 0), FirstEntry(shop, shop.u, 1)]
    && s.claims == [] && s.completions == [] && s.requests == {}
  }

  function MessageFor(shop: Shop, t: TaskId, index: nat): F.Published {
    F.Published(t, Message.StreamName(shop.kitchen, shop.stationType), index)
  }

  lemma PublishesFirst(config: D.Config, shop: Shop, s: Sys)
    requires shop.Valid() && Ordered(shop, s)
    ensures Step(config, s, Publish(shop.order))
            == s.(entries := [FirstEntry(shop, shop.t, 0)],
                  publishers := map[shop.order :=
                    Publisher([shop.t, shop.u], [MessageFor(shop, shop.t, 0)], Publishing)])
  {
    hide AddOrder, Orderable, WorkerStep, KitchenStep, FulfillmentStep, AdminStep, Message.StreamName,
         F.MarkTasksQueued;
    var s' := Step(config, s, Publish(shop.order));
    assert s'.entries == [FirstEntry(shop, shop.t, 0)];
    assert s'.publishers[shop.order].published == [MessageFor(shop, shop.t, 0)];
    assert s'.publishers == map[shop.order := s'.publishers[shop.order]];
  }

  lemma PublishesSecond(config: D.Config, shop: Shop, s: Sys)
    requires shop.Valid() && s.entries == [FirstEntry(shop, shop.t, 0)] && shop.u in s.f.tasks
    requires s.f.tasks[shop.u] == Job(shop, 2) && s.f.orders == map[shop.order := F.Order(shop.kitchen, F.Placed)]
    requires s.publishers == map[shop.order := Publisher([shop.t, shop.u], [MessageFor(shop, shop.t, 0)], Publishing)]
    ensures Step(config, s, Publish(shop.order))
            == s.(entries := [FirstEntry(shop, shop.t, 0), FirstEntry(shop, shop.u, 1)],
                  publishers := map[shop.order :=
                    Publisher([shop.t, shop.u], [MessageFor(shop, shop.t, 0), MessageFor(shop, shop.u, 1)],
                              Publishing)])
  {
    hide AddOrder, Orderable, WorkerStep, KitchenStep, FulfillmentStep, AdminStep, Message.StreamName,
         F.MarkTasksQueued;
    var s' := Step(config, s, Publish(shop.order));
    assert s'.entries == [FirstEntry(shop, shop.t, 0), FirstEntry(shop, shop.u, 1)];
    assert s'.publishers[shop.order].published == [MessageFor(shop, shop.t, 0), MessageFor(shop, shop.u, 1)];
    assert s'.publishers == map[shop.order := s'.publishers[shop.order]];
  }

  lemma QueuesBoth(shop: Shop)
    requires shop.t != shop.u
    ensures F.MarkTasksQueued(map[shop.t := Job(shop, 1), shop.u := Job(shop, 2)],
                              [MessageFor(shop, shop.t, 0), MessageFor(shop, shop.u, 1)], 0)
            == map[shop.t := QueuedJob(shop, 1, 0), shop.u := QueuedJob(shop, 2, 1)]
  {
    hide Message.StreamName;
    var tasks := map[shop.t := Job(shop, 1), shop.u := Job(shop, 2)];
    var p, q := MessageFor(shop, shop.t, 0), MessageFor(shop, shop.u, 1);
    assert [p, q][..1] == [p] && [p][..0] == [];
    assert F.MarkTasksQueued(tasks, [], 0) == tasks;
    assert F.MarkTasksQueued(tasks, [p], 0) == tasks[shop.t := QueuedJob(shop, 1, 0)];
  }

  lemma QueuesOrder(config: D.Config, shop: Shop, s: Sys)
    requires shop.Valid() && Ordered(shop, s)
    ensures Waiting(shop, Run(config, s, OrderEvents(shop)))
  {
    hide Run, AddOrder, Orderable, WorkerStep, KitchenStep, FulfillmentStep, AdminStep, F.MarkTasksQueued, Job,
         QueuedJob, MessageFor, FirstEntry, NewStation;
    RunThree(config, s, Publish(shop.order), Publish(shop.order), QueueTasks(shop.order, 0));
    PublishesFirst(config, shop, s);
    PublishesSecond(config, shop, Step(config, s, Publish(shop.order)));
    QueuesBoth(shop);
  }

  // ----- choosing stations -----

  /** With both screens empty the first station is chosen. */
  lemma FirstIsChosen(shop: Shop, s: Sys, e: nat)
    requires shop.Valid() && e < |s.entries|
             && s.k == K.Db(map[shop.a := NewStation(shop), shop.b := NewStation(shop)], [])
    requires s.entries[e].kitchen == shop.kitchen && s.entries[e].stationType == shop.stationType
    ensures C.RightChoice(s.k, DeliveryOf(s.entries[e]), Some(shop.a))
  {
    S.TextLessExactly(shop.a, shop.b);
  }

  /** With one row on the first station's screen the second is chosen. */
  lemma SecondIsChosen(shop: Shop, s: Sys, e: nat, row: K.Row)
    requires shop.Valid() && e < |s.entries| && row.station == shop.a && row.status == K.Displayed
    requires s.k == K.Db(map[shop.a := NewStation(shop), shop.b := NewStation(shop)], [row])
    requires s.entries[e].kitchen == shop.kitchen && s.entries[e].stationType == shop.stationType
    ensures C.RightChoice(s.k, DeliveryOf(s.entries[e]), Some(shop.b))
  {
    var r := DeliveryOf(s.entries[e]);
    assert [row][..0] == [];
    assert K.Count([row], shop.a, K.Displayed) == K.Count([], shop.a, K.Displayed) + 1;
    assert K.Count([row], shop.b, K.Displayed) == K.Count([], shop.b, K.Displayed);
    forall d | d != shop.b ensures K.DeliveryRefusal(s.k, d, r).Some? {}
  }

  // ----- chaining events -----

  lemma By(config: D.Config, events: seq<Event>)
    ensures Reachable(config, Run(config, INIT, events))
  {
    RunLeads(config, INIT, events);
  }

  lemma Then(config: D.Config, s: Sys, events: seq<Event>)
    requires Reachable(config, s)
    ensures Reachable(config, Run(config, s, events))
  {
    LeadsTransitively(config, INIT, s, events);
  }

  lemma Onward(config: D.Config, s: Sys, s': Sys)
    requires Reachable(config, s) && Leads(config, s, s')
    ensures Reachable(config, s') && Inv(config, s')
  {
    hide Leads, Run, Inv;
    var events := LeadsRuns(config, s, s');
    LeadsTransitively(config, INIT, s, events);
    ReachableOk(config, s');
  }

  lemma Start(config: D.Config, shop: Shop) returns (s: Sys)
    requires shop.Valid()
    ensures Waiting(shop, s) && Reachable(config, s) && Inv(config, s)
  {
    hide Run, Waiting, Ordered, Inv, OpenEvents, OrderEvents;
    TakesOrder(config, shop);
    var s1 := Run(config, INIT, OpenEvents(shop));
    QueuesOrder(config, shop, s1);
    By(config, OpenEvents(shop));
    Then(config, s1, OrderEvents(shop));
    s := Run(config, s1, OrderEvents(shop));
    ReachableOk(config, s);
  }

  // ----- a lost reply and another station -----

  /** The delivery happened, but the worker is not told and puts the message back. */
  lemma LosesReply(config: D.Config, s: Sys, e: nat, station: StationId)
    requires config.maxAttempts >= 2 && e < |s.entries| && s.entries[e].stage == Working(D.Deliver(station))
    requires s.entries[e].attempt == 1
    ensures var s' := Run(config, s, [ReceiveDeliver(e, D.DeliverFailed, 0), Wake(e)]);
            && s' == s.(entries := s'.entries) && |s'.entries| == |s.entries| + 1
            && s'.entries[|s.entries|].stage == Queued && s'.entries[|s.entries|].task == s.entries[e].task
            && s'.entries[|s.entries|].kitchen == s.entries[e].kitchen
            && s'.entries[|s.entries|].stationType == s.entries[e].stationType
  {
    hide Run, AdminStep, OrderStep, KitchenStep, FulfillmentStep, Backoff.Doubled;
    RunTwo(config, s, ReceiveDeliver(e, D.DeliverFailed, 0), Wake(e));
  }

  /** The delivered row before its reply is lost. */
  lemma DeliveredOnce(config: D.Config, shop: Shop) returns (s: Sys)
    requires shop.Valid()
    ensures Reachable(config, s) && Inv(config, s)
    ensures |s.entries| == 2 && s.entries[0] == FirstEntry(shop, shop.t, 0).(stage := Working(D.Deliver(shop.a)))
    ensures s.k == K.Db(map[shop.a := NewStation(shop), shop.b := NewStation(shop)],
                        [K.NewRow(shop.a, DeliveryOf(FirstEntry(shop, shop.t, 0)))])
    ensures shop.t in s.f.tasks && s.f.tasks[shop.t].status == F.Queued && s.f.deps == {}
  {
    hide Leads, Run, Inv, ChooseEvents, DeliverEvents, K.DeliveryRefusal, C.RightChoice, Message.StreamName;
    var s0 := Start(config, shop);
    FirstIsChosen(shop, s0, 0);
    ChoosesStation(config, s0, 0, shop.a);
    Then(config, s0, ChooseEvents(0, shop.a));
    var s1 := Run(config, s0, ChooseEvents(0, shop.a));
    var r := DeliverReq(0, shop.a, DeliveryOf(s0.entries[0]));
    AcceptedByChoice(s1.k, r.delivery, shop.a);
    EmptyShape(s1.k);
    DeliversRow(config, s1, r);
    Then(config, s1, DeliverEvents(r));
    s := Run(config, s1, DeliverEvents(r));
    ReachableOk(config, s);
  }

  lemma AcceptedByChoice(k: K.Db, r: K.Delivery, station: StationId)
    requires C.RightChoice(k, r, Some(station))
    ensures K.DeliveryRefusal(k, station, r).None?
  {
  }

  lemma EmptyShape(k: K.Db)
    requires k.rows == []
    ensures K.RowShape(k)
  {
  }

  /** The retry finds the first station's screen longer, chooses the other one, is answered with
      the row on the first, and tells Fulfillment the second: the task can never be started. */
  lemma MismatchIsReachable(config: D.Config, shop: Shop)
    requires config.maxAttempts >= 2 && shop.Valid()
    ensures exists s :: Reachable(config, s) && Mismatched(s, shop.t)
  {
    hide Leads, Run, Inv, ChooseEvents, MarkEvents, K.DeliveryRefusal, C.RightChoice, NewStation, K.FindKey;
    var s := DeliveredOnce(config, shop);
    LosesReply(config, s, 0, shop.a);
    Then(config, s, [ReceiveDeliver(0, D.DeliverFailed, 0), Wake(0)]);
    var s1 := Run(config, s, [ReceiveDeliver(0, D.DeliverFailed, 0), Wake(0)]);
    SecondIsChosen(shop, s1, 2, s1.k.rows[0]);
    ChoosesStation(config, s1, 2, shop.b);
    Then(config, s1, ChooseEvents(2, shop.b));
    var s2 := Run(config, s1, ChooseEvents(2, shop.b));
    var r := DeliverReq(2, shop.b, DeliveryOf(s1.entries[2]));
    OnlyRowIsFound(s2.k, shop.t);
    Then(config, s2, [LookupDelivery(r)]);
    RunOne(config, s2, LookupDelivery(r));
    var s3 := Run(config, s2, [LookupDelivery(r)]);
    MarksTask(config, s3, 2, shop.b, 0, 1);
    Then(config, s3, MarkEvents(2, shop.t, shop.b, 0, 1));
    var s4 := Run(config, s3, MarkEvents(2, shop.t, shop.b, 0, 1));
    assert Mismatched(s4, shop.t);
  }

  lemma OnlyRowIsFound(k: K.Db, t: TaskId)
    requires |k.rows| == 1 && k.rows[0].req.key == Idempotency.KDSIdempotencyKey(t)
    ensures K.FindKey(k.rows, Idempotency.KDSIdempotencyKey(t)) == Some(0)
  {
  }

  // ----- a completion without a claim -----

  /** The first task on the first station's screen, with both services in agreement. */
  ghost predicate OneShown(shop: Shop, s: Sys) {
    && s.k == K.Db(map[shop.a := NewStation(shop), shop.b := NewStation(shop)],
                   [K.NewRow(shop.a, DeliveryOf(FirstEntry(shop, shop.t, 0)))])
    && shop.t in s.f.tasks && s.f.tasks[shop.t].status == F.Displayed && s.f.tasks[shop.t].station == Some(shop.a)
    && shop.u in s.f.tasks && s.f.tasks[shop.u].status == F.Queued && s.f.tasks[shop.u].order == shop.order
    && s.f.tasks[shop.t].order == shop.order && s.f.tasks.Keys == {shop.t, shop.u} && s.f.deps == {}
    && |s.entries| == 2 && s.entries[1] == FirstEntry(shop, shop.u, 1)
    && s.claims == [] && s.completions == []
  }

  lemma ShowsFirst(config: D.Config, shop: Shop) returns (s: Sys)
    requires shop.Valid()
    ensures OneShown(shop, s) && Reachable(config, s) && Inv(config, s)
  {
    hide Leads, Run, Inv, K.DeliveryRefusal, C.RightChoice, Message.StreamName, NewStation;
    var s0 := Start(config, shop);
    FirstIsChosen(shop, s0, 0);
    s := DispatchRuns(config, s0, 0, shop.a, 0);
    Onward(config, s0, s);
    assert s.k.rows == [K.NewRow(shop.a, DeliveryOf(FirstEntry(shop, shop.t, 0)))];
  }

  function BeginEvents(s: Sys, station: StationId, task: TaskId, worker: WorkerId): seq<Event>
    requires K.FindTask(s.k.rows, task).Some?
  {
    [ClaimTask(station, task, worker, 0),
     HandleStart(StartReq(|s.claims|, task, station, K.FindTask(s.k.rows, task).value, 0))]
  }

  /** The first two events of a claim: the start has been served, its reply is still out. */
  lemma Begins(config: D.Config, s: Sys, station: StationId, task: TaskId, worker: WorkerId)
    requires K.ClaimRefusal(s.k, station, task).None?
    ensures var s' := Run(config, s, BeginEvents(s, station, task, worker));
            var k := K.FindTask(s.k.rows, task).value;
            && s' == s.(f := s'.f, k := s'.k, claims := s'.claims, requests := s'.requests, responses := s'.responses)
            && s'.f == F.StartTask(s.f, task, F.StartRequest(station, k, 0)).db
            && s'.k == K.BeginClaim(s.k, station, task, worker, 0)
            && s'.claims == s.claims + [Claim(station, task, worker, 0, k, Starting)]
  {
    hide Run, F.StartTask, K.BeginClaim, K.ValidateClaim, AdminStep, OrderStep, WorkerStep, K.DeliverTask,
         K.FinishComplete, K.CompensateClaim, K.CompleteRefusal;
    var events := BeginEvents(s, station, task, worker);
    RunTwo(config, s, events[0], events[1]);
  }

  /** A displayed row with matching stations is claimed and its task started. */
  lemma StartsRow(config: D.Config, s: Sys, k: KdsId, worker: WorkerId) returns (s': Sys)
    requires Reachable(config, s) && k < |s.k.rows| && s.k.rows[k].status == K.Displayed
    requires var t := s.k.rows[k].req.task;
             t in s.f.tasks && s.f.tasks[t].status == F.Displayed && s.f.tasks[t].station == Some(s.k.rows[k].station)
    requires var st := s.k.rows[k].station;
             && st in s.k.stations && s.k.stations[st].status == K.Available
             && s.k.stations[st].busySlots < s.k.stations[st].capacity
    ensures Reachable(config, s')
    ensures var row := s.k.rows[k];
            var t := row.req.task;
            && s'.f.tasks == s.f.tasks[t := F.StartedTask(s.f.tasks[t], F.StartRequest(row.station, k, 0))]
            && s'.k.rows == s.k.rows[k := row.(status := K.Claimed, claimedBy := Some(worker), claimedAt := Some(0))]
            && s'.k.stations == K.SetBusy(s.k.stations, row.station, s.k.stations[row.station].busySlots + 1)
            && s'.claims == s.claims + [Claim(row.station, row.req.task, worker, 0, k, Starting)]
            && s'.completions == s.completions
  {
    hide Leads, Run, Inv, Base, BeginEvents, F.StartTask, F.StartedTask;
    ReachableOk(config, s);
    InvBase(config, s);
    StationOfRow(s, k);
    var row := s.k.rows[k];
    ShownStarts(s, row.req.task, k);
    Begins(config, s, row.station, row.req.task, worker);
    Then(config, s, BeginEvents(s, row.station, row.req.task, worker));
    s' := Run(config, s, BeginEvents(s, row.station, row.req.task, worker));
  }

  function AskEvents(s: Sys, station: StationId, task: TaskId, worker: WorkerId, unseen: set<TaskId>): seq<Event>
    requires K.FindTask(s.k.rows, task).Some?
  {
    [CompleteTask(station, task, worker, 0),
     HandleComplete(CompleteReq(|s.completions|, task, station, K.FindTask(s.k.rows, task).value, 0), unseen)]
  }

  /** The first two events of a completion: Fulfillment has served it. */
  lemma Asks(config: D.Config, s: Sys, station: StationId, task: TaskId, worker: WorkerId, unseen: set<TaskId>)
    requires K.CompleteRefusal(s.k, station, task, worker).None? && task !in unseen
    ensures var s' := Run(config, s, AskEvents(s, station, task, worker, unseen));
            var k := K.FindTask(s.k.rows, task).value;
            && s'.k == s.k && s'.claims == s.claims && |s'.completions| == |s.completions| + 1
            && s'.f == F.CompleteTask(s.f, task, F.CompleteRequest(station, k, 0), unseen).db
            && s'.requests == s.requests + {CompleteReq(|s.completions|, task, station, k, 0)}
  {
    hide Run, F.CompleteTask, K.ValidateComplete, AdminStep, OrderStep, WorkerStep, K.DeliverTask, K.FinishComplete,
         K.BeginClaim, K.CompensateClaim, K.ClaimRefusal;
    var events := AskEvents(s, station, task, worker, unseen);
    RunTwo(config, s, events[0], events[1]);
  }

  lemma OnlyTaskIsFound(rows: seq<K.Row>, t: TaskId)
    requires |rows| == 1 && rows[0].req.task == t
    ensures K.FindTask(rows, t) == Some(0)
  {
  }

  /** The worker asks for the completion while the claim's reply is still out. */
  ghost predicate Hasty(shop: Shop, s: Sys, worker: WorkerId) {
    && |s.k.rows| == 1 && s.k.rows[0].status == K.Claimed && s.k.rows[0].claimedBy == Some(worker)
    && s.k.rows[0].req.task == shop.t && s.k.rows[0].station == shop.a && shop.a in s.k.stations
    && s.claims == [Claim(shop.a, shop.t, worker, 0, 0, Starting)]
    && CompleteReq(0, shop.t, shop.a, 0, 0) in s.requests
    && shop.t in s.f.tasks && s.f.tasks[shop.t].status == F.InProgress && s.f.tasks[shop.t].startedAt == Some(0)
  }

  lemma Hastens(config: D.Config, shop: Shop, worker: WorkerId) returns (s: Sys)
    requires shop.Valid()
    ensures Hasty(shop, s, worker) && Reachable(config, s) && Inv(config, s)
  {
    hide Leads, Run, Inv, Message.StreamName, OrderStep, WorkerStep, FulfillmentStep, AdminStep, K.BeginClaim;
    var s0 := ShowsFirst(config, shop);
    var s1 := StartsRow(config, s0, 0, worker);
    OnlyTaskIsFound(s1.k.rows, shop.t);
    var request := CompleteTask(shop.a, shop.t, worker, 0);
    RunOne(config, s1, request);
    Then(config, s1, [request]);
    s := Run(config, s1, [request]);
    ReachableOk(config, s);
  }

  function WithdrawEvents(shop: Shop): seq<Event> {
    [LoseStart(0), Compensate(0)] + [HandleComplete(CompleteReq(0, shop.t, shop.a, 0, 0), {})]
  }

  lemma ShownAgain(config: D.Config, s: Sys, c: Claim)
    requires s.claims == [c] && c.phase == Starting && |s.k.rows| == 1 && s.k.rows[0].req.task == c.task
    requires s.k.rows[0].status == K.Claimed && s.k.rows[0].claimedBy == Some(c.worker)
             && s.k.rows[0].station in s.k.stations
    ensures var s' := Run(config, s, [LoseStart(0), Compensate(0)]);
            && s' == s.(k := s'.k, claims := s'.claims)
            && |s'.k.rows| == 1 && s'.k.rows[0].status == K.Displayed && s'.k.rows[0].req.task == c.task
  {
    hide Run, AdminStep, OrderStep, WorkerStep, FulfillmentStep;
    OnlyTaskIsFound(s.k.rows, c.task);
    RunTwo(config, s, LoseStart(0), Compensate(0));
  }

  lemma Withdraws(config: D.Config, shop: Shop, s: Sys, worker: WorkerId)
    requires Hasty(shop, s, worker) && F.CompleteTask(s.f, shop.t, F.CompleteRequest(shop.a, 0, 0), {}).error.None?
    ensures Agreement.StillShown(Run(config, s, WithdrawEvents(shop)), shop.t)
  {
    hide Run, AdminStep, OrderStep, WorkerStep, KitchenStep, F.AllOrderTasksDone;
    var complete := HandleComplete(CompleteReq(0, shop.t, shop.a, 0, 0), {});
    ShownAgain(config, s, s.claims[0]);
    var s1 := Run(config, s, [LoseStart(0), Compensate(0)]);
    RunConcat(config, s, [LoseStart(0), Compensate(0)], [complete]);
    RunOne(config, s1, complete);
    assert IsRowOf(Step(config, s1, complete), 0, shop.t);
  }

  /** Without the discipline a done task can be back on a screen: the start got through but its
      reply did not, the claim was withdrawn, and a completion asked for in between went through. */
  lemma UndisciplinedRunLeavesDoneTaskShown(config: D.Config, shop: Shop, worker: WorkerId)
    requires shop.Valid()
    ensures exists s :: Reachable(config, s) && Agreement.StillShown(s, shop.t)
  {
    hide Leads, Run, Inv, WithdrawEvents, Agreement.StillShown, K.RowShape, F.AllOrderTasksDone;
    var s := Hastens(config, shop, worker);
    InvBase(config, s);
    StartedCompletes(s, shop.t, 0, {});
    Withdraws(config, shop, s, worker);
    Then(config, s, WithdrawEvents(shop));
  }

  lemma ShownStarts(s: Sys, t: TaskId, k: KdsId)
    requires Base(s) && IsRowOf(s, k, t) && t in s.f.tasks && s.f.tasks[t].status == F.Displayed
    requires s.f.tasks[t].station == Some(s.k.rows[k].station)
    ensures var req := F.StartRequest(s.k.rows[k].station, k, 0);
            && F.StartTask(s.f, t, req).error.None?
            && F.StartTask(s.f, t, req).db.tasks == s.f.tasks[t := F.StartedTask(s.f.tasks[t], req)]
  {
  }

  lemma StartedCompletes(s: Sys, t: TaskId, k: KdsId, unseen: set<TaskId>)
    requires Base(s) && IsRowOf(s, k, t) && t in s.f.tasks && s.f.tasks[t].status == F.InProgress
    requires s.f.tasks[t].startedAt == Some(0)
    ensures var req := F.CompleteRequest(s.k.rows[k].station, k, 0);
            && F.CompleteTask(s.f, t, req, {}).error.None?
            && F.CompleteTask(s.f, t, req, unseen).db.tasks == s.f.tasks[t := F.CompletedTask(s.f.tasks[t], req)]
  {
    hide ItemsOk, F.ValidDb, K.RowShape, F.AllOrderTasksDone;
    ShapeOf(s);
    CompleteAnswer(s, t, k, 0);
  }

  // ----- a withdrawn claim whose place was taken -----

  /** The first row is claimed, the second station is closed, and the second task has taken the
      free place on the first station's screen. */
  lemma TakesPlace(config: D.Config, shop: Shop, worker: WorkerId) returns (s: Sys)
    requires shop.Valid()
    ensures Reachable(config, s) && Inv(config, s)
    ensures s.claims == [Claim(shop.a, shop.t, worker, 0, 0, Starting)]
    ensures |s.k.rows| == 2 && s.k.rows[0].station == shop.a && s.k.rows[0].req.task == shop.t
    ensures s.k.rows[0].status == K.Claimed && s.k.rows[0].claimedBy == Some(worker)
    ensures s.k.rows[1].station == shop.a && s.k.rows[1].status == K.Displayed
    ensures shop.a in s.k.stations && s.k.stations[shop.a].visibleBacklogLimit == 1
  {
    hide Leads, Run, Inv, Message.StreamName, OrderStep, WorkerStep, FulfillmentStep;
    var s0 := ShowsFirst(config, shop);
    OnlyTaskIsFound(s0.k.rows, shop.t);
    var claim, close := ClaimTask(shop.a, shop.t, worker, 0), ChangeStatus(shop.b, K.Unavailable);
    RunTwo(config, s0, claim, close);
    Then(config, s0, [claim, close]);
    var s1 := Run(config, s0, [claim, close]);
    ReachableOk(config, s1);
    OnlyFirstIsOpen(shop, s1);
    s := DispatchRuns(config, s1, 1, shop.a, 0);
    Onward(config, s1, s);
  }

  lemma OnlyFirstIsOpen(shop: Shop, s: Sys)
    requires shop.a != shop.b && |s.entries| > 1 && s.entries[1] == FirstEntry(shop, shop.u, 1)
    requires s.k.stations.Keys == {shop.a, shop.b} && s.k.stations[shop.b].status == K.Unavailable
    requires s.k.stations[shop.a] == NewStation(shop).(busySlots := 1)
    requires |s.k.rows| == 1 && s.k.rows[0].status == K.Claimed && s.k.rows[0].req.task == shop.t && shop.t != shop.u
    ensures C.RightChoice(s.k, DeliveryOf(s.entries[1]), Some(shop.a)) && K.FindTask(s.k.rows, shop.u).None?
  {
    assert s.k.rows[..0] == [];
    assert K.Count(s.k.rows, shop.a, K.Displayed) == K.Count([], shop.a, K.Displayed);
    forall d | d != shop.a ensures K.DeliveryRefusal(s.k, d, DeliveryOf(s.entries[1])).Some? {}
  }

  /** Compensation shows a row again without looking at the limit: a screen can exceed it. */
  lemma CompensationExceedsLimit(config: D.Config, shop: Shop, worker: WorkerId)
    requires shop.Valid()
    ensures exists s :: Reachable(config, s) && !K.Fits(s.k, shop.a)
  {
    hide Leads, Run, Inv, K.Count, OrderStep, WorkerStep, FulfillmentStep, AdminStep;
    var s := TakesPlace(config, shop, worker);
    FirstTaskIsFound(config, s);
    RunTwo(config, s, LoseStart(0), Compensate(0));
    Then(config, s, [LoseStart(0), Compensate(0)]);
    var s' := Run(config, s, [LoseStart(0), Compensate(0)]);
    TwoShown(s'.k.rows, shop.a);
  }

  lemma FirstTaskIsFound(config: D.Config, s: Sys)
    requires Inv(config, s) && |s.k.rows| > 0
    ensures K.FindTask(s.k.rows, s.k.rows[0].req.task) == Some(0)
  {
    hide Inv, Base;
    InvBase(config, s);
    StationOfRow(s, 0);
  }

  lemma TwoShown(rows: seq<K.Row>, station: StationId)
    requires |rows| == 2 && forall i | 0 <= i < 2 :: rows[i].station == station && rows[i].status == K.Displayed
    ensures K.Count(rows, station, K.Displayed) == 2
  {
    assert rows[..1][..0] == [];
    assert K.Count(rows[..1], station, K.Displayed) == 1;
  }

  // ----- completions that do not see each other -----

  /** Both units in preparation, each at its own station. */
  ghost predicate BothStarted(shop: Shop, s: Sys, worker: WorkerId) {
    && s.f.tasks.Keys == {shop.t, shop.u}
    && (forall x | x in s.f.tasks ::
         && s.f.tasks[x].order == shop.order && s.f.tasks[x].status == F.InProgress
         && s.f.tasks[x].startedAt == Some(0))
    && |s.k.rows| == 2 && s.k.rows[0].req.task == shop.t && s.k.rows[1].req.task == shop.u
    && s.k.rows[0].station == shop.a && s.k.rows[1].station == shop.b && s.k.stations.Keys == {shop.a, shop.b}
    && (forall i | 0 <= i < 2 :: s.k.rows[i].status == K.Claimed && s.k.rows[i].claimedBy == Some(worker))
  }

  ghost predicate BothShown(shop: Shop, s: Sys) {
    && s.k == K.Db(map[shop.a := NewStation(shop), shop.b := NewStation(shop)],
                   [K.NewRow(shop.a, DeliveryOf(FirstEntry(shop, shop.t, 0))),
                    K.NewRow(shop.b, DeliveryOf(FirstEntry(shop, shop.u, 1)))])
    && s.f.tasks.Keys == {shop.t, shop.u}
    && s.f.tasks[shop.t].status == F.Displayed && s.f.tasks[shop.t].station == Some(shop.a)
    && s.f.tasks[shop.u].status == F.Displayed && s.f.tasks[shop.u].station == Some(shop.b)
    && s.f.tasks[shop.t].order == shop.order && s.f.tasks[shop.u].order == shop.order
    && s.claims == [] && s.completions == []
  }

  lemma ShowsBoth(config: D.Config, shop: Shop) returns (s: Sys)
    requires shop.Valid()
    ensures BothShown(shop, s) && Reachable(config, s) && Inv(config, s)
  {
    hide Leads, Run, Inv, Message.StreamName, NewStation, C.RightChoice;
    var s0 := ShowsFirst(config, shop);
    SecondIsChosen(shop, s0, 1, s0.k.rows[0]);
    s := DispatchRuns(config, s0, 1, shop.b, 0);
    Onward(config, s0, s);
    assert s.k.rows == s0.k.rows + [K.NewRow(shop.b, DeliveryOf(FirstEntry(shop, shop.u, 1)))];
  }

  lemma TwoAreFound(rows: seq<K.Row>, t: TaskId, u: TaskId)
    requires |rows| == 2 && rows[0].req.task == t && rows[1].req.task == u && t != u
    ensures K.FindTask(rows, t) == Some(0) && K.FindTask(rows, u) == Some(1)
  {
  }

  /** The first unit in preparation, the second on its screen. */
  ghost predicate FirstStarted(shop: Shop, s: Sys, worker: WorkerId) {
    && s.f.tasks.Keys == {shop.t, shop.u}
    && s.f.tasks[shop.t].status == F.InProgress && s.f.tasks[shop.t].startedAt == Some(0)
    && s.f.tasks[shop.u].status == F.Displayed && s.f.tasks[shop.u].station == Some(shop.b)
    && s.f.tasks[shop.t].order == shop.order && s.f.tasks[shop.u].order == shop.order
    && |s.k.rows| == 2 && s.k.rows[0].req.task == shop.t && s.k.rows[1].req.task == shop.u
    && s.k.rows[0].station == shop.a && s.k.rows[1].station == shop.b && s.k.stations.Keys == {shop.a, shop.b}
    && s.k.rows[0].status == K.Claimed && s.k.rows[0].claimedBy == Some(worker)
    && s.k.rows[1].status == K.Displayed && s.k.stations[shop.b] == NewStation(shop)
  }

  lemma StartsFirst(config: D.Config, shop: Shop, worker: WorkerId) returns (s: Sys)
    requires shop.Valid()
    ensures FirstStarted(shop, s, worker) && Reachable(config, s)
  {
    hide Leads, Inv, Message.StreamName;
    var s0 := ShowsBoth(config, shop);
    s := StartsRow(config, s0, 0, worker);
  }

  lemma StartsBoth(config: D.Config, shop: Shop, worker: WorkerId) returns (s: Sys)
    requires shop.Valid()
    ensures BothStarted(shop, s, worker) && Reachable(config, s) && Inv(config, s)
  {
    hide Leads, Inv, Message.StreamName;
    var s0 := StartsFirst(config, shop, worker);
    s := StartsRow(config, s0, 1, worker);
    ReachableOk(config, s);
  }

  lemma CompletesFirst(config: D.Config, shop: Shop, worker: WorkerId) returns (s: Sys)
    requires shop.Valid()
    ensures Reachable(config, s) && Inv(config, s)
    ensures s.f.tasks.Keys == {shop.t, shop.u} && s.f.tasks[shop.t].status == F.Done
            && s.f.tasks[shop.t].order == shop.order
    ensures s.f.tasks[shop.u].status == F.InProgress && s.f.tasks[shop.u].startedAt == Some(0)
    ensures s.f.tasks[shop.u].order == shop.order
    ensures K.FindTask(s.k.rows, shop.u) == Some(1) && IsRowOf(s, 1, shop.u) && s.k.rows[1].station == shop.b
    ensures K.CompleteRefusal(s.k, shop.b, shop.u, worker).None?
  {
    hide Leads, Run, Inv, AskEvents, F.CompleteTask, ItemsOk, F.ValidDb, K.RowShape, F.ReadyOnlyWhenDone;
    var s0 := StartsBoth(config, shop, worker);
    InvBase(config, s0);
    TwoAreFound(s0.k.rows, shop.t, shop.u);
    StartedCompletes(s0, shop.t, 0, {});
    Asks(config, s0, shop.a, shop.t, worker, {});
    Then(config, s0, AskEvents(s0, shop.a, shop.t, worker, {}));
    s := Run(config, s0, AskEvents(s0, shop.a, shop.t, worker, {}));
    ReachableOk(config, s);
  }

  lemma CompletesSecond(config: D.Config, shop: Shop, s: Sys, worker: WorkerId) returns (s': Sys)
    requires Reachable(config, s) && shop.u in s.f.tasks && s.f.tasks[shop.u].status == F.InProgress
    requires s.f.tasks[shop.u].startedAt == Some(0) && shop.t != shop.u
    requires K.FindTask(s.k.rows, shop.u) == Some(1) && IsRowOf(s, 1, shop.u) && s.k.rows[1].station == shop.b
    requires K.CompleteRefusal(s.k, shop.b, shop.u, worker).None?
    ensures Reachable(config, s') && Base(s)
    ensures s'.f == F.CompleteTask(s.f, shop.u, F.CompleteRequest(shop.b, 1, 0), {shop.t}).db
    ensures s'.f.tasks == s.f.tasks[shop.u := F.CompletedTask(s.f.tasks[shop.u], F.CompleteRequest(shop.b, 1, 0))]
  {
    hide Leads, Run, Inv, Base, AskEvents, F.CompleteTask, F.CompletedTask, K.CompleteRefusal;
    ReachableOk(config, s);
    InvBase(config, s);
    StartedCompletes(s, shop.u, 1, {shop.t});
    Asks(config, s, shop.b, shop.u, worker, {shop.t});
    Then(config, s, AskEvents(s, shop.b, shop.u, worker, {shop.t}));
    s' := Run(config, s, AskEvents(s, shop.b, shop.u, worker, {shop.t}));
  }

  /** The last completion does not see the one before it: the order is never marked ready. */
  lemma RollUpCanBeMissed(config: D.Config, shop: Shop, worker: WorkerId)
    requires shop.Valid()
    ensures exists s :: Reachable(config, s) && Agreement.RollUpMissed(s, shop.order)
  {
    hide Leads, Inv, Base, F.CompleteTask, K.CompleteRefusal;
    var s := CompletesFirst(config, shop, worker);
    var s' := CompletesSecond(config, shop, s, worker);
    Unrolled(shop, s, s');
  }

  lemma Unrolled(shop: Shop, s: Sys, s': Sys)
    requires Base(s) && shop.t != shop.u && s.f.tasks.Keys == s'.f.tasks.Keys == {shop.t, shop.u}
    requires s.f.tasks[shop.u].status == F.InProgress
    requires s'.f.tasks[shop.t] == s.f.tasks[shop.t] && s'.f.tasks[shop.u].status == F.Done
    requires s.f.tasks[shop.t].status == F.Done
    requires s'.f.tasks[shop.t].order == s'.f.tasks[shop.u].order == shop.order
    requires s'.f == F.CompleteTask(s.f, shop.u, F.CompleteRequest(shop.b, 1, 0), {shop.t}).db
    ensures Agreement.RollUpMissed(s', shop.order)
  {
    hide F.CompleteTask, ItemsOk, K.Valid, F.ValidDb, F.ReadyOnlyWhenDone;
    F.LastCompletion(s.f, shop.u, F.CompleteRequest(shop.b, 1, 0), {shop.t});
  }

  // ----- a task nobody looks at any more -----

  /** Every worker that reads the message fails to reach Fulfillment. */
  lemma SnapshotFails(config: D.Config, s: Sys, e: nat)
    requires e < |s.entries| && s.entries[e].stage == Queued
    ensures var s' := Run(config, s, [Read(e), AnswerSnapshot(e, false)]);
            var given := D.Conclude(D.NotNow(D.FulfillmentServiceUnavailable));
            && s' == s.(entries := s'.entries, requests := s'.requests)
            && s'.entries == s.entries[e := s.entries[e].(stage := StageOf(config, s.entries[e].attempt, given))]
            && (forall r | r in s'.requests && r !in s.requests :: r.FailedReq?)
  {
    hide Run, AdminStep, OrderStep, KitchenStep, FulfillmentStep, Backoff.Doubled;
    RunTwo(config, s, Read(e), AnswerSnapshot(e, false));
  }

  /** The message is the only open copy for its task, and nothing else could display the task. */
  predicate LastHope(s: Sys, e: nat) {
    && e < |s.entries| && s.entries[e].stage == Queued
    && s.entries[e].task in s.f.tasks && s.f.tasks[s.entries[e].task].status == F.Queued
    && (forall i | 0 <= i < |s.entries| && i != e && s.entries[i].task == s.entries[e].task ::
          s.entries[i].stage.Closed?)
    && Stranding.NoMarkPending(s, s.entries[e].task)
  }

  lemma GivesUp(config: D.Config, s: Sys, e: nat) returns (s': Sys)
    requires Reachable(config, s) && LastHope(s, e)
    ensures Reachable(config, s') && Stranding.Stranded(config, s', s.entries[e].task)
    ensures s'.f == s.f
    decreases config.maxAttempts - s.entries[e].attempt
  {
    hide Leads, Run, AdminStep, OrderStep, KitchenStep, FulfillmentStep, Backoff.Doubled;
    SnapshotFails(config, s, e);
    Then(config, s, [Read(e), AnswerSnapshot(e, false)]);
    s' := Run(config, s, [Read(e), AnswerSnapshot(e, false)]);
    if s.entries[e].attempt < config.maxAttempts {
      RunOne(config, s', Wake(e));
      Then(config, s', [Wake(e)]);
      s' := GivesUp(config, Run(config, s', [Wake(e)]), |s.entries|);
    }
  }

  /** With every attempt used up, and the report of it lost, a queued task is stranded: nothing will
      ever display it, and nothing has marked it failed. */
  lemma StrandingIsReachable(config: D.Config, shop: Shop)
    requires shop.Valid()
    ensures exists s ::
              Reachable(config, s) && Stranding.Stranded(config, s, shop.t) && s.f.tasks[shop.t].status == F.Queued
  {
    hide Leads, Run, Inv, Message.StreamName;
    var s := Start(config, shop);
    var s' := GivesUp(config, s, 0);
  }
}
