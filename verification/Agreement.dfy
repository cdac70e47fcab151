/** How far the two services agree, and what an order's status says about its tasks. */
module Agreement {
  import opened Common
  import opened Protocol
  import opened Invariant
  import opened ServiceSteps
  import opened OrderSteps
  import opened Claims
  import opened Executions
  import F = Fulfillment
  import K = Kds
  import D = Dispatcher

  // ----- rows and tasks -----

  /** A row the kitchen shows as completed belongs to a task Fulfillment has as done. */
  lemma CompletedRowsAreDone(config: D.Config, s: Sys, k: KdsId)
    requires Reachable(config, s) && k < |s.k.rows| && s.k.rows[k].status == K.Completed
    ensures DoneTask(s, s.k.rows[k].req.task)
  {
    ReachableOk(config, s);
    hide Leads, F.ValidDb, F.ReadyOnlyWhenDone, K.Valid, PublishersOk;
    RowFact(s, k);
  }

  /** A task has at most one row, keyed by the task, and what Fulfillment recorded for a placed
      task is that row; once preparation has begun the stations agree as well. */
  lemma OneRowPerTask(config: D.Config, s: Sys, t: TaskId)
    requires Reachable(config, s) && t in s.f.tasks
    ensures forall i, j | IsRowOf(s, i, t) && IsRowOf(s, j, t) :: i == j
    ensures K.FindKey(s.k.rows, Idempotency.KDSIdempotencyKey(t)) == K.FindTask(s.k.rows, t)
    ensures F.Placed?(s.f.tasks[t].status)
            ==> s.f.tasks[t].kdsTask.Some? && s.f.tasks[t].kdsTask == K.FindTask(s.k.rows, t)
    ensures s.f.tasks[t].status in {F.InProgress, F.Done} ==>
              s.f.tasks[t].station == Some(s.k.rows[s.f.tasks[t].kdsTask.value].station)
  {
    ReachableOk(config, s);
    hide Leads, F.ValidDb, F.ReadyOnlyWhenDone, K.SlotsConserved, K.WithinPeak, PublishersOk, ItemsOk, K.RowOk, Cleared;
    TaskFact(s, t);
    K.SameLookup(s.k, t);
    if F.Placed?(s.f.tasks[t].status) { K.FoundIsTheRow(s.k, s.f.tasks[t].kdsTask.value); }
  }

  /** Delivering a task again, by whichever worker and to whichever station, changes no table,
      and what it is answered with is the row there is. */
  lemma RedeliveryChangesNothing(config: D.Config, s: Sys, r: Request, k: KdsId)
    requires Reachable(config, s) && r in s.missed && r.DeliverReq? && IsRowOf(s, k, r.delivery.task)
    ensures K.DeliverTask(s.k, r.station, r.delivery).db == s.k
    ensures K.DeliverTask(s.k, r.station, r.delivery).reply ==
              match K.DeliveryRefusal(s.k, r.station, r.delivery)
              case None => K.Delivered(k, false)
              case Some(error) => K.Refused(error)
  {
    ReachableOk(config, s);
    hide Leads, F.ValidDb, F.ReadyOnlyWhenDone, PublishersOk, ItemsOk, K.DeliveryRefusal, K.RowShape, Cleared,
         K.SlotsConserved, K.WithinPeak;
    MissedFact(s);
    DeliveryFact(s, r);
    K.SameLookup(s.k, r.delivery.task);
    K.FoundIsTheRow(s.k, k);
  }

  // ----- workers that only complete what they have claimed -----

  predicate IsStarted(s: Sys, c: nat, t: TaskId) {
    c < |s.claims| && s.claims[c].task == t && s.claims[c].phase == Started
  }

  ghost predicate HasStarted(s: Sys, t: TaskId) { exists c: nat :: IsStarted(s, c, t) }

  /** A completion is only asked for by a worker whose claim of the task was answered with success. */
  ghost predicate Allowed(s: Sys, ev: Event) {
    ev.CompleteTask? ==> exists c: nat :: IsStarted(s, c, ev.task) && s.claims[c].worker == ev.worker
  }

  ghost predicate Disciplined(states: seq<Sys>, events: seq<Event>) {
    |states| == |events| + 1 && forall n: nat | n < |events| :: Allowed(states[n], events[n])
  }

  /** Behind every completion under way and every done task stands a started claim. */
  ghost predicate StartedFirst(s: Sys) {
    && (forall d | 0 <= d < |s.completions| :: HasStarted(s, s.completions[d].task))
    && (forall t | t in s.f.tasks && s.f.tasks[t].status == F.Done :: HasStarted(s, t))
  }

  lemma StartedStays(config: D.Config, s: Sys, ev: Event, c: nat, t: TaskId)
    requires IsStarted(s, c, t)
    ensures IsStarted(Step(config, s, ev), c, t)
  {
    hide AdminStep, OrderStep, WorkerStep, FulfillmentStep, K.DeliverTask, K.ClaimRefusal, K.CompleteRefusal,
         K.CompensateClaim;
    AdminFrame(s, ev);
    OrderFrame(s, ev);
    WorkerFrame(config, s, ev);
    FulfillmentFrame(s, ev);
  }

  /** Only serving a completion request makes a task done. */
  lemma NewlyDone(config: D.Config, s: Sys, ev: Event, t: TaskId)
    requires Inv(config, s) && DoneTask(Step(config, s, ev), t) && !DoneTask(s, t)
    ensures ev.HandleComplete? && ev.request in s.requests && ev.request.CompleteReq? && ev.request.task == t
    ensures t in s.f.tasks
    ensures var r := ev.request;
            F.CompleteTask(s.f, t, F.CompleteRequest(r.station, r.row, r.at), ev.unseen).db == Step(config, s, ev).f
  {
    hide AdminStep, OrderStep, WorkerStep, KitchenStep, PublishersOk, ClaimsOk, ItemsOk, F.ReadyOnlyWhenDone, F.ValidDb,
         K.Valid, F.AllOrderTasksDone;
    AdminFrame(s, ev);
    WorkerFrame(config, s, ev);
    KitchenFrame(s, ev);
    if IsOrder(ev) { OrdersOnlyQueue(s, ev, t); }
  }

  lemma StartedFirstStep(config: D.Config, s: Sys, ev: Event)
    requires Inv(config, s) && StartedFirst(s) && Allowed(s, ev)
    ensures StartedFirst(Step(config, s, ev))
  {
    hide Inv, Step;
    var s' := Step(config, s, ev);
    forall t | HasStarted(s, t) ensures HasStarted(s', t) {
      var c :| IsStarted(s, c, t);
      StartedStays(config, s, ev, c, t);
    }
    forall t | t in s'.f.tasks && s'.f.tasks[t].status == F.Done ensures HasStarted(s', t) {
      if !DoneTask(s, t) { DoneByCompletion(config, s, ev, t); }
    }
    forall d: nat | d < |s'.completions| ensures HasStarted(s', s'.completions[d].task) {
      NewCompletion(config, s, ev, d);
      if d >= |s.completions| {
        var c: nat :| IsStarted(s, c, ev.task);
        assert HasStarted(s, ev.task);
      }
    }
  }

  lemma DoneByCompletion(config: D.Config, s: Sys, ev: Event, t: TaskId)
    requires Inv(config, s) && DoneTask(Step(config, s, ev), t) && !DoneTask(s, t)
    ensures exists d :: 0 <= d < |s.completions| && s.completions[d].task == t
  {
    hide Step, PublishersOk, ClaimsOk, ItemsOk, F.ReadyOnlyWhenDone, F.ValidDb, K.Valid, Lineage.LineageOk, MessagesOk,
         F.CompleteTask, Cleared;
    NewlyDone(config, s, ev, t);
    RequestFact(s, ev.request);
  }

  lemma NewCompletion(config: D.Config, s: Sys, ev: Event, d: nat)
    requires d < |Step(config, s, ev).completions|
    ensures var h := Step(config, s, ev).completions[d];
            if d < |s.completions| then h.task == s.completions[d].task else ev.CompleteTask? && h.task == ev.task
  {
    hide AdminStep, OrderStep, WorkerStep, FulfillmentStep, K.DeliverTask, K.ClaimRefusal, K.CompleteRefusal,
         K.CompensateClaim;
    AdminFrame(s, ev);
    OrderFrame(s, ev);
    WorkerFrame(config, s, ev);
    FulfillmentFrame(s, ev);
  }

  lemma {:induction false} StartedFirstRun(config: D.Config, states: seq<Sys>, events: seq<Event>, n: nat)
    requires Execution(config, states, events) && states[0] == INIT && Disciplined(states, events) && n <= |events|
    ensures StartedFirst(states[n])
  {
    hide Inv, Step, Allowed;
    if n > 0 {
      StartedFirstRun(config, states, events, n - 1);
      InitOk(config);
      ExecutionKeeps(config, states, events, n - 1);
      assert IsStep(config, states, events, n - 1);
      StartedFirstStep(config, states[n - 1], events[n - 1]);
    }
  }

  /** When workers complete only what they have successfully claimed, no done task is left on a
      screen for anyone to claim: its row is claimed or completed. */
  lemma DoneRowsAreTaken(config: D.Config, states: seq<Sys>, events: seq<Event>, t: TaskId)
    requires Execution(config, states, events) && states[0] == INIT && Disciplined(states, events)
    requires DoneTask(states[|events|], t)
    ensures var s := states[|events|];
            exists k: nat :: IsRowOf(s, k, t) && s.k.rows[k].status in {K.Claimed, K.Completed}
  {
    hide Inv, IsStep, Allowed, DoneTask;
    InitOk(config);
    ExecutionKeeps(config, states, events, |events|);
    StartedFirstRun(config, states, events, |events|);
    StartedRowIsTaken(config, states[|events|], t);
  }

  lemma StartedRowIsTaken(config: D.Config, s: Sys, t: TaskId)
    requires Inv(config, s) && StartedFirst(s) && DoneTask(s, t)
    ensures exists k: nat :: IsRowOf(s, k, t) && s.k.rows[k].status in {K.Claimed, K.Completed}
  {
    hide ItemsOk, F.ValidDb, F.ReadyOnlyWhenDone, K.Valid, PublishersOk, Lineage.LineageOk, MessagesOk;
    assert HasStarted(s, t);
    var c: nat :| IsStarted(s, c, t);
    ClaimFact(s, c);
    assert Holds(s.k.rows, s.claims[c]);
    assert IsRowOf(s, s.claims[c].row, t);
  }

  // ----- done tasks on a screen -----

  ghost predicate OnScreen(s: Sys, t: TaskId) {
    exists k: nat :: IsRowOf(s, k, t) && s.k.rows[k].status == K.Displayed
  }

  ghost predicate StillShown(s: Sys, t: TaskId) { DoneTask(s, t) && OnScreen(s, t) }

  /** The event completes a task whose row is on display. */
  predicate CompletesShown(s: Sys, ev: Event, t: TaskId) {
    && ev.HandleComplete? && ev.request in s.requests && ev.request.CompleteReq?
    && ev.request.task == t && t !in ev.unseen
    && t in s.f.tasks && s.f.tasks[t].status == F.InProgress
    && var task, r := s.f.tasks[t], ev.request;
       && F.PlacedAt(task, r.station, r.row) && task.startedAt.Some? && r.at >= task.startedAt.value
       && r.row < |s.k.rows| && s.k.rows[r.row].status == K.Displayed
  }

  /** The event withdraws the claim of a task that is done already. */
  predicate WithdrawsDone(s: Sys, ev: Event, t: TaskId) {
    && ev.Compensate? && ev.claim < |s.claims| && s.claims[ev.claim].phase == StartFailed
    && s.claims[ev.claim].task == t
    && DoneTask(s, t) && s.claims[ev.claim].row < |s.k.rows| && s.k.rows[s.claims[ev.claim].row].status == K.Claimed
  }

  lemma BaseDb(s: Sys)
    requires Base(s)
    ensures F.ValidDb(s.f) && F.ReadyOnlyWhenDone(s.f)
  {
  }

  lemma SameScreen(s: Sys, s': Sys, t: TaskId)
    requires s'.k.rows == s.k.rows
    ensures OnScreen(s', t) <==> OnScreen(s, t)
  {
    assert forall k: nat :: IsRowOf(s', k, t) <==> IsRowOf(s, k, t);
  }

  lemma CompletedOnScreen(s: Sys, ev: Event, t: TaskId)
    requires Base(s) && ev.HandleComplete? && ev.request in s.requests && ev.request.CompleteReq?
             && ev.request.task == t
    ensures OnScreen(s, t) <==> ev.request.row < |s.k.rows| && s.k.rows[ev.request.row].status == K.Displayed
  {
    hide ItemsOk, F.ValidDb, F.ReadyOnlyWhenDone, K.RowOk, K.SlotsConserved, K.WithinPeak, F.CompleteTask;
    RequestFact(s, ev.request);
    CompletionFact(s, ev.request.completion);
    K.FoundIsTheRow(s.k, ev.request.row);
    if OnScreen(s, t) {
      var k: nat :| IsRowOf(s, k, t) && s.k.rows[k].status == K.Displayed;
      K.FoundIsTheRow(s.k, k);
    }
  }

  lemma FulfillmentShows(config: D.Config, s: Sys, ev: Event, t: TaskId)
    requires Inv(config, s) && IsFulfillment(ev) && !StillShown(s, t)
    ensures StillShown(FulfillmentStep(s, ev), t) <==> CompletesShown(s, ev, t)
  {
    hide Inv, Base, F.ValidDb, F.MarkDisplayed, F.StartTask, F.DispatchFailed, F.CompleteTask, F.Rewrites, OnScreen,
         AdminStep, OrderStep, WorkerStep, KitchenStep;
    var s' := FulfillmentStep(s, ev);
    FulfillmentFrame(s, ev);
    SameScreen(s, s', t);
    InvBase(config, s);
    if ev.HandleComplete? && ev.request in s.requests && ev.request.CompleteReq? && ev.request.task == t {
      var req := F.CompleteRequest(ev.request.station, ev.request.row, ev.request.at);
      CompletedOnScreen(s, ev, t);
      BaseDb(s);
      F.CompleteTaskAccepts(s.f, t, req, ev.unseen);
      F.CompleteTaskFacts(s.f, t, req, ev.unseen);
    }
    if DoneTask(s', t) && !DoneTask(s, t) { NewlyDone(config, s, ev, t); }
  }

  lemma KitchenShows(s: Sys, ev: Event, t: TaskId)
    requires Base(s) && ClaimsOk(s.k.rows, s.claims) && !StillShown(s, t)
    ensures StillShown(KitchenStep(s, ev), t) <==> WithdrawsDone(s, ev, t)
  {
    hide ItemsOk, F.ValidDb, F.ReadyOnlyWhenDone, K.SlotsConserved, K.WithinPeak, K.DeliveryRefusal, ClaimsOk,
         Cleared, K.RowOk, K.CompensateClaim;
    KitchenFrame(s, ev);
    var s' := KitchenStep(s, ev);
    if DoneTask(s, t) { TaskFact(s, t); }
    if ev.Compensate? && ev.claim < |s.claims| && s.claims[ev.claim].phase == StartFailed {
      ClaimFact(s, ev.claim);
      CompensationReleasesItsOwn(s, ev.claim);
      var k := s.claims[ev.claim].row;
      if WithdrawsDone(s, ev, t) { assert IsRowOf(s', k, t); }
    }
  }

  lemma ShownAgainStep(config: D.Config, s: Sys, ev: Event, t: TaskId)
    requires Inv(config, s) && !StillShown(s, t)
    ensures StillShown(Step(config, s, ev), t) <==> CompletesShown(s, ev, t) || WithdrawsDone(s, ev, t)
  {
    hide Base, PublishersOk, ClaimsOk, AdminStep, OrderStep, WorkerStep, FulfillmentStep, KitchenStep, F.CompleteTask,
         OnScreen;
    AdminFrame(s, ev);
    WorkerFrame(config, s, ev);
    OrderFrame(s, ev);
    if Step(config, s, ev).k.rows == s.k.rows { SameScreen(s, Step(config, s, ev), t); }
    if IsFulfillment(ev) { FulfillmentShows(config, s, ev, t); }
    KitchenShows(s, ev, t);
    if IsOrder(ev) && t in OrderStep(s, ev).f.tasks { OrdersOnlyQueue(s, ev, t); }
  }

  /** A done task comes back on a screen exactly by a completion served while its row is on display,
      or by withdrawing a claim after its task was done. */
  lemma ShownAgainExactlyBy(config: D.Config, states: seq<Sys>, events: seq<Event>, i: nat, t: TaskId)
    requires Execution(config, states, events) && states[0] == INIT && i < |events| && !StillShown(states[i], t)
    ensures StillShown(states[i + 1], t)
            <==> CompletesShown(states[i], events[i], t) || WithdrawsDone(states[i], events[i], t)
  {
    hide Inv, Step, StillShown, CompletesShown, WithdrawsDone;
    InitOk(config);
    ExecutionKeeps(config, states, events, i);
    assert IsStep(config, states, events, i);
    ShownAgainStep(config, states[i], events[i], t);
  }

  // ----- the roll-up of an order -----

  predicate IsReady(s: Sys, o: OrderId) { o in s.f.orders && s.f.orders[o].status == F.ReadyForPickup }

  /** An order is ready for pickup only when all its tasks are done, however stale the count of
      unfinished tasks was when the order was marked. */
  lemma ReadyMeansAllDone(config: D.Config, s: Sys, o: OrderId)
    requires Reachable(config, s) && IsReady(s, o)
    ensures F.AllOrderTasksDone(s.f, o, {})
  {
    ReachableOk(config, s);
    hide Leads, ItemsOk, F.TaskShape, K.Valid, PublishersOk;
  }

  ghost predicate TasksStay(f: F.Db, f': F.Db, o: OrderId) {
    && f'.tasks.Keys == f.tasks.Keys
    && (forall t | t in f.tasks && f.tasks[t].order == o :: f'.tasks[t] == f.tasks[t])
  }

  /** No transaction moves a done task, so the tasks of a finished order are where they were. */
  lemma FinishedTasksStay(s: Sys, ev: Event, o: OrderId)
    requires F.ValidDb(s.f) && F.AllOrderTasksDone(s.f, o, {})
    ensures F.AllOrderTasksDone(FulfillmentStep(s, ev).f, o, {}) && TasksStay(s.f, FulfillmentStep(s, ev).f, o)
  {
    hide FulfillmentStep, F.ValidDb;
    var id, out := OneTransaction(s, ev);
    forall t | t in s.f.tasks ensures F.TaskStep(s.f.tasks[t], out.db.tasks[t]) {}
  }

  lemma FinishedOrderStays(s: Sys, ev: Event, o: OrderId)
    requires F.AllOrderTasksDone(s.f, o, {}) && o in s.f.orders && TasksStay(s.f, FulfillmentStep(s, ev).f, o)
    ensures o in FulfillmentStep(s, ev).f.orders && FulfillmentStep(s, ev).f.orders[o] == s.f.orders[o]
  {
  }

  lemma FulfillmentKeepsReady(s: Sys, ev: Event, o: OrderId)
    requires F.ValidDb(s.f) && F.ReadyOnlyWhenDone(s.f) && IsReady(s, o)
    ensures IsReady(FulfillmentStep(s, ev), o)
  {
    hide FulfillmentStep, F.TaskShape;
    assert F.AllOrderTasksDone(s.f, o, {});
    FinishedTasksStay(s, ev, o);
    FinishedOrderStays(s, ev, o);
  }

  lemma ReadyStays(config: D.Config, s: Sys, ev: Event, o: OrderId)
    requires Inv(config, s) && IsReady(s, o)
    ensures IsReady(Step(config, s, ev), o)
  {
    hide AdminStep, WorkerStep, KitchenStep, FulfillmentStep, PublishersOk, ClaimsOk, ItemsOk, K.Valid,
         F.ValidDb, F.ReadyOnlyWhenDone, Lineage.LineageOk, MessagesOk, AddOrder, F.MarkTasksQueued;
    AdminFrame(s, ev);
    WorkerFrame(config, s, ev);
    KitchenFrame(s, ev);
    FulfillmentKeepsReady(s, ev, o);
    if ev.CreateOrder? && o != ev.order { AddOrderKeepsOrder(s, ev, o); }
  }

  lemma AddOrderKeepsOrder(s: Sys, ev: Event, o: OrderId)
    requires ev.CreateOrder? && o != ev.order && o in s.f.orders
    ensures o in OrderStep(s, ev).f.orders && OrderStep(s, ev).f.orders[o] == s.f.orders[o]
  {
  }

  lemma {:induction false} ReadyThroughout(config: D.Config, s: Sys, events: seq<Event>, o: OrderId)
    requires Inv(config, s) && IsReady(s, o)
    ensures IsReady(Run(config, s, events), o)
  {
    hide Inv, Step;
    if events != [] {
      var n := |events| - 1;
      ReadyThroughout(config, s, events[..n], o);
      ContinueKeeps(config, s, events[..n]);
      ReadyStays(config, Run(config, s, events[..n]), events[n], o);
    }
  }

  /** Once ready, always ready: the unconditional write of cooking never reaches a ready order. */
  lemma ReadyForGood(config: D.Config, s: Sys, s': Sys, o: OrderId)
    requires Reachable(config, s) && IsReady(s, o) && Leads(config, s, s')
    ensures IsReady(s', o)
  {
    hide Leads, Inv, Run, IsReady;
    ReachableOk(config, s);
    var events := LeadsRuns(config, s, s');
    ReadyThroughout(config, s, events, o);
  }

  /** A completion of one of the order's tasks sees every completion of the order before it. */
  predicate SeesOrder(s: Sys, ev: Event, o: OrderId) {
    ev.HandleComplete? && ev.request.CompleteReq? && IsTaskOf(s, ev.request.task, o) ==> F.AllSeen(s.f, o, ev.unseen)
  }

  predicate IsTaskOf(s: Sys, t: TaskId, o: OrderId) {
    t in s.f.tasks && s.f.tasks[t].order == o
  }

  /** If the order's tasks are all done, it is ready for pickup. */
  ghost predicate DoneIsReady(s: Sys, o: OrderId) {
    o in s.f.orders && F.AllOrderTasksDone(s.f, o, {}) ==> IsReady(s, o)
  }

  /** A new order has a task that is only created. */
  lemma NewOrderIsOpen(config: D.Config, s: Sys, ev: Event, o: OrderId)
    requires Inv(config, s) && Inv(config, Step(config, s, ev)) && o !in s.f.orders && o in Step(config, s, ev).f.orders
    ensures !F.AllOrderTasksDone(Step(config, s, ev).f, o, {})
  {
    hide AdminStep, OrderStep, WorkerStep, FulfillmentStep, KitchenStep, ItemsOk, F.ReadyOnlyWhenDone, F.TaskShape,
         K.Valid, ClaimsOk, Lineage.LineageOk, MessagesOk, TaskListed, EdgeListed, Chained, PhaseOk;
    AdminFrame(s, ev);
    WorkerFrame(config, s, ev);
    KitchenFrame(s, ev);
    if IsFulfillment(ev) { var id, out := OneTransaction(s, ev); }
    var s' := Step(config, s, ev);
    assert PublisherOk(s'.f, o, s'.publishers[o]);
    var t := s'.publishers[o].tasks[0];
    if IsOrder(ev) { OrdersOnlyQueue(s, ev, t); }
  }

  /** Some task of the order is not done yet, or the order was finished before. */
  lemma LastOfOrder(config: D.Config, s: Sys, ev: Event, o: OrderId) returns (t: TaskId)
    requires Inv(config, s) && o in s.f.orders && !F.AllOrderTasksDone(s.f, o, {})
    requires F.AllOrderTasksDone(Step(config, s, ev).f, o, {}) && Grows(s, Step(config, s, ev))
    ensures t in s.f.tasks && s.f.tasks[t].order == o && !DoneTask(s, t) && DoneTask(Step(config, s, ev), t)
    ensures t in Step(config, s, ev).f.tasks && Step(config, s, ev).f.tasks[t].order == o
  {
    hide Step, Inv;
    t :| t in s.f.tasks && s.f.tasks[t].order == o && s.f.tasks[t].status != F.Done;
    assert F.TaskStep(s.f.tasks[t], Step(config, s, ev).f.tasks[t]);
  }

  lemma RollUpStep(config: D.Config, s: Sys, ev: Event, o: OrderId)
    requires Inv(config, s) && DoneIsReady(s, o) && SeesOrder(s, ev, o)
    ensures DoneIsReady(Step(config, s, ev), o)
  {
    hide Step, Inv, F.AllOrderTasksDone, F.CompleteTask, F.ValidDb, F.ReadyOnlyWhenDone, Grows;
    var s' := Step(config, s, ev);
    StepKeeps(config, s, ev);
    if o in s'.f.orders && F.AllOrderTasksDone(s'.f, o, {}) {
      if o !in s.f.orders {
        NewOrderIsOpen(config, s, ev, o);
      } else if F.AllOrderTasksDone(s.f, o, {}) {
        ReadyStays(config, s, ev, o);
      } else {
        var t := LastOfOrder(config, s, ev, o);
        NewlyDone(config, s, ev, t);
        InvBase(config, s);
        BaseDb(s);
        var req := F.CompleteRequest(ev.request.station, ev.request.row, ev.request.at);
        F.SeenStays(s.f, t, req, ev.unseen, o);
        F.LastCompletion(s.f, t, req, ev.unseen);
      }
    }
  }

  /** With the completions of an order taken one at a time, all done also means ready for that order,
      however the completions of other orders overlap. */
  lemma {:induction false} AllDoneMeansReady(config: D.Config, states: seq<Sys>, events: seq<Event>, o: OrderId, n: nat)
    requires Execution(config, states, events) && states[0] == INIT && n <= |events|
    requires forall i: nat | i < |events| :: SeesOrder(states[i], events[i], o)
    ensures DoneIsReady(states[n], o)
  {
    hide Inv, Step, SeesOrder;
    InitOk(config);
    if n > 0 {
      AllDoneMeansReady(config, states, events, o, n - 1);
      ExecutionKeeps(config, states, events, n - 1);
      assert IsStep(config, states, events, n - 1);
      RollUpStep(config, states[n - 1], events[n - 1], o);
    }
  }

  /** The completion of the last unfinished task marks its order ready exactly when it sees
      every other completion of the order. */
  lemma LastCompletionRollsUp(config: D.Config, s: Sys, t: TaskId, req: F.CompleteRequest, unseen: set<TaskId>)
    requires Reachable(config, s) && !DoneTask(s, t)
    requires var f' := F.CompleteTask(s.f, t, req, unseen).db;
             t in f'.tasks && F.AllOrderTasksDone(f', f'.tasks[t].order, {})
    ensures var f' := F.CompleteTask(s.f, t, req, unseen).db;
            var o := f'.tasks[t].order;
            o in f'.orders && ((f'.orders[o].status == F.ReadyForPickup) <==> F.AllSeen(f', o, unseen))
  {
    ReachableOk(config, s);
    hide Leads, PublishersOk, ClaimsOk, ItemsOk, K.Valid, Lineage.LineageOk, MessagesOk, F.CompleteTask, F.ValidDb,
         F.ReadyOnlyWhenDone;
    F.LastCompletion(s.f, t, req, unseen);
  }

  /** All tasks of the order are done, and the order is not ready. */
  ghost predicate RollUpMissed(s: Sys, o: OrderId) {
    o in s.f.orders && F.AllOrderTasksDone(s.f, o, {}) && !IsReady(s, o)
  }

  lemma FulfillmentKeepsFinishedOrders(s: Sys, ev: Event, o: OrderId)
    requires F.ValidDb(s.f) && RollUpMissed(s, o)
    ensures RollUpMissed(FulfillmentStep(s, ev), o)
  {
    hide FulfillmentStep, F.ValidDb, F.AllOrderTasksDone;
    FinishedTasksStay(s, ev, o);
    FinishedOrderStays(s, ev, o);
  }

  lemma OrdersKeepFinishedOrders(s: Sys, ev: Event, o: OrderId)
    requires Base(s) && PublishersOk(s.f, s.publishers) && IsOrder(ev) && RollUpMissed(s, o)
    ensures RollUpMissed(OrderStep(s, ev), o)
  {
    hide Base, PublishersOk, F.MarkTasksQueued, AddOrder;
    var s' := OrderStep(s, ev);
    forall t | t in s'.f.tasks && s'.f.tasks[t].order == o ensures s'.f.tasks[t].status == F.Done {
      OrdersOnlyQueue(s, ev, t);
    }
    if ev.CreateOrder? && s' != s { AddOrderKeepsOrder(s, ev, o); }
  }

  lemma {:induction false} MissedThroughout(config: D.Config, s: Sys, events: seq<Event>, o: OrderId)
    requires Inv(config, s) && RollUpMissed(s, o)
    ensures RollUpMissed(Run(config, s, events), o)
  {
    hide Base, PublishersOk, AdminStep, OrderStep, WorkerStep, FulfillmentStep, KitchenStep, ClaimsOk,
         F.AllOrderTasksDone;
    if events != [] {
      var n := |events| - 1;
      var before := Run(config, s, events[..n]);
      MissedThroughout(config, s, events[..n], o);
      ContinueKeeps(config, s, events[..n]);
      AdminFrame(before, events[n]);
      WorkerFrame(config, before, events[n]);
      KitchenFrame(before, events[n]);
      BaseDb(before);
      FulfillmentKeepsFinishedOrders(before, events[n], o);
      if IsOrder(events[n]) { OrdersKeepFinishedOrders(before, events[n], o); }
    }
  }

  /** A missed roll-up is never made up for: nothing moves a task of the order any more. */
  lemma MissedRollUpIsPermanent(config: D.Config, s: Sys, s': Sys, o: OrderId)
    requires Reachable(config, s) && RollUpMissed(s, o) && Leads(config, s, s')
    ensures RollUpMissed(s', o)
  {
    hide Leads, Inv, Run, RollUpMissed;
    ReachableOk(config, s);
    var events := LeadsRuns(config, s, s');
    MissedThroughout(config, s, events, o);
  }

  lemma OnTime(task: F.Task)
    requires F.TaskShape(task) && task.status == F.Done
    ensures task.actualDuration.Some? && task.delay.Some? && task.startedAt.Some? && task.completedAt.Some?
    ensures task.actualDuration.value == (task.completedAt.value - task.startedAt.value) / SECOND >= 0
    ensures task.delay.value == Max(0, task.actualDuration.value - task.estimated)
  {
  }

  /** Every completed task met or missed its deadline by exactly the whole seconds recorded. */
  lemma ScheduleIsKept(config: D.Config, s: Sys, t: TaskId)
    requires Reachable(config, s) && DoneTask(s, t)
    ensures var task := s.f.tasks[t];
            && task.actualDuration.Some? && task.delay.Some? && task.startedAt.Some? && task.completedAt.Some?
            && task.actualDuration.value == (task.completedAt.value - task.startedAt.value) / SECOND >= 0
            && task.delay.value == Max(0, task.actualDuration.value - task.estimated)
  {
    hide Leads, ItemsOk, F.ReadyOnlyWhenDone, K.Valid, PublishersOk, ClaimsOk, Lineage.LineageOk, MessagesOk,
         F.OnSchedule;
    ReachableOk(config, s);
    OnTime(s.f.tasks[t]);
  }

  // ----- the visible backlog -----

  /** The event withdraws a claim on the station while its screen is full. */
  predicate Overflows(s: Sys, ev: Event, st: StationId) {
    && ev.Compensate? && ev.claim < |s.claims| && s.claims[ev.claim].phase == StartFailed
    && s.claims[ev.claim].station == st && st in s.k.stations
    && s.claims[ev.claim].row < |s.k.rows| && s.k.rows[s.claims[ev.claim].row].status == K.Claimed
    && K.Count(s.k.rows, st, K.Displayed) >= s.k.stations[st].visibleBacklogLimit
  }

  lemma CompensationOverflows(s: Sys, c: nat, st: StationId)
    requires Base(s) && ClaimsOk(s.k.rows, s.claims) && K.Fits(s.k, st)
    ensures !K.Fits(KitchenStep(s, Compensate(c)).k, st) <==> Overflows(s, Compensate(c), st)
  {
    hide ItemsOk, F.ValidDb, F.ReadyOnlyWhenDone, ClaimsOk, K.SlotsConserved, K.WithinPeak, K.Fits, K.CompensateClaim,
         K.RowOk, K.Count;
    if c < |s.claims| && s.claims[c].phase == StartFailed {
      var h := s.claims[c];
      ClaimFact(s, c);
      CompensationReleasesItsOwn(s, c);
      K.FoundIsTheRow(s.k, h.row);
      if s.k.rows[h.row].status == K.Claimed { K.CompensationFits(s.k, s.peak, h.task, h.worker, st); }
    }
  }

  lemma OverflowStep(config: D.Config, s: Sys, ev: Event, st: StationId)
    requires Inv(config, s) && K.Fits(s.k, st)
    ensures !K.Fits(Step(config, s, ev).k, st) <==> Overflows(s, ev, st)
  {
    hide AdminStep, OrderStep, WorkerStep, FulfillmentStep, KitchenStep, Base, PublishersOk, ClaimsOk, K.Fits, K.Count;
    if IsAdmin(ev) { AdminKeeps(s, ev); }
    OrderFrame(s, ev);
    WorkerFrame(config, s, ev);
    FulfillmentFrame(s, ev);
    KitchenKeeps(s, ev);
    if ev.Compensate? { CompensationOverflows(s, ev.claim, st); }
  }

  /** A screen exceeds its limit exactly by withdrawing a claim of its station while it is full. */
  lemma ScreenOverflowsExactly(config: D.Config, states: seq<Sys>, events: seq<Event>, i: nat, st: StationId)
    requires Execution(config, states, events) && states[0] == INIT && i < |events| && K.Fits(states[i].k, st)
    ensures !K.Fits(states[i + 1].k, st) <==> Overflows(states[i], events[i], st)
  {
    hide Inv, Step, K.Fits, Overflows;
    InitOk(config);
    ExecutionKeeps(config, states, events, i);
    assert IsStep(config, states, events, i);
    OverflowStep(config, states[i], events[i], st);
  }

  /** The start call of a claim on the station fails. */
  predicate FailsStart(s: Sys, ev: Event, st: StationId) {
    && (ev.LoseStart? || (ev.ReceiveStart? && !ev.ok && StartRsp(ev.claim, false) in s.responses))
    && ev.claim < |s.claims| && s.claims[ev.claim].phase == Starting && s.claims[ev.claim].station == st
  }

  predicate NoFailedClaim(s: Sys, st: StationId) {
    forall c | 0 <= c < |s.claims| && s.claims[c].station == st :: s.claims[c].phase != StartFailed
  }

  lemma NoNewFailure(config: D.Config, s: Sys, ev: Event, st: StationId)
    requires NoFailedClaim(s, st) && !FailsStart(s, ev, st)
    ensures NoFailedClaim(Step(config, s, ev), st)
  {
    hide AdminStep, OrderStep, WorkerStep, FulfillmentStep, K.DeliverTask, K.ClaimRefusal, K.CompleteRefusal,
         K.CompensateClaim;
    AdminFrame(s, ev);
    OrderFrame(s, ev);
    WorkerFrame(config, s, ev);
    FulfillmentFrame(s, ev);
  }

  /** As long as no start call of a claim on it fails, a station never shows more unclaimed rows than
      its limit, whatever happens at the other stations. */
  lemma {:induction false} BacklogBound(config: D.Config, states: seq<Sys>, events: seq<Event>, st: StationId, n: nat)
    requires Execution(config, states, events) && states[0] == INIT && n <= |events|
    requires forall i: nat | i < |events| :: !FailsStart(states[i], events[i], st)
    ensures K.Fits(states[n].k, st) && NoFailedClaim(states[n], st)
  {
    hide Inv, Step, FailsStart, K.Count;
    InitOk(config);
    if n > 0 {
      BacklogBound(config, states, events, st, n - 1);
      assert IsStep(config, states, events, n - 1);
      ScreenOverflowsExactly(config, states, events, n - 1, st);
      NoNewFailure(config, states[n - 1], events[n - 1], st);
    }
  }
}
