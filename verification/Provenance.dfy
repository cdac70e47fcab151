/**
 What an order asked for is what every later stage carries: its tasks come from the recipes, the
 messages and delivery requests describe the tasks, and a row on a screen shows the task at a
 station of its own kitchen and type.
 */
module Provenance {
  import opened Common
  import opened Protocol
  import opened Invariant
  import opened ServiceSteps
  import opened OrderSteps
  import opened Executions
  import F = Fulfillment
  import K = Kds
  import D = Dispatcher
  import B = TaskBuilder
  import C = Candidates

  // ----- messages, delivery requests and rows describe their tasks -----

  /** The delivery says of its task what the task says of itself, and names the kitchen of its order. */
  predicate Describes(f: F.Db, req: K.Delivery) {
    && req.task in f.tasks && f.tasks[req.task].order in f.orders
    && req.order == f.tasks[req.task].order && req.kitchen == f.orders[req.order].kitchen
    && req.stationType == f.tasks[req.task].stationType && req.operation == f.tasks[req.task].operation
    && req.estimated == f.tasks[req.task].estimated
  }

  predicate EntryDescribes(f: F.Db, e: Entry) {
    && e.task in f.tasks && f.tasks[e.task].order in f.orders
    && e.order == f.tasks[e.task].order && e.kitchen == f.orders[e.order].kitchen
    && e.stationType == f.tasks[e.task].stationType && e.operation == f.tasks[e.task].operation
    && e.estimated == f.tasks[e.task].estimated
  }

  ghost predicate AllDescribed(s: Sys) {
    && (forall e | e in s.entries :: EntryDescribes(s.f, e))
    && (forall r | r in s.requests :: r.DeliverReq? ==> Describes(s.f, r.delivery))
    && (forall row | row in s.k.rows :: Describes(s.f, row.req))
  }

  lemma DescribesStays(f: F.Db, f': F.Db, req: K.Delivery)
    requires F.DbStep(f, f')
    ensures Describes(f, req) ==> Describes(f', req)
  {
    assert req.task in f.tasks ==> F.TaskStep(f.tasks[req.task], f'.tasks[req.task]);
  }

  lemma EntryDescribesStays(f: F.Db, f': F.Db, e: Entry)
    requires F.DbStep(f, f')
    ensures EntryDescribes(f, e) ==> EntryDescribes(f', e)
  {
    assert e.task in f.tasks ==> F.TaskStep(f.tasks[e.task], f'.tasks[e.task]);
  }

  predicate SameMessage(a: Entry, b: Entry) {
    && b.task == a.task && b.order == a.order && b.kitchen == a.kitchen && b.stationType == a.stationType
    && b.operation == a.operation && b.estimated == a.estimated
  }

  /** An entry of the next state carries an old message, or has just been published for its task. */
  lemma EntryFrom(config: D.Config, s: Sys, ev: Event, e: nat)
    requires e < |Step(config, s, ev).entries|
    ensures var entry := Step(config, s, ev).entries[e];
            (exists a | a in s.entries :: SameMessage(a, entry)) || EntryDescribes(s.f, entry)
  {
    hide AdminStep, OrderStep, WorkerStep, FulfillmentStep, KitchenStep, EntryDescribes;
    AdminFrame(s, ev);
    FulfillmentFrame(s, ev);
    KitchenFrame(s, ev);
    var entry := Step(config, s, ev).entries[e];
    if IsOrder(ev) {
      PublishedFrom(s, ev, e);
    } else if IsWorker(ev) {
      WorkedFrom(config, s, ev, e);
    } else {
      assert SameMessage(s.entries[e], entry);
    }
  }

  lemma PublishedFrom(s: Sys, ev: Event, e: nat)
    requires e < |OrderStep(s, ev).entries|
    ensures var entry := OrderStep(s, ev).entries[e];
            (exists a | a in s.entries :: SameMessage(a, entry)) || EntryDescribes(s.f, entry)
  {
    hide AddOrder, Orderable, F.MarkTasksQueued;
    if e < |s.entries| { assert SameMessage(s.entries[e], OrderStep(s, ev).entries[e]); }
  }

  lemma WorkedFrom(config: D.Config, s: Sys, ev: Event, e: nat)
    requires e < |WorkerStep(config, s, ev).entries|
    ensures exists a | a in s.entries :: SameMessage(a, WorkerStep(config, s, ev).entries[e])
  {
    hide StageOf, Sends, C.RightChoice;
    var a := s.entries[if e < |s.entries| then e else ev.entry];
    assert SameMessage(a, WorkerStep(config, s, ev).entries[e]);
  }

  /** A delivery request says what the message of the worker that sends it says. */
  lemma DeliveryFrom(config: D.Config, s: Sys, ev: Event, r: Request)
    requires AllDescribed(s) && r in Step(config, s, ev).requests && r !in s.requests && r.DeliverReq?
    ensures Describes(s.f, r.delivery)
  {
    hide AdminStep, OrderStep, FulfillmentStep, C.RightChoice, StageOf, D.Dispose,
         K.ClaimRefusal, K.CompleteRefusal, K.CompensateClaim, K.DeliverTask;
    AdminFrame(s, ev);
    OrderFrame(s, ev);
    FulfillmentFrame(s, ev);
    if IsWorker(ev) { assert s.entries[ev.entry] in s.entries; }
  }

  /** A new row shows what the delivery request says. */
  lemma RowFrom(s: Sys, ev: Event, k: KdsId)
    requires s.missed <= s.requests && AllDescribed(s) && k < |KitchenStep(s, ev).k.rows|
    ensures Describes(s.f, KitchenStep(s, ev).k.rows[k].req)
  {
    hide Describes, EntryDescribes, K.DeliveryRefusal;
    if k < |s.k.rows| {
      assert s.k.rows[k] in s.k.rows;
      assert KitchenStep(s, ev).k.rows[k].req == s.k.rows[k].req;
    } else {
      assert ev.InsertDelivery? && ev.request in s.requests;
    }
  }

  lemma RowStepFrom(config: D.Config, s: Sys, ev: Event, k: KdsId)
    requires Base(s) && AllDescribed(s) && k < |Step(config, s, ev).k.rows|
    ensures Describes(s.f, Step(config, s, ev).k.rows[k].req)
  {
    hide AdminStep, OrderStep, WorkerStep, FulfillmentStep, KitchenStep, F.ValidDb, K.Valid, ItemsOk, Describes;
    AdminFrame(s, ev);
    OrderFrame(s, ev);
    WorkerFrame(config, s, ev);
    FulfillmentFrame(s, ev);
    MissedFact(s);
    if Step(config, s, ev).k.rows == s.k.rows {
      assert s.k.rows[k] in s.k.rows;
    } else {
      RowFrom(s, ev, k);
    }
  }

  lemma DescribedStep(config: D.Config, s: Sys, ev: Event)
    requires Inv(config, s) && AllDescribed(s)
    ensures AllDescribed(Step(config, s, ev))
  {
    hide Inv, Step, Base, Describes, EntryDescribes, F.DbStep, K.DbStep, SameMessage;
    var s' := Step(config, s, ev);
    InvBase(config, s);
    StepKeeps(config, s, ev);
    forall i | 0 <= i < |s'.entries| ensures EntryDescribes(s'.f, s'.entries[i]) {
      EntryFrom(config, s, ev, i);
      SameDescription(s.f, s.entries, s'.entries[i]);
      EntryDescribesStays(s.f, s'.f, s'.entries[i]);
    }
    forall r | r in s'.requests && r.DeliverReq? ensures Describes(s'.f, r.delivery) {
      if r !in s.requests { DeliveryFrom(config, s, ev, r); }
      DescribesStays(s.f, s'.f, r.delivery);
    }
    forall k | 0 <= k < |s'.k.rows| ensures Describes(s'.f, s'.k.rows[k].req) {
      RowStepFrom(config, s, ev, k);
      DescribesStays(s.f, s'.f, s'.k.rows[k].req);
    }
  }

  lemma SameDescription(f: F.Db, entries: seq<Entry>, e: Entry)
    requires forall a | a in entries :: EntryDescribes(f, a)
    ensures (exists a | a in entries :: SameMessage(a, e)) ==> EntryDescribes(f, e)
  {
  }

  lemma {:induction false} DescribedThroughout(config: D.Config, events: seq<Event>)
    ensures AllDescribed(Run(config, INIT, events))
  {
    hide Inv, Step, Describes, EntryDescribes;
    if events != [] {
      var n := |events| - 1;
      DescribedThroughout(config, events[..n]);
      RunKeeps(config, events[..n]);
      DescribedStep(config, Run(config, INIT, events[..n]), events[n]);
    }
  }

  /** The row is at a station of its task's own kitchen and type. */
  predicate AtHome(s: Sys, row: K.Row) {
    && row.req.task in s.f.tasks && s.f.tasks[row.req.task].order in s.f.orders && row.station in s.k.stations
    && s.k.stations[row.station].kitchen == s.f.orders[s.f.tasks[row.req.task].order].kitchen
    && s.k.stations[row.station].stationType == s.f.tasks[row.req.task].stationType
  }

  /** In every reachable state each message, delivery request and row describes its task, and each row is
      at a station of the task's kitchen and type. */
  lemma CarriedFaithfully(config: D.Config, s: Sys)
    requires Reachable(config, s)
    ensures AllDescribed(s)
    ensures forall row | row in s.k.rows :: AtHome(s, row)
  {
    hide Leads, Inv, Run, AllDescribed;
    ReachableOk(config, s);
    var events := LeadsRuns(config, INIT, s);
    DescribedThroughout(config, events);
    InvBase(config, s);
    RowsAtHome(s);
  }

  lemma RowsAtHome(s: Sys)
    requires Base(s) && AllDescribed(s)
    ensures forall row | row in s.k.rows :: AtHome(s, row)
  {
    hide F.ValidDb, ItemsOk, EntryDescribes;
    forall row | row in s.k.rows ensures AtHome(s, row) {
      var k :| 0 <= k < |s.k.rows| && s.k.rows[k] == row;
      assert K.RowOk(s.k.stations, s.k.rows[k]);
    }
  }

  // ----- tasks are what was ordered -----

  /** The task is the one made at its position for the j-th step, in order, of a unit of an item. */
  ghost predicate IsJob(task: F.Task, t: TaskId, ev: Event, i: nat, u: nat, j: nat)
    requires ev.CreateOrder? && B.HasRecipes(ev.items, ev.recipes)
  {
    && B.IsUnitStep(ev.items, ev.recipes, i, u, j)
    && task.item == i && task.unit == u
    && (var p := B.Position(ev.items, ev.recipes, i, u, j); 0 <= p < |ev.ids| && ev.ids[p] == t)
    && (var steps := B.SortSteps(ev.recipes[ev.items[i].menuItem]); j < |steps| && B.IsStepOf(task, steps[j]))
  }

  /** The task was made by that event, for the order and the kitchen it names. */
  ghost predicate OrderedBy(f: F.Db, t: TaskId, ev: Event) {
    && ev.CreateOrder? && B.HasRecipes(ev.items, ev.recipes)
    && t in f.tasks && f.tasks[t].order == ev.order
    && ev.order in f.orders && f.orders[ev.order].kitchen == ev.kitchen
    && exists i: nat, u: nat, j: nat :: IsJob(f.tasks[t], t, ev, i, u, j)
  }

  lemma OrderedStays(f: F.Db, f': F.Db, t: TaskId, ev: Event)
    requires F.DbStep(f, f') && OrderedBy(f, t, ev)
    ensures OrderedBy(f', t, ev)
  {
    hide B.Position, B.SortSteps;
    var i: nat, u: nat, j: nat :| IsJob(f.tasks[t], t, ev, i, u, j);
    assert F.TaskStep(f.tasks[t], f'.tasks[t]);
    assert IsJob(f'.tasks[t], t, ev, i, u, j);
  }

  lemma CreatedAsOrdered(s: Sys, ev: Event, t: TaskId)
    requires ev.CreateOrder? && Orderable(s, ev.order, ev.items, ev.recipes, ev.ids)
    requires t in OrderStep(s, ev).f.tasks && t !in s.f.tasks
    ensures OrderedBy(OrderStep(s, ev).f, t, ev)
  {
    hide B.SortSteps, B.IsStepOf, B.Untouched, B.TasksUpTo, B.TotalTasks, B.ChainEdges, B.Position;
    var f' := OrderStep(s, ev).f;
    var tasks := B.OrderTasks(ev.order, ev.items, ev.recipes);
    AddOrderAdds(s.f, ev.order, ev.kitchen, ev.ids, tasks);
    B.TasksCounts(ev.order, ev.items, ev.recipes, |ev.items|);
    var p: nat :| p < |ev.ids| && ev.ids[p] == t;
    var i, u, j := B.EveryPosition(ev.items, ev.recipes, |ev.items|, p);
    B.TaskAtPosition(ev.order, ev.items, ev.recipes, |ev.items|, i, u, j);
    assert f'.tasks[t] == tasks[p];
    assert IsJob(f'.tasks[t], t, ev, i, u, j);
  }

  /** Only creating an order makes a task. */
  lemma MadeByOrder(config: D.Config, s: Sys, ev: Event, t: TaskId)
    requires Inv(config, s) && t in Step(config, s, ev).f.tasks && t !in s.f.tasks
    ensures IsOrder(ev) && ev.CreateOrder? && Orderable(s, ev.order, ev.items, ev.recipes, ev.ids)
  {
    hide AdminStep, WorkerStep, FulfillmentStep, KitchenStep, F.ReadyOnlyWhenDone, F.ValidDb, ItemsOk, K.Valid,
         PublishersOk, Claims.ClaimsOk, Lineage.LineageOk, MessagesOk, F.MarkTasksQueued, AddOrder, Orderable;
    AdminFrame(s, ev);
    WorkerFrame(config, s, ev);
    KitchenFrame(s, ev);
    if IsFulfillment(ev) {
      var id, out := OneTransaction(s, ev);
    } else if ev.QueueTasks? && ev.order in s.publishers {
      F.QueuedKeys(s.f.tasks, s.publishers[ev.order].published, ev.at);
    }
  }

  /** Every task of every run is one its order asked for, made from the step it stands for. */
  lemma {:induction false} MadeAsOrdered(config: D.Config, states: seq<Sys>, events: seq<Event>, n: nat, t: TaskId)
    requires Execution(config, states, events) && states[0] == INIT && n <= |events| && t in states[n].f.tasks
    ensures exists i :: 0 <= i < n && OrderedBy(states[n].f, t, events[i])
  {
    hide Inv, Step, OrderedBy, Orderable;
    InitOk(config);
    if n > 0 {
      var s, s', ev := states[n - 1], states[n], events[n - 1];
      ExecutionKeeps(config, states, events, n - 1);
      assert IsStep(config, states, events, n - 1);
      StepKeeps(config, s, ev);
      if t in s.f.tasks {
        MadeAsOrdered(config, states, events, n - 1, t);
        var i :| 0 <= i < n - 1 && OrderedBy(s.f, t, events[i]);
        OrderedStays(s.f, s'.f, t, events[i]);
      } else {
        MadeByOrder(config, s, ev, t);
        OrderStepIs(config, s, ev);
        CreatedAsOrdered(s, ev, t);
      }
    }
  }

  lemma OrderStepIs(config: D.Config, s: Sys, ev: Event)
    requires IsOrder(ev)
    ensures Step(config, s, ev) == OrderStep(s, ev)
  {
  }

  /** The row shows what the event ordered, at a station of the kitchen and type it ordered it for. */
  ghost predicate Serves(s: Sys, row: K.Row, ev: Event) {
    && ev.CreateOrder? && B.HasRecipes(ev.items, ev.recipes) && row.station in s.k.stations
    && row.req.order == ev.order && row.req.kitchen == ev.kitchen == s.k.stations[row.station].kitchen
    && exists i: nat, u: nat, j: nat :: ServesJob(s, row, ev, i, u, j)
  }

  ghost predicate ServesJob(s: Sys, row: K.Row, ev: Event, i: nat, u: nat, j: nat)
    requires ev.CreateOrder? && B.HasRecipes(ev.items, ev.recipes) && row.station in s.k.stations
  {
    && B.IsUnitStep(ev.items, ev.recipes, i, u, j)
    && (var p := B.Position(ev.items, ev.recipes, i, u, j); 0 <= p < |ev.ids| && ev.ids[p] == row.req.task)
    && (var steps := B.SortSteps(ev.recipes[ev.items[i].menuItem]);
        && j < |steps| && row.req.operation == steps[j].operation && row.req.estimated == steps[j].duration
        && row.req.stationType == steps[j].stationType == s.k.stations[row.station].stationType)
  }

  /** From order to screen: in every state of every run each row shows one step of one unit that some
      order asked for, with the operation and duration of the recipe, at a station of the kitchen the order
      went to and of the type the recipe demands. */
  lemma ShownAsOrdered(config: D.Config, states: seq<Sys>, events: seq<Event>, n: nat, row: K.Row)
    requires Execution(config, states, events) && states[0] == INIT && n <= |events| && row in states[n].k.rows
    ensures exists i :: 0 <= i < n && Serves(states[n], row, events[i])
  {
    hide Inv, Run, Step, OrderedBy, Serves, AllDescribed, Describes, AtHome;
    ExecutionRuns(config, states, events, n);
    DescribedThroughout(config, events[..n]);
    InitOk(config);
    ExecutionKeeps(config, states, events, n);
    InvBase(config, states[n]);
    RowsAtHome(states[n]);
    RowDescribed(states[n], row);
    MadeAsOrdered(config, states, events, n, row.req.task);
    var i :| 0 <= i < n && OrderedBy(states[n].f, row.req.task, events[i]);
    ServedFrom(states[n], row, events[i]);
  }

  lemma RowDescribed(s: Sys, row: K.Row)
    requires AllDescribed(s) && row in s.k.rows
    ensures Describes(s.f, row.req) && row.req.task in s.f.tasks
  {
  }

  lemma ServedFrom(s: Sys, row: K.Row, ev: Event)
    requires Describes(s.f, row.req) && AtHome(s, row) && OrderedBy(s.f, row.req.task, ev)
    ensures Serves(s, row, ev)
  {
    hide B.Position, B.SortSteps;
    var i: nat, u: nat, j: nat :| IsJob(s.f.tasks[row.req.task], row.req.task, ev, i, u, j);
    assert ServesJob(s, row, ev, i, u, j);
  }
}
