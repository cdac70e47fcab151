/**
 Whatever has gone wrong before, a new order can be served: it can be created, published and queued,
 and each of its tasks displayed, claimed and completed, until the order is ready for pickup.
 */
module Serving {
  import opened Common
  import opened Protocol
  import opened Invariant
  import opened ServiceSteps
  import opened OrderSteps
  import opened Claims
  import opened Lineage
  import opened Executions
  import opened Recovery
  import opened Dispatching
  import opened Displaying
  import opened Safety
  import F = Fulfillment
  import K = Kds
  import D = Dispatcher
  import B = TaskBuilder
  import C = Candidates

  // ----- what serving one task leaves alone -----

  predicate NoRow(s: Sys, t: TaskId) { K.FindTask(s.k.rows, t).None? }

  /** Only one task, its order's status and its message have moved, and only that task may have got a row. */
  ghost predicate OnlyTask(s: Sys, s': Sys, e: nat, t: TaskId) {
    && s'.publishers == s.publishers && |s'.entries| == |s.entries|
    && (forall i | 0 <= i < |s.entries| && i != e :: s'.entries[i] == s.entries[i])
    && t in s.f.tasks && s'.f.tasks.Keys == s.f.tasks.Keys && s'.f.orders.Keys == s.f.orders.Keys
    && s'.f.tasks[t].order == s.f.tasks[t].order
    && (forall x | x in s.f.tasks && x != t :: s'.f.tasks[x] == s.f.tasks[x])
    && (forall x | x != t && NoRow(s, x) :: NoRow(s', x))
  }

  lemma OnlyTaskTransitive(a: Sys, b: Sys, c: Sys, e: nat, t: TaskId)
    requires OnlyTask(a, b, e, t) && OnlyTask(b, c, e, t)
    ensures OnlyTask(a, c, e, t)
  {
  }

  lemma {:induction false} QuietRun(config: D.Config, s: Sys, events: seq<Event>)
    requires forall ev | ev in events :: !IsOrder(ev) && !IsWorker(ev)
    ensures Run(config, s, events).entries == s.entries && Run(config, s, events).publishers == s.publishers
  {
    hide AdminStep, OrderStep, WorkerStep, FulfillmentStep, KitchenStep;
    if events != [] {
      var n := |events| - 1;
      QuietRun(config, s, events[..n]);
      var before, ev := Run(config, s, events[..n]), events[n];
      AdminFrame(before, ev);
      FulfillmentFrame(before, ev);
      KitchenFrame(before, ev);
    }
  }

  lemma SameRequests(rows: seq<K.Row>, rows': seq<K.Row>, t: TaskId)
    requires |rows'| == |rows| && forall i | 0 <= i < |rows| :: rows'[i].req == rows[i].req
    ensures K.FindTask(rows, t).None? <==> K.FindTask(rows', t).None?
  {
  }

  lemma LeadsKeeps(config: D.Config, s: Sys, s': Sys)
    requires Inv(config, s) && Leads(config, s, s')
    ensures Inv(config, s')
  {
    hide Inv, Run, Leads;
    var events := LeadsRuns(config, s, s');
    ContinueKeeps(config, s, events);
  }

  lemma LeadsOn(config: D.Config, a: Sys, b: Sys, c: Sys)
    requires Leads(config, a, b) && Leads(config, b, c)
    ensures Leads(config, a, c)
  {
    hide Run, Leads;
    var events := LeadsRuns(config, b, c);
    LeadsTransitively(config, a, b, events);
  }

  // ----- displaying, claiming and completing one task -----

  /** The task is displayed, at the station of its own row. */
  predicate OnDisplay(s: Sys, t: TaskId, k: KdsId) {
    && k < |s.k.rows| && s.k.rows[k].req.task == t && s.k.rows[k].status == K.Displayed
    && t in s.f.tasks && s.f.tasks[t].status == F.Displayed && s.f.tasks[t].station == Some(s.k.rows[k].station)
  }

  lemma DisplayOne(config: D.Config, s: Sys, e: nat, t: TaskId) returns (s': Sys)
    requires Inv(config, s) && Sendable(s, e) && s.entries[e].task == t && NoRow(s, t)
    ensures Leads(config, s, s') && Inv(config, s') && OnlyTask(s, s', e, t) && OnDisplay(s', t, |s.k.rows|)
  {
    hide Inv, Run, Leads, Step, K.DeliveryRefusal, C.RightChoice, F.UnfinishedDependencies, K.FindTask;
    var add := AddsStation(config, s, DeliveryOf(s.entries[e]));
    var s1 := Step(config, s, add);
    RunLeads(config, s, [add]);
    RunOne(config, s, add);
    StepKeeps(config, s, add);
    var station :| K.DeliveryRefusal(s1.k, station, DeliveryOf(s.entries[e])).None?;
    var best := ChoiceExists(s1.k, DeliveryOf(s.entries[e]), station);
    s' := DispatchRuns(config, s1, e, best, 0);
    LeadsKeeps(config, s1, s');
    LeadsOn(config, s, s1, s');
    forall x | x != t && NoRow(s, x) ensures NoRow(s', x) { NewRowOfOther(s1.k.rows, s'.k.rows[|s.k.rows|], x); }
  }

  lemma NewRowOfOther(rows: seq<K.Row>, row: K.Row, t: TaskId)
    requires K.FindTask(rows, t).None? && row.req.task != t
    ensures K.FindTask(rows + [row], t).None?
  {
  }

  /** The task is in preparation, and its row claimed by the worker. */
  predicate InHand(s: Sys, t: TaskId, k: KdsId, worker: WorkerId) {
    && t in s.f.tasks && s.f.tasks[t].status == F.InProgress && k < |s.k.rows|
    && K.CompleteRefusal(s.k, s.k.rows[k].station, t, worker).None? && K.FindTask(s.k.rows, t) == Some(k)
  }

  lemma Starts(s: Sys, t: TaskId, k: KdsId)
    requires F.ValidDb(s.f) && K.RowShape(s.k) && ItemsOk(s) && OnDisplay(s, t, k)
    ensures var out := F.StartTask(s.f, t, F.StartRequest(s.k.rows[k].station, k, 0));
            && F.Rewrites(s.f, out.db, t) && out.db.tasks[t].status == F.InProgress
            && out.db.tasks[t].order == s.f.tasks[t].order
  {
    hide F.ValidDb, ItemsOk, K.RowShape, F.StartTask;
    StartAnswer(s, t, k, 0);
    F.StartTaskAccepts(s.f, t, F.StartRequest(s.k.rows[k].station, k, 0));
  }

  /** What the claim of a displayed task at its own station leaves behind. */
  lemma ClaimLeaves(config: D.Config, s: Sys, t: TaskId, k: KdsId)
    requires Inv(config, s) && OnDisplay(s, t, k) && K.FindTask(s.k.rows, t) == Some(k)
    requires K.ClaimRefusal(s.k, s.k.rows[k].station, t).None?
    ensures var s' := Run(config, s, ClaimEvents(s, s.k.rows[k].station, t, "worker", 0));
            && F.Rewrites(s.f, s'.f, t) && s'.f.tasks[t].status == F.InProgress
            && s'.f.tasks[t].order == s.f.tasks[t].order
            && K.TakesRow(s.k, s'.k, s.k.rows[k].station, k, "worker", 0)
            && s'.entries == s.entries && s'.publishers == s.publishers
  {
    hide Inv, Run, F.StartTask, K.BeginClaim, K.ClaimRefusal, K.Valid, K.DbStep, K.KeepsLimits, F.ValidDb, ItemsOk,
         K.RowShape, PublishersOk, F.Rewrites, K.TakesRow, Base;
    var station := s.k.rows[k].station;
    InvParts(config, s);
    InvBase(config, s);
    KitchenValid(s);
    NoReplyYet(s, true);
    Starts(s, t, k);
    ClaimServed(config, s, station, t, "worker", 0);
    K.ClaimFacts(s.k, s.peak, station, t, "worker", 0);
    QuietRun(config, s, ClaimEvents(s, station, t, "worker", 0));
  }

  lemma KitchenValid(s: Sys)
    requires Base(s)
    ensures K.Valid(s.k, s.peak)
  {
  }

  lemma ClaimOne(config: D.Config, s: Sys, e: nat, t: TaskId, k: KdsId) returns (s': Sys)
    requires Inv(config, s) && OnDisplay(s, t, k)
    ensures Leads(config, s, s') && Inv(config, s') && OnlyTask(s, s', e, t) && InHand(s', t, k, "worker")
  {
    hide Inv, Run, Leads, Base, K.ClaimRefusal, K.FindTask, K.RowOk, ItemsOk, F.ValidDb, PublishersOk, ClaimEvents;
    var open := OpenForClaim(config, s, k);
    var s1 := Run(config, s, open);
    RunLeads(config, s, open);
    var claim := ClaimEvents(s1, s.k.rows[k].station, t, "worker", 0);
    ClaimLeaves(config, s1, t, k);
    s' := Run(config, s1, claim);
    LeadsTransitively(config, s, s1, claim);
    ContinueKeeps(config, s1, claim);
    forall x | x != t && NoRow(s, x) ensures NoRow(s', x) { SameRequests(s1.k.rows, s'.k.rows, x); }
    InvParts(config, s');
    K.FoundIsTheRow(s'.k, k);
    K.CompleteAccepts(s'.k, s.k.rows[k].station, t, "worker");
  }

  lemma Completes(s: Sys, t: TaskId, k: KdsId, at: Time)
    requires F.ValidDb(s.f) && K.RowShape(s.k) && ItemsOk(s) && IsRowOf(s, k, t)
    requires t in s.f.tasks && s.f.tasks[t].status == F.InProgress && s.f.tasks[t].startedAt == Some(at)
    ensures var db' := F.CompleteTask(s.f, t, F.CompleteRequest(s.k.rows[k].station, k, at), {}).db;
            && F.Rewrites(s.f, db', t) && db'.tasks[t].status == F.Done && db'.tasks[t].order == s.f.tasks[t].order
            && RolledUp(s.f, db', s.f.tasks[t].order)
  {
    hide F.ValidDb, ItemsOk, K.RowShape, F.CompleteTask, F.AllOrderTasksDone;
    CompleteAnswer(s, t, k, at);
    F.CompleteTaskAccepts(s.f, t, F.CompleteRequest(s.k.rows[k].station, k, at), {});
  }

  /** If that leaves nothing of the order unfinished, the order is ready. */
  predicate RolledUp(f: F.Db, f': F.Db, o: OrderId) {
    F.AllOrderTasksDone(f', o, {}) && o in f.orders && o in f'.orders ==> f'.orders[o].status == F.ReadyForPickup
  }

  /** What the completion of a task in hand leaves behind: it is done, and if it was the last of its order,
      the order is ready. */
  lemma CompletionLeaves(config: D.Config, s: Sys, t: TaskId, k: KdsId, worker: WorkerId, at: Time)
    requires Inv(config, s) && InHand(s, t, k, worker) && s.f.tasks[t].startedAt == Some(at)
    ensures var s' := Run(config, s, CompletionEvents(s, s.k.rows[k].station, t, worker, at));
            && F.Rewrites(s.f, s'.f, t) && s'.f.tasks[t].status == F.Done
            && s'.f.tasks[t].order == s.f.tasks[t].order && RolledUp(s.f, s'.f, s.f.tasks[t].order)
            && s'.entries == s.entries && s'.publishers == s.publishers
  {
    hide Inv, Run, F.CompleteTask, K.CompleteRefusal, RolledUp, KitchenStep, F.ValidDb, ItemsOk, K.RowShape,
         PublishersOk, F.Rewrites;
    var station := s.k.rows[k].station;
    var events := CompletionEvents(s, station, t, worker, at);
    InvParts(config, s);
    NoReplyYet(s, true);
    Completes(s, t, k, at);
    CompletionServed(config, s, station, t, worker, at);
    LastOfFour(config, s, station, t, worker, at);
    KitchenFrame(Run(config, s, events[..3]), FinishCompletion(|s.completions|));
    QuietRun(config, s, events);
  }

  lemma CompleteOne(config: D.Config, s: Sys, e: nat, t: TaskId, k: KdsId) returns (s': Sys)
    requires Inv(config, s) && InHand(s, t, k, "worker")
    ensures Leads(config, s, s') && Inv(config, s') && OnlyTask(s, s', e, t) && DoneTask(s', t)
    ensures s.f.tasks[t].order in s'.f.orders
    ensures F.AllOrderTasksDone(s'.f, s.f.tasks[t].order, {}) ==>
              s'.f.orders[s.f.tasks[t].order].status == F.ReadyForPickup
  {
    hide Inv, Run, Leads, K.CompleteRefusal, K.FindTask, F.AllOrderTasksDone, Base, ItemsOk, K.RowShape, PublishersOk,
         F.TaskShape;
    InvBase(config, s);
    StartedHasTime(s, t);
    var events := CompletionEvents(s, s.k.rows[k].station, t, "worker", s.f.tasks[t].startedAt.value);
    CompletionLeaves(config, s, t, k, "worker", s.f.tasks[t].startedAt.value);
    s' := Run(config, s, events);
    RunLeads(config, s, events);
    ContinueKeeps(config, s, events);
    CompletionRows(config, s, events);
    forall x | x != t && NoRow(s, x) ensures NoRow(s', x) { SameRequests(s.k.rows, s'.k.rows, x); }
    InvParts(config, s);
  }

  /** Claims and completions add no rows. */
  lemma {:induction false} CompletionRows(config: D.Config, s: Sys, events: seq<Event>)
    requires forall ev | ev in events :: !ev.InsertDelivery?
    ensures var s' := Run(config, s, events);
            |s'.k.rows| == |s.k.rows| && forall i | 0 <= i < |s.k.rows| :: s'.k.rows[i].req == s.k.rows[i].req
  {
    hide AdminStep, OrderStep, WorkerStep, FulfillmentStep, KitchenStep;
    if events != [] {
      var n := |events| - 1;
      CompletionRows(config, s, events[..n]);
      var before, ev := Run(config, s, events[..n]), events[n];
      AdminFrame(before, ev);
      OrderFrame(before, ev);
      WorkerFrame(config, before, ev);
      FulfillmentFrame(before, ev);
      KitchenRows(before, ev);
    }
  }

  lemma KitchenRows(s: Sys, ev: Event)
    requires !ev.InsertDelivery?
    ensures |KitchenStep(s, ev).k.rows| == |s.k.rows|
    ensures forall i | 0 <= i < |s.k.rows| :: KitchenStep(s, ev).k.rows[i].req == s.k.rows[i].req
  {
  }

  /** A message whose task waits for nothing can be carried to the task's completion. */
  lemma ServeOne(config: D.Config, s: Sys, e: nat, t: TaskId) returns (s': Sys)
    requires Inv(config, s) && Sendable(s, e) && s.entries[e].task == t && NoRow(s, t)
    ensures Leads(config, s, s') && Inv(config, s') && OnlyTask(s, s', e, t) && DoneTask(s', t)
    ensures s.f.tasks[t].order in s'.f.orders
    ensures F.AllOrderTasksDone(s'.f, s.f.tasks[t].order, {}) ==>
              s'.f.orders[s.f.tasks[t].order].status == F.ReadyForPickup
  {
    hide Inv, Run, Leads, InHand, F.AllOrderTasksDone, F.UnfinishedDependencies;
    var shown := DisplayOne(config, s, e, t);
    var taken := ClaimOne(config, shown, e, t, |s.k.rows|);
    InHandTask(taken, t, |s.k.rows|);
    s' := CompleteOne(config, taken, e, t, |s.k.rows|);
    OnlyTaskTransitive(s, shown, taken, e, t);
    OnlyTaskTransitive(s, taken, s', e, t);
    LeadsOn(config, s, shown, taken);
    LeadsOn(config, s, taken, s');
  }

  lemma InHandTask(s: Sys, t: TaskId, k: KdsId)
    requires InHand(s, t, k, "worker")
    ensures t in s.f.tasks
  {
  }

  // ----- serving a whole order -----

  /** The first j tasks of the order are done; the others wait with their messages and have no row yet. */
  ghost predicate ServedUpTo(s: Sys, o: OrderId, ids: TaskList, from: nat, j: nat) {
    && o in s.publishers && s.publishers[o].tasks == ids && j <= |ids| && from + |ids| <= |s.entries|
    && (forall i | 0 <= i < |ids| :: ids[i] in s.f.tasks && s.f.tasks[ids[i]].order == o)
    && (forall i | 0 <= i < j :: s.f.tasks[ids[i]].status == F.Done)
    && (forall i | j <= i < |ids| :: Waits(s, ids[i], from + i))
  }

  predicate Waits(s: Sys, t: TaskId, e: nat) {
    t in s.f.tasks && s.f.tasks[t].status == F.Queued && NoRow(s, t) && Unread(s, t, e)
  }

  /** A message of the task waits on the stream. */
  predicate Unread(s: Sys, t: TaskId, e: nat) {
    e < |s.entries| && s.entries[e].task == t && s.entries[e].stage == Queued
  }

  /** The next task waits for nothing. */
  lemma NextIsSendable(s: Sys, o: OrderId, ids: TaskList, from: nat, j: nat)
    requires PublishersOk(s.f, s.publishers) && ServedUpTo(s, o, ids, from, j) && j < |ids|
    ensures Sendable(s, from + j)
  {
    hide PublishersOk, NoRow;
    assert Waits(s, ids[j], from + j);
    forall p | p in s.f.deps && p.0 == ids[j] ensures p.1 in s.f.tasks && s.f.tasks[p.1].status == F.Done {
      EdgeIsPrevious(s, o, j, p);
      assert ids[j - 1] in s.f.tasks;
    }
  }

  lemma ServedOneMore(s: Sys, s': Sys, o: OrderId, ids: TaskList, from: nat, j: nat)
    requires ServedUpTo(s, o, ids, from, j) && j < |ids| && Distinct(ids)
    requires OnlyTask(s, s', from + j, ids[j]) && DoneTask(s', ids[j])
    ensures ServedUpTo(s', o, ids, from, j + 1)
  {
    hide NoRow;
    forall i | j < i < |ids| ensures Waits(s', ids[i], from + i) { assert Waits(s, ids[i], from + i); }
  }

  lemma ListOf(s: Sys, o: OrderId)
    requires PublishersOk(s.f, s.publishers) && o in s.publishers
    ensures Distinct(s.publishers[o].tasks) && s.publishers[o].tasks != [] && o in s.f.orders
    ensures forall t | t in s.f.tasks && s.f.tasks[t].order == o :: t in s.publishers[o].tasks
  {
    hide Chained, PhaseOk, EdgeListed;
    assert PublisherOk(s.f, o, s.publishers[o]);
    forall t | t in s.f.tasks && s.f.tasks[t].order == o ensures t in s.publishers[o].tasks {
      assert TaskListed(s.f, s.publishers, t);
    }
  }

  /** The order is ready, and all its tasks are done. */
  predicate IsReady(s: Sys, o: OrderId) {
    && o in s.f.orders && s.f.orders[o].status == F.ReadyForPickup
    && forall t | t in s.f.tasks && s.f.tasks[t].order == o :: s.f.tasks[t].status == F.Done
  }

  lemma {:induction false} ServeRest(config: D.Config, s: Sys, o: OrderId, ids: TaskList, from: nat, j: nat)
    returns (s': Sys)
    requires Inv(config, s) && ServedUpTo(s, o, ids, from, j) && j < |ids|
    ensures Leads(config, s, s') && IsReady(s', o)
    decreases |ids| - j
  {
    hide Inv, Run, Leads, Sendable, PublishersOk, OnlyTask, NoRow, ItemsOk, F.ValidDb, K.RowShape, F.AllOrderTasksDone;
    InvParts(config, s);
    ListOf(s, o);
    NextIsSendable(s, o, ids, from, j);
    assert Waits(s, ids[j], from + j);
    var next := ServeOne(config, s, from + j, ids[j]);
    ServedOneMore(s, next, o, ids, from, j);
    if j + 1 < |ids| {
      s' := ServeRest(config, next, o, ids, from, j + 1);
      LeadsOn(config, s, next, s');
    } else {
      s' := next;
      InvParts(config, next);
      ListOf(next, o);
      AllServed(next, o, ids, from);
    }
  }

  lemma AllServed(s: Sys, o: OrderId, ids: TaskList, from: nat)
    requires ServedUpTo(s, o, ids, from, |ids|)
    requires forall t | t in s.f.tasks && s.f.tasks[t].order == o :: t in ids
    ensures F.AllOrderTasksDone(s.f, o, {})
    ensures forall t | t in s.f.tasks && s.f.tasks[t].order == o :: s.f.tasks[t].status == F.Done
  {
  }

  // ----- creating, publishing and queueing the order -----

  lemma {:induction false} FreshNames(used: set<TaskId>, n: nat) returns (ids: TaskList)
    ensures |ids| == n && Distinct(ids) && forall i | 0 <= i < n :: ids[i] !in used
  {
    if n == 0 {
      ids := [];
    } else {
      var others := FreshNames(used, n - 1);
      var name := FreshName(used + set t | t in others);
      ids := others + [name];
    }
  }

  /** The first k tasks of the order are published, their messages unread, and nothing else has happened to it. */
  ghost predicate PublishedUpTo(s: Sys, o: OrderId, ids: TaskList, from: nat, k: nat) {
    && o in s.publishers && s.publishers[o].tasks == ids && s.publishers[o].phase == Publishing
    && |s.publishers[o].published| == k <= |ids| && |s.entries| == from + k
    && (forall i | 0 <= i < k :: Unread(s, ids[i], from + i))
    && (forall i | 0 <= i < |ids| :: NoRow(s, ids[i]))
  }

  /** The next message of an order can be published. */
  lemma Publishes(s: Sys, o: OrderId, ids: TaskList, from: nat, k: nat)
    requires PublishersOk(s.f, s.publishers) && F.ValidDb(s.f)
    requires PublishedUpTo(s, o, ids, from, k) && k < |ids|
    ensures ids[k] in s.f.tasks && s.f.tasks[ids[k]].order in s.f.orders
    ensures var s' := OrderStep(s, Publish(o));
            && s' == s.(entries := s.entries + [NewEntry(s.f, ids[k], |s.entries|)], publishers := s'.publishers)
            && o in s'.publishers && s'.publishers[o].tasks == ids && s'.publishers[o].phase == Publishing
            && |s'.publishers[o].published| == k + 1
  {
    hide Chained, PhaseOk, EdgeListed, TaskListed, NoRow, Unread;
    assert PublisherOk(s.f, o, s.publishers[o]);
    OrderKnown(s, ids[k]);
  }

  lemma PublishesNext(config: D.Config, s: Sys, o: OrderId, ids: TaskList, from: nat, k: nat)
    requires Inv(config, s) && PublishedUpTo(s, o, ids, from, k) && k < |ids|
    ensures var s' := Step(config, s, Publish(o)); PublishedUpTo(s', o, ids, from, k + 1) && s'.f == s.f
  {
    hide Inv, PublishersOk, F.ValidDb, ItemsOk, K.RowShape, NoRow, OrderStep;
    InvParts(config, s);
    Publishes(s, o, ids, from, k);
    var s' := OrderStep(s, Publish(o));
    forall i | 0 <= i < |ids| ensures NoRow(s', ids[i]) { SameRows(s, s', ids[i]); }
    forall i | 0 <= i <= k ensures Unread(s', ids[i], from + i) {
      assert i < k ==> Unread(s, ids[i], from + i);
    }
  }

  lemma OrderKnown(s: Sys, t: TaskId)
    requires F.ValidDb(s.f) && t in s.f.tasks
    ensures s.f.tasks[t].order in s.f.orders
  {
  }

  lemma {:induction false} PublishesRest(config: D.Config, s: Sys, o: OrderId, ids: TaskList, from: nat, k: nat)
    returns (s': Sys)
    requires Inv(config, s) && PublishedUpTo(s, o, ids, from, k)
    ensures Leads(config, s, s') && Inv(config, s') && PublishedUpTo(s', o, ids, from, |ids|)
    decreases |ids| - k
  {
    hide Inv, Run, Leads, Step;
    if k == |ids| {
      s' := s;
      RunLeads(config, s, []);
      assert Run(config, s, []) == s by { NoEvents(config, s); }
    } else {
      PublishesNext(config, s, o, ids, from, k);
      StepKeeps(config, s, Publish(o));
      RunLeads(config, s, [Publish(o)]);
      RunOne(config, s, Publish(o));
      s' := PublishesRest(config, Step(config, s, Publish(o)), o, ids, from, k + 1);
      LeadsOn(config, s, Step(config, s, Publish(o)), s');
    }
  }

  lemma NoEvents(config: D.Config, s: Sys)
    ensures Run(config, s, []) == s
  {
  }

  lemma QueuesTask(s: Sys, o: OrderId, ids: TaskList, from: nat, i: nat)
    requires F.ValidDb(s.f) && PublishersOk(s.f, s.publishers)
    requires PublishedUpTo(s, o, ids, from, |ids|) && i < |ids|
    ensures var f' := OrderStep(s, QueueTasks(o, 0)).f;
            ids[i] in f'.tasks && f'.tasks[ids[i]].order == o && f'.tasks[ids[i]].status == F.Queued
  {
    hide F.ValidDb, Chained, EdgeListed, TaskListed, NoRow, Unread, F.MarkTasksQueued, F.TaskShape, F.TaskStep;
    assert PublisherOk(s.f, o, s.publishers[o]);
    F.QueuedKeys(s.f.tasks, s.publishers[o].published, 0);
    QueueWrites(s.f, o, s.publishers[o], 0, ids[i]);
  }

  lemma QueuesOrder(config: D.Config, s: Sys, o: OrderId, ids: TaskList, from: nat)
    requires Inv(config, s) && PublishedUpTo(s, o, ids, from, |ids|)
    ensures ServedUpTo(Step(config, s, QueueTasks(o, 0)), o, ids, from, 0)
  {
    hide Inv, F.ValidDb, PublishersOk, ItemsOk, K.RowShape, NoRow, F.MarkTasksQueued;
    var s' := OrderStep(s, QueueTasks(o, 0));
    InvParts(config, s);
    forall i | 0 <= i < |ids|
      ensures ids[i] in s'.f.tasks && s'.f.tasks[ids[i]].order == o && Waits(s', ids[i], from + i)
    {
      QueuesTask(s, o, ids, from, i);
      SameRows(s, s', ids[i]);
      assert Unread(s, ids[i], from + i);
    }
  }

  lemma SameRows(s: Sys, s': Sys, t: TaskId)
    requires s'.k == s.k
    ensures NoRow(s', t) <==> NoRow(s, t)
  {
  }

  /** What a customer may order: at least one of each item, for dishes with a recipe that takes time. */
  ghost predicate Acceptable(items: seq<B.OrderItem>, recipes: B.Recipes) {
    && items != [] && B.HasRecipes(items, recipes)
    && forall i | 0 <= i < |items| ::
         && items[i].quantity > 0 && recipes[items[i].menuItem] != []
         && forall j | 0 <= j < |recipes[items[i].menuItem]| :: recipes[items[i].menuItem][j].duration > 0
  }

  /** The task stands for that step of that unit of the order. */
  ghost predicate StandsFor(f: F.Db, t: TaskId, o: OrderId, i: nat, u: nat, step: B.RecipeStep) {
    && t in f.tasks && f.tasks[t].order == o && f.tasks[t].item == i && f.tasks[t].unit == u
    && B.IsStepOf(f.tasks[t], step)
  }

  ghost predicate HasTaskFor(f: F.Db, o: OrderId, items: seq<B.OrderItem>, recipes: B.Recipes, i: nat, u: nat, j: nat)
    requires B.HasRecipes(items, recipes) && B.IsUnitStep(items, recipes, i, u, j)
  {
    var steps := B.SortSteps(recipes[items[i].menuItem]);
    j < |steps| && exists t :: StandsFor(f, t, o, i, u, steps[j])
  }

  /** The order is for that kitchen, and has a task for every step of every unit ordered. */
  ghost predicate IsOrderFor(f: F.Db, o: OrderId, kitchen: KitchenId, items: seq<B.OrderItem>, recipes: B.Recipes)
    requires B.HasRecipes(items, recipes)
  {
    && o in f.orders && f.orders[o].kitchen == kitchen
    && forall i: nat, u: nat, j: nat | B.IsUnitStep(items, recipes, i, u, j) ::
         HasTaskFor(f, o, items, recipes, i, u, j)
  }

  lemma OrderStays(f: F.Db, f': F.Db, o: OrderId, kitchen: KitchenId, items: seq<B.OrderItem>, recipes: B.Recipes)
    requires F.DbStep(f, f') && B.HasRecipes(items, recipes) && IsOrderFor(f, o, kitchen, items, recipes)
    ensures IsOrderFor(f', o, kitchen, items, recipes)
  {
    hide B.SortSteps, B.IsUnitStep;
    forall i: nat, u: nat, j: nat | B.IsUnitStep(items, recipes, i, u, j)
      ensures HasTaskFor(f', o, items, recipes, i, u, j)
    {
      ItemOf(items, recipes, i, u, j);
      assert HasTaskFor(f, o, items, recipes, i, u, j);
      var step := B.SortSteps(recipes[items[i].menuItem])[j];
      var t :| StandsFor(f, t, o, i, u, step);
      assert F.TaskStep(f.tasks[t], f'.tasks[t]);
      assert StandsFor(f', t, o, i, u, step);
    }
  }

  lemma {:induction false} OrderThroughout(config: D.Config, s: Sys, events: seq<Event>, o: OrderId, kitchen: KitchenId,
                                          items: seq<B.OrderItem>, recipes: B.Recipes)
    requires Inv(config, s) && B.HasRecipes(items, recipes) && IsOrderFor(s.f, o, kitchen, items, recipes)
    ensures IsOrderFor(Run(config, s, events).f, o, kitchen, items, recipes)
  {
    hide Inv, Step, IsOrderFor, F.DbStep;
    if events != [] {
      var n := |events| - 1;
      OrderThroughout(config, s, events[..n], o, kitchen, items, recipes);
      ContinueKeeps(config, s, events[..n]);
      StepKeeps(config, Run(config, s, events[..n]), events[n]);
      OrderStays(Run(config, s, events[..n]).f, Run(config, s, events).f, o, kitchen, items, recipes);
    }
  }

  lemma CreatedIsOrderFor(s: Sys, o: OrderId, kitchen: KitchenId, items: seq<B.OrderItem>, recipes: B.Recipes,
                          ids: TaskList)
    requires Orderable(s, o, items, recipes, ids)
    ensures IsOrderFor(OrderStep(s, CreateOrder(o, kitchen, items, recipes, ids)).f, o, kitchen, items, recipes)
  {
    hide B.SortSteps, B.TasksUpTo, B.TotalTasks, B.ChainEdges, B.Position, B.Untouched, B.IsStepOf, B.IsUnitStep;
    var f' := OrderStep(s, CreateOrder(o, kitchen, items, recipes, ids)).f;
    var tasks := B.OrderTasks(o, items, recipes);
    AddOrderAdds(s.f, o, kitchen, ids, tasks);
    forall i: nat, u: nat, j: nat | B.IsUnitStep(items, recipes, i, u, j)
      ensures HasTaskFor(f', o, items, recipes, i, u, j)
    {
      ItemOf(items, recipes, i, u, j);
      B.TaskAtPosition(o, items, recipes, |items|, i, u, j);
      var p := B.Position(items, recipes, i, u, j);
      assert f'.tasks[ids[p]] == tasks[p];
      assert StandsFor(f', ids[p], o, i, u, B.SortSteps(recipes[items[i].menuItem])[j]);
    }
  }

  lemma ItemOf(items: seq<B.OrderItem>, recipes: B.Recipes, i: nat, u: nat, j: nat)
    requires B.HasRecipes(items, recipes) && B.IsUnitStep(items, recipes, i, u, j)
    ensures i < |items|
  {
  }

  lemma CreatesOrder(config: D.Config, s: Sys, o: OrderId, kitchen: KitchenId, items: seq<B.OrderItem>,
                     recipes: B.Recipes)
    returns (ids: TaskList)
    requires Inv(config, s) && o !in s.f.orders && Acceptable(items, recipes)
    ensures |ids| == B.TotalTasks(items, recipes, |items|) > 0
    ensures var s' := Step(config, s, CreateOrder(o, kitchen, items, recipes, ids));
            PublishedUpTo(s', o, ids, |s.entries|, 0) && IsOrderFor(s'.f, o, kitchen, items, recipes)
  {
    hide Base, PublishersOk, ClaimsOk, LineageOk, MessagesOk, B.TasksUpTo, B.ChainEdges, NoRow, WorkerStep, KitchenStep,
         FulfillmentStep, AdminStep, TaskTable, EdgeSet, IsOrderFor;
    B.TasksCounts(o, items, recipes, |items|);
    SomeTask(items, recipes, |items|);
    ids := FreshNames(s.f.tasks.Keys, B.TotalTasks(items, recipes, |items|));
    InvParts(config, s);
    var s' := Step(config, s, CreateOrder(o, kitchen, items, recipes, ids));
    assert Orderable(s, o, items, recipes, ids);
    CreatedIsOrderFor(s, o, kitchen, items, recipes, ids);
    forall i | 0 <= i < |ids| ensures NoRow(s', ids[i]) {
      NoRowOfNoTask(s, ids[i]);
      SameRows(s, s', ids[i]);
    }
  }

  lemma NoRowOfNoTask(s: Sys, t: TaskId)
    requires ItemsOk(s) && t !in s.f.tasks
    ensures NoRow(s, t)
  {
    hide ItemsOk;
    var found := K.FindTask(s.k.rows, t);
    if found.Some? {
      RowFact(s, found.value);
      assert false;
    }
  }

  /** From any reachable state, whatever has been lost, retried or given up in it: every acceptable order
      of a new identifier can be created, and brought to where it is ready for pickup and a done task
      stands for every step of every unit of it. */
  lemma EveryOrderCanBeServed(config: D.Config, s: Sys, o: OrderId, kitchen: KitchenId, items: seq<B.OrderItem>,
                              recipes: B.Recipes)
    requires Reachable(config, s) && o !in s.f.orders && Acceptable(items, recipes)
    ensures exists s' :: Leads(config, s, s') && IsReady(s', o) && IsOrderFor(s'.f, o, kitchen, items, recipes)
  {
    hide Inv, Run, Leads, Step, IsReady, ServedUpTo, PublishedUpTo, IsOrderFor;
    ReachableOk(config, s);
    var ids := CreatesOrder(config, s, o, kitchen, items, recipes);
    var create := CreateOrder(o, kitchen, items, recipes, ids);
    var s1 := Step(config, s, create);
    StepKeeps(config, s, create);
    RunLeads(config, s, [create]);
    RunOne(config, s, create);
    var s2 := PublishesRest(config, s1, o, ids, |s.entries|, 0);
    QueuesOrder(config, s2, o, ids, |s.entries|);
    StepKeeps(config, s2, QueueTasks(o, 0));
    RunLeads(config, s2, [QueueTasks(o, 0)]);
    RunOne(config, s2, QueueTasks(o, 0));
    var s3 := Step(config, s2, QueueTasks(o, 0));
    LeadsOn(config, s1, s2, s3);
    var s' := ServeRest(config, s3, o, ids, |s.entries|, 0);
    LeadsOn(config, s1, s3, s');
    var events := LeadsRuns(config, s1, s');
    OrderThroughout(config, s1, events, o, kitchen, items, recipes);
    LeadsOn(config, s, s1, s');
  }
}
