/** What happens to one task over a run: a short path, written once. */
module History {
  import opened Common
  import opened Protocol
  import opened Invariant
  import opened ServiceSteps
  import opened OrderSteps
  import opened Executions
  import F = Fulfillment
  import K = Kds
  import D = Dispatcher

  /** b is a at a later time: the job is the same, what was recorded stays recorded, attempts
      have not fallen, and only a change of status has changed anything. */
  predicate Later(a: F.Task, b: F.Task) {
    && b.order == a.order && b.item == a.item && b.unit == a.unit && b.stepOrder == a.stepOrder
    && b.stationType == a.stationType && b.operation == a.operation && b.estimated == a.estimated
    && F.Kept(a.station, b.station) && F.Kept(a.kdsTask, b.kdsTask) && F.Kept(a.displayedAt, b.displayedAt)
    && F.Kept(a.startedAt, b.startedAt) && F.Kept(a.slaDeadlineAt, b.slaDeadlineAt)
    && F.Kept(a.completedAt, b.completedAt) && F.Kept(a.actualDuration, b.actualDuration)
    && F.Kept(a.delay, b.delay) && F.Kept(a.queuedAt, b.queuedAt)
    && F.Kept(a.stream, b.stream) && F.Kept(a.messageId, b.messageId)
    && a.attempts <= b.attempts
    && (b == a || F.Rank(a.status) < F.Rank(b.status))
  }

  lemma LaterStep(a: F.Task, b: F.Task, c: F.Task)
    requires Later(a, b) && F.TaskStep(b, c)
    ensures Later(a, c)
  {
  }

  /** The number of steps among the first n that changed the task. */
  ghost function Changes(states: seq<Sys>, t: TaskId, n: nat): nat
    requires n < |states|
  {
    if n == 0 then 0 else Changes(states, t, n - 1) + (if Changed(states[n - 1].f, states[n].f, t) then 1 else 0)
  }

  predicate Changed(f: F.Db, f': F.Db, t: TaskId) { t in f.tasks && t in f'.tasks && f'.tasks[t] != f.tasks[t] }

  /** From any reachable state on, a task moves along the transition table, at most
      LAST_RANK times in all, and every field that has been assigned keeps its value. */
  lemma {:induction false} WriteOnce(config: D.Config, states: seq<Sys>, events: seq<Event>, t: TaskId, n: nat)
    requires Execution(config, states, events) && n <= |events|
    requires Reachable(config, states[0]) && t in states[0].f.tasks
    ensures t in states[n].f.tasks && Later(states[0].f.tasks[t], states[n].f.tasks[t])
    ensures F.Rank(states[0].f.tasks[t].status) + Changes(states, t, n)
            <= F.Rank(states[n].f.tasks[t].status) <= F.LAST_RANK
  {
    hide Inv, Step, Later, Leads;
    if n == 0 {
      LaterReflexive(states[0].f.tasks[t]);
    } else {
      WriteOnce(config, states, events, t, n - 1);
      ReachableOk(config, states[0]);
      ExecutionKeeps(config, states, events, n - 1);
      assert IsStep(config, states, events, n - 1);
      StepKeeps(config, states[n - 1], events[n - 1]);
      StepOfTask(states[n - 1], states[n], t);
      LaterStep(states[0].f.tasks[t], states[n - 1].f.tasks[t], states[n].f.tasks[t]);
    }
  }

  lemma LaterReflexive(a: F.Task)
    ensures Later(a, a)
  {
  }

  lemma StepOfTask(s: Sys, s': Sys, t: TaskId)
    requires Grows(s, s') && t in s.f.tasks
    ensures t in s'.f.tasks && F.TaskStep(s.f.tasks[t], s'.f.tasks[t])
    ensures s'.f.tasks[t] == s.f.tasks[t] || F.Rank(s.f.tasks[t].status) < F.Rank(s'.f.tasks[t].status) <= F.LAST_RANK
  {
  }

  // ----- repeated calls -----

  /** The event serves a request of its own kind; a completion does not overlook its own task. */
  predicate Serves(ev: Event) {
    match ev
    case HandleMark(r) => r.MarkReq? && r.shown.Some?
    case HandleFailed(r) => r.FailedReq?
    case HandleStart(r) => r.StartReq?
    case HandleComplete(r, unseen) => r.CompleteReq? && r.task !in unseen
    case _ => false
  }

  /** Fulfillment serves the request, and its answer is not an error. */
  predicate Accepts(s: Sys, ev: Event) {
    Serves(ev) && ev.request in s.requests &&
    match ev.request
    case MarkReq(_, t, station, shown, at) =>
      F.MarkDisplayed(s.f, t, F.MarkDisplayedRequest(station, shown.value, at)).error.None?
    case FailedReq(t, attempts) => F.DispatchFailed(s.f, t, Some(attempts)).error.None?
    case StartReq(_, t, station, row, at) => F.StartTask(s.f, t, F.StartRequest(station, row, at)).error.None?
    case CompleteReq(_, t, station, row, at) =>
      F.CompleteTask(s.f, t, F.CompleteRequest(station, row, at), ev.unseen).error.None?
  }

  /** The status a request asks for. */
  function Aim(r: Request): F.TaskStatus {
    match r
    case DeliverReq(_, _, _) => F.Queued
    case MarkReq(_, _, _, _, _) => F.Displayed
    case FailedReq(_, _) => F.Failed
    case StartReq(_, _, _, _, _) => F.InProgress
    case CompleteReq(_, _, _, _, _) => F.Done
  }

  /** The task has the status the request asks for or a later one of the same path, at the place it names. */
  predicate InEffect(f: F.Db, r: Request) {
    !r.DeliverReq? && r.task in f.tasks &&
    var task := f.tasks[r.task];
    match r
    case MarkReq(_, _, station, shown, _) =>
      shown.Some? && F.PlacedAt(task, station, shown.value) && task.status in {F.Displayed, F.InProgress, F.Done}
    case FailedReq(_, _) => task.status == F.Failed
    case StartReq(_, _, station, row, _) =>
      F.PlacedAt(task, station, row) && task.status in {F.InProgress, F.Done}
    case CompleteReq(_, _, station, row, _) => F.PlacedAt(task, station, row) && task.status == F.Done
  }

  lemma AcceptedTakesEffect(config: D.Config, s: Sys, ev: Event)
    requires F.ValidDb(s.f) && Accepts(s, ev)
    ensures InEffect(Step(config, s, ev).f, ev.request) && ev.request in Step(config, s, ev).requests
  {
    hide AdminStep, OrderStep, WorkerStep, KitchenStep, F.ReadyOnlyWhenDone, F.AllOrderTasksDone;
  }

  lemma EffectStays(s: Sys, s': Sys, r: Request)
    requires Grows(s, s') && InEffect(s.f, r) && r in s.requests
    ensures InEffect(s'.f, r) && r in s'.requests
  {
    hide K.DbStep, SameEntry, SameClaim, SameCompletion;
  }

  lemma NoFurtherEffect(config: D.Config, s: Sys, ev: Event)
    requires IsFulfillment(ev) && InEffect(s.f, ev.request)
    ensures Step(config, s, ev).f == s.f
  {
    hide AdminStep, OrderStep, WorkerStep, KitchenStep, F.AllOrderTasksDone;
  }

  lemma AcceptedAgain(s: Sys, ev: Event)
    requires IsFulfillment(ev) && ev.request in s.requests && InEffect(s.f, ev.request)
    ensures Accepts(s, ev) <==> Serves(ev) && s.f.tasks[ev.request.task].status == Aim(ev.request)
  {
    hide F.AllOrderTasksDone;
  }

  lemma OnlyFulfillmentAccepts(s: Sys, ev: Event)
    requires Accepts(s, ev)
    ensures IsFulfillment(ev)
  {
    hide F.MarkDisplayed, F.DispatchFailed, F.StartTask, F.CompleteTask;
  }

  lemma {:induction false} EffectThroughout(config: D.Config, states: seq<Sys>, events: seq<Event>, i: nat, j: nat)
    requires Execution(config, states, events) && i < j <= |events| && Inv(config, states[0])
    requires Accepts(states[i], events[i])
    ensures InEffect(states[j].f, events[i].request) && events[i].request in states[j].requests
  {
    hide Inv, Step, InEffect, Accepts;
    OnlyFulfillmentAccepts(states[i], events[i]);
    ExecutionKeeps(config, states, events, j - 1);
    assert IsStep(config, states, events, j - 1);
    if i == j - 1 {
      InvBase(config, states[i]);
      AcceptedTakesEffect(config, states[i], events[i]);
    } else {
      EffectThroughout(config, states, events, i, j - 1);
      StepKeeps(config, states[j - 1], events[j - 1]);
      EffectStays(states[j - 1], states[j], events[i].request);
    }
  }

  /** A request that has been accepted takes no effect a second time, however late in the run a copy of it
      is served; and the copy is accepted exactly as long as the task has not moved on. */
  lemma ServedOnce(config: D.Config, states: seq<Sys>, events: seq<Event>, i: nat, j: nat)
    requires Execution(config, states, events) && Reachable(config, states[0]) && i < j < |events|
    requires Accepts(states[i], events[i]) && IsFulfillment(events[j]) && events[j].request == events[i].request
    ensures states[j + 1].f == states[j].f
    ensures events[i].request.task in states[j].f.tasks
    ensures Accepts(states[j], events[j])
            <==> Serves(events[j]) && states[j].f.tasks[events[i].request.task].status == Aim(events[i].request)
  {
    hide Inv, Step, Accepts, Leads;
    OnlyFulfillmentAccepts(states[i], events[i]);
    ReachableOk(config, states[0]);
    EffectThroughout(config, states, events, i, j);
    assert IsStep(config, states, events, j);
    NoFurtherEffect(config, states[j], events[j]);
    AcceptedAgain(states[j], events[j]);
  }

  // ----- queueing -----

  /** The queued write of an order overwrites its own tasks only, and finds every one of them
      created: no worker can have displayed, failed or otherwise moved it before, although
      its message has been readable since it was published. */
  lemma QueuedWriteIsSafe(config: D.Config, s: Sys, o: OrderId, at: Time, t: TaskId)
    requires Reachable(config, s) && t in s.f.tasks
    ensures var s' := OrderStep(s, QueueTasks(o, at));
            && t in s'.f.tasks
            && (s'.f.tasks[t] != s.f.tasks[t] ==>
                  && s.f.tasks[t].order == o && s.f.tasks[t].status == F.Created && s'.f.tasks[t].status == F.Queued)
  {
    ReachableOk(config, s);
    hide Leads, Base, OrderStep, PublishersOk;
    QueuedWriteIn(s, o, at, t);
  }

  lemma QueuedWriteIn(s: Sys, o: OrderId, at: Time, t: TaskId)
    requires Base(s) && PublishersOk(s.f, s.publishers) && t in s.f.tasks
    ensures var s' := OrderStep(s, QueueTasks(o, at));
            && t in s'.f.tasks
            && (s'.f.tasks[t] != s.f.tasks[t] ==>
                  && s.f.tasks[t].order == o && s.f.tasks[t].status == F.Created && s'.f.tasks[t].status == F.Queued)
  {
    hide ItemsOk, F.ReadyOnlyWhenDone, K.Valid, F.ValidDb, TaskListed, EdgeListed, F.MarkTasksQueued, Chained, PhaseOk;
    if OrderStep(s, QueueTasks(o, at)) != s {
      assert PublisherOk(s.f, o, s.publishers[o]);
      QueueWrites(s.f, o, s.publishers[o], at, t);
    }
  }

  /** A created task is on no screen: no row of it exists and no delivery of it was ever requested. */
  lemma CreatedIsNeverDelivered(config: D.Config, s: Sys, t: TaskId)
    requires Reachable(config, s) && t in s.f.tasks && s.f.tasks[t].status == F.Created
    ensures forall k | 0 <= k < |s.k.rows| :: s.k.rows[k].req.task != t
    ensures forall r | r in s.requests :: (r.DeliverReq? ==> r.delivery.task != t) && (r.MarkReq? ==> r.task != t)
  {
    ReachableOk(config, s);
    hide Leads, F.ReadyOnlyWhenDone, K.Valid, F.ValidDb, PublishersOk, F.DepsDone;
    forall k: nat | k < |s.k.rows| ensures s.k.rows[k].req.task != t { RowFact(s, k); }
    forall r | r in s.requests && (r.DeliverReq? || r.MarkReq?)
      ensures r.DeliverReq? ==> r.delivery.task != t
      ensures r.MarkReq? ==> r.task != t
    {
      RequestFact(s, r);
    }
  }

  lemma PublisherStep(config: D.Config, s: Sys, ev: Event, o: OrderId)
    requires PublishersOk(s.f, s.publishers) && o in s.publishers
    ensures o in Step(config, s, ev).publishers
    ensures Step(config, s, ev).publishers[o].tasks == s.publishers[o].tasks
    ensures s.publishers[o].phase == Aborted ==> Step(config, s, ev).publishers[o] == s.publishers[o]
  {
    hide AdminStep, WorkerStep, FulfillmentStep, KitchenStep, PublisherOk, TaskListed, EdgeListed;
    AdminFrame(s, ev);
    WorkerFrame(config, s, ev);
    FulfillmentFrame(s, ev);
    KitchenFrame(s, ev);
  }

  lemma {:induction false} AbortedForGood(config: D.Config, s: Sys, events: seq<Event>, o: OrderId)
    requires Inv(config, s) && o in s.publishers && s.publishers[o].phase == Aborted
    ensures var s' := Run(config, s, events); o in s'.publishers && s'.publishers[o] == s.publishers[o]
  {
    hide Step, Base, PublisherOk, TaskListed, EdgeListed;
    if events != [] {
      var n := |events| - 1;
      AbortedForGood(config, s, events[..n], o);
      ContinueKeeps(config, s, events[..n]);
      PublisherStep(config, Run(config, s, events[..n]), events[n], o);
    }
  }

  lemma AbortedNow(config: D.Config, s: Sys, o: OrderId)
    requires o in s.publishers && s.publishers[o].phase != AllQueued
    ensures var s' := Step(config, s, AbortPublish(o));
            && o in s'.publishers && s'.publishers[o].phase == Aborted
            && s'.publishers[o].tasks == s.publishers[o].tasks
  {
    hide AdminStep, WorkerStep, FulfillmentStep, KitchenStep, AddOrder, Orderable, F.MarkTasksQueued;
  }

  /** When publishing an order fails, none of its tasks ever becomes queued, whatever happens later. */
  lemma AbortedOrderStaysCreated(config: D.Config, s: Sys, s': Sys, o: OrderId, t: TaskId)
    requires Reachable(config, s) && o in s.publishers && s.publishers[o].phase != AllQueued
    requires t in s.publishers[o].tasks && Leads(config, Step(config, s, AbortPublish(o)), s')
    ensures t in s'.f.tasks && s'.f.tasks[t].order == o && s'.f.tasks[t].status == F.Created
  {
    hide Leads, Run, Step, Base, TaskListed, EdgeListed, Chained;
    ReachableOk(config, s);
    AbortedNow(config, s, o);
    var s1 := Step(config, s, AbortPublish(o));
    StepKeeps(config, s, AbortPublish(o));
    var events := LeadsRuns(config, s1, s');
    ContinueKeeps(config, s1, events);
    AbortedForGood(config, s1, events, o);
    assert PublisherOk(s'.f, o, s'.publishers[o]);
  }

  /** Every task that is waiting to be dispatched still has a message that is on its way or on
      the dead-letter stream: no acknowledgement ever loses the task. */
  lemma QueuedTaskHasItsMessage(config: D.Config, s: Sys, t: TaskId)
    requires Reachable(config, s) && t in s.f.tasks && s.f.tasks[t].status == F.Queued
    ensures exists i :: 0 <= i < |s.entries| && s.entries[i].task == t && !Settled(s.entries[i].stage)
  {
    ReachableOk(config, s);
    hide Leads, Base, PublisherOk, EdgeListed, Lineage.EntryLineage;
    assert TaskListed(s.f, s.publishers, t);
    var o := s.f.tasks[t].order;
    var i :| 0 <= i < |s.publishers[o].tasks| && s.publishers[o].tasks[i] == t;
    MessageOfTask(s, o, i);
    LiveMessage(config, s, s.publishers[o].published[i].messageId);
  }

  /** Handled for good without a dead letter, or superseded by a later copy. */
  predicate Settled(stage: Stage) { stage.Closed? && !stage.fate.DeadLettered? }

  lemma MessageOfTask(s: Sys, o: OrderId, i: nat)
    requires PublishersOk(s.f, s.publishers) && MessagesOk(s.entries, s.publishers)
    requires o in s.publishers && i < |s.publishers[o].tasks|
    requires var t := s.publishers[o].tasks[i]; t in s.f.tasks && s.f.tasks[t].status == F.Queued
    ensures i < |s.publishers[o].published| && IsMessage(s.entries, s.publishers[o].published[i])
    ensures s.publishers[o].published[i].task == s.publishers[o].tasks[i]
  {
  }

  lemma LiveMessage(config: D.Config, s: Sys, m: nat)
    requires Base(s) && Lineage.LineageOk(config, s.entries)
    requires m < |s.entries| && s.entries[m].root == m
    requires var t := s.entries[m].task; t in s.f.tasks && s.f.tasks[t].status == F.Queued
    ensures exists i :: 0 <= i < |s.entries| && s.entries[i].task == s.entries[m].task && !Settled(s.entries[i].stage)
  {
    hide ItemsOk, F.ValidDb, F.ReadyOnlyWhenDone, K.Valid, Lineage.Copies;
    assert Lineage.EntryLineage(config, s.entries, m);
    var j: nat;
    if Lineage.Live(s.entries[m]) { j := m; } else { j :| Lineage.LiveCopy(s.entries, j, m); }
    assert Lineage.EntryLineage(config, s.entries, j);
    EntryFact(s, j);
  }
}
