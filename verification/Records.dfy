/**
 Nothing is made up: whatever the tables record about a task was said in a request, and whatever a
 request says comes from the handler that sent it.
 */
module Records {
  import opened Common
  import opened Protocol
  import opened Invariant
  import opened ServiceSteps
  import opened OrderSteps
  import opened Claims
  import opened Lineage
  import opened Executions
  import opened Retries
  import F = Fulfillment
  import K = Kds
  import D = Dispatcher
  import B = TaskBuilder
  import C = Candidates

  // ----- what Fulfillment records about a task -----

  /** The task is queued under the first entry published for it, on the stream of its kitchen and type. */
  predicate UnderItsMessage(s: Sys, t: TaskId)
    requires t in s.f.tasks
  {
    var task := s.f.tasks[t];
    && task.messageId.Some? && task.messageId.value < |s.entries| && task.order in s.f.orders
    && s.entries[task.messageId.value].task == t && s.entries[task.messageId.value].root == task.messageId.value
    && task.stream == Some("stream:kitchen:" + s.f.orders[task.order].kitchen + ":station:" + task.stationType)
  }

  predicate DisplayedBy(task: F.Task, t: TaskId, r: Request) {
    && r.MarkReq? && r.task == t && task.station == Some(r.station) && task.kdsTask == r.shown
    && task.displayedAt == Some(r.at)
  }

  predicate StartedBy(task: F.Task, t: TaskId, r: Request) {
    && r.StartReq? && r.task == t && task.station == Some(r.station) && task.kdsTask == Some(r.row)
    && task.startedAt == Some(r.at)
  }

  predicate CompletedBy(task: F.Task, t: TaskId, r: Request) {
    && r.CompleteReq? && r.task == t && task.station == Some(r.station) && task.kdsTask == Some(r.row)
    && task.completedAt == Some(r.at)
  }

  predicate FailedBy(task: F.Task, t: TaskId, r: Request) {
    r.FailedReq? && r.task == t && task.attempts == Max(1, r.attempts)
  }

  /** Place, times and attempts of the task are those of requests on the network. */
  ghost predicate TaskRecorded(s: Sys, t: TaskId)
    requires t in s.f.tasks
  {
    var task := s.f.tasks[t];
    && (task.status != F.Created ==> UnderItsMessage(s, t))
    && (F.Placed?(task.status) ==> exists r | r in s.requests :: DisplayedBy(task, t, r))
    && (task.status in {F.InProgress, F.Done} ==> exists r | r in s.requests :: StartedBy(task, t, r))
    && (task.status == F.Done ==> exists r | r in s.requests :: CompletedBy(task, t, r))
    && (task.status == F.Failed ==> exists r | r in s.requests :: FailedBy(task, t, r))
  }

  /** What a publisher remembers of a message is the stream it was published on. */
  ghost predicate StreamsOk(s: Sys) {
    forall o, i | o in s.publishers && 0 <= i < |s.publishers[o].published| ::
      OnStream(s.f, s.publishers[o].published[i])
  }

  predicate OnStream(f: F.Db, p: F.Published) {
    && p.task in f.tasks && f.tasks[p.task].order in f.orders
    && p.stream == "stream:kitchen:" + f.orders[f.tasks[p.task].order].kitchen
                   + ":station:" + f.tasks[p.task].stationType
  }

  // ----- what requests say -----

  predicate GaveUp(config: D.Config, e: Entry, r: Request)
    requires r.FailedReq?
  {
    && e.task == r.task && e.attempt == r.attempts >= config.maxAttempts
    && e.stage.Closed? && e.stage.fate.DeadLettered?
  }

  /** A start and a completion carry the time of the claim and completion they are sent for, and a failed
      dispatch the attempt of a message that has been dead-lettered. */
  ghost predicate RequestRecorded(config: D.Config, s: Sys, r: Request) {
    && (r.StartReq? ==> r.claim < |s.claims| && s.claims[r.claim].at == r.at)
    && (r.CompleteReq? ==> r.completion < |s.completions| && s.completions[r.completion].at == r.at)
    && (r.FailedReq? ==> exists e | e in s.entries :: GaveUp(config, e, r))
  }

  // ----- what the kitchen records about a completed row -----

  /** The completion handler has completed the row, with its own time, for its own worker. */
  predicate FinishedBy(s: Sys, d: nat, k: KdsId) {
    && d < |s.completions| && s.completions[d].phase == Finished && s.completions[d].row == k
    && k < |s.k.rows| && s.k.rows[k].status == K.Completed
    && s.k.rows[k].completedAt == Some(s.completions[d].at)
    && s.k.rows[k].claimedBy == Some(s.completions[d].worker)
  }

  predicate IsFinished(completions: seq<Completion>, d: nat) {
    d < |completions| && completions[d].phase == Finished
  }

  /** Each finished completion has completed its row, and each completed row has exactly one. */
  ghost predicate CompletionsRecorded(s: Sys) {
    && (forall d: nat | IsFinished(s.completions, d) :: FinishedBy(s, d, s.completions[d].row))
    && (forall k: nat | k < |s.k.rows| && s.k.rows[k].status == K.Completed :: exists d: nat :: FinishedBy(s, d, k))
    && (forall d: nat, d': nat | IsFinished(s.completions, d) && IsFinished(s.completions, d') ::
          s.completions[d].row == s.completions[d'].row ==> d == d')
  }

  ghost predicate AllRecorded(config: D.Config, s: Sys) {
    && (forall t | t in s.f.tasks :: TaskRecorded(s, t))
    && StreamsOk(s)
    && (forall r | r in s.requests :: RequestRecorded(config, s, r))
    && CompletionsRecorded(s)
  }

  // ----- tasks -----

  lemma UnderItsMessageStays(s: Sys, s': Sys, t: TaskId)
    requires Grows(s, s') && t in s.f.tasks && UnderItsMessage(s, t)
    requires t in s'.f.tasks && F.TaskStep(s.f.tasks[t], s'.f.tasks[t])
    ensures UnderItsMessage(s', t)
  {
    hide K.DbStep, SameClaim, SameCompletion;
    assert SameEntry(s.entries[s.f.tasks[t].messageId.value], s'.entries[s.f.tasks[t].messageId.value]);
  }

  lemma UnchangedRecorded(s: Sys, s': Sys, t: TaskId)
    requires Grows(s, s') && t in s.f.tasks && TaskRecorded(s, t)
    requires t in s'.f.tasks && s'.f.tasks[t] == s.f.tasks[t]
    ensures TaskRecorded(s', t)
  {
    hide UnderItsMessage, F.DbStep, K.DbStep, SameEntry, SameClaim, SameCompletion;
    if s.f.tasks[t].status != F.Created { UnderItsMessageStays(s, s', t); }
  }

  /** Serving the request of the event changes the task, whose record was in order. */
  ghost predicate Changes(s: Sys, ev: Event, t: TaskId) {
    && t in s.f.tasks && TaskRecorded(s, t) && Grows(s, FulfillmentStep(s, ev))
    && t in FulfillmentStep(s, ev).f.tasks && FulfillmentStep(s, ev).f.tasks[t] != s.f.tasks[t]
  }

  lemma MarkRecorded(s: Sys, ev: Event, t: TaskId)
    requires F.ValidDb(s.f) && ev.HandleMark? && Changes(s, ev, t)
    ensures TaskRecorded(FulfillmentStep(s, ev), t)
  {
    hide UnderItsMessage, Grows, F.ValidDb, F.MarkDisplayed, F.StartTask, F.CompleteTask, F.DispatchFailed,
         F.AllOrderTasksDone, F.TaskShape;
    var r := ev.request;
    F.MarkDisplayedAccepts(s.f, r.task, F.MarkDisplayedRequest(r.station, r.shown.value, r.at));
    assert s.f.tasks[t].status != F.Created;
    GrowsTask(s, FulfillmentStep(s, ev), t);
    UnderItsMessageStays(s, FulfillmentStep(s, ev), t);
    assert DisplayedBy(FulfillmentStep(s, ev).f.tasks[t], t, r);
  }

  lemma FailureRecorded(s: Sys, ev: Event, t: TaskId)
    requires F.ValidDb(s.f) && ev.HandleFailed? && Changes(s, ev, t)
    ensures TaskRecorded(FulfillmentStep(s, ev), t)
  {
    hide UnderItsMessage, Grows, F.ValidDb, F.MarkDisplayed, F.StartTask, F.CompleteTask, F.DispatchFailed,
         F.AllOrderTasksDone, F.TaskShape;
    var r := ev.request;
    F.DispatchFailedAccepts(s.f, r.task, Some(r.attempts));
    OneAttempt(s.f, t);
    assert s.f.tasks[t].status != F.Created;
    GrowsTask(s, FulfillmentStep(s, ev), t);
    UnderItsMessageStays(s, FulfillmentStep(s, ev), t);
    assert FailedBy(FulfillmentStep(s, ev).f.tasks[t], t, r);
  }

  lemma StartRecorded(s: Sys, ev: Event, t: TaskId)
    requires F.ValidDb(s.f) && ev.HandleStart? && Changes(s, ev, t)
    ensures TaskRecorded(FulfillmentStep(s, ev), t)
  {
    hide UnderItsMessage, Grows, F.ValidDb, F.MarkDisplayed, F.StartTask, F.CompleteTask, F.DispatchFailed,
         F.AllOrderTasksDone, F.TaskShape;
    var r := ev.request;
    F.StartTaskAccepts(s.f, r.task, F.StartRequest(r.station, r.row, r.at));
    assert s.f.tasks[t].status != F.Created;
    GrowsTask(s, FulfillmentStep(s, ev), t);
    UnderItsMessageStays(s, FulfillmentStep(s, ev), t);
    assert StartedBy(FulfillmentStep(s, ev).f.tasks[t], t, r);
  }

  lemma CompletionRecorded(s: Sys, ev: Event, t: TaskId)
    requires F.ValidDb(s.f) && ev.HandleComplete? && Changes(s, ev, t)
    ensures TaskRecorded(FulfillmentStep(s, ev), t)
  {
    hide UnderItsMessage, Grows, F.ValidDb, F.MarkDisplayed, F.StartTask, F.CompleteTask, F.DispatchFailed,
         F.AllOrderTasksDone, F.TaskShape;
    var r := ev.request;
    F.CompleteTaskAccepts(s.f, r.task, F.CompleteRequest(r.station, r.row, r.at), ev.unseen);
    assert s.f.tasks[t].status != F.Created;
    GrowsTask(s, FulfillmentStep(s, ev), t);
    UnderItsMessageStays(s, FulfillmentStep(s, ev), t);
    assert CompletedBy(FulfillmentStep(s, ev).f.tasks[t], t, r);
  }

  lemma OneAttempt(f: F.Db, t: TaskId)
    requires F.ValidDb(f) && t in f.tasks
    ensures f.tasks[t].status == F.Queued ==> f.tasks[t].attempts == 1
    ensures f.tasks[t].status != F.Retrying
  {
    assert F.TaskShape(f.tasks[t]);
  }

  /** A task moves on by a request that says what is then recorded. */
  lemma ServedRecorded(s: Sys, ev: Event, t: TaskId)
    requires F.ValidDb(s.f) && IsFulfillment(ev) && Changes(s, ev, t)
    ensures TaskRecorded(FulfillmentStep(s, ev), t)
  {
    hide Changes, TaskRecorded, F.ValidDb, FulfillmentStep;
    match ev
    case HandleMark(_) => MarkRecorded(s, ev, t);
    case HandleFailed(_) => FailureRecorded(s, ev, t);
    case HandleStart(_) => StartRecorded(s, ev, t);
    case HandleComplete(_, _) => CompletionRecorded(s, ev, t);
  }

  lemma GrowsTask(s: Sys, s': Sys, t: TaskId)
    requires Grows(s, s') && t in s.f.tasks
    ensures t in s'.f.tasks && F.TaskStep(s.f.tasks[t], s'.f.tasks[t])
  {
  }

  lemma QueuedRecorded(s: Sys, ev: Event, t: TaskId)
    requires F.ValidDb(s.f) && PublishersOk(s.f, s.publishers) && MessagesOk(s.entries, s.publishers) && StreamsOk(s)
    requires ev.QueueTasks? && t in s.f.tasks && OrderStep(s, ev).f != s.f
    requires t in OrderStep(s, ev).f.tasks && OrderStep(s, ev).f.tasks[t] != s.f.tasks[t]
    ensures TaskRecorded(OrderStep(s, ev), t)
  {
    hide F.MarkTasksQueued, F.ValidDb, Chained, PhaseOk, TaskListed, EdgeListed, F.TaskShape, F.TaskStep;
    var p := s.publishers[ev.order];
    assert PublisherOk(s.f, ev.order, p);
    QueueWrites(s.f, ev.order, p, ev.at, t);
    var i :| 0 <= i < |p.tasks| && p.tasks[i] == t
             && F.QueuedUnder(s.f.tasks[t], OrderStep(s, ev).f.tasks[t], p.published[i], ev.at);
    assert AllPublished(s.entries, p.published) && IsMessage(s.entries, p.published[i]);
    assert OnStream(s.f, p.published[i]);
  }

  lemma TaskStepRecorded(config: D.Config, s: Sys, ev: Event, t: TaskId)
    requires Inv(config, s) && AllRecorded(config, s) && t in Step(config, s, ev).f.tasks
    ensures TaskRecorded(Step(config, s, ev), t)
  {
    hide AdminStep, OrderStep, WorkerStep, FulfillmentStep, KitchenStep, F.ReadyOnlyWhenDone, F.ValidDb, ItemsOk,
         K.Valid, PublishersOk, ClaimsOk, LineageOk, MessagesOk, UnderItsMessage, Grows, CompletionsRecorded, StreamsOk,
         RequestRecorded;
    var s' := Step(config, s, ev);
    StepKeeps(config, s, ev);
    AdminFrame(s, ev);
    WorkerFrame(config, s, ev);
    KitchenFrame(s, ev);
    if t in s.f.tasks && s'.f.tasks[t] == s.f.tasks[t] {
      UnchangedRecorded(s, s', t);
    } else if IsOrder(ev) {
      OrdersOnlyQueue(s, ev, t);
      if t in s.f.tasks {
        OrderChanges(s, ev, t);
        QueuedRecorded(s, ev, t);
      }
    } else {
      var id, out := OneTransaction(s, ev);
      ServedRecorded(s, ev, t);
    }
  }

  lemma OrderChanges(s: Sys, ev: Event, t: TaskId)
    requires IsOrder(ev) && t in s.f.tasks && t in OrderStep(s, ev).f.tasks
    requires OrderStep(s, ev).f.tasks[t] != s.f.tasks[t]
    requires OrderStep(s, ev).f.tasks[t].status == F.Queued
    ensures ev.QueueTasks? && OrderStep(s, ev).f != s.f
  {
    hide AddOrder, F.MarkTasksQueued;
    if ev.CreateOrder? && OrderStep(s, ev).f != s.f {
      AddOrderAdds(s.f, ev.order, ev.kitchen, ev.ids, B.OrderTasks(ev.order, ev.items, ev.recipes));
    }
  }

  // ----- streams -----

  lemma OnStreamStays(f: F.Db, f': F.Db, p: F.Published)
    requires F.DbStep(f, f') && OnStream(f, p)
    ensures OnStream(f', p)
  {
    assert F.TaskStep(f.tasks[p.task], f'.tasks[p.task]);
  }

  lemma StreamsStep(s: Sys, s': Sys)
    requires StreamsOk(s) && F.DbStep(s.f, s'.f) && s'.publishers == s.publishers
    ensures StreamsOk(s')
  {
    hide OnStream, F.DbStep;
    forall o, i | o in s'.publishers && 0 <= i < |s'.publishers[o].published|
      ensures OnStream(s'.f, s'.publishers[o].published[i])
    {
      OnStreamStays(s.f, s'.f, s.publishers[o].published[i]);
    }
  }

  lemma PublishedOnStream(s: Sys, ev: Event)
    requires StreamsOk(s) && F.DbStep(s.f, OrderStep(s, ev).f)
    ensures StreamsOk(OrderStep(s, ev))
  {
    hide F.DbStep, AddOrder, F.MarkTasksQueued, Orderable;
    var s' := OrderStep(s, ev);
    forall o, i | o in s'.publishers && 0 <= i < |s'.publishers[o].published|
      ensures OnStream(s'.f, s'.publishers[o].published[i])
    {
      var p := s'.publishers[o].published[i];
      if o in s.publishers && i < |s.publishers[o].published| {
        assert p == s.publishers[o].published[i];
        OnStreamStays(s.f, s'.f, p);
      } else {
        assert ev.Publish? && OnStream(s.f, p);
      }
    }
  }

  // ----- requests -----

  lemma StillGivenUp(config: D.Config, s: Sys, ev: Event, r: Request)
    requires Inv(config, s) && r.FailedReq? && exists e | e in s.entries :: GaveUp(config, e, r)
    ensures exists e | e in Step(config, s, ev).entries :: GaveUp(config, e, r)
  {
    hide Inv, Step, StageRank;
    var i :| 0 <= i < |s.entries| && GaveUp(config, s.entries[i], r);
    StepKeeps(config, s, ev);
    GrowsEntries(s, Step(config, s, ev));
    EntryAfter(config, s, ev, i);
    if Step(config, s, ev).entries[i] != s.entries[i] { var w, stage, more := WorkerUpdate(config, s, ev); }
    assert Step(config, s, ev).entries[i] in Step(config, s, ev).entries;
  }

  lemma GrowsEntries(s: Sys, s': Sys)
    requires Grows(s, s')
    ensures |s.entries| <= |s'.entries|
  {
  }

  /** A request of its own time, or of a message just dead-lettered. */
  lemma NewRequest(config: D.Config, s: Sys, ev: Event, r: Request)
    requires r in Step(config, s, ev).requests && r !in s.requests
    ensures RequestRecorded(config, Step(config, s, ev), r)
  {
    hide AdminStep, OrderStep, WorkerStep, FulfillmentStep, KitchenStep, RequestRecorded;
    AdminFrame(s, ev);
    OrderFrame(s, ev);
    FulfillmentFrame(s, ev);
    if IsWorker(ev) { WorkerRequest(config, s, ev, r); } else { KitchenRequest(config, s, ev, r); }
  }

  lemma WorkerRequest(config: D.Config, s: Sys, ev: Event, r: Request)
    requires r in WorkerStep(config, s, ev).requests && r !in s.requests
    ensures RequestRecorded(config, WorkerStep(config, s, ev), r)
  {
    hide C.RightChoice, SnapshotOf, ReadinessOf;
    if r.FailedReq? { assert WorkerStep(config, s, ev).entries[ev.entry] in WorkerStep(config, s, ev).entries; }
  }

  lemma KitchenRequest(config: D.Config, s: Sys, ev: Event, r: Request)
    requires r in KitchenStep(s, ev).requests && r !in s.requests
    ensures RequestRecorded(config, KitchenStep(s, ev), r)
  {
    hide K.CompensateClaim, K.BeginClaim, K.DeliverTask;
  }

  lemma RequestStepRecorded(config: D.Config, s: Sys, ev: Event, r: Request)
    requires Inv(config, s) && r in Step(config, s, ev).requests
    requires r in s.requests ==> RequestRecorded(config, s, r)
    ensures RequestRecorded(config, Step(config, s, ev), r)
  {
    hide Inv, Step, GaveUp;
    StepKeeps(config, s, ev);
    if r !in s.requests {
      NewRequest(config, s, ev, r);
    } else if r.FailedReq? {
      StillGivenUp(config, s, ev, r);
    } else {
      HandlersKeepTime(s, Step(config, s, ev), r);
    }
  }

  lemma HandlersKeepTime(s: Sys, s': Sys, r: Request)
    requires Grows(s, s')
    ensures r.StartReq? && r.claim < |s.claims| ==>
              r.claim < |s'.claims| && s'.claims[r.claim].at == s.claims[r.claim].at
    ensures r.CompleteReq? && r.completion < |s.completions| ==>
              r.completion < |s'.completions| && s'.completions[r.completion].at == s.completions[r.completion].at
  {
    hide F.DbStep, K.DbStep, SameEntry;
  }

  // ----- completed rows -----

  /** Nothing finished so far is disturbed by a step that finishes nothing. */
  lemma CompletionsStay(s: Sys, s': Sys)
    requires CompletionsRecorded(s) && Grows(s, s')
    requires forall d: nat :: IsFinished(s'.completions, d) <==> IsFinished(s.completions, d)
    requires forall k: nat | k < |s'.k.rows| && s'.k.rows[k].status == K.Completed ::
               k < |s.k.rows| && s.k.rows[k].status == K.Completed
    ensures CompletionsRecorded(s')
  {
    hide F.DbStep, SameEntry, SameClaim;
    forall d: nat | IsFinished(s'.completions, d) ensures FinishedBy(s', d, s'.completions[d].row) {
      assert IsFinished(s.completions, d) && FinishedBy(s, d, s.completions[d].row);
    }
    forall k: nat | k < |s'.k.rows| && s'.k.rows[k].status == K.Completed
      ensures exists d: nat :: FinishedBy(s', d, k)
    {
      var d: nat :| FinishedBy(s, d, k);
      assert SameCompletion(s.completions[d], s'.completions[d]) && IsFinished(s'.completions, d);
      assert FinishedBy(s', d, k);
    }
  }

  /** One completion finishes, and completes its claimed row. */
  ghost predicate Finishes(s: Sys, s': Sys, d: nat) {
    && IsFinished(s'.completions, d) && |s'.completions| == |s.completions|
    && !IsFinished(s.completions, d) && FinishedBy(s', d, s'.completions[d].row)
    && (forall x: nat | x < |s.completions| && x != d :: s'.completions[x] == s.completions[x])
    && K.OnlyRow(s.k.rows, s'.k.rows, s'.completions[d].row)
    && s.k.rows[s'.completions[d].row].status != K.Completed
  }

  lemma OthersStayFinished(s: Sys, s': Sys, d: nat, x: nat)
    requires Finishes(s, s', d) && IsFinished(s'.completions, x) && x != d
    requires CompletionsRecorded(s)
    ensures IsFinished(s.completions, x) && FinishedBy(s', x, s'.completions[x].row)
    ensures s'.completions[x].row != s'.completions[d].row
  {
    assert IsFinished(s.completions, x) && FinishedBy(s, x, s.completions[x].row);
  }

  lemma FinishAdds(s: Sys, s': Sys, d: nat)
    requires CompletionsRecorded(s) && Finishes(s, s', d)
    ensures CompletionsRecorded(s')
  {
    forall x: nat | IsFinished(s'.completions, x) && x != d
      ensures IsFinished(s.completions, x) && FinishedBy(s', x, s'.completions[x].row)
      ensures s'.completions[x].row != s'.completions[d].row
    {
      OthersStayFinished(s, s', d, x);
    }
    forall k: nat | k < |s'.k.rows| && s'.k.rows[k].status == K.Completed
      ensures exists x: nat :: FinishedBy(s', x, k)
    {
      if k == s'.completions[d].row {
        assert FinishedBy(s', d, k);
      } else {
        var x: nat :| FinishedBy(s, x, k);
        assert FinishedBy(s', x, k);
      }
    }
  }

  /** The completion that completes a row is the first and only one of it to finish. */
  lemma FinishRecorded(s: Sys, d: nat)
    requires Base(s) && d < |s.completions| && s.completions[d].phase == Accepted
    requires var h := s.completions[d]; K.CompleteRefusal(s.k, h.station, h.task, h.worker).None?
    ensures Finishes(s, KitchenStep(s, FinishCompletion(d)), d)
  {
    hide F.ValidDb, F.ReadyOnlyWhenDone, ItemsOk, K.DbStep, K.KeepsLimits, K.FinishComplete, K.SlotsConserved,
         K.WithinPeak;
    var h := s.completions[d];
    var s' := KitchenStep(s, FinishCompletion(d));
    CompletionFact(s, d);
    K.FoundIsTheRow(s.k, h.row);
    K.FinishFacts(s.k, s.peak, h.station, h.task, h.worker, h.at);
    assert K.CompletesRow(s.k, s'.k, h.station, h.row, h.at);
  }

  lemma OtherStepFinishesNothing(s: Sys, ev: Event)
    requires !ev.FinishCompletion?
    ensures forall d: nat :: IsFinished(KitchenStep(s, ev).completions, d) <==> IsFinished(s.completions, d)
    ensures forall k: nat | k < |KitchenStep(s, ev).k.rows| && KitchenStep(s, ev).k.rows[k].status == K.Completed ::
              k < |s.k.rows| && s.k.rows[k].status == K.Completed
  {
  }

  lemma CompletionsStepRecorded(config: D.Config, s: Sys, ev: Event)
    requires Inv(config, s) && CompletionsRecorded(s)
    ensures CompletionsRecorded(Step(config, s, ev))
  {
    hide Inv, Base, Grows, AdminStep, OrderStep, WorkerStep, FulfillmentStep, KitchenStep, CompletionsRecorded;
    var s' := Step(config, s, ev);
    StepKeeps(config, s, ev);
    InvBase(config, s);
    AdminFrame(s, ev);
    OrderFrame(s, ev);
    WorkerFrame(config, s, ev);
    FulfillmentFrame(s, ev);
    if ev.FinishCompletion? {
      FinishStepRecorded(s, ev.completion);
    } else {
      OtherStepFinishesNothing(s, ev);
      CompletionsStay(s, s');
    }
  }

  lemma FinishStepRecorded(s: Sys, d: nat)
    requires Base(s) && CompletionsRecorded(s) && Grows(s, KitchenStep(s, FinishCompletion(d)))
    ensures CompletionsRecorded(KitchenStep(s, FinishCompletion(d)))
  {
    hide Base, Grows, CompletionsRecorded, Finishes, K.CompleteRefusal, K.FinishComplete;
    var s' := KitchenStep(s, FinishCompletion(d));
    if d < |s.completions| && s.completions[d].phase == Accepted
       && K.CompleteRefusal(s.k, s.completions[d].station, s.completions[d].task, s.completions[d].worker).None?
    {
      FinishRecorded(s, d);
      FinishAdds(s, s', d);
    } else {
      CompletionsStay(s, s');
    }
  }

  // ----- runs -----

  lemma RecordedStep(config: D.Config, s: Sys, ev: Event)
    requires Inv(config, s) && AllRecorded(config, s)
    ensures AllRecorded(config, Step(config, s, ev))
  {
    hide Inv, AdminStep, OrderStep, WorkerStep, FulfillmentStep, KitchenStep, TaskRecorded, RequestRecorded,
         CompletionsRecorded, StreamsOk, F.DbStep, K.DbStep, SameEntry, SameClaim, SameCompletion;
    var s' := Step(config, s, ev);
    StepKeeps(config, s, ev);
    forall t | t in s'.f.tasks ensures TaskRecorded(s', t) { TaskStepRecorded(config, s, ev, t); }
    forall r | r in s'.requests ensures RequestRecorded(config, s', r) { RequestStepRecorded(config, s, ev, r); }
    CompletionsStepRecorded(config, s, ev);
    if IsOrder(ev) {
      PublishedOnStream(s, ev);
    } else {
      AdminFrame(s, ev);
      WorkerFrame(config, s, ev);
      FulfillmentFrame(s, ev);
      KitchenFrame(s, ev);
      StreamsStep(s, s');
    }
  }

  lemma {:induction false} RecordedThroughout(config: D.Config, events: seq<Event>)
    ensures AllRecorded(config, Run(config, INIT, events))
  {
    hide Inv, Step, TaskRecorded, RequestRecorded, CompletionsRecorded, StreamsOk;
    if events == [] {
      NothingRecorded(config);
    } else {
      var n := |events| - 1;
      RecordedThroughout(config, events[..n]);
      RunKeeps(config, events[..n]);
      RecordedStep(config, Run(config, INIT, events[..n]), events[n]);
    }
  }

  lemma NothingRecorded(config: D.Config)
    ensures AllRecorded(config, INIT)
  {
  }

  /** In every reachable state the place, times and attempts of a task are those of requests that were sent,
      it is queued under its own message, and those requests carry the times of the claims and completions
      they belong to. */
  lemma NothingIsMadeUp(config: D.Config, s: Sys)
    requires Reachable(config, s)
    ensures forall t | t in s.f.tasks :: TaskRecorded(s, t)
    ensures forall r | r in s.requests :: RequestRecorded(config, s, r)
  {
    hide Leads, Run, TaskRecorded, RequestRecorded, CompletionsRecorded, StreamsOk;
    var events := LeadsRuns(config, INIT, s);
    RecordedThroughout(config, events);
  }

  /** In every reachable state a completed row carries the time and worker of exactly one completion, and
      every finished completion has completed its row. */
  lemma CompletedOnce(config: D.Config, s: Sys)
    requires Reachable(config, s)
    ensures CompletionsRecorded(s)
  {
    hide Leads, Run, TaskRecorded, RequestRecorded, CompletionsRecorded, StreamsOk;
    var events := LeadsRuns(config, INIT, s);
    RecordedThroughout(config, events);
  }
}
