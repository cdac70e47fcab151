/**
 Lost replies and retries: what a later, answered call can always repair, and the one
 disagreement between the services that nothing repairs.
 */
module Recovery {
  import opened Common
  import opened Protocol
  import opened Invariant
  import opened ServiceSteps
  import opened OrderSteps
  import opened Claims
  import opened Lineage
  import opened Executions
  import F = Fulfillment
  import K = Kds
  import D = Dispatcher
  import C = Candidates

  // ----- a claim whose start call is answered -----

  /** The events of a claim whose call to Fulfillment is served and answered at once. */
  function ClaimEvents(s: Sys, station: StationId, task: TaskId, worker: WorkerId, at: Time): seq<Event>
    requires K.ClaimRefusal(s.k, station, task).None?
  {
    [ClaimTask(station, task, worker, at),
     HandleStart(StartReq(|s.claims|, task, station, K.FindTask(s.k.rows, task).value, at)),
     ReceiveStart(|s.claims|, true)]
  }

  /** No reply to a claim or a completion exists before the handler does. */
  lemma NoReplyYet(s: Sys, ok: bool)
    requires ItemsOk(s)
    ensures StartRsp(|s.claims|, ok) !in s.responses && CompleteRsp(|s.completions|, ok) !in s.responses
  {
  }

  /** The start call of the row's own station succeeds exactly when Fulfillment recorded that
      station; a call repeated after a lost reply succeeds all the same. */
  lemma StartAnswer(s: Sys, task: TaskId, k: KdsId, at: Time)
    requires F.ValidDb(s.f) && K.RowShape(s.k) && ItemsOk(s) && IsRowOf(s, k, task)
    requires task in s.f.tasks && s.f.tasks[task].status in {F.Displayed, F.InProgress}
    ensures var row := s.k.rows[k];
            var out := F.StartTask(s.f, task, F.StartRequest(row.station, k, at));
            && (out.error.None? <==> s.f.tasks[task].station == Some(row.station))
            && (if out.error.None? then task in out.db.tasks && out.db.tasks[task].status == F.InProgress
                else out.db == s.f)
  {
  }

  /** The call that starts a task, whenever it is served: it succeeds exactly when Fulfillment
      recorded the row's own station. */
  lemma StartIsAccepted(config: D.Config, s: Sys, t: TaskId, k: KdsId, at: Time)
    requires Reachable(config, s) && IsRowOf(s, k, t)
    requires t in s.f.tasks && s.f.tasks[t].status in {F.Displayed, F.InProgress}
    ensures F.StartTask(s.f, t, F.StartRequest(s.k.rows[k].station, k, at)).error.None?
            <==> s.f.tasks[t].station == Some(s.k.rows[k].station)
  {
    hide Leads, Inv, F.StartTask;
    ReachableOk(config, s);
    InvParts(config, s);
    StartAnswer(s, t, k, at);
  }

  lemma InvParts(config: D.Config, s: Sys)
    requires Inv(config, s)
    ensures F.ValidDb(s.f) && K.RowShape(s.k) && ItemsOk(s) && PublishersOk(s.f, s.publishers)
  {
  }

  /** What the three events of an answered claim leave behind. */
  lemma ClaimServed(config: D.Config, s: Sys, station: StationId, task: TaskId, worker: WorkerId, at: Time)
    requires K.ClaimRefusal(s.k, station, task).None? && StartRsp(|s.claims|, true) !in s.responses
    ensures var s' := Run(config, s, ClaimEvents(s, station, task, worker, at));
            var k := K.FindTask(s.k.rows, task).value;
            var out := F.StartTask(s.f, task, F.StartRequest(station, k, at));
            && s'.f == out.db && s'.k == K.BeginClaim(s.k, station, task, worker, at)
            && s'.claims == s.claims
               + [Claim(station, task, worker, at, k, if out.error.None? then Started else Starting)]
  {
    hide Run, F.StartTask, K.BeginClaim, K.ClaimRefusal, AdminStep, OrderStep, WorkerStep, K.DeliverTask,
         K.FinishComplete, K.CompensateClaim, K.CompleteRefusal;
    var events := ClaimEvents(s, station, task, worker, at);
    RunThree(config, s, events[0], events[1], events[2]);
  }

  /** A valid claim that is answered succeeds exactly when the stations agree, whatever replies
      were lost before; otherwise it changes nothing at Fulfillment. */
  lemma AnsweredClaim(config: D.Config, s: Sys, station: StationId, task: TaskId, worker: WorkerId, at: Time)
    requires Inv(config, s) && K.ClaimRefusal(s.k, station, task).None?
    requires task in s.f.tasks && s.f.tasks[task].status in {F.Displayed, F.InProgress}
    ensures var s' := Run(config, s, ClaimEvents(s, station, task, worker, at));
            && |s'.claims| == |s.claims| + 1 && s'.k == K.BeginClaim(s.k, station, task, worker, at)
            && (s'.claims[|s.claims|].phase == Started <==> s.f.tasks[task].station == Some(station))
            && (if s'.claims[|s.claims|].phase == Started
                then task in s'.f.tasks && s'.f.tasks[task].status == F.InProgress
                else s'.f == s.f)
  {
    hide ItemsOk, K.Valid, F.ValidDb, PublishersOk, ClaimsOk, LineageOk, MessagesOk, F.StartTask, K.BeginClaim, Run,
         F.ReadyOnlyWhenDone;
    ShapeOf(s);
    StartAnswer(s, task, K.FindTask(s.k.rows, task).value, at);
    NoReplyYet(s, true);
    ClaimServed(config, s, station, task, worker, at);
  }

  lemma ShapeOf(s: Sys)
    requires Base(s)
    ensures K.RowShape(s.k)
  {
  }

  // ----- a completion whose call is answered -----

  function CompletionEvents(s: Sys, station: StationId, task: TaskId, worker: WorkerId, at: Time): seq<Event>
    requires K.CompleteRefusal(s.k, station, task, worker).None?
  {
    [CompleteTask(station, task, worker, at),
     HandleComplete(CompleteReq(|s.completions|, task, station, K.FindTask(s.k.rows, task).value, at), {}),
     ReceiveComplete(|s.completions|, true),
     FinishCompletion(|s.completions|)]
  }

  lemma CompleteAnswer(s: Sys, task: TaskId, k: KdsId, at: Time)
    requires F.ValidDb(s.f) && K.RowShape(s.k) && ItemsOk(s) && IsRowOf(s, k, task)
    requires task in s.f.tasks && s.f.tasks[task].status in {F.InProgress, F.Done}
    ensures var row := s.k.rows[k];
            var out := F.CompleteTask(s.f, task, F.CompleteRequest(row.station, k, at), {});
            && s.f.tasks[task].startedAt.Some?
            && (out.error.None? <==> s.f.tasks[task].status == F.Done || at >= s.f.tasks[task].startedAt.value)
            && (if out.error.None? then task in out.db.tasks && out.db.tasks[task].status == F.Done else out.db == s.f)
  {
    hide ItemsOk, K.RowShape, F.AllOrderTasksDone;
    TaskFact(s, task);
    K.FoundIsTheRow(s.k, k);
    K.FoundIsTheRow(s.k, s.f.tasks[task].kdsTask.value);
    assert F.TaskShape(s.f.tasks[task]);
  }

  /** The call that completes a task, whenever it is served: it succeeds exactly when the task is
      done already or the completion is not dated before the start. */
  lemma CompletionIsAccepted(config: D.Config, s: Sys, t: TaskId, k: KdsId, at: Time)
    requires Reachable(config, s) && IsRowOf(s, k, t)
    requires t in s.f.tasks && s.f.tasks[t].status in {F.InProgress, F.Done}
    ensures s.f.tasks[t].startedAt.Some?
    ensures F.CompleteTask(s.f, t, F.CompleteRequest(s.k.rows[k].station, k, at), {}).error.None?
            <==> s.f.tasks[t].status == F.Done || at >= s.f.tasks[t].startedAt.value
  {
    hide Leads, Inv, F.CompleteTask;
    ReachableOk(config, s);
    InvParts(config, s);
    CompleteAnswer(s, t, k, at);
  }

  /** What the first three events of an answered completion leave behind. */
  lemma CompletionServed(config: D.Config, s: Sys, station: StationId, task: TaskId, worker: WorkerId, at: Time)
    requires K.CompleteRefusal(s.k, station, task, worker).None? && CompleteRsp(|s.completions|, true) !in s.responses
    ensures var s' := Run(config, s, CompletionEvents(s, station, task, worker, at)[..3]);
            var k := K.FindTask(s.k.rows, task).value;
            var out := F.CompleteTask(s.f, task, F.CompleteRequest(station, k, at), {});
            && s'.f == out.db && s'.k == s.k
            && s'.completions == s.completions
                 + [Completion(station, task, worker, at, k, if out.error.None? then Accepted else Completing)]
  {
    hide Run, F.CompleteTask, K.CompleteRefusal, AdminStep, OrderStep, WorkerStep, K.DeliverTask, K.FinishComplete,
         K.BeginClaim, K.CompensateClaim, K.ClaimRefusal;
    var events := CompletionEvents(s, station, task, worker, at);
    assert events[..3] == [events[0], events[1], events[2]];
    RunThree(config, s, events[0], events[1], events[2]);
  }

  /** The owner's completion of a started task, once answered, completes the row exactly when the
      task was done already or the completion is not dated before the start. */
  lemma AnsweredCompletion(config: D.Config, s: Sys, station: StationId, task: TaskId, worker: WorkerId, at: Time)
    requires Inv(config, s) && K.CompleteRefusal(s.k, station, task, worker).None?
    requires task in s.f.tasks && s.f.tasks[task].status in {F.InProgress, F.Done}
    ensures var s' := Run(config, s, CompletionEvents(s, station, task, worker, at));
            var k := K.FindTask(s.k.rows, task).value;
            var accepted := s.f.tasks[task].status == F.Done || at >= s.f.tasks[task].startedAt.value;
            && s.f.tasks[task].startedAt.Some? && |s'.k.rows| == |s.k.rows|
            && (s'.k.rows[k].status == K.Completed <==> accepted)
            && (if accepted then DoneTask(s', task) else s'.f == s.f && s'.k == s.k)
  {
    hide ItemsOk, K.Valid, F.ValidDb, PublishersOk, ClaimsOk, LineageOk, MessagesOk, F.CompleteTask, Run,
         F.ReadyOnlyWhenDone, CompletionEvents;
    ShapeOf(s);
    CompleteAnswer(s, task, K.FindTask(s.k.rows, task).value, at);
    NoReplyYet(s, true);
    CompletionServed(config, s, station, task, worker, at);
    LastOfFour(config, s, station, task, worker, at);
  }

  lemma LastOfFour(config: D.Config, s: Sys, station: StationId, task: TaskId, worker: WorkerId, at: Time)
    requires K.CompleteRefusal(s.k, station, task, worker).None?
    ensures var events := CompletionEvents(s, station, task, worker, at);
            && |events| == 4
            && Run(config, s, events) == KitchenStep(Run(config, s, events[..3]), FinishCompletion(|s.completions|))
  {
  }

  // ----- the disagreement that stays -----

  /** Fulfillment recorded a station other than the one whose screen shows the row. */
  ghost predicate Mismatched(s: Sys, t: TaskId) {
    && t in s.f.tasks && s.f.tasks[t].status == F.Displayed
    && s.f.tasks[t].kdsTask.Some? && s.f.tasks[t].kdsTask.value < |s.k.rows|
    && s.f.tasks[t].station != Some(s.k.rows[s.f.tasks[t].kdsTask.value].station)
  }

  lemma MismatchStep(s: Sys, s': Sys, t: TaskId)
    requires Grows(s, s') && ItemsOk(s') && F.ValidDb(s.f) && Mismatched(s, t)
    ensures Mismatched(s', t) && s'.f.tasks[t] == s.f.tasks[t]
  {
    hide ItemsOk;
    assert F.TaskStep(s.f.tasks[t], s'.f.tasks[t]);
    assert F.TaskShape(s.f.tasks[t]);
    TaskFact(s', t);
  }

  lemma {:induction false} MismatchedThroughout(config: D.Config, s: Sys, events: seq<Event>, t: TaskId)
    requires Inv(config, s) && Mismatched(s, t)
    ensures Mismatched(Run(config, s, events), t) && Run(config, s, events).f.tasks[t] == s.f.tasks[t]
  {
    hide Step, ItemsOk, F.ValidDb, K.Valid, PublishersOk, ClaimsOk, LineageOk, MessagesOk, F.ReadyOnlyWhenDone,
         Mismatched, Grows;
    if events != [] {
      var n := |events| - 1;
      var before := Run(config, s, events[..n]);
      MismatchedThroughout(config, s, events[..n], t);
      ContinueKeeps(config, s, events[..n]);
      StepKeeps(config, before, events[n]);
      MismatchStep(before, Step(config, before, events[n]), t);
    }
  }

  /** A displayed task with mismatched stations is displayed for ever: no call of any service,
      in any later interleaving, moves it on. */
  lemma MismatchIsPermanent(config: D.Config, s: Sys, s': Sys, t: TaskId)
    requires Reachable(config, s) && Mismatched(s, t) && Leads(config, s, s')
    ensures Mismatched(s', t) && s'.f.tasks[t] == s.f.tasks[t]
  {
    hide Leads, Inv, Run, Mismatched;
    ReachableOk(config, s);
    var events := LeadsRuns(config, s, s');
    MismatchedThroughout(config, s, events, t);
  }

  /** The dispatcher passes on the station of the row it was answered with. */
  predicate PassesOn(s: Sys, ev: Event) {
    ev.ReceiveDeliver? && ev.deliver.DeliveredAs? && InDelivery(s, ev.entry) && ev.deliver.kdsTask < |s.k.rows| ==>
      s.entries[ev.entry].stage.phase.station == s.k.rows[ev.deliver.kdsTask].station
  }

  predicate InDelivery(s: Sys, e: nat) {
    e < |s.entries| && s.entries[e].stage.Working? && s.entries[e].stage.phase.Deliver?
  }

  predicate Faithful(s: Sys, r: Request) {
    r.MarkReq? && r.shown.Some? ==> r.shown.value < |s.k.rows| && s.k.rows[r.shown.value].station == r.station
  }

  /** Every station told to Fulfillment is the row's own. */
  ghost predicate AllFaithful(s: Sys) {
    && (forall r | r in s.requests :: Faithful(s, r))
    && (forall t | t in s.f.tasks :: !Mismatched(s, t))
  }

  /** A mark-displayed request naming a row comes from a delivery answered with that row. */
  lemma NewMark(config: D.Config, s: Sys, ev: Event, r: Request)
    requires r in Step(config, s, ev).requests && r !in s.requests && r.MarkReq? && r.shown.Some?
    ensures ev.ReceiveDeliver? && ev.deliver == D.DeliveredAs(r.shown.value)
            && DeliverRsp(ev.entry, ev.deliver) in s.responses
    ensures InDelivery(s, ev.entry) && r.station == s.entries[ev.entry].stage.phase.station
    ensures r.task == s.entries[ev.entry].task
  {
    hide AdminStep, OrderStep, FulfillmentStep, K.DeliverTask, K.ClaimRefusal, K.CompleteRefusal, K.CompensateClaim,
         StageOf, D.Dispose, C.RightChoice;
    AdminFrame(s, ev);
    OrderFrame(s, ev);
    FulfillmentFrame(s, ev);
  }

  lemma FaithfulRequests(config: D.Config, s: Sys, ev: Event)
    requires Inv(config, s) && PassesOn(s, ev) && (forall r | r in s.requests :: Faithful(s, r))
    requires K.DbStep(s.k, Step(config, s, ev).k)
    ensures forall r | r in Step(config, s, ev).requests :: Faithful(Step(config, s, ev), r)
  {
    hide Inv, Step;
    InvBase(config, s);
    forall r | r in Step(config, s, ev).requests ensures Faithful(Step(config, s, ev), r) {
      if r !in s.requests && r.MarkReq? && r.shown.Some? {
        NewMark(config, s, ev, r);
        DeliveredRow(s, ev.entry, ev.deliver);
      }
    }
  }

  lemma DeliveredRow(s: Sys, e: nat, answer: D.DeliverAnswer)
    requires Base(s) && DeliverRsp(e, answer) in s.responses
    ensures answer.DeliveredAs? ==> answer.kdsTask < |s.k.rows|
  {
  }

  /** Only serving a mark-displayed request displays a task. */
  lemma NewlyDisplayed(config: D.Config, s: Sys, ev: Event, t: TaskId)
    requires Inv(config, s) && t in Step(config, s, ev).f.tasks && Step(config, s, ev).f.tasks[t].status == F.Displayed
    requires t in s.f.tasks ==> s.f.tasks[t] != Step(config, s, ev).f.tasks[t]
    ensures ev.HandleMark? && ev.request in s.requests && ev.request.MarkReq? && ev.request.shown.Some?
    ensures Step(config, s, ev).f.tasks[t].station == Some(ev.request.station)
    ensures Step(config, s, ev).f.tasks[t].kdsTask == ev.request.shown
    ensures ev.request.task == t && t in s.f.tasks && s.f.tasks[t].status == F.Queued
    ensures Step(config, s, ev).k == s.k
  {
    hide AdminStep, OrderStep, WorkerStep, KitchenStep, PublishersOk, ClaimsOk, ItemsOk, F.ReadyOnlyWhenDone, F.ValidDb,
         K.Valid, F.AllOrderTasksDone, LineageOk, MessagesOk;
    AdminFrame(s, ev);
    WorkerFrame(config, s, ev);
    KitchenFrame(s, ev);
    if IsOrder(ev) { OrdersOnlyQueue(s, ev, t); }
    if ev.HandleMark? && ev.request.MarkReq? && ev.request.shown.Some? {
      F.MarkDisplayedFacts(s.f, ev.request.task,
                           F.MarkDisplayedRequest(ev.request.station, ev.request.shown.value, ev.request.at));
    }
  }

  /** The event serves a mark-displayed request for a queued task that names a station other than the row's. */
  predicate MarksElsewhere(s: Sys, ev: Event, t: TaskId) {
    && ev.HandleMark? && ev.request in s.requests && ev.request.MarkReq? && ev.request.task == t
    && t in s.f.tasks && s.f.tasks[t].status == F.Queued
    && ev.request.shown.Some? && ev.request.shown.value < |s.k.rows|
    && s.k.rows[ev.request.shown.value].station != ev.request.station
  }

  lemma MarkedRow(s: Sys, r: Request)
    requires Base(s) && r in s.requests && r.MarkReq?
    ensures r.shown.Some? ==> r.shown.value < |s.k.rows|
  {
    hide ItemsOk, F.ValidDb, K.Valid;
    RequestFact(s, r);
  }

  lemma MarkedElsewhere(config: D.Config, s: Sys, ev: Event, t: TaskId)
    requires MarksElsewhere(s, ev, t)
    ensures Mismatched(Step(config, s, ev), t)
  {
    hide AdminStep, OrderStep, WorkerStep, KitchenStep;
  }

  lemma MismatchArisesStep(config: D.Config, s: Sys, ev: Event, t: TaskId)
    requires Inv(config, s) && !Mismatched(s, t)
    ensures Mismatched(Step(config, s, ev), t) <==> MarksElsewhere(s, ev, t)
  {
    hide Inv, Step, Base, Grows;
    var s' := Step(config, s, ev);
    InvBase(config, s);
    StepKeeps(config, s, ev);
    if MarksElsewhere(s, ev, t) { MarkedElsewhere(config, s, ev, t); }
    if Mismatched(s', t) {
      if t in s.f.tasks && s.f.tasks[t] == s'.f.tasks[t] {
        MismatchedBefore(s, s', t);
      } else {
        NewlyDisplayed(config, s, ev, t);
        MarkedRow(s, ev.request);
      }
    }
  }

  /** A mismatch arises exactly when a mark-displayed request for a queued task is served that names
      a station other than the one whose screen shows the row. */
  lemma MismatchArisesExactly(config: D.Config, states: seq<Sys>, events: seq<Event>, i: nat, t: TaskId)
    requires Execution(config, states, events) && states[0] == INIT && i < |events| && !Mismatched(states[i], t)
    ensures Mismatched(states[i + 1], t) <==> MarksElsewhere(states[i], events[i], t)
  {
    hide Inv, Step, Mismatched, MarksElsewhere;
    InitOk(config);
    ExecutionKeeps(config, states, events, i);
    assert IsStep(config, states, events, i);
    MismatchArisesStep(config, states[i], events[i], t);
  }

  lemma FaithfulTask(config: D.Config, s: Sys, ev: Event, t: TaskId)
    requires Inv(config, s) && AllFaithful(s)
    ensures !Mismatched(Step(config, s, ev), t)
  {
    hide Inv, Step;
    assert t in s.f.tasks ==> !Mismatched(s, t);
    assert ev.HandleMark? && ev.request in s.requests ==> Faithful(s, ev.request);
    MismatchArisesStep(config, s, ev, t);
  }

  lemma MismatchedBefore(s: Sys, s': Sys, t: TaskId)
    requires Base(s) && Grows(s, s') && Mismatched(s', t) && t in s.f.tasks && s.f.tasks[t] == s'.f.tasks[t]
    ensures Mismatched(s, t)
  {
    hide ItemsOk, F.DbStep, F.ValidDb;
    TaskFact(s, t);
  }

  /** As long as the dispatcher passes on the station of the row, no mismatch ever arises. */
  lemma {:induction false} NoMismatchWhenPassedOn(config: D.Config, states: seq<Sys>, events: seq<Event>, n: nat)
    requires Execution(config, states, events) && states[0] == INIT && n <= |events|
    requires forall i: nat | i < |events| :: PassesOn(states[i], events[i])
    ensures AllFaithful(states[n])
  {
    hide Inv, Step, PassesOn, Faithful, Mismatched;
    InitOk(config);
    if n > 0 {
      NoMismatchWhenPassedOn(config, states, events, n - 1);
      ExecutionKeeps(config, states, events, n - 1);
      assert IsStep(config, states, events, n - 1);
      StepKeeps(config, states[n - 1], events[n - 1]);
      GrowsRows(states[n - 1], states[n]);
      FaithfulRequests(config, states[n - 1], events[n - 1]);
      forall t | t in states[n].f.tasks ensures !Mismatched(states[n], t) {
        if Mismatched(states[n], t) { FaithfulTask(config, states[n - 1], events[n - 1], t); }
      }
    }
  }

  lemma GrowsRows(s: Sys, s': Sys)
    requires Grows(s, s')
    ensures K.DbStep(s.k, s'.k)
  {
  }

  // ----- everything else can be finished -----

  /** The station takes deliveries and has a slot to spare, and nothing else changed. */
  ghost predicate Opened(s: Sys, s': Sys, station: StationId) {
    && s' == s.(k := s'.k, peak := s'.peak) && s'.k.rows == s.k.rows
    && station in s.k.stations && station in s'.k.stations
    && K.SameSite(s.k.stations[station], s'.k.stations[station])
    && s'.k.stations[station].status == K.Available
    && s'.k.stations[station].busySlots < s'.k.stations[station].capacity
  }

  lemma OpenStation(config: D.Config, s: Sys, station: StationId) returns (events: seq<Event>)
    requires station in s.k.stations && s.k.stations[station].busySlots >= 0
    ensures Opened(s, Run(config, s, events), station)
  {
    hide Run;
    var a := ChangeStatus(station, K.Available);
    var b := ChangeCapacity(station, s.k.stations[station].busySlots + 1);
    events := [a] + [b];
    RunConcat(config, s, [a], [b]);
    RunOne(config, s, a);
    RunOne(config, Step(config, s, a), b);
  }

  /** Fulfillment is as it was, and the row is on display again at the same station. */
  ghost predicate BackOnDisplay(s: Sys, s': Sys, k: KdsId) {
    && s'.f == s.f && k < |s.k.rows| == |s'.k.rows|
    && s'.k.rows[k].req == s.k.rows[k].req && s'.k.rows[k].station == s.k.rows[k].station
    && s'.k.rows[k].status == K.Displayed
  }

  /** Withdrawing the claim of a claimed row puts the row back on display. */
  lemma Withdraw(config: D.Config, s: Sys, c: nat)
    requires Inv(config, s) && c < |s.claims| && s.claims[c].phase == StartFailed
    requires s.claims[c].row < |s.k.rows| && s.k.rows[s.claims[c].row].status == K.Claimed
    ensures BackOnDisplay(s, Step(config, s, Compensate(c)), s.claims[c].row)
  {
    hide ItemsOk, K.Valid, F.ValidDb, PublishersOk, ClaimsOk, LineageOk, MessagesOk, F.ReadyOnlyWhenDone,
         K.CompensateClaim, AdminStep, OrderStep, WorkerStep, FulfillmentStep;
    ClaimFact(s, c);
    ShapeOf(s);
    CompensationReleasesItsOwn(s, c);
  }

  /** A claim that never got its start through is withdrawn, and its row shown again. */
  lemma ReleaseRow(config: D.Config, s: Sys, k: KdsId) returns (events: seq<Event>)
    requires Inv(config, s) && k < |s.k.rows| && s.k.rows[k].status == K.Claimed
    requires var t := s.k.rows[k].req.task; t in s.f.tasks && s.f.tasks[t].status == F.Displayed
    ensures BackOnDisplay(s, Run(config, s, events), k)
  {
    hide Inv, Run, KitchenStep, BackOnDisplay;
    var c := OpenClaim(config, s, k);
    var undo := Compensate(c);
    if s.claims[c].phase == Starting {
      var lose := LoseStart(c);
      var s1 := Step(config, s, lose);
      LostStart(config, s, c);
      StepKeeps(config, s, lose);
      Withdraw(config, s1, c);
      BackOnDisplayAfter(s, s1, Step(config, s1, undo), k);
      events := [lose] + [undo];
      RunConcat(config, s, [lose], [undo]);
      RunOne(config, s, lose);
      RunOne(config, s1, undo);
    } else {
      events := [undo];
      Withdraw(config, s, c);
      RunOne(config, s, undo);
    }
  }

  /** The claim behind a claimed row whose task has not been started. */
  lemma OpenClaim(config: D.Config, s: Sys, k: KdsId) returns (c: nat)
    requires Inv(config, s) && k < |s.k.rows| && s.k.rows[k].status == K.Claimed
    requires var t := s.k.rows[k].req.task; t in s.f.tasks && s.f.tasks[t].status == F.Displayed
    ensures c < |s.claims| && s.claims[c].row == k && s.claims[c].phase in {Starting, StartFailed}
  {
    hide ItemsOk, K.Valid, F.ValidDb, PublishersOk, Holds, LineageOk, MessagesOk, F.ReadyOnlyWhenDone;
    c :| Owns(s.claims, c, k);
    ClaimFact(s, c);
  }

  lemma LostStart(config: D.Config, s: Sys, c: nat)
    requires c < |s.claims| && s.claims[c].phase == Starting
    ensures Step(config, s, LoseStart(c)) == s.(claims := s.claims[c := s.claims[c].(phase := StartFailed)])
  {
  }

  lemma BackOnDisplayAfter(s: Sys, s1: Sys, s': Sys, k: KdsId)
    requires s1.f == s.f && s1.k == s.k && BackOnDisplay(s1, s', k)
    ensures BackOnDisplay(s, s', k)
  {
  }

  lemma StationOfRow(s: Sys, k: KdsId)
    requires Base(s) && k < |s.k.rows|
    ensures var st := s.k.rows[k].station; st in s.k.stations && s.k.stations[st].busySlots >= 0
    ensures K.FindTask(s.k.rows, s.k.rows[k].req.task) == Some(k)
  {
    hide ItemsOk, F.ValidDb, F.ReadyOnlyWhenDone;
    assert K.RowOk(s.k.stations, s.k.rows[k]);
    K.FoundIsTheRow(s.k, k);
  }

  /** A claimed row of a started task can be completed by its owner. */
  lemma FinishClaimed(config: D.Config, s: Sys, k: KdsId) returns (events: seq<Event>)
    requires Inv(config, s) && k < |s.k.rows| && s.k.rows[k].status == K.Claimed
    requires s.k.rows[k].claimedBy.Some?
    requires var t := s.k.rows[k].req.task;
             t in s.f.tasks && s.f.tasks[t].status == F.InProgress && s.f.tasks[t].startedAt.Some?
    ensures DoneTask(Run(config, s, events), s.k.rows[k].req.task)
  {
    hide Inv, Run, DoneTask;
    var row := s.k.rows[k];
    InvBase(config, s);
    StationOfRow(s, k);
    var worker, at := row.claimedBy.value, s.f.tasks[row.req.task].startedAt.value;
    events := CompletionEvents(s, row.station, row.req.task, worker, at);
    AnsweredCompletion(config, s, row.station, row.req.task, worker, at);
  }

  /** The station of a displayed row can be made ready to take it. */
  lemma OpenForClaim(config: D.Config, s: Sys, k: KdsId) returns (open: seq<Event>)
    requires Inv(config, s) && k < |s.k.rows| && s.k.rows[k].status == K.Displayed
    ensures var s' := Run(config, s, open); var row := s.k.rows[k];
            && Inv(config, s') && Opened(s, s', row.station)
            && K.ClaimRefusal(s'.k, row.station, row.req.task).None?
            && K.FindTask(s'.k.rows, row.req.task) == Some(k)
  {
    hide Inv, Run, ItemsOk, F.ValidDb, K.RowShape, F.ReadyOnlyWhenDone;
    InvBase(config, s);
    StationOfRow(s, k);
    open := OpenStation(config, s, s.k.rows[k].station);
    ContinueKeeps(config, s, open);
  }

  /** A claim that is answered, made by a station that is ready and matches, starts the task. */
  lemma ClaimOpened(config: D.Config, s: Sys, k: KdsId) returns (claim: seq<Event>)
    requires Inv(config, s) && k < |s.k.rows|
    requires var row := s.k.rows[k];
             && K.FindTask(s.k.rows, row.req.task) == Some(k)
             && K.ClaimRefusal(s.k, row.station, row.req.task).None?
             && row.req.task in s.f.tasks && s.f.tasks[row.req.task].status in {F.Displayed, F.InProgress}
             && s.f.tasks[row.req.task].station == Some(row.station)
    ensures Underway(Run(config, s, claim), k, s.k.rows[k].req.task)
  {
    hide Inv, Run, ClaimEvents;
    var row := s.k.rows[k];
    claim := ClaimEvents(s, row.station, row.req.task, "worker", 0);
    AnsweredClaim(config, s, row.station, row.req.task, "worker", 0);
  }

  /** A displayed row with matching stations can be claimed, and its task started. */
  lemma ClaimDisplayed(config: D.Config, s: Sys, k: KdsId) returns (events: seq<Event>)
    requires Inv(config, s) && k < |s.k.rows| && s.k.rows[k].status == K.Displayed
    requires var t := s.k.rows[k].req.task;
             && t in s.f.tasks && s.f.tasks[t].status in {F.Displayed, F.InProgress}
             && s.f.tasks[t].station == Some(s.k.rows[k].station)
    ensures Underway(Run(config, s, events), k, s.k.rows[k].req.task)
  {
    hide Inv, Run, Underway, K.ClaimRefusal, K.FindTask;
    var open := OpenForClaim(config, s, k);
    var claim := ClaimOpened(config, Run(config, s, open), k);
    RunConcat(config, s, open, claim);
    events := open + claim;
  }

  /** The row is claimed and its task in preparation. */
  predicate Underway(s: Sys, k: KdsId, t: TaskId) {
    && k < |s.k.rows| && s.k.rows[k].req.task == t && s.k.rows[k].status == K.Claimed && s.k.rows[k].claimedBy.Some?
    && t in s.f.tasks && s.f.tasks[t].status == F.InProgress
  }

  /** A displayed row with matching stations can be claimed and then completed. */
  lemma FinishDisplayed(config: D.Config, s: Sys, k: KdsId) returns (events: seq<Event>)
    requires Inv(config, s) && k < |s.k.rows| && s.k.rows[k].status == K.Displayed
    requires var t := s.k.rows[k].req.task;
             && t in s.f.tasks && s.f.tasks[t].status in {F.Displayed, F.InProgress}
             && s.f.tasks[t].station == Some(s.k.rows[k].station)
    ensures DoneTask(Run(config, s, events), s.k.rows[k].req.task)
  {
    hide Inv, Run, DoneTask;
    var claim := ClaimDisplayed(config, s, k);
    ContinueKeeps(config, s, claim);
    var s1 := Run(config, s, claim);
    InvBase(config, s1);
    StartedHasTime(s1, s.k.rows[k].req.task);
    var finish := FinishClaimed(config, s1, k);
    RunConcat(config, s, claim, finish);
    events := claim + finish;
  }

  lemma StartedHasTime(s: Sys, t: TaskId)
    requires Base(s) && t in s.f.tasks && s.f.tasks[t].status == F.InProgress
    ensures s.f.tasks[t].startedAt.Some?
  {
  }

  /** What a displayed or started task looks like on both sides. */
  lemma PlacedRow(config: D.Config, s: Sys, t: TaskId) returns (k: KdsId)
    requires Inv(config, s) && t in s.f.tasks && s.f.tasks[t].status in {F.Displayed, F.InProgress}
    ensures s.f.tasks[t].kdsTask == Some(k) && IsRowOf(s, k, t)
    ensures s.k.rows[k].status in {K.Displayed, K.Claimed}
    ensures s.k.rows[k].status == K.Claimed ==> s.k.rows[k].claimedBy.Some?
    ensures s.f.tasks[t].status == F.InProgress ==>
              s.f.tasks[t].station == Some(s.k.rows[k].station) && s.f.tasks[t].startedAt.Some?
  {
    hide ItemsOk, ClaimsOk, LineageOk, PublishersOk, MessagesOk, Cleared;
    TaskFact(s, t);
    k := s.f.tasks[t].kdsTask.value;
    RowFact(s, k);
    assert K.RowOk(s.k.stations, s.k.rows[k]);
    assert F.TaskShape(s.f.tasks[t]);
  }

  /** From every reachable state a displayed or started task can still be finished exactly when
      its stations agree: no lost reply, late call or half-done handler wedges it. */
  lemma CanBeFinished(config: D.Config, s: Sys, t: TaskId)
    requires Reachable(config, s) && t in s.f.tasks && s.f.tasks[t].status in {F.Displayed, F.InProgress}
    ensures s.f.tasks[t].kdsTask.Some? && s.f.tasks[t].kdsTask.value < |s.k.rows|
    ensures (exists s' :: Leads(config, s, s') && DoneTask(s', t))
            <==> s.f.tasks[t].station == Some(s.k.rows[s.f.tasks[t].kdsTask.value].station)
  {
    hide Inv, Run, Leads;
    ReachableOk(config, s);
    var k := PlacedRow(config, s, t);
    if s.f.tasks[t].station == Some(s.k.rows[k].station) {
      var events := Finish(config, s, t, k);
      RunLeads(config, s, events);
    } else {
      forall s' | Leads(config, s, s') ensures !DoneTask(s', t) { MismatchIsPermanent(config, s, s', t); }
    }
  }

  lemma Finish(config: D.Config, s: Sys, t: TaskId, k: KdsId) returns (events: seq<Event>)
    requires Inv(config, s) && IsRowOf(s, k, t)
    requires t in s.f.tasks && s.f.tasks[t].status in {F.Displayed, F.InProgress}
    requires s.f.tasks[t].station == Some(s.k.rows[k].station)
    requires s.k.rows[k].status in {K.Displayed, K.Claimed}
    requires s.k.rows[k].status == K.Claimed ==> s.k.rows[k].claimedBy.Some?
    requires s.f.tasks[t].status == F.InProgress ==> s.f.tasks[t].startedAt.Some?
    ensures DoneTask(Run(config, s, events), t)
  {
    hide Inv, Run, DoneTask;
    if s.k.rows[k].status == K.Displayed {
      events := FinishDisplayed(config, s, k);
    } else if s.f.tasks[t].status == F.InProgress {
      events := FinishClaimed(config, s, k);
    } else {
      var release := ReleaseRow(config, s, k);
      ContinueKeeps(config, s, release);
      var finish := FinishDisplayed(config, Run(config, s, release), k);
      RunConcat(config, s, release, finish);
      events := release + finish;
    }
  }
}
