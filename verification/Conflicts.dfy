/** A refused delivery taken for success is caught at the next call: it never counts as dispatched. */
module Conflicts {
  import opened Common
  import opened Protocol
  import opened Invariant
  import opened ServiceSteps
  import opened Executions
  import F = Fulfillment
  import K = Kds
  import D = Dispatcher
  import C = Candidates

  /** The request belongs to the worker's own attempt to mark the task. */
  predicate AskedBy(entries: seq<Entry>, r: Request) {
    r.MarkReq? ==>
      && r.entry < |entries| && entries[r.entry].stage != Queued
      && (entries[r.entry].stage.Working? ==> entries[r.entry].stage.phase == D.Mark(r.station, r.shown))
  }

  /** Fulfillment accepts, or answers with a conflict, only when the request names a row. */
  ghost predicate Answered(requests: set<Request>, x: Response) {
    x.MarkRsp? && x.mark != D.MarkFailed ==>
      exists r :: r in requests && r.MarkReq? && r.entry == x.entry && r.shown.Some?
  }

  ghost predicate MarksOk(s: Sys) {
    && (forall r | r in s.requests :: AskedBy(s.entries, r))
    && (forall x | x in s.responses :: Answered(s.requests, x))
  }

  lemma FulfillmentKeepsMarks(s: Sys, ev: Event)
    requires MarksOk(s)
    ensures MarksOk(FulfillmentStep(s, ev))
  {
  }

  lemma KitchenKeepsMarks(s: Sys, ev: Event)
    requires MarksOk(s)
    ensures MarksOk(KitchenStep(s, ev))
  {
  }

  lemma ProceedKeepsMarks(config: D.Config, s: Sys, e: nat, phase: D.Phase, at: Time)
    requires MarksOk(s) && e < |s.entries| && (s.entries[e].stage == Queued || s.entries[e].stage.Working?)
    requires s.entries[e].stage.Working? ==> D.Remaining(phase) < D.Remaining(s.entries[e].stage.phase)
    requires s.entries[e].stage == Queued ==> !phase.Mark?
    ensures MarksOk(Proceed(config, s, e, phase, at))
  {
  }

  lemma WorkerKeepsMarks(config: D.Config, s: Sys, ev: Event)
    requires MarksOk(s)
    ensures MarksOk(WorkerStep(config, s, ev))
  {
    hide MarksOk, Proceed, C.RightChoice, SnapshotOf, ReadinessOf;
    if WorkerStep(config, s, ev) != s {
      match ev
      case Read(e) => ProceedKeepsMarks(config, s, e, D.AskSnapshot, 0);
      case AnswerSnapshot(e, answered) =>
        var a := if answered then SnapshotOf(s.f, s.entries[e].task) else D.SnapshotFailed;
        ProceedKeepsMarks(config, s, e, D.AfterSnapshot(a), 0);
      case AnswerReadiness(e, answered) =>
        var a := if answered then ReadinessOf(s.f, s.entries[e].task) else D.ReadinessFailed;
        ProceedKeepsMarks(config, s, e, D.AfterReadiness(a), 0);
      case AnswerCandidates(e, answered, choice) =>
        ProceedKeepsMarks(config, s, e, if answered then D.AfterCandidates(choice)
                                        else D.Conclude(D.NotNow(D.KitchenServiceUnavailable)), 0);
      case ReceiveDeliver(e, answer, at) =>
        ProceedKeepsMarks(config, s, e, D.AfterDeliver(s.entries[e].stage.phase.station, answer), at);
      case ReceiveMark(e, answer) => ProceedKeepsMarks(config, s, e, D.AfterMark(answer), 0);
      case Wake(e) => WakeKeepsMarks(config, s, e);
      case _ =>
    }
  }

  lemma WakeKeepsMarks(config: D.Config, s: Sys, e: nat)
    requires MarksOk(s)
    ensures MarksOk(WorkerStep(config, s, Wake(e)))
  {
  }

  lemma OrderKeepsMarks(s: Sys, ev: Event)
    requires MarksOk(s)
    ensures MarksOk(OrderStep(s, ev))
  {
  }

  lemma {:induction false} RunKeepsMarks(config: D.Config, events: seq<Event>)
    ensures MarksOk(Run(config, INIT, events))
  {
    hide MarksOk, AdminStep, OrderStep, WorkerStep, FulfillmentStep, KitchenStep;
    if events == [] {
      NoMarks();
    } else {
      var n := |events| - 1;
      var s := Run(config, INIT, events[..n]);
      RunKeepsMarks(config, events[..n]);
      AdminKeepsMarks(s, events[n]);
      OrderKeepsMarks(s, events[n]);
      WorkerKeepsMarks(config, s, events[n]);
      FulfillmentKeepsMarks(s, events[n]);
      KitchenKeepsMarks(s, events[n]);
    }
  }

  lemma NoMarks()
    ensures MarksOk(INIT)
  {
  }

  lemma AdminKeepsMarks(s: Sys, ev: Event)
    requires MarksOk(s)
    ensures MarksOk(AdminStep(s, ev))
  {
  }

  /** A worker whose delivery was refused with a conflict sends an empty row identifier; whatever
      the network does, the only reply it can get is a failure, and its message is retried or
      dead-lettered, never acknowledged as dispatched. */
  lemma ConflictIsNeverDispatched(config: D.Config, s: Sys, e: nat, answer: D.MarkAnswer)
    requires Reachable(config, s)
    requires e < |s.entries| && s.entries[e].stage.Working? && s.entries[e].stage.phase.Mark?
    requires s.entries[e].stage.phase.kdsTask == None
    ensures MarkRsp(e, answer) in s.responses ==> D.AfterMark(answer) == D.Conclude(D.NotNow(D.MarkDisplayedFailed))
  {
    hide Leads, Run, MarksOk;
    var events := LeadsRuns(config, INIT, s);
    RunKeepsMarks(config, events);
    if MarkRsp(e, answer) in s.responses { OnlyFailure(s, e, answer); }
  }

  lemma OnlyFailure(s: Sys, e: nat, answer: D.MarkAnswer)
    requires MarksOk(s) && e < |s.entries| && s.entries[e].stage.Working? && s.entries[e].stage.phase.Mark?
    requires s.entries[e].stage.phase.kdsTask == None && MarkRsp(e, answer) in s.responses
    ensures answer == D.MarkFailed
  {
  }

  // ----- how the two services answer a worker -----

  /** Which refusals the worker sees as a conflict: all but an unknown station. */
  lemma RefusedAs(db: K.Db, station: StationId, req: K.Delivery)
    ensures var refusal := K.DeliveryRefusal(db, station, req);
            refusal.Some? ==>
              AnswerOf(K.Refused(refusal.value))
                == if station in db.stations then D.DeliverConflict else D.DeliverFailed
  {
    hide K.Count;
  }

  lemma DeliveryAnswer(s: Sys, r: Request) returns (answer: D.DeliverAnswer)
    requires Base(s) && r in s.missed && r.DeliverReq?
    ensures KitchenStep(s, InsertDelivery(r)).responses == s.responses + {DeliverRsp(r.entry, answer)}
    ensures var refusal := K.DeliveryRefusal(s.k, r.station, r.delivery);
            && (refusal.Some? ==> answer == AnswerOf(K.Refused(refusal.value)))
            && (refusal.None? ==>
                  answer.DeliveredAs? && IsRowOf(KitchenStep(s, InsertDelivery(r)), answer.kdsTask, r.delivery.task))
  {
    hide F.ValidDb, F.ReadyOnlyWhenDone, ItemsOk, K.RowShape, K.SlotsConserved, K.WithinPeak, K.DbStep,
         K.KeepsLimits, K.DeliveryRefusal, K.DeliverTask, K.ShowsRow;
    MissedFact(s);
    DeliveryFact(s, r);
    K.DeliverFacts(s.k, s.peak, r.station, r.delivery);
    answer := AnswerOf(K.DeliverTask(s.k, r.station, r.delivery).reply);
  }

  /** A delivery that reaches the insertion is answered with a row exactly when the station is open to the
      task and has a place left, with a failure when there is no such station, and else with a conflict. */
  lemma DeliveryAnsweredExactly(config: D.Config, s: Sys, r: Request) returns (answer: D.DeliverAnswer)
    requires Reachable(config, s) && r in s.missed && r.DeliverReq?
    ensures KitchenStep(s, InsertDelivery(r)).responses == s.responses + {DeliverRsp(r.entry, answer)}
    ensures answer == D.DeliverFailed <==> r.station !in s.k.stations
    ensures answer.DeliveredAs? <==>
              && r.station in s.k.stations && K.OpenTo(s.k.stations[r.station], r.delivery)
              && K.Count(s.k.rows, r.station, K.Displayed) < s.k.stations[r.station].visibleBacklogLimit
    ensures answer.DeliveredAs? ==> IsRowOf(KitchenStep(s, InsertDelivery(r)), answer.kdsTask, r.delivery.task)
  {
    hide Leads, Inv, Base, KitchenStep, K.DeliveryRefusal, K.Count, AnswerOf;
    ReachableOk(config, s);
    InvBase(config, s);
    RefusedAs(s.k, r.station, r.delivery);
    K.DeliveryAccepts(s.k, r.station, r.delivery);
    answer := DeliveryAnswer(s, r);
  }

  lemma KnownTask(s: Sys, r: Request)
    requires Base(s) && r in s.requests && r.MarkReq?
    ensures r.task in s.f.tasks && s.f.tasks[r.task].status != F.Retrying
  {
    hide ItemsOk, F.ReadyOnlyWhenDone, K.Valid;
    RequestFact(s, r);
    assert F.TaskShape(s.f.tasks[r.task]);
  }

  /** A mark-displayed request without a row fails; one with a row is accepted exactly when the task is
      queued or was displayed at the same place already, and is answered with a conflict otherwise. */
  lemma MarkAnsweredExactly(config: D.Config, s: Sys, r: Request) returns (answer: D.MarkAnswer)
    requires Reachable(config, s) && r in s.requests && r.MarkReq?
    ensures r.task in s.f.tasks
    ensures FulfillmentStep(s, HandleMark(r)).responses == s.responses + {MarkRsp(r.entry, answer)}
    ensures answer == D.MarkFailed <==> r.shown.None?
    ensures answer == D.Marked <==>
              && r.shown.Some?
              && (s.f.tasks[r.task].status == F.Queued
                  || (s.f.tasks[r.task].status == F.Displayed
                      && s.f.tasks[r.task].station == Some(r.station) && s.f.tasks[r.task].kdsTask == r.shown))
  {
    hide Leads, Inv, Base, F.MarkDisplayed;
    ReachableOk(config, s);
    InvBase(config, s);
    KnownTask(s, r);
    answer := D.MarkFailed;
    if r.shown.Some? {
      var req := F.MarkDisplayedRequest(r.station, r.shown.value, r.at);
      F.MarkDisplayedAccepts(s.f, r.task, req);
      answer := MarkAnswerOf(F.MarkDisplayed(s.f, r.task, req).error);
    }
  }
}
