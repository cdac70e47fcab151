/** One message's way through the dispatcher, event by event, when its calls are answered. */
module Dispatching {
  import opened Common
  import opened Protocol
  import opened Invariant
  import opened ServiceSteps
  import opened Executions
  import opened Recovery
  import opened Provenance
  import F = Fulfillment
  import K = Kds
  import D = Dispatcher
  import C = Candidates

  lemma RunFour(config: D.Config, s: Sys, a: Event, b: Event, c: Event, d: Event)
    ensures Run(config, s, [a, b, c, d]) == Step(config, Step(config, Step(config, Step(config, s, a), b), c), d)
  {
    hide Step;
    assert [a, b, c, d] == [a, b, c] + [d];
    RunConcat(config, s, [a, b, c], [d]);
    RunThree(config, s, a, b, c);
    RunOne(config, Step(config, Step(config, Step(config, s, a), b), c), d);
  }

  function ChooseEvents(e: nat, station: StationId): seq<Event> {
    [Read(e), AnswerSnapshot(e, true), AnswerReadiness(e, true), AnswerCandidates(e, true, Some(station))]
  }

  /** The message of a queued task whose dependencies are done goes to the best station. */
  predicate Sendable(s: Sys, e: nat) {
    && e < |s.entries| && s.entries[e].stage == Queued
    && s.entries[e].task in s.f.tasks && s.f.tasks[s.entries[e].task].status == F.Queued
    && F.UnfinishedDependencies(s.f, s.entries[e].task) == {}
  }

  lemma ChoosesStation(config: D.Config, s: Sys, e: nat, station: StationId)
    requires Sendable(s, e) && C.RightChoice(s.k, DeliveryOf(s.entries[e]), Some(station))
    ensures Run(config, s, ChooseEvents(e, station))
            == s.(entries := s.entries[e := s.entries[e].(stage := Working(D.Deliver(station)))],
                  requests := s.requests + {DeliverReq(e, station, DeliveryOf(s.entries[e]))})
  {
    hide Run, F.UnfinishedDependencies, C.RightChoice, AdminStep, OrderStep, FulfillmentStep, KitchenStep, D.Dispose;
    RunFour(config, s, Read(e), AnswerSnapshot(e, true), AnswerReadiness(e, true),
            AnswerCandidates(e, true, Some(station)));
    var s1 := Step(config, s, Read(e));
    assert s1 == s.(entries := s.entries[e := s.entries[e].(stage := Working(D.AskSnapshot))]);
    var s2 := Step(config, s1, AnswerSnapshot(e, true));
    assert s2 == s.(entries := s.entries[e := s.entries[e].(stage := Working(D.AskReadiness))]);
    var s3 := Step(config, s2, AnswerReadiness(e, true));
    assert s3 == s.(entries := s.entries[e := s.entries[e].(stage := Working(D.AskCandidates))]);
    assert DeliveryOf(s3.entries[e]) == DeliveryOf(s.entries[e]);
  }

  function DeliverEvents(r: Request): seq<Event> { [LookupDelivery(r), InsertDelivery(r)] }

  lemma RunTwo(config: D.Config, s: Sys, a: Event, b: Event)
    ensures Run(config, s, [a, b]) == Step(config, Step(config, s, a), b)
  {
    hide Step;
    assert [a, b] == [a] + [b];
    RunConcat(config, s, [a], [b]);
    RunOne(config, s, a);
    RunOne(config, Step(config, s, a), b);
  }

  /** A first delivery to a station that accepts it puts one row on its screen. */
  lemma DeliversRow(config: D.Config, s: Sys, r: Request)
    requires K.RowShape(s.k) && r in s.requests && r.DeliverReq?
    requires r.delivery.key == Idempotency.KDSIdempotencyKey(r.delivery.task)
    requires K.FindTask(s.k.rows, r.delivery.task).None? && K.DeliveryRefusal(s.k, r.station, r.delivery).None?
    ensures Run(config, s, DeliverEvents(r))
            == s.(k := s.k.(rows := s.k.rows + [K.NewRow(r.station, r.delivery)]), missed := s.missed + {r},
                  responses := s.responses + {DeliverRsp(r.entry, D.DeliveredAs(|s.k.rows|))})
  {
    hide Run, K.DeliveryRefusal, K.RowShape, AdminStep, OrderStep, FulfillmentStep, WorkerStep;
    K.SameLookup(s.k, r.delivery.task);
    RunTwo(config, s, LookupDelivery(r), InsertDelivery(r));
  }

  function MarkEvents(e: nat, t: TaskId, station: StationId, k: KdsId, at: Time): seq<Event> {
    [ReceiveDeliver(e, D.DeliveredAs(k), at), HandleMark(MarkReq(e, t, station, Some(k), at))]
  }

  /** The reply to the delivery is passed on to Fulfillment, with the station chosen this time. */
  lemma MarksTask(config: D.Config, s: Sys, e: nat, station: StationId, k: KdsId, at: Time)
    requires e < |s.entries| && s.entries[e].stage == Working(D.Deliver(station))
    requires DeliverRsp(e, D.DeliveredAs(k)) in s.responses
    requires s.entries[e].task in s.f.tasks && s.f.tasks[s.entries[e].task].status == F.Queued
    ensures var t := s.entries[e].task;
            var s' := Run(config, s, MarkEvents(e, t, station, k, at));
            && s' == s.(f := s'.f, entries := s'.entries, requests := s'.requests, responses := s'.responses)
            && s'.f == F.SetTask(s.f, t, F.DisplayedTask(s.f.tasks[t], F.MarkDisplayedRequest(station, k, at)))
            && s'.entries == s.entries[e := s.entries[e].(stage := Working(D.Mark(station, Some(k))))]
  {
    hide Run, AdminStep, OrderStep, KitchenStep, D.Dispose;
    var t := s.entries[e].task;
    RunTwo(config, s, ReceiveDeliver(e, D.DeliveredAs(k), at), HandleMark(MarkReq(e, t, station, Some(k), at)));
  }

  /** What a complete, undisturbed handling of one message changes. */
  ghost predicate Displays(s: Sys, s': Sys, e: nat, station: StationId, at: Time)
    requires Sendable(s, e) && |s.entries| > e
  {
    var t := s.entries[e].task;
    && s'.f == F.SetTask(s.f, t, F.DisplayedTask(s.f.tasks[t], F.MarkDisplayedRequest(station, |s.k.rows|, at)))
    && s'.k == s.k.(rows := s.k.rows + [K.NewRow(station, DeliveryOf(s.entries[e]))])
    && s'.claims == s.claims && s'.completions == s.completions && s'.publishers == s.publishers
    && |s'.entries| == |s.entries| && (forall i | 0 <= i < |s.entries| && i != e :: s'.entries[i] == s.entries[i])
  }

  lemma DispatchRuns(config: D.Config, s: Sys, e: nat, station: StationId, at: Time) returns (s': Sys)
    requires Inv(config, s) && Sendable(s, e) && C.RightChoice(s.k, DeliveryOf(s.entries[e]), Some(station))
    requires K.FindTask(s.k.rows, s.entries[e].task).None?
    ensures Leads(config, s, s') && Displays(s, s', e, station, at)
  {
    hide Run, Leads, Base, OrderSteps.PublishersOk, Claims.ClaimsOk, Lineage.LineageOk, OrderSteps.MessagesOk,
         K.DeliveryRefusal, F.UnfinishedDependencies, K.RowShape, ChooseEvents, DeliverEvents, MarkEvents;
    ShapeOf(s);
    var t := s.entries[e].task;
    var r := DeliverReq(e, station, DeliveryOf(s.entries[e]));
    RunLeads(config, s, ChooseEvents(e, station));
    ChoosesStation(config, s, e, station);
    var s1 := Run(config, s, ChooseEvents(e, station));
    LeadsTransitively(config, s, s1, DeliverEvents(r));
    DeliversRow(config, s1, r);
    var s2 := Run(config, s1, DeliverEvents(r));
    LeadsTransitively(config, s, s2, MarkEvents(e, t, station, |s.k.rows|, at));
    MarksTask(config, s2, e, station, |s.k.rows|, at);
    s' := Run(config, s2, MarkEvents(e, t, station, |s.k.rows|, at));
  }

  /** From any reachable state in which a task is ready, some station accepts it and its message is
      waiting, there is a run that displays it on the best station, with both services in agreement. */
  lemma DispatchesTask(config: D.Config, s: Sys, e: nat, station: StationId, at: Time)
    requires Reachable(config, s) && Sendable(s, e)
    requires C.RightChoice(s.k, DeliveryOf(s.entries[e]), Some(station))
    requires K.FindTask(s.k.rows, s.entries[e].task).None?
    ensures exists s' ::
              && Leads(config, s, s') && Displays(s, s', e, station, at)
              && PutsOnScreen(s, s', s.entries[e].task, station, at)
  {
    hide Leads, Inv, Displays, C.RightChoice, Sendable, PutsOnScreen, AllDescribed;
    ReachableOk(config, s);
    var s' := DispatchRuns(config, s, e, station, at);
    CarriedFaithfully(config, s);
    InvBase(config, s);
    DisplaysAsOrdered(s, s', e, station, at);
  }

  /** The task is displayed by a new row at that station, which describes it and is of its kitchen and type. */
  ghost predicate PutsOnScreen(s: Sys, s': Sys, t: TaskId, station: StationId, at: Time) {
    var k := |s.k.rows|;
    && t in s'.f.tasks && s'.f.tasks[t].status == F.Displayed && s'.f.tasks[t].station == Some(station)
    && s'.f.tasks[t].kdsTask == Some(k) && s'.f.tasks[t].displayedAt == Some(at)
    && |s'.k.rows| == k + 1 && s'.k.rows[..k] == s.k.rows
    && s'.k.rows[k].status == K.Displayed && s'.k.rows[k].station == station
    && s'.k.rows[k].req.task == t && Describes(s'.f, s'.k.rows[k].req) && AtHome(s', s'.k.rows[k])
  }

  lemma DisplaysAsOrdered(s: Sys, s': Sys, e: nat, station: StationId, at: Time)
    requires AllDescribed(s) && Sendable(s, e) && Displays(s, s', e, station, at)
    requires C.RightChoice(s.k, DeliveryOf(s.entries[e]), Some(station))
    ensures PutsOnScreen(s, s', s.entries[e].task, station, at)
  {
    hide K.Count;
    assert s.entries[e] in s.entries && EntryDescribes(s.f, s.entries[e]);
    K.DeliveryAccepts(s.k, station, DeliveryOf(s.entries[e]));
  }
}
