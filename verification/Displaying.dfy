/** When a queued task that waits for nothing can still be displayed: exactly when it is not stranded. */
module Displaying {
  import opened Common
  import opened Idempotency
  import opened Protocol
  import opened Invariant
  import opened ServiceSteps
  import opened Executions
  import opened Retries
  import opened Recovery
  import opened Stranding
  import F = Fulfillment
  import K = Kds
  import D = Dispatcher
  import C = Candidates
  import S = StationSelector

  // ----- what a worker waits for has been asked -----

  /** The station may take the task once it is open and has room. */
  predicate Serviceable(k: K.Db, station: StationId, req: K.Delivery) {
    && station in k.stations && k.stations[station].visibleBacklogLimit >= 1
    && k.stations[station].kitchen == req.kitchen && k.stations[station].stationType == req.stationType
  }

  /** A worker waits for the answer to a request it has sent, to a station that may take the task. */
  ghost predicate Sent(s: Sys, e: nat)
    requires e < |s.entries|
  {
    var entry := s.entries[e];
    entry.stage.Working? ==>
      match entry.stage.phase
      case Deliver(station) =>
        DeliverReq(e, station, DeliveryOf(entry)) in s.requests && Serviceable(s.k, station, DeliveryOf(entry))
      case Mark(station, Some(k)) => exists at :: MarkReq(e, entry.task, station, Some(k), at) in s.requests
      case Conclude(_) => false
      case _ => true
  }

  ghost predicate AllSent(s: Sys) { forall e: nat | e < |s.entries| :: Sent(s, e) }

  lemma SentStays(s: Sys, s': Sys, e: nat)
    requires e < |s.entries| <= |s'.entries| && s'.entries[e] == s.entries[e] && Sent(s, e)
    requires s.requests <= s'.requests && K.DbStep(s.k, s'.k)
    ensures Sent(s', e)
  {
  }

  lemma SentNow(config: D.Config, s: Sys, ev: Event)
    requires WorkerStep(config, s, ev) != s && ev.entry < |s.entries|
    ensures ev.entry < |WorkerStep(config, s, ev).entries| && Sent(WorkerStep(config, s, ev), ev.entry)
  {
    hide D.Dispose;
  }

  lemma SentStep(config: D.Config, s: Sys, ev: Event)
    requires Inv(config, s) && AllSent(s)
    ensures AllSent(Step(config, s, ev))
  {
    hide Inv, Sent, AdminStep, OrderStep, WorkerStep, FulfillmentStep, KitchenStep, K.DbStep;
    var s' := Step(config, s, ev);
    StepKeeps(config, s, ev);
    forall e: nat | e < |s'.entries| ensures Sent(s', e) {
      EntryAfter(config, s, ev, e);
      if e >= |s.entries| {
        QueuedSent(s', e);
      } else if s'.entries[e] == s.entries[e] {
        SentStays(s, s', e);
      } else {
        SentNow(config, s, ev);
      }
    }
  }

  lemma QueuedSent(s: Sys, e: nat)
    requires e < |s.entries| && s.entries[e].stage == Queued
    ensures Sent(s, e)
  {
  }

  lemma {:induction false} SentThroughout(config: D.Config, events: seq<Event>)
    ensures AllSent(Run(config, INIT, events))
  {
    hide Inv, Step, Sent;
    if events != [] {
      var n := |events| - 1;
      SentThroughout(config, events[..n]);
      RunKeeps(config, events[..n]);
      SentStep(config, Run(config, INIT, events[..n]), events[n]);
    }
  }

  // ----- making a station accept the task -----

  lemma SomeCounted(rows: seq<K.Row>, station: StationId, status: K.RowStatus) returns (k: KdsId)
    requires K.Count(rows, station, status) > 0
    ensures k < |rows| && rows[k].station == station && rows[k].status == status
  {
    var n := |rows| - 1;
    if rows[n].station == station && rows[n].status == status {
      k := n;
    } else {
      k := SomeCounted(rows[..n], station, status);
    }
  }

  /** Only the kitchen has moved: nothing was taken from the network, and the site of the station is as before. */
  predicate Aside(s: Sys, s': Sys, station: StationId) {
    && s'.f == s.f && s'.entries == s.entries && s.requests <= s'.requests
    && station in s.k.stations && station in s'.k.stations
    && K.SameSite(s.k.stations[station], s'.k.stations[station])
  }

  /** Claiming a displayed row takes it off the screen of its station. */
  lemma ClaimsOne(config: D.Config, s: Sys, k: KdsId) returns (events: seq<Event>)
    requires Inv(config, s) && k < |s.k.rows| && s.k.rows[k].status == K.Displayed
    requires s.k.rows[k].station in s.k.stations
    ensures var s' := Run(config, s, events); var st := s.k.rows[k].station;
            Aside(s, s', st) && K.VisibleBacklog(s'.k, st) == K.VisibleBacklog(s.k, st) - 1
  {
    hide Inv, Run, K.ClaimRefusal, K.FindTask, AdminStep, OrderStep, WorkerStep, FulfillmentStep;
    var row := s.k.rows[k];
    var open := OpenForClaim(config, s, k);
    var s1 := Run(config, s, open);
    var claim := ClaimTask(row.station, row.req.task, "worker", 0);
    events := open + [claim];
    RunConcat(config, s, open, [claim]);
    RunOne(config, s1, claim);
    var s2 := Step(config, s1, claim);
    assert s2.k == K.BeginClaim(s1.k, row.station, row.req.task, "worker", 0);
    assert s2.k.rows == s1.k.rows[k := s2.k.rows[k]];
    K.CountUpdate(s1.k.rows, k, s2.k.rows[k], row.station, K.Displayed);
  }

  /** A station that may take the task can be made to accept it: it is opened, and rows that fill its
      screen are claimed. */
  lemma {:induction false} MakesRoom(config: D.Config, s: Sys, station: StationId, req: K.Delivery)
    returns (events: seq<Event>)
    requires Inv(config, s) && Serviceable(s.k, station, req)
    ensures var s' := Run(config, s, events); Aside(s, s', station) && K.DeliveryRefusal(s'.k, station, req).None?
    decreases K.VisibleBacklog(s.k, station)
  {
    hide Inv, Run;
    if K.VisibleBacklog(s.k, station) < s.k.stations[station].visibleBacklogLimit {
      InvBase(config, s);
      BusyIsNotNegative(s, station);
      events := OpenStation(config, s, station);
    } else {
      var k := SomeCounted(s.k.rows, station, K.Displayed);
      var claim := ClaimsOne(config, s, k);
      ContinueKeeps(config, s, claim);
      var more := MakesRoom(config, Run(config, s, claim), station, req);
      RunConcat(config, s, claim, more);
      events := claim + more;
    }
  }

  lemma BusyIsNotNegative(s: Sys, station: StationId)
    requires Base(s) && station in s.k.stations
    ensures s.k.stations[station].busySlots >= 0
  {
    hide ItemsOk, F.ValidDb, F.ReadyOnlyWhenDone, K.RowShape;
  }

  // ----- the way to a display, backwards -----

  /** Some run from here displays the task. */
  ghost predicate Displayable(config: D.Config, s: Sys, t: TaskId) {
    exists events :: Shows(Run(config, s, events), t)
  }

  predicate Shows(s: Sys, t: TaskId) { t in s.f.tasks && s.f.tasks[t].status == F.Displayed }

  predicate IsQueued(s: Sys, t: TaskId) { t in s.f.tasks && s.f.tasks[t].status == F.Queued }

  lemma Via(config: D.Config, s: Sys, events: seq<Event>, t: TaskId)
    requires Displayable(config, Run(config, s, events), t)
    ensures Displayable(config, s, t)
  {
    hide Run;
    var more :| Shows(Run(config, Run(config, s, events), more), t);
    RunConcat(config, s, events, more);
  }

  lemma ViaOne(config: D.Config, s: Sys, ev: Event, t: TaskId)
    requires Displayable(config, Step(config, s, ev), t)
    ensures Displayable(config, s, t)
  {
    hide Run, Step, Displayable;
    RunOne(config, s, ev);
    Via(config, s, [ev], t);
  }

  lemma FromRequest(config: D.Config, s: Sys, r: Request)
    requires r in s.requests && r.MarkReq? && r.shown.Some? && IsQueued(s, r.task)
    ensures Displayable(config, s, r.task)
  {
    hide Run, AdminStep, OrderStep, WorkerStep, KitchenStep;
    RunOne(config, s, HandleMark(r));
    assert Shows(Run(config, s, [HandleMark(r)]), r.task);
  }

  lemma FromAnswer(config: D.Config, s: Sys, e: nat, k: KdsId)
    requires InDelivery(s, e) && DeliverRsp(e, D.DeliveredAs(k)) in s.responses && IsQueued(s, s.entries[e].task)
    ensures Displayable(config, s, s.entries[e].task)
  {
    hide Displayable, AdminStep, OrderStep, FulfillmentStep, KitchenStep;
    var ev := ReceiveDeliver(e, D.DeliveredAs(k), 0);
    FromRequest(config, Step(config, s, ev),
                MarkReq(e, s.entries[e].task, s.entries[e].stage.phase.station, Some(k), 0));
    ViaOne(config, s, ev, s.entries[e].task);
  }

  /** A delivery that no check refuses is answered with the task's row. */
  lemma InsertionAnswers(config: D.Config, s: Sys, r: Request) returns (k: KdsId)
    requires Base(s) && r in s.missed && r.DeliverReq? && r.delivery.key == KDSIdempotencyKey(r.delivery.task)
    requires K.DeliveryRefusal(s.k, r.station, r.delivery).None?
    ensures var s' := Step(config, s, InsertDelivery(r));
            && s' == s.(k := s'.k, responses := s.responses + {DeliverRsp(r.entry, D.DeliveredAs(k))})
  {
    hide AdminStep, OrderStep, FulfillmentStep, WorkerStep, ItemsOk, F.ValidDb, F.ReadyOnlyWhenDone, K.DeliveryRefusal,
         K.RowShape, K.SlotsConserved, K.WithinPeak;
    K.DeliverFacts(s.k, s.peak, r.station, r.delivery);
    k := K.DeliverTask(s.k, r.station, r.delivery).reply.row;
  }

  /** Delivering to a station that accepts is answered with the row of the task, an old or a new one. */
  lemma FromDelivery(config: D.Config, s: Sys, e: nat, r: Request)
    requires Inv(config, s) && InDelivery(s, e) && IsQueued(s, s.entries[e].task)
    requires r in s.requests && r == DeliverReq(e, s.entries[e].stage.phase.station, DeliveryOf(s.entries[e]))
    requires K.DeliveryRefusal(s.k, r.station, r.delivery).None?
    ensures Displayable(config, s, s.entries[e].task)
  {
    hide Inv, Base, Displayable, AdminStep, OrderStep, FulfillmentStep, WorkerStep, K.DeliveryRefusal;
    var look := LookupDelivery(r);
    var s1 := Step(config, s, look);
    if K.FindKey(s.k.rows, r.delivery.key).Some? {
      FromAnswer(config, s1, e, K.FindKey(s.k.rows, r.delivery.key).value);
    } else {
      StepKeeps(config, s, look);
      InvBase(config, s1);
      var k := InsertionAnswers(config, s1, r);
      FromAnswer(config, Step(config, s1, InsertDelivery(r)), e, k);
      ViaOne(config, s1, InsertDelivery(r), s.entries[e].task);
    }
    ViaOne(config, s, look, s.entries[e].task);
  }

  lemma FromChoice(config: D.Config, s: Sys, e: nat)
    requires Inv(config, s) && InDelivery(s, e) && Sent(s, e) && IsQueued(s, s.entries[e].task)
    ensures Displayable(config, s, s.entries[e].task)
  {
    hide Inv, Run, Displayable, K.DeliveryRefusal;
    var station, req := s.entries[e].stage.phase.station, DeliveryOf(s.entries[e]);
    var events := MakesRoom(config, s, station, req);
    ContinueKeeps(config, s, events);
    FromDelivery(config, Run(config, s, events), e, DeliverReq(e, station, req));
    Via(config, s, events, s.entries[e].task);
  }

  // ----- some station always accepts, once one has been added -----

  lemma {:induction false} FreshName(used: set<string>) returns (name: string)
    ensures forall u | u in used :: |u| < |name|
  {
    if used == {} {
      name := "station";
    } else {
      var u :| u in used;
      var other := FreshName(used - {u});
      name := if |u| < |other| then other else u + "+";
    }
  }

  /** The query has an answer. */
  lemma {:induction false} AnswerExists(db: K.Db, kitchen: KitchenId, stationType: string, ids: set<StationId>)
    returns (result: seq<S.DispatchCandidate>)
    requires ids <= db.stations.Keys
    ensures forall st | st in ids && C.Selected(db, kitchen, stationType, st) :: C.AsCandidate(db, st) in result
    ensures forall c | c in result ::
              C.Selected(db, kitchen, stationType, c.station) && c == C.AsCandidate(db, c.station)
  {
    hide C.Selected, C.AsCandidate;
    if ids == {} {
      result := [];
    } else {
      var st :| st in ids;
      var others := AnswerExists(db, kitchen, stationType, ids - {st});
      SelectedIsThere(db, kitchen, stationType, st);
      result := if C.Selected(db, kitchen, stationType, st) then [C.AsCandidate(db, st)] + others else others;
    }
  }

  lemma SelectedIsThere(db: K.Db, kitchen: KitchenId, stationType: string, station: StationId)
    ensures C.Selected(db, kitchen, stationType, station) ==> station in db.stations
    ensures station in db.stations ==> C.AsCandidate(db, station).station == station
  {
  }

  lemma ChoiceExists(db: K.Db, req: K.Delivery, station: StationId) returns (best: StationId)
    requires K.DeliveryRefusal(db, station, req).None?
    ensures C.RightChoice(db, req, Some(best))
  {
    var result := AnswerExists(db, req.kitchen, req.stationType, db.stations.Keys);
    C.SelectionIsRight(db, req, result);
    best := S.Choose(result).value.station;
  }

  /** A new station of the task's kitchen and type accepts the task. */
  lemma AddsStation(config: D.Config, s: Sys, req: K.Delivery) returns (ev: Event)
    requires Inv(config, s)
    ensures var s' := Step(config, s, ev);
            && s' == s.(k := s'.k, peak := s'.peak) && s'.k.rows == s.k.rows
            && exists st :: K.DeliveryRefusal(s'.k, st, req).None?
  {
    hide Inv, OrderStep, WorkerStep, FulfillmentStep, KitchenStep, K.RowShape, ItemsOk, F.ValidDb;
    InvBase(config, s);
    var id := FreshName(s.k.stations.Keys);
    ev := AddStation(id, req.kitchen, req.stationType, 1, 1);
    NothingShown(s, id);
    assert K.DeliveryRefusal(Step(config, s, ev).k, id, req).None?;
  }

  lemma NothingShown(s: Sys, id: StationId)
    requires Base(s) && id !in s.k.stations
    ensures K.VisibleBacklog(s.k, id) == 0
  {
    hide ItemsOk, F.ValidDb, F.ReadyOnlyWhenDone;
    forall i | 0 <= i < |s.k.rows| ensures s.k.rows[i].station != id { assert K.RowOk(s.k.stations, s.k.rows[i]); }
    K.CountZero(s.k.rows, id, K.Displayed);
  }

  // ----- from every stage of the worker -----

  /** The task is queued and everything it depends on is done. */
  predicate Ready(s: Sys, t: TaskId) { IsQueued(s, t) && F.UnfinishedDependencies(s.f, t) == {} }

  lemma FromCandidates(config: D.Config, s: Sys, e: nat)
    requires Inv(config, s) && InPhase(s, e, D.AskCandidates) && IsQueued(s, s.entries[e].task)
    ensures Displayable(config, s, s.entries[e].task)
  {
    hide Inv, Displayable, K.DeliveryRefusal, C.RightChoice, AdminStep, OrderStep, FulfillmentStep, KitchenStep,
         K.DbStep;
    var t, req := s.entries[e].task, DeliveryOf(s.entries[e]);
    var add := AddsStation(config, s, req);
    var s1 := Step(config, s, add);
    StepKeeps(config, s, add);
    var station :| K.DeliveryRefusal(s1.k, station, req).None?;
    var best := ChoiceExists(s1.k, req, station);
    var choose := AnswerCandidates(e, true, Some(best));
    var s2 := Step(config, s1, choose);
    StepKeeps(config, s1, choose);
    BestAccepts(s1.k, req, best);
    FromDelivery(config, s2, e, DeliverReq(e, best, req));
    ViaOne(config, s1, choose, t);
    ViaOne(config, s, add, t);
  }

  lemma BestAccepts(db: K.Db, req: K.Delivery, best: StationId)
    requires C.RightChoice(db, req, Some(best))
    ensures K.DeliveryRefusal(db, best, req).None?
  {
  }

  lemma FromReadiness(config: D.Config, s: Sys, e: nat)
    requires Inv(config, s) && InPhase(s, e, D.AskReadiness) && Ready(s, s.entries[e].task)
    ensures Displayable(config, s, s.entries[e].task)
  {
    hide Inv, Displayable, F.UnfinishedDependencies, AdminStep, OrderStep, FulfillmentStep, KitchenStep;
    var ev := AnswerReadiness(e, true);
    StepKeeps(config, s, ev);
    FromCandidates(config, Step(config, s, ev), e);
    ViaOne(config, s, ev, s.entries[e].task);
  }

  lemma FromSnapshot(config: D.Config, s: Sys, e: nat)
    requires Inv(config, s) && InPhase(s, e, D.AskSnapshot) && Ready(s, s.entries[e].task)
    ensures Displayable(config, s, s.entries[e].task)
  {
    hide Inv, Displayable, F.UnfinishedDependencies, AdminStep, OrderStep, FulfillmentStep, KitchenStep;
    var ev := AnswerSnapshot(e, true);
    StepKeeps(config, s, ev);
    FromReadiness(config, Step(config, s, ev), e);
    ViaOne(config, s, ev, s.entries[e].task);
  }

  lemma FromStream(config: D.Config, s: Sys, e: nat)
    requires Inv(config, s) && e < |s.entries| && s.entries[e].stage == Queued && Ready(s, s.entries[e].task)
    ensures Displayable(config, s, s.entries[e].task)
  {
    hide Inv, Displayable, F.UnfinishedDependencies, AdminStep, OrderStep, FulfillmentStep, KitchenStep;
    StepKeeps(config, s, Read(e));
    FromSnapshot(config, Step(config, s, Read(e)), e);
    ViaOne(config, s, Read(e), s.entries[e].task);
  }

  lemma FromSleep(config: D.Config, s: Sys, e: nat)
    requires Inv(config, s) && e < |s.entries| && s.entries[e].stage.Sleeping? && Ready(s, s.entries[e].task)
    ensures Displayable(config, s, s.entries[e].task)
  {
    hide Inv, Displayable, F.UnfinishedDependencies, AdminStep, OrderStep, FulfillmentStep, KitchenStep;
    StepKeeps(config, s, Wake(e));
    FromStream(config, Step(config, s, Wake(e)), |s.entries|);
    ViaOne(config, s, Wake(e), s.entries[e].task);
  }

  /** A request that names no row fails; with attempts left the message is retried. */
  lemma FromConflict(config: D.Config, s: Sys, e: nat, station: StationId)
    requires Inv(config, s) && InPhase(s, e, D.Mark(station, None)) && Ready(s, s.entries[e].task)
    requires s.entries[e].attempt < config.maxAttempts
    ensures Displayable(config, s, s.entries[e].task)
  {
    hide Inv, Displayable, F.UnfinishedDependencies, AdminStep, OrderStep, FulfillmentStep, KitchenStep;
    var ev := ReceiveMark(e, D.MarkFailed);
    StepKeeps(config, s, ev);
    FromSleep(config, Step(config, s, ev), e);
    ViaOne(config, s, ev, s.entries[e].task);
  }

  /** Every copy that is not spent can still display its task. */
  lemma FromCopy(config: D.Config, s: Sys, e: nat)
    requires Inv(config, s) && e < |s.entries| && Sent(s, e)
    requires !Spent(config, s.entries[e]) && Ready(s, s.entries[e].task)
    ensures Displayable(config, s, s.entries[e].task)
  {
    hide Inv, Displayable, F.UnfinishedDependencies, Serviceable;
    match s.entries[e].stage
    case Queued => FromStream(config, s, e);
    case Sleeping(_, _) => FromSleep(config, s, e);
    case Working(phase) =>
      match phase
      case AskSnapshot => FromSnapshot(config, s, e);
      case AskReadiness => FromReadiness(config, s, e);
      case AskCandidates => FromCandidates(config, s, e);
      case Deliver(_) => FromChoice(config, s, e);
      case Mark(station, Some(k)) =>
        var at :| MarkReq(e, s.entries[e].task, station, Some(k), at) in s.requests;
        FromRequest(config, s, MarkReq(e, s.entries[e].task, station, Some(k), at));
      case Mark(station, None) => FromConflict(config, s, e, station);
  }

  lemma FromHope(config: D.Config, s: Sys, t: TaskId)
    requires Inv(config, s) && AllSent(s) && Ready(s, t) && !Stranded(config, s, t)
    ensures Displayable(config, s, t)
  {
    hide Inv, Sent, Spent, Displayable, F.UnfinishedDependencies;
    if !NoMarkPending(s, t) {
      var r :| r in s.requests && r.MarkReq? && r.task == t && r.shown.Some?;
      FromRequest(config, s, r);
    } else {
      var e :| 0 <= e < |s.entries| && s.entries[e].task == t && !Spent(config, s.entries[e]);
      FromCopy(config, s, e);
    }
  }

  /** In any reachable state a queued task whose dependencies are done can still be displayed if and only
      if it is not stranded: some copy of its message is not spent, or a request that displays it is on
      the network. */
  lemma CanBeDisplayed(config: D.Config, s: Sys, t: TaskId)
    requires Reachable(config, s) && Ready(s, t)
    ensures (exists s' :: Leads(config, s, s') && Shows(s', t)) <==> !Stranded(config, s, t)
  {
    hide Inv, Run, Leads, AllSent, Stranded, F.UnfinishedDependencies;
    ReachableOk(config, s);
    if Stranded(config, s, t) {
      forall s' | Leads(config, s, s') ensures !Shows(s', t) { StrandedForGood(config, s, s', t); }
    } else {
      var before := LeadsRuns(config, INIT, s);
      SentThroughout(config, before);
      FromHope(config, s, t);
      var events :| Shows(Run(config, s, events), t);
      RunLeads(config, s, events);
    }
  }
}
