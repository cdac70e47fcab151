/** The facts that hold in every reachable state, and how states of one run relate. */
module Executions {
  import opened Common
  import opened Protocol
  import opened Invariant
  import opened ServiceSteps
  import opened OrderSteps
  import opened Claims
  import opened Lineage
  import F = Fulfillment
  import K = Kds
  import D = Dispatcher

  ghost predicate Inv(config: D.Config, s: Sys) {
    && Base(s)
    && PublishersOk(s.f, s.publishers)
    && ClaimsOk(s.k.rows, s.claims)
    && LineageOk(config, s.entries)
    && MessagesOk(s.entries, s.publishers)
  }

  // ----- what each part of the system leaves alone -----

  lemma AdminFrame(s: Sys, ev: Event)
    ensures var s' := AdminStep(s, ev); s' == s.(k := s'.k, peak := s'.peak) && s'.k.rows == s.k.rows
  {
  }

  lemma OrderFrame(s: Sys, ev: Event)
    ensures var s' := OrderStep(s, ev); s' == s.(f := s'.f, publishers := s'.publishers, entries := s'.entries)
    ensures !ev.Publish? ==> OrderStep(s, ev).entries == s.entries
  {
  }

  lemma WorkerFrame(config: D.Config, s: Sys, ev: Event)
    ensures var s' := WorkerStep(config, s, ev); s' == s.(entries := s'.entries, requests := s'.requests)
  {
  }

  lemma FulfillmentFrame(s: Sys, ev: Event)
    ensures var s' := FulfillmentStep(s, ev); s' == s.(f := s'.f, responses := s'.responses)
  {
  }

  lemma KitchenFrame(s: Sys, ev: Event)
    ensures var s' := KitchenStep(s, ev);
            s' == s.(k := s'.k, claims := s'.claims, completions := s'.completions,
                     requests := s'.requests, missed := s'.missed, responses := s'.responses)
  {
  }

  /** Whatever request Fulfillment serves, it runs one transaction on one task, or none. */
  lemma OneTransaction(s: Sys, ev: Event) returns (id: TaskId, out: F.Outcome)
    requires F.ValidDb(s.f)
    ensures F.Moves(s.f, id, out) && FulfillmentStep(s, ev).f == out.db
  {
    hide F.ValidDb, F.Moves, F.MarkDisplayed, F.StartTask, F.CompleteTask, F.DispatchFailed;
    id, out := "", F.Outcome(s.f, None);
    F.NothingMoves(s.f, id);
    if FulfillmentStep(s, ev).f != s.f {
      id := ev.request.task;
      match ev
      case HandleMark(r) =>
        var req := F.MarkDisplayedRequest(r.station, r.shown.value, r.at);
        F.MarkDisplayedFacts(s.f, id, req);
        out := F.MarkDisplayed(s.f, id, req);
      case HandleFailed(r) =>
        F.DispatchFailedFacts(s.f, id, Some(r.attempts));
        out := F.DispatchFailed(s.f, id, Some(r.attempts));
      case HandleStart(r) =>
        var req := F.StartRequest(r.station, r.row, r.at);
        F.StartTaskFacts(s.f, id, req);
        out := F.StartTask(s.f, id, req);
      case HandleComplete(r, unseen) =>
        var req := F.CompleteRequest(r.station, r.row, r.at);
        F.CompleteTaskFacts(s.f, id, req, unseen);
        out := F.CompleteTask(s.f, id, req, unseen);
      case _ =>
    }
  }

  lemma FulfillmentKeeps(s: Sys, ev: Event)
    requires Base(s) && PublishersOk(s.f, s.publishers) && IsFulfillment(ev)
    ensures var s' := FulfillmentStep(s, ev);
            && Base(s') && Grows(s, s') && PublishersOk(s'.f, s'.publishers)
            && ((ev.HandleComplete? ==> ev.unseen == {}) && F.DoneMeansReady(s.f) ==> F.DoneMeansReady(s'.f))
  {
    FulfillmentFrame(s, ev);
    var id, out := OneTransaction(s, ev);
    MovesKeepsJobs(s.f, id, out);
    hide FulfillmentStep, Grows, PublishersOk, SameJobs, F.DoneMeansReady, F.ValidDb, F.ReadyOnlyWhenDone, K.Valid,
         ItemsOk;
    PublishersStay(s.f, FulfillmentStep(s, ev).f, s.publishers);
    match ev
    case HandleMark(r) => HandleMarkKeeps(s, r);
    case HandleFailed(r) => HandleFailedKeeps(s, r);
    case HandleStart(r) => HandleStartKeeps(s, r);
    case HandleComplete(r, unseen) => HandleCompleteKeeps(s, r, unseen);
  }

  lemma OrderKeepsLineage(config: D.Config, s: Sys, ev: Event)
    requires LineageOk(config, s.entries)
    ensures LineageOk(config, OrderStep(s, ev).entries)
  {
    hide LineageOk, AddOrder, F.MarkTasksQueued, Orderable;
    if OrderStep(s, ev).entries != s.entries {
      OrderFrame(s, ev);
      var p := s.publishers[ev.order];
      PublishKeepsLineage(config, s.entries, NewEntry(s.f, p.tasks[|p.published|], |s.entries|));
    }
  }

  lemma BaseClaims(s: Sys)
    requires Base(s)
    ensures K.RowShape(s.k) && (forall i | 0 <= i < |s.claims| :: ClaimOk(s, s.claims[i]))
  {
  }

  /** Every step of every service keeps the invariant and loses nothing. */
  lemma StepKeeps(config: D.Config, s: Sys, ev: Event)
    requires Inv(config, s)
    ensures Inv(config, Step(config, s, ev)) && Grows(s, Step(config, s, ev))
  {
    hide Base, Grows, PublishersOk, ClaimsOk, LineageOk, MessagesOk,
         AdminStep, OrderStep, WorkerStep, FulfillmentStep, KitchenStep;
    if IsAdmin(ev) {
      AdminKeeps(s, ev);
      AdminFrame(s, ev);
    } else if IsOrder(ev) {
      OrderKeeps(s, ev);
      OrderFrame(s, ev);
      OrderKeepsLineage(config, s, ev);
      OrderKeepsMessages(s, ev);
    } else if IsWorker(ev) {
      WorkerKeeps(config, s, ev);
      WorkerFrame(config, s, ev);
      WorkerKeepsLineage(config, s, ev);
      MessagesStay(s, WorkerStep(config, s, ev));
    } else if IsFulfillment(ev) {
      FulfillmentKeeps(s, ev);
      FulfillmentFrame(s, ev);
    } else {
      KitchenKeeps(s, ev);
      KitchenFrame(s, ev);
      BaseClaims(s);
      KitchenKeepsClaims(s, ev);
    }
  }

  lemma InvBase(config: D.Config, s: Sys)
    requires Inv(config, s)
    ensures Base(s)
  {
  }

  lemma InitOk(config: D.Config)
    ensures Inv(config, INIT)
  {
  }

  /** The invariant holds after every run, however its events are interleaved. */
  lemma {:induction false} RunKeeps(config: D.Config, events: seq<Event>)
    ensures Inv(config, Run(config, INIT, events))
  {
    hide Inv;
    if events == [] {
      InitOk(config);
    } else {
      var n := |events| - 1;
      RunKeeps(config, events[..n]);
      StepKeeps(config, Run(config, INIT, events[..n]), events[n]);
    }
  }

  lemma {:induction false} ContinueKeeps(config: D.Config, s: Sys, events: seq<Event>)
    requires Inv(config, s)
    ensures Inv(config, Run(config, s, events))
  {
    hide Inv;
    if events != [] {
      var n := |events| - 1;
      ContinueKeeps(config, s, events[..n]);
      StepKeeps(config, Run(config, s, events[..n]), events[n]);
    }
  }

  // ----- runs put together -----

  lemma RunOne(config: D.Config, s: Sys, ev: Event)
    ensures Run(config, s, [ev]) == Step(config, s, ev)
  {
    hide Step;
    assert [ev][..0] == [];
    assert Run(config, s, []) == s;
  }

  lemma {:induction false} RunConcat(config: D.Config, s: Sys, a: seq<Event>, b: seq<Event>)
    ensures Run(config, s, a + b) == Run(config, Run(config, s, a), b)
  {
    hide Step;
    if b == [] {
      assert a + b == a;
    } else {
      var n := |b| - 1;
      assert (a + b)[..|a| + n] == a + b[..n];
      RunConcat(config, s, a, b[..n]);
    }
  }

  lemma RunThree(config: D.Config, s: Sys, a: Event, b: Event, c: Event)
    ensures Run(config, s, [a, b, c]) == Step(config, Step(config, Step(config, s, a), b), c)
  {
    hide Step;
    assert [a, b, c] == [a] + [b] + [c];
    RunConcat(config, s, [a] + [b], [c]);
    RunConcat(config, s, [a], [b]);
    RunOne(config, s, a);
    RunOne(config, Step(config, s, a), b);
    RunOne(config, Step(config, Step(config, s, a), b), c);
  }

  // ----- executions -----

  ghost predicate IsStep(config: D.Config, states: seq<Sys>, events: seq<Event>, i: nat)
    requires |states| == |events| + 1 && i < |events|
  {
    states[i + 1] == Step(config, states[i], events[i])
  }

  /** The states a sequence of events goes through. */
  ghost predicate Execution(config: D.Config, states: seq<Sys>, events: seq<Event>) {
    |states| == |events| + 1 && forall i: nat | i < |events| :: IsStep(config, states, events, i)
  }

  /** Some events lead from one state to the other. */
  ghost predicate Leads(config: D.Config, s: Sys, s': Sys) {
    exists states, events :: Execution(config, states, events) && states[0] == s && states[|events|] == s'
  }

  ghost predicate Reachable(config: D.Config, s: Sys) { Leads(config, INIT, s) }

  lemma {:induction false} ExecutionRuns(config: D.Config, states: seq<Sys>, events: seq<Event>, n: nat)
    requires Execution(config, states, events) && n <= |events|
    ensures states[n] == Run(config, states[0], events[..n])
  {
    hide Step;
    if n > 0 {
      ExecutionRuns(config, states, events, n - 1);
      assert IsStep(config, states, events, n - 1);
      assert events[..n][..n - 1] == events[..n - 1];
    }
  }

  lemma {:induction false} RunLeads(config: D.Config, s: Sys, events: seq<Event>)
    ensures Leads(config, s, Run(config, s, events))
  {
    hide Run;
    var states := StatesOf(config, s, events);
    assert states[0] == s && states[|events|] == Run(config, s, events) && Execution(config, states, events);
  }

  /** The states of a run, one by one. */
  lemma {:induction false} StatesOf(config: D.Config, s: Sys, events: seq<Event>) returns (states: seq<Sys>)
    ensures Execution(config, states, events) && states[0] == s && states[|events|] == Run(config, s, events)
  {
    hide Step;
    if events == [] {
      states := [s];
    } else {
      var n := |events| - 1;
      var before := StatesOf(config, s, events[..n]);
      states := before + [Run(config, s, events)];
      forall i: nat | i < |events| ensures IsStep(config, states, events, i) {
        if i < n { assert IsStep(config, before, events[..n], i); }
      }
    }
  }

  lemma LeadsRuns(config: D.Config, s: Sys, s': Sys) returns (events: seq<Event>)
    requires Leads(config, s, s')
    ensures s' == Run(config, s, events)
  {
    hide Run, IsStep;
    var states, found :| Execution(config, states, found) && states[0] == s && states[|found|] == s';
    events := found;
    ExecutionRuns(config, states, events, |events|);
    assert events[..|events|] == events;
  }

  lemma ReachableOk(config: D.Config, s: Sys)
    requires Reachable(config, s)
    ensures Inv(config, s)
  {
    hide Run, Inv, Leads;
    var events := LeadsRuns(config, INIT, s);
    RunKeeps(config, events);
  }

  lemma ExecutionKeeps(config: D.Config, states: seq<Sys>, events: seq<Event>, n: nat)
    requires Execution(config, states, events) && n <= |events| && Inv(config, states[0])
    ensures Inv(config, states[n])
  {
    hide Run, Inv, IsStep;
    ExecutionRuns(config, states, events, n);
    ContinueKeeps(config, states[0], events[..n]);
  }

  lemma LeadsTransitively(config: D.Config, s: Sys, s': Sys, events: seq<Event>)
    requires Leads(config, s, s')
    ensures Leads(config, s, Run(config, s', events))
  {
    hide Run, Leads;
    var before := LeadsRuns(config, s, s');
    RunConcat(config, s, before, events);
    RunLeads(config, s, before + events);
  }
}
