/**
 The report that a dispatch finally failed is sent once and its outcome ignored. A task
 whose message is dead-lettered while that report is lost stays queued, and no worker
 will ever look at it again.
 */
module Stranding {
  import opened Common
  import opened Protocol
  import opened Invariant
  import opened ServiceSteps
  import opened OrderSteps
  import opened Executions
  import opened Retries
  import opened Recovery
  import F = Fulfillment
  import K = Kds
  import D = Dispatcher

  /** The copy cannot lead to a display any more: its worker is done with it, or on the last attempt
      waits for an answer to a request that names no row. */
  predicate Spent(config: D.Config, e: Entry) {
    || e.stage.Closed?
    || (e.stage.Working? && e.stage.phase.Mark? && e.stage.phase.kdsTask.None? && e.attempt >= config.maxAttempts)
  }

  /** Every copy of every message of the task is spent. */
  predicate NoCopyLeft(config: D.Config, entries: seq<Entry>, t: TaskId) {
    forall e | e in entries :: e.task == t ==> Spent(config, e)
  }

  /** No request that could display the task is on the network. */
  predicate NoMarkPending(s: Sys, t: TaskId) {
    forall r | r in s.requests :: r.MarkReq? && r.task == t ==> r.shown.None?
  }

  /** The task is not displayed, and nothing is left that could display it. */
  predicate Stranded(config: D.Config, s: Sys, t: TaskId) {
    t in s.f.tasks && s.f.tasks[t].status in {F.Queued, F.Failed} && NoCopyLeft(config, s.entries, t)
    && NoMarkPending(s, t)
  }

  /** The messages of an order that has been queued are all published. */
  lemma NothingMoreToPublish(s: Sys, ev: Event, t: TaskId) returns (more: seq<Entry>)
    requires PublishersOk(s.f, s.publishers) && t in s.f.tasks && s.f.tasks[t].status != F.Created
    ensures OrderStep(s, ev).entries == s.entries + more && |more| <= 1
    ensures more != [] ==> more[0].task != t
  {
    hide PublisherOk, EdgeListed, AddOrder, F.MarkTasksQueued, Orderable;
    more := PublishedEntries(s, ev);
    if more != [] {
      QueuedIsPublished(s, t);
      PublisherTasks(s, ev.order);
    }
  }

  lemma QueuedIsPublished(s: Sys, t: TaskId)
    requires PublishersOk(s.f, s.publishers) && t in s.f.tasks && s.f.tasks[t].status != F.Created
    ensures s.f.tasks[t].order in s.publishers && s.publishers[s.f.tasks[t].order].phase == AllQueued
  {
    hide EdgeListed, Chained;
    assert TaskListed(s.f, s.publishers, t);
    assert PublisherOk(s.f, s.f.tasks[t].order, s.publishers[s.f.tasks[t].order]);
  }

  lemma PublisherTasks(s: Sys, o: OrderId)
    requires PublishersOk(s.f, s.publishers) && o in s.publishers
    ensures forall i | 0 <= i < |s.publishers[o].tasks| ::
              s.publishers[o].tasks[i] in s.f.tasks && s.f.tasks[s.publishers[o].tasks[i]].order == o
  {
    hide EdgeListed, TaskListed, Chained, PhaseOk;
    assert PublisherOk(s.f, o, s.publishers[o]);
  }

  lemma NoCopyMoves(config: D.Config, entries: seq<Entry>, t: TaskId, e: nat, stage: Stage)
    requires NoCopyLeft(config, entries, t) && e < |entries| && (entries[e].task == t ==> stage.Closed?)
    ensures NoCopyLeft(config, entries[e := entries[e].(stage := stage)], t)
  {
  }

  lemma NoCopyAdded(config: D.Config, entries: seq<Entry>, t: TaskId, more: seq<Entry>)
    requires NoCopyLeft(config, entries, t) && |more| <= 1 && (more != [] ==> more[0].task != t)
    ensures NoCopyLeft(config, entries + more, t)
  {
  }

  lemma NoCopyAppears(config: D.Config, s: Sys, ev: Event, t: TaskId)
    requires Inv(config, s) && Stranded(config, s, t)
    ensures NoCopyLeft(config, Step(config, s, ev).entries, t)
  {
    hide Inv, AdminStep, OrderStep, WorkerStep, FulfillmentStep, KitchenStep, NoMarkPending, NoCopyLeft, StageRank,
         F.ValidDb, K.RowShape, ItemsOk, PublishersOk;
    AdminFrame(s, ev);
    FulfillmentFrame(s, ev);
    KitchenFrame(s, ev);
    InvParts(config, s);
    if IsOrder(ev) {
      var more := NothingMoreToPublish(s, ev, t);
      NoCopyAdded(config, s.entries, t, more);
    } else if IsWorker(ev) && WorkerStep(config, s, ev) != s {
      WorkersAddNoCopy(config, s, ev, t);
    }
  }

  lemma WorkersAddNoCopy(config: D.Config, s: Sys, ev: Event, t: TaskId)
    requires NoCopyLeft(config, s.entries, t) && WorkerStep(config, s, ev) != s
    ensures NoCopyLeft(config, WorkerStep(config, s, ev).entries, t)
  {
    hide WorkerStep, NoCopyLeft, StageRank;
    var e, stage, more := WorkerUpdate(config, s, ev);
    if s.entries[e].task == t {
      CopyIsSpent(config, s.entries, t, e);
      SpentIsClosed(config, s, ev);
    }
    NoCopyMoves(config, s.entries, t, e, stage);
    NoCopyAdded(config, s.entries[e := s.entries[e].(stage := stage)], t, more);
  }

  lemma CopyIsSpent(config: D.Config, entries: seq<Entry>, t: TaskId, e: nat)
    requires NoCopyLeft(config, entries, t) && e < |entries| && entries[e].task == t
    ensures Spent(config, entries[e])
  {
  }

  /** Whatever a spent copy's worker is answered, it is done with it. */
  lemma SpentIsClosed(config: D.Config, s: Sys, ev: Event)
    requires WorkerStep(config, s, ev) != s && IsWorker(ev) && ev.entry < |s.entries|
    requires Spent(config, s.entries[ev.entry])
    ensures |WorkerStep(config, s, ev).entries| == |s.entries|
    ensures WorkerStep(config, s, ev).entries[ev.entry].stage.Closed?
  {
  }

  lemma NoMarkAppears(config: D.Config, s: Sys, ev: Event, t: TaskId)
    requires NoCopyLeft(config, s.entries, t) && NoMarkPending(s, t)
    ensures NoMarkPending(Step(config, s, ev), t)
  {
    hide Step;
    forall r | r in Step(config, s, ev).requests && r !in s.requests && r.MarkReq? && r.shown.Some?
      ensures r.task != t {
      NewMark(config, s, ev, r);
    }
  }

  lemma StrandedStep(config: D.Config, s: Sys, ev: Event, t: TaskId)
    requires Inv(config, s) && Stranded(config, s, t)
    ensures Stranded(config, Step(config, s, ev), t)
  {
    hide Inv, Step, NoCopyLeft;
    NoCopyAppears(config, s, ev, t);
    NoMarkAppears(config, s, ev, t);
    StepKeeps(config, s, ev);
    var s' := Step(config, s, ev);
    assert F.TaskStep(s.f.tasks[t], s'.f.tasks[t]);
    if s'.f.tasks[t] != s.f.tasks[t] && s'.f.tasks[t].status == F.Displayed { NewlyDisplayed(config, s, ev, t); }
  }

  lemma {:induction false} StrandedThroughout(config: D.Config, s: Sys, events: seq<Event>, t: TaskId)
    requires Inv(config, s) && Stranded(config, s, t)
    ensures Stranded(config, Run(config, s, events), t)
  {
    hide Inv, Step, Stranded;
    if events != [] {
      var n := |events| - 1;
      StrandedThroughout(config, s, events[..n], t);
      ContinueKeeps(config, s, events[..n]);
      StrandedStep(config, Run(config, s, events[..n]), events[n], t);
    }
  }

  /** Once nothing is left that could display it, a task is never displayed in any continuation. */
  lemma StrandedForGood(config: D.Config, s: Sys, s': Sys, t: TaskId)
    requires Reachable(config, s) && Stranded(config, s, t) && Leads(config, s, s')
    ensures t in s'.f.tasks && s'.f.tasks[t].status in {F.Queued, F.Failed}
  {
    hide Leads, Inv, Run;
    ReachableOk(config, s);
    var events := LeadsRuns(config, s, s');
    StrandedThroughout(config, s, events, t);
  }
}
