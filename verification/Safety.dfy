/** What no interleaving can break: statements about the state after any run. */
module Safety {
  import opened Common
  import opened Protocol
  import opened Invariant
  import opened ServiceSteps
  import opened OrderSteps
  import opened Executions
  import F = Fulfillment
  import K = Kds
  import D = Dispatcher
  import B = TaskBuilder

  // ----- dependencies -----

  /** A task someone can see: it has a row in some kitchen, or Fulfillment has placed it. */
  ghost predicate Shown(s: Sys, t: TaskId) {
    t in s.f.tasks && (F.Placed?(s.f.tasks[t].status) || exists k :: IsRowOf(s, k, t))
  }

  lemma ShownIsCleared(s: Sys, t: TaskId)
    requires Base(s) && Shown(s, t)
    ensures Cleared(s, t)
  {
  }

  /** No task is on a screen, in preparation or done before everything it depends on is done,
      although the dispatcher reads readiness several calls before it delivers. */
  lemma DependencySafety(config: D.Config, s: Sys, t: TaskId)
    requires Reachable(config, s) && Shown(s, t)
    ensures F.DepsDone(s.f, t)
  {
    ReachableOk(config, s);
    hide Leads, Base, PublishersOk;
    ShownIsCleared(s, t);
  }

  // ----- the pipeline of one unit -----

  predicate IsUnit(task: F.Task, item: nat, unit: nat) { task.item == item && task.unit == unit }

  /** The tasks of one unit before position k are done, and those after it were never displayed. */
  ghost predicate PipelineAt(s: Sys, ids: TaskList, item: nat, unit: nat, k: nat)
    requires forall i | 0 <= i < |ids| :: ids[i] in s.f.tasks
  {
    forall i | 0 <= i < |ids| && IsUnit(s.f.tasks[ids[i]], item, unit) ::
      && (i < k ==> s.f.tasks[ids[i]].status == F.Done)
      && (i > k ==> !F.Placed?(s.f.tasks[ids[i]].status) && s.f.tasks[ids[i]].displayedAt.None?)
  }

  /** A placed task's earlier steps of the same unit are done. */
  lemma {:induction false} EarlierStepsDone(s: Sys, o: OrderId, p: Publisher, i: nat, j: nat)
    requires Base(s) && PublisherOk(s.f, o, p) && i < j < |p.tasks|
    requires B.SameUnit(s.f.tasks[p.tasks[i]], s.f.tasks[p.tasks[j]]) && F.Placed?(s.f.tasks[p.tasks[j]].status)
    ensures s.f.tasks[p.tasks[i]].status == F.Done
  {
    hide ItemsOk, F.ValidDb, F.ReadyOnlyWhenDone, K.Valid, PhaseOk;
    var t, before := p.tasks[j], p.tasks[j - 1];
    assert B.Before(s.f.tasks[before], s.f.tasks[t]);
    assert i < j - 1 ==> B.Before(s.f.tasks[p.tasks[i]], s.f.tasks[before]);
    assert B.SameUnit(s.f.tasks[before], s.f.tasks[t]);
    ShownIsCleared(s, t);
    assert (t, before) in s.f.deps;
    if i < j - 1 { EarlierStepsDone(s, o, p, i, j - 1); }
  }

  lemma {:induction false} UnitPipelineUpTo(s: Sys, o: OrderId, p: Publisher, item: nat, unit: nat, n: nat)
    returns (k: nat)
    requires Base(s) && PublisherOk(s.f, o, p) && n <= |p.tasks|
    ensures PipelineAt(s, p.tasks[..n], item, unit, k)
    ensures k == n || (k < n && IsUnit(s.f.tasks[p.tasks[k]], item, unit) && s.f.tasks[p.tasks[k]].status != F.Done)
  {
    hide Chained, PhaseOk, ItemsOk, F.ReadyOnlyWhenDone, K.Valid;
    if n == 0 {
      k := 0;
    } else {
      k := UnitPipelineUpTo(s, o, p, item, unit, n - 1);
      var t := p.tasks[n - 1];
      if k == n - 1 && !(IsUnit(s.f.tasks[t], item, unit) && s.f.tasks[t].status != F.Done) {
        k := n;
      } else if k < n - 1 && IsUnit(s.f.tasks[t], item, unit) {
        assert F.Placed?(s.f.tasks[t].status) ==> false by {
          if F.Placed?(s.f.tasks[t].status) { EarlierStepsDone(s, o, p, k, n - 1); }
        }
        assert F.TaskShape(s.f.tasks[t]);
      }
      forall i | 0 <= i < n && IsUnit(s.f.tasks[p.tasks[..n][i]], item, unit)
        ensures i < k ==> s.f.tasks[p.tasks[..n][i]].status == F.Done
        ensures i > k ==> !F.Placed?(s.f.tasks[p.tasks[..n][i]].status) && s.f.tasks[p.tasks[..n][i]].displayedAt.None?
      {
        if i < n - 1 { assert p.tasks[..n - 1][i] == p.tasks[..n][i]; }
      }
    }
  }

  /** An order's list holds each of its tasks once, unit by unit in recipe order, and one
      position of it splits the unit into what is done and what was never displayed. */
  ghost predicate Pipelined(s: Sys, o: OrderId, ids: TaskList, item: nat, unit: nat) {
    && Distinct(ids)
    && (forall i | 0 <= i < |ids| :: ids[i] in s.f.tasks && s.f.tasks[ids[i]].order == o)
    && (forall t | t in s.f.tasks && s.f.tasks[t].order == o :: t in ids)
    && (forall i, j | 0 <= i < j < |ids| :: B.Before(s.f.tasks[ids[i]], s.f.tasks[ids[j]]))
    && (exists k :: PipelineAt(s, ids, item, unit, k))
  }

  lemma UnitIsPipelined(s: Sys, o: OrderId, item: nat, unit: nat)
    requires Base(s) && PublishersOk(s.f, s.publishers) && o in s.publishers
    ensures Pipelined(s, o, s.publishers[o].tasks, item, unit)
  {
    hide Base, PhaseOk, EdgeListed, PipelineAt, B.Before;
    var p := s.publishers[o];
    assert PublisherOk(s.f, o, p);
    forall t | t in s.f.tasks && s.f.tasks[t].order == o
      ensures t in p.tasks
    {
      assert TaskListed(s.f, s.publishers, t);
    }
    var k := UnitPipelineUpTo(s, o, p, item, unit, |p.tasks|);
    assert p.tasks[..|p.tasks|] == p.tasks;
    assert PipelineAt(s, p.tasks, item, unit, k);
  }

  /** In recipe order the steps of one unit are a prefix of done, then at most one in the
      kitchen, then only steps never displayed. */
  lemma UnitPipeline(config: D.Config, s: Sys, o: OrderId, item: nat, unit: nat)
    requires Reachable(config, s) && o in s.f.orders
    ensures exists ids :: Pipelined(s, o, ids, item, unit)
  {
    ReachableOk(config, s);
    hide Leads, Base, PublisherOk, TaskListed, EdgeListed, Pipelined;
    UnitIsPipelined(s, o, item, unit);
  }

  // ----- progress -----

  /** While a task of an order is not done, some unfinished task of it waits for nothing. */
  lemma {:induction false} SomeTaskIsReady(s: Sys, o: OrderId, i: nat)
    requires Base(s) && PublishersOk(s.f, s.publishers) && o in s.publishers && i < |s.publishers[o].tasks|
    requires s.publishers[o].tasks[i] in s.f.tasks && s.f.tasks[s.publishers[o].tasks[i]].status != F.Done
    ensures exists t :: t in s.f.tasks && s.f.tasks[t].order == o && s.f.tasks[t].status != F.Done
                        && F.UnfinishedDependencies(s.f, t) == {}
  {
    hide Base, EdgeListed, TaskListed, PhaseOk;
    var ids := s.publishers[o].tasks;
    assert PublisherOk(s.f, o, s.publishers[o]);
    var waiting := F.UnfinishedDependencies(s.f, ids[i]);
    if waiting != {} {
      var p :| p in s.f.deps && p.0 == ids[i] && p.1 in s.f.tasks && s.f.tasks[p.1].status != F.Done;
      EdgeIsPrevious(s, o, i, p);
      SomeTaskIsReady(s, o, i - 1);
    } else {
      assert ids[i] in s.f.tasks;
    }
  }

  /** A task's only dependency is the task listed just before it. */
  lemma EdgeIsPrevious(s: Sys, o: OrderId, i: nat, e: (TaskId, TaskId))
    requires PublishersOk(s.f, s.publishers) && o in s.publishers && i < |s.publishers[o].tasks|
    requires e in s.f.deps && e.0 == s.publishers[o].tasks[i]
    ensures i > 0 && e.1 == s.publishers[o].tasks[i - 1]
  {
    hide TaskListed, PhaseOk, Chained;
    assert EdgeListed(s.publishers, e);
    var x, j :| x in s.publishers && IsEdgeAt(s.publishers[x].tasks, j, e);
    assert PublisherOk(s.f, x, s.publishers[x]) && PublisherOk(s.f, o, s.publishers[o]);
    assert x == o;
    assert !(i < j) && !(j < i);
  }

  /** The dependency graph never blocks: as long as an order has an unfinished task, one of
      them has all its dependencies done. With no failed task, that one can still be worked on. */
  lemma Progress(config: D.Config, s: Sys, t: TaskId)
    requires Reachable(config, s) && t in s.f.tasks && s.f.tasks[t].status != F.Done
    ensures exists u :: u in s.f.tasks && s.f.tasks[u].order == s.f.tasks[t].order && s.f.tasks[u].status != F.Done
                        && F.UnfinishedDependencies(s.f, u) == {}
  {
    ReachableOk(config, s);
    hide Leads, Base, PublisherOk, EdgeListed;
    assert TaskListed(s.f, s.publishers, t);
    var i :| 0 <= i < |s.publishers[s.f.tasks[t].order].tasks| && s.publishers[s.f.tasks[t].order].tasks[i] == t;
    SomeTaskIsReady(s, s.f.tasks[t].order, i);
  }

  // ----- slots and backlog -----

  /** Between any two steps of any handlers a station's counter is its number of claimed rows,
      so it is never negative, every claimed row has exactly one claim behind it, and the
      counter never exceeds the largest capacity the station has had. */
  lemma SlotConservation(config: D.Config, s: Sys)
    requires Reachable(config, s)
    ensures K.SlotsConserved(s.k) && K.WithinPeak(s.k, s.peak)
    ensures forall k: nat | k < |s.k.rows| && s.k.rows[k].status == K.Claimed ::
              && s.k.rows[k].station in s.k.stations && s.k.stations[s.k.rows[k].station].busySlots >= 1
              && (exists i :: Claims.Owns(s.claims, i, k))
              && (forall i, j | Claims.Owns(s.claims, i, k) && Claims.Owns(s.claims, j, k) :: i == j)
  {
    ReachableOk(config, s);
    hide Leads, ItemsOk, PublishersOk, F.ValidDb, F.ReadyOnlyWhenDone;
    forall k: nat | k < |s.k.rows| && s.k.rows[k].status == K.Claimed
      ensures s.k.rows[k].station in s.k.stations && s.k.stations[s.k.rows[k].station].busySlots >= 1
    {
      assert K.RowOk(s.k.stations, s.k.rows[k]);
      K.CountPositive(s.k.rows, k);
    }
  }

  /** The peak is one of the capacities the station has had: whatever bounds all of those bounds it,
      and with it the busy counter and the backlog. */
  lemma {:induction false} PeakWasACapacity(config: D.Config, states: seq<Sys>, events: seq<Event>,
                                            id: StationId, bound: int, n: nat)
    requires Execution(config, states, events) && states[0] == INIT && n <= |events|
    requires forall i | 0 <= i <= n :: id in states[i].k.stations ==> states[i].k.stations[id].capacity <= bound
    ensures id in states[n].peak ==> states[n].peak[id] <= bound
  {
    hide Step;
    if n > 0 {
      PeakWasACapacity(config, states, events, id, bound, n - 1);
      assert IsStep(config, states, events, n - 1);
      PeakStep(config, states[n - 1], events[n - 1], id);
    }
  }

  lemma PeakStep(config: D.Config, s: Sys, ev: Event, id: StationId)
    ensures var s' := Step(config, s, ev);
            id in s'.peak ==>
              || (id in s.peak && s'.peak[id] == s.peak[id])
              || (id in s'.k.stations && s'.k.stations[id].capacity == s'.peak[id])
  {
    hide OrderStep, WorkerStep, FulfillmentStep, KitchenStep;
    OrderFrame(s, ev);
    WorkerFrame(config, s, ev);
    FulfillmentFrame(s, ev);
    KitchenFrame(s, ev);
  }
}
