/**
 Creating an order, publishing its tasks one by one and queueing them all at once.
 Messages are readable before the tasks are queued, and the queued write looks at no
 status; the facts below are why that write only ever overwrites created tasks.
 */
module OrderSteps {
  import opened Common
  import opened Protocol
  import opened Invariant
  import opened ServiceSteps
  import F = Fulfillment
  import Message
  import K = Kds
  import B = TaskBuilder

  // ----- what is known of every order -----

  type TaskList = seq<TaskId>

  ghost predicate Distinct(ids: TaskList) {
    forall i, j | 0 <= i < j < |ids| :: ids[i] != ids[j]
  }

  /** The tasks of an order, each once, and what of them has been published. */
  ghost predicate Listed(f: F.Db, o: OrderId, p: Publisher) {
    && p.tasks != [] && Distinct(p.tasks)
    && (forall i | 0 <= i < |p.tasks| :: p.tasks[i] in f.tasks && f.tasks[p.tasks[i]].order == o)
    && |p.published| <= |p.tasks|
    && (forall i | 0 <= i < |p.published| :: p.published[i].task == p.tasks[i])
    && (p.phase == AllQueued ==> |p.published| == |p.tasks|)
  }

  /** Consecutive tasks are joined by an edge exactly when they belong to the same unit,
      and the list runs through the units in order, so a unit is one block of the list. */
  ghost predicate Chained(f: F.Db, ids: TaskList)
    requires forall i | 0 <= i < |ids| :: ids[i] in f.tasks
  {
    && (forall i | 0 < i < |ids| :: (ids[i], ids[i - 1]) in f.deps
                                   <==> B.SameUnit(f.tasks[ids[i - 1]], f.tasks[ids[i]]))
    && (forall i, j | 0 <= i < j < |ids| :: B.Before(f.tasks[ids[i]], f.tasks[ids[j]]))
  }

  /** Until the whole order is queued all its tasks are created; from then on none is. */
  ghost predicate PhaseOk(f: F.Db, p: Publisher)
    requires forall i | 0 <= i < |p.tasks| :: p.tasks[i] in f.tasks
  {
    forall i | 0 <= i < |p.tasks| :: f.tasks[p.tasks[i]].status == F.Created <==> p.phase != AllQueued
  }

  ghost predicate PublisherOk(f: F.Db, o: OrderId, p: Publisher) {
    Listed(f, o, p) && Chained(f, p.tasks) && PhaseOk(f, p)
  }

  ghost predicate TaskListed(f: F.Db, publishers: map<OrderId, Publisher>, t: TaskId)
    requires t in f.tasks
  {
    f.tasks[t].order in publishers && t in publishers[f.tasks[t].order].tasks
  }

  /** An edge joins two consecutive tasks of one list. */
  ghost predicate EdgeListed(publishers: map<OrderId, Publisher>, e: (TaskId, TaskId)) {
    exists o, i :: o in publishers && IsEdgeAt(publishers[o].tasks, i, e)
  }

  predicate IsEdgeAt(ids: TaskList, i: int, e: (TaskId, TaskId)) {
    0 < i < |ids| && e == (ids[i], ids[i - 1])
  }

  ghost predicate PublishersOk(f: F.Db, publishers: map<OrderId, Publisher>) {
    && publishers.Keys == f.orders.Keys
    && (forall o | o in publishers :: PublisherOk(f, o, publishers[o]))
    && (forall t | t in f.tasks :: TaskListed(f, publishers, t))
    && (forall e | e in f.deps :: EdgeListed(publishers, e))
  }

  /** Same tasks for the same units and steps, with the same edges. */
  ghost predicate SameJobs(f: F.Db, f': F.Db) {
    && f'.tasks.Keys == f.tasks.Keys && f'.orders.Keys == f.orders.Keys && f'.deps == f.deps
    && (forall t | t in f.tasks :: SameJob(f.tasks[t], f'.tasks[t]))
  }

  predicate SameJob(a: F.Task, b: F.Task) {
    b.order == a.order && b.item == a.item && b.unit == a.unit && b.stepOrder == a.stepOrder
  }

  /** None of the tasks is queued in between. */
  ghost predicate SameCreated(f: F.Db, f': F.Db)
    requires f'.tasks.Keys == f.tasks.Keys
  {
    forall t | t in f.tasks :: f'.tasks[t].status == F.Created <==> f.tasks[t].status == F.Created
  }

  lemma MovesKeepsJobs(f: F.Db, id: TaskId, out: F.Outcome)
    requires F.Moves(f, id, out)
    ensures SameJobs(f, out.db) && SameCreated(f, out.db)
  {
  }

  lemma ListStays(f: F.Db, f': F.Db, o: OrderId, p: Publisher)
    requires Listed(f, o, p) && Chained(f, p.tasks) && SameJobs(f, f')
    ensures Listed(f', o, p) && Chained(f', p.tasks)
  {
  }

  /** As long as the lists themselves stay, each order answers for itself. */
  lemma ListsStay(f: F.Db, f': F.Db, publishers: map<OrderId, Publisher>, publishers': map<OrderId, Publisher>)
    requires PublishersOk(f, publishers) && SameJobs(f, f')
    requires publishers'.Keys == publishers.Keys
    requires forall x | x in publishers :: publishers'[x].tasks == publishers[x].tasks
    requires forall x | x in publishers :: PublisherOk(f', x, publishers'[x])
    ensures PublishersOk(f', publishers')
  {
    hide PublisherOk;
    forall t | t in f'.tasks ensures TaskListed(f', publishers', t) {
      assert TaskListed(f, publishers, t) && SameJob(f.tasks[t], f'.tasks[t]);
    }
    forall e | e in f'.deps ensures EdgeListed(publishers', e) {
      assert EdgeListed(publishers, e);
      var x, i :| x in publishers && IsEdgeAt(publishers[x].tasks, i, e);
      assert IsEdgeAt(publishers'[x].tasks, i, e);
    }
  }

  lemma PublishersStay(f: F.Db, f': F.Db, publishers: map<OrderId, Publisher>)
    requires PublishersOk(f, publishers) && SameJobs(f, f') && SameCreated(f, f')
    ensures PublishersOk(f', publishers)
  {
    hide Chained, TaskListed, EdgeListed;
    forall o | o in publishers ensures PublisherOk(f', o, publishers[o]) {
      assert PublisherOk(f, o, publishers[o]);
      ListStays(f, f', o, publishers[o]);
    }
    ListsStay(f, f', publishers, publishers);
  }

  // ----- creating an order -----

  lemma {:induction false} TableFacts(ids: TaskList, tasks: seq<F.Task>)
    requires |ids| == |tasks| && Distinct(ids)
    ensures forall t :: t in TaskTable(ids, tasks) <==> t in ids
    ensures forall i | 0 <= i < |ids| :: ids[i] in TaskTable(ids, tasks) && TaskTable(ids, tasks)[ids[i]] == tasks[i]
  {
    if ids != [] {
      var n := |ids| - 1;
      TableFacts(ids[..n], tasks[..n]);
      forall i | 0 <= i < n ensures TaskTable(ids[..n], tasks[..n])[ids[i]] == tasks[i] {
        assert ids[..n][i] == ids[i];
      }
    }
  }

  /** What adding an order does to the tables, without the recursion. */
  ghost predicate Added(f: F.Db, f': F.Db, o: OrderId, ids: TaskList, tasks: seq<F.Task>)
    requires |ids| == |tasks|
  {
    && (forall t :: t in f'.tasks <==> t in f.tasks || t in ids)
    && (forall t | t in f.tasks :: f'.tasks[t] == f.tasks[t])
    && (forall i | 0 <= i < |ids| :: ids[i] in f'.tasks && f'.tasks[ids[i]] == tasks[i])
    && f'.orders.Keys == f.orders.Keys + {o} && f'.orders[o].status == F.Placed
    && (forall x | x in f.orders :: f'.orders[x] == f.orders[x])
    && (forall e :: e in f'.deps
                    <==> e in f.deps || exists i :: IsEdgeAt(ids, i, e) && B.SameUnit(tasks[i - 1], tasks[i]))
  }

  lemma AddOrderAdds(f: F.Db, o: OrderId, kitchen: KitchenId, ids: TaskList, tasks: seq<F.Task>)
    requires |ids| == |tasks| && Distinct(ids) && o !in f.orders
    requires forall i | 0 <= i < |ids| :: ids[i] !in f.tasks
    ensures Added(f, AddOrder(f, o, kitchen, ids, tasks), o, ids, tasks)
  {
    var f' := AddOrder(f, o, kitchen, ids, tasks);
    TableFacts(ids, tasks);
    forall e ensures e in EdgeSet(ids, B.ChainEdges(tasks)) <==>
                     exists i :: IsEdgeAt(ids, i, e) && B.SameUnit(tasks[i - 1], tasks[i])
    {
      NewEdges(ids, tasks, e);
    }
  }

  lemma NewEdges(ids: TaskList, tasks: seq<F.Task>, e: (TaskId, TaskId))
    requires |ids| == |tasks|
    ensures e in EdgeSet(ids, B.ChainEdges(tasks)) <==>
            exists i :: IsEdgeAt(ids, i, e) && B.SameUnit(tasks[i - 1], tasks[i])
  {
    var edges := B.ChainEdges(tasks);
    if e in EdgeSet(ids, edges) {
      var b :| b in edges && b.task < |ids| && b.dependsOn < |ids| && e == (ids[b.task], ids[b.dependsOn]);
      B.EdgesExact(tasks, |tasks|, b);
      assert IsEdgeAt(ids, b.task, e);
    }
    if i :| IsEdgeAt(ids, i, e) && B.SameUnit(tasks[i - 1], tasks[i]) {
      B.EdgesExact(tasks, |tasks|, B.Edge(i, i - 1));
    }
  }

  ghost predicate NewJobs(tasks: seq<F.Task>, o: OrderId) {
    && tasks != []
    && (forall i | 0 <= i < |tasks| :: F.TaskShape(tasks[i]) && tasks[i].order == o && tasks[i].status == F.Created)
  }

  lemma BuiltJobs(s: Sys, o: OrderId, items: seq<B.OrderItem>, recipes: B.Recipes, ids: TaskList)
    requires Orderable(s, o, items, recipes, ids)
    ensures var tasks := B.OrderTasks(o, items, recipes); NewJobs(tasks, o) && B.InBuildOrder(tasks)
  {
    var tasks := B.OrderTasks(o, items, recipes);
    B.TasksInOrder(o, items, recipes, |items|);
    B.TasksCounts(o, items, recipes, |items|);
    SomeTask(items, recipes, |items|);
    forall i | 0 <= i < |tasks| ensures F.TaskShape(tasks[i]) && tasks[i].order == o && tasks[i].status == F.Created {
      assert B.FromRecipe(tasks[i], o, items, recipes);
    }
  }

  lemma {:induction false} SomeTask(items: seq<B.OrderItem>, recipes: B.Recipes, n: nat)
    requires B.HasRecipes(items, recipes) && n <= |items|
    requires forall i | 0 <= i < |items| :: items[i].quantity > 0 && recipes[items[i].menuItem] != []
    ensures B.TotalTasks(items, recipes, n) >= n
  {
    if n > 0 {
      SomeTask(items, recipes, n - 1);
      AtLeastOne(B.Units(items[n - 1]), |recipes[items[n - 1].menuItem]|);
    }
  }

  lemma AtLeastOne(a: nat, b: nat)
    requires a >= 1 && b >= 1
    ensures a * b >= 1
  {
  }

  lemma AddedIsAStep(f: F.Db, f': F.Db, o: OrderId, ids: TaskList, tasks: seq<F.Task>)
    requires F.ValidDb(f) && o !in f.orders && |ids| == |tasks|
    requires forall i | 0 <= i < |ids| :: ids[i] !in f.tasks
    requires Added(f, f', o, ids, tasks) && NewJobs(tasks, o)
    ensures F.ValidDb(f') && F.DbStep(f, f')
  {
  }

  /** A new order disturbs no other, and is not ready while it has tasks. */
  lemma AddedKeepsRollUp(f: F.Db, f': F.Db, o: OrderId, ids: TaskList, tasks: seq<F.Task>)
    requires F.ValidDb(f) && o !in f.orders && |ids| == |tasks|
    requires Added(f, f', o, ids, tasks) && NewJobs(tasks, o)
    ensures F.ReadyOnlyWhenDone(f) ==> F.ReadyOnlyWhenDone(f')
    ensures F.DoneMeansReady(f) ==> F.DoneMeansReady(f')
  {
    hide F.TaskShape;
    forall t | t in f'.tasks && t !in f.tasks ensures f'.tasks[t].order == o {
      var i :| 0 <= i < |ids| && ids[i] == t;
    }
    if F.DoneMeansReady(f) {
      forall x | x in f'.orders && F.AllOrderTasksDone(f', x, {}) ensures f'.orders[x].status == F.ReadyForPickup {
        assert x != o by { assert f'.tasks[ids[0]] == tasks[0]; }
        assert F.AllOrderTasksDone(f, x, {});
      }
    }
  }

  lemma AddedKeepsPublishers(f: F.Db, f': F.Db, publishers: map<OrderId, Publisher>,
                             o: OrderId, ids: TaskList, tasks: seq<F.Task>)
    requires F.ValidDb(f) && PublishersOk(f, publishers)
    requires o !in f.orders && |ids| == |tasks| && Distinct(ids)
    requires forall i | 0 <= i < |ids| :: ids[i] !in f.tasks
    requires Added(f, f', o, ids, tasks) && NewJobs(tasks, o) && B.InBuildOrder(tasks)
    ensures PublishersOk(f', publishers[o := Publisher(ids, [], Publishing)])
  {
    hide PublisherOk, F.TaskShape, B.InBuildOrder;
    var publishers' := publishers[o := Publisher(ids, [], Publishing)];
    NewPublisher(f, f', o, ids, tasks);
    forall x | x in publishers ensures PublisherOk(f', x, publishers[x]) {
      OldPublisher(f, f', x, publishers[x], o, ids, tasks);
    }
    forall t | t in f'.tasks ensures TaskListed(f', publishers', t) {
      if t in f.tasks { assert TaskListed(f, publishers, t); }
    }
    forall e | e in f'.deps ensures EdgeListed(publishers', e) {
      if e in f.deps {
        assert EdgeListed(publishers, e);
        var x, i :| x in publishers && IsEdgeAt(publishers[x].tasks, i, e);
        assert IsEdgeAt(publishers'[x].tasks, i, e);
      } else {
        var i :| IsEdgeAt(ids, i, e);
        assert IsEdgeAt(publishers'[o].tasks, i, e);
      }
    }
  }

  lemma NewPublisher(f: F.Db, f': F.Db, o: OrderId, ids: TaskList, tasks: seq<F.Task>)
    requires F.ValidDb(f) && |ids| == |tasks| && Distinct(ids)
    requires forall i | 0 <= i < |ids| :: ids[i] !in f.tasks
    requires Added(f, f', o, ids, tasks) && NewJobs(tasks, o) && B.InBuildOrder(tasks)
    ensures PublisherOk(f', o, Publisher(ids, [], Publishing))
  {
    hide F.TaskShape, B.InBuildOrder, Chained;
    NewChain(f, f', o, ids, tasks);
  }

  lemma NewChain(f: F.Db, f': F.Db, o: OrderId, ids: TaskList, tasks: seq<F.Task>)
    requires F.ValidDb(f) && |ids| == |tasks| && Distinct(ids)
    requires forall i | 0 <= i < |ids| :: ids[i] !in f.tasks
    requires Added(f, f', o, ids, tasks) && B.InBuildOrder(tasks)
    ensures Chained(f', ids)
  {
    hide F.TaskShape;
    forall i | 0 < i < |ids|
      ensures (ids[i], ids[i - 1]) in f'.deps <==> B.SameUnit(f'.tasks[ids[i - 1]], f'.tasks[ids[i]])
    {
      var e := (ids[i], ids[i - 1]);
      assert IsEdgeAt(ids, i, e);
      if e in f'.deps { NewEdgeAt(f, f', o, ids, tasks, i); }
    }
  }

  lemma NewEdgeAt(f: F.Db, f': F.Db, o: OrderId, ids: TaskList, tasks: seq<F.Task>, i: nat)
    requires F.ValidDb(f) && |ids| == |tasks| && Distinct(ids) && 0 < i < |ids|
    requires forall i | 0 <= i < |ids| :: ids[i] !in f.tasks
    requires Added(f, f', o, ids, tasks) && (ids[i], ids[i - 1]) in f'.deps
    ensures B.SameUnit(tasks[i - 1], tasks[i])
  {
    hide F.TaskShape;
    assert (ids[i], ids[i - 1]) !in f.deps;
    var j :| IsEdgeAt(ids, j, (ids[i], ids[i - 1])) && B.SameUnit(tasks[j - 1], tasks[j]);
    assert j == i;
  }

  lemma OldPublisher(f: F.Db, f': F.Db, x: OrderId, p: Publisher, o: OrderId, ids: TaskList, tasks: seq<F.Task>)
    requires PublisherOk(f, x, p) && |ids| == |tasks|
    requires forall i | 0 <= i < |ids| :: ids[i] !in f.tasks
    requires Added(f, f', o, ids, tasks)
    ensures PublisherOk(f', x, p)
  {
  }

  lemma CreateKeeps(s: Sys, o: OrderId, kitchen: KitchenId, items: seq<B.OrderItem>, recipes: B.Recipes, ids: TaskList)
    requires Base(s) && PublishersOk(s.f, s.publishers)
    ensures var s' := OrderStep(s, CreateOrder(o, kitchen, items, recipes, ids));
            && Base(s') && Grows(s, s') && PublishersOk(s'.f, s'.publishers)
            && (F.DoneMeansReady(s.f) ==> F.DoneMeansReady(s'.f))
  {
    hide ItemsOk, F.ValidDb, F.ReadyOnlyWhenDone, F.DoneMeansReady, F.DbStep, K.DbStep, K.Valid, PublishersOk,
         AddOrder, NewJobs, B.OrderTasks, B.InBuildOrder;
    StutterKeeps(s);
    if Orderable(s, o, items, recipes, ids) {
      var tasks := B.OrderTasks(o, items, recipes);
      var s' := OrderStep(s, CreateOrder(o, kitchen, items, recipes, ids));
      BuiltJobs(s, o, items, recipes, ids);
      AddOrderAdds(s.f, o, kitchen, ids, tasks);
      AddedIsAStep(s.f, s'.f, o, ids, tasks);
      AddedKeepsRollUp(s.f, s'.f, o, ids, tasks);
      AddedKeepsPublishers(s.f, s'.f, s.publishers, o, ids, tasks);
      NewTasksOk(s, s', o, ids, tasks);
      MissedFact(s);
      Carry(s, s');
    }
  }

  lemma NewTasksOk(s: Sys, s': Sys, o: OrderId, ids: TaskList, tasks: seq<F.Task>)
    requires |ids| == |tasks| && Added(s.f, s'.f, o, ids, tasks) && NewJobs(tasks, o)
    ensures forall t | t in s'.f.tasks && (t !in s.f.tasks || s'.f.tasks[t] != s.f.tasks[t]) :: TaskOk(s', t)
  {
  }

  // ----- publishing -----

  lemma PublisherChange(f: F.Db, publishers: map<OrderId, Publisher>, o: OrderId, p: Publisher)
    requires PublishersOk(f, publishers) && o in publishers
    requires p.tasks == publishers[o].tasks && PublisherOk(f, o, p)
    ensures PublishersOk(f, publishers[o := p])
  {
    hide PublisherOk, TaskListed, EdgeListed;
    ListsStay(f, f, publishers, publishers[o := p]);
  }

  lemma PublishedMore(f: F.Db, publishers: map<OrderId, Publisher>, o: OrderId, next: F.Published)
    requires PublishersOk(f, publishers) && o in publishers
    requires var p := publishers[o]; |p.published| < |p.tasks| && next.task == p.tasks[|p.published|]
    ensures var p := publishers[o]; PublishersOk(f, publishers[o := p.(published := p.published + [next])])
  {
    hide TaskListed, EdgeListed;
    var p := publishers[o];
    assert PublisherOk(f, o, p);
    PublisherChange(f, publishers, o, p.(published := p.published + [next]));
  }

  lemma PublishKeeps(s: Sys, o: OrderId)
    requires Base(s) && PublishersOk(s.f, s.publishers)
    ensures var s' := OrderStep(s, Publish(o)); Base(s') && Grows(s, s') && PublishersOk(s'.f, s'.publishers)
  {
    hide ItemsOk, F.ValidDb, F.ReadyOnlyWhenDone, F.DbStep, K.DbStep, K.Valid, PublishersOk, Message.StreamName;
    StutterKeeps(s);
    var s' := OrderStep(s, Publish(o));
    if s' != s {
      var p := s'.publishers[o].published;
      PublishedMore(s.f, s.publishers, o, p[|p| - 1]);
      MissedFact(s);
      Carry(s, s');
    }
  }

  lemma AbortedPublisher(f: F.Db, publishers: map<OrderId, Publisher>, o: OrderId)
    requires PublishersOk(f, publishers) && o in publishers && publishers[o].phase == Publishing
    ensures PublishersOk(f, publishers[o := publishers[o].(phase := Aborted)])
  {
    hide TaskListed, EdgeListed, Chained;
    assert PublisherOk(f, o, publishers[o]);
    PublisherChange(f, publishers, o, publishers[o].(phase := Aborted));
  }

  lemma AbortKeeps(s: Sys, o: OrderId)
    requires Base(s) && PublishersOk(s.f, s.publishers)
    ensures var s' := OrderStep(s, AbortPublish(o)); Base(s') && Grows(s, s') && PublishersOk(s'.f, s'.publishers)
  {
    hide ItemsOk, F.ValidDb, F.ReadyOnlyWhenDone, F.DbStep, K.DbStep, K.Valid, PublishersOk;
    StutterKeeps(s);
    var s' := OrderStep(s, AbortPublish(o));
    if s' != s {
      AbortedPublisher(s.f, s.publishers, o);
      MissedFact(s);
      Carry(s, s');
    }
  }

  /** Every published message is the root entry of its task. */
  ghost predicate MessagesOk(entries: seq<Entry>, publishers: map<OrderId, Publisher>) {
    forall o | o in publishers :: AllPublished(entries, publishers[o].published)
  }

  ghost predicate AllPublished(entries: seq<Entry>, published: seq<F.Published>) {
    forall i | 0 <= i < |published| :: IsMessage(entries, published[i])
  }

  predicate IsMessage(entries: seq<Entry>, p: F.Published) {
    p.messageId < |entries| && entries[p.messageId].task == p.task && entries[p.messageId].root == p.messageId
  }

  lemma MessagesStay(s: Sys, s': Sys)
    requires MessagesOk(s.entries, s.publishers) && Grows(s, s')
    ensures MessagesOk(s'.entries, s.publishers)
  {
  }

  /** A step of order creation publishes nothing, or the next message of one order. */
  lemma OrderKeepsMessages(s: Sys, ev: Event)
    requires MessagesOk(s.entries, s.publishers) && Grows(s, OrderStep(s, ev))
    ensures MessagesOk(OrderStep(s, ev).entries, OrderStep(s, ev).publishers)
  {
    hide AddOrder, F.MarkTasksQueued, Orderable, Grows;
    var s' := OrderStep(s, ev);
    MessagesStay(s, s');
    forall o | o in s'.publishers ensures AllPublished(s'.entries, s'.publishers[o].published) {
      assert o in s.publishers ==> AllPublished(s'.entries, s.publishers[o].published);
    }
  }

  // ----- queueing -----

  /** The queued write of an order whose tasks are all created: each of them takes the one
      step from created to queued, and no other task is touched. */
  lemma QueueWrites(f: F.Db, o: OrderId, p: Publisher, at: Time, t: TaskId)
    requires F.ValidDb(f) && PublisherOk(f, o, p) && p.phase == Publishing && |p.published| == |p.tasks|
    requires t in f.tasks
    ensures var after := F.MarkTasksQueued(f.tasks, p.published, at);
            && after.Keys == f.tasks.Keys
            && (t !in p.tasks ==> after[t] == f.tasks[t])
            && (t in p.tasks ==>
                  && f.tasks[t].status == F.Created
                  && exists i | 0 <= i < |p.tasks| ::
                       p.tasks[i] == t && F.QueuedUnder(f.tasks[t], after[t], p.published[i], at))
            && F.TaskStep(f.tasks[t], after[t]) && F.TaskShape(after[t]) && after[t].order == f.tasks[t].order
  {
    hide F.QueuedUnder, F.TaskShape, F.TaskStep, F.MarkTasksQueued, Chained;
    F.QueuedExactly(f.tasks, p.published, at, t);
    assert F.TaskShape(f.tasks[t]);
    F.SameTask(f.tasks[t]);
    if t in p.tasks {
      var i :| 0 <= i < |p.tasks| && p.tasks[i] == t;
      assert p.published[i].task == t;
      var j :| F.LastFor(p.published, t, j)
               && F.QueuedUnder(f.tasks[t], F.MarkTasksQueued(f.tasks, p.published, at)[t], p.published[j], at);
      assert p.tasks[j] == t;
      F.QueuedShape(f.tasks[t], F.MarkTasksQueued(f.tasks, p.published, at)[t], p.published[j], at);
    }
  }

  ghost predicate AfterQueueing(f: F.Db, f': F.Db, o: OrderId, p: Publisher) {
    && f' == f.(tasks := f'.tasks) && f'.tasks.Keys == f.tasks.Keys
    && (forall t | t in f.tasks ::
         && F.TaskStep(f.tasks[t], f'.tasks[t]) && F.TaskShape(f'.tasks[t]) && f'.tasks[t].order == f.tasks[t].order
         && (t !in p.tasks ==> f'.tasks[t] == f.tasks[t])
         && (t in p.tasks ==> f.tasks[t].status == F.Created && f'.tasks[t].status == F.Queued))
  }

  lemma QueueingKeepsDb(f: F.Db, f': F.Db, o: OrderId, p: Publisher)
    requires F.ValidDb(f) && AfterQueueing(f, f', o, p)
    ensures F.ValidDb(f') && F.DbStep(f, f')
    ensures F.ReadyOnlyWhenDone(f) ==> F.ReadyOnlyWhenDone(f')
    ensures F.DoneMeansReady(f) ==> F.DoneMeansReady(f')
  {
    hide F.TaskShape, F.TaskStep, F.DoneMeansReady;
    if F.DoneMeansReady(f) { QueueingKeepsRollUp(f, f', o, p); }
  }

  lemma QueueingKeepsRollUp(f: F.Db, f': F.Db, o: OrderId, p: Publisher)
    requires F.ValidDb(f) && AfterQueueing(f, f', o, p) && F.DoneMeansReady(f)
    ensures F.DoneMeansReady(f')
  {
    hide F.TaskShape, F.TaskStep, F.ValidDb;
    forall x | x in f'.orders && F.AllOrderTasksDone(f', x, {}) ensures f'.orders[x].status == F.ReadyForPickup {
      forall t | t in f.tasks && f.tasks[t].order == x ensures f.tasks[t].status == F.Done { assert t in f'.tasks; }
      assert F.AllOrderTasksDone(f, x, {});
    }
  }

  lemma QueueingKeepsPublishers(f: F.Db, f': F.Db, publishers: map<OrderId, Publisher>, o: OrderId)
    requires PublishersOk(f, publishers) && o in publishers && AfterQueueing(f, f', o, publishers[o])
    requires |publishers[o].published| == |publishers[o].tasks|
    ensures PublishersOk(f', publishers[o := publishers[o].(phase := AllQueued)])
  {
    hide F.TaskShape, TaskListed, EdgeListed, Chained, SameJobs;
    var publishers' := publishers[o := publishers[o].(phase := AllQueued)];
    QueueingKeepsJobs(f, f', o, publishers[o]);
    forall x | x in publishers ensures PublisherOk(f', x, publishers'[x]) {
      assert PublisherOk(f, x, publishers[x]);
      ListStays(f, f', x, publishers[x]);
      if x != o { OtherPhase(f, f', o, publishers[o], x, publishers[x]); }
    }
    hide PublisherOk;
    ListsStay(f, f', publishers, publishers');
  }

  lemma QueueingKeepsJobs(f: F.Db, f': F.Db, o: OrderId, queued: Publisher)
    requires AfterQueueing(f, f', o, queued)
    ensures SameJobs(f, f')
  {
  }

  lemma OtherPhase(f: F.Db, f': F.Db, o: OrderId, queued: Publisher, x: OrderId, p: Publisher)
    requires Listed(f, o, queued) && AfterQueueing(f, f', o, queued)
    requires Listed(f, x, p) && PhaseOk(f, p) && x != o
    ensures PhaseOk(f', p)
  {
  }

  lemma QueueKeeps(s: Sys, o: OrderId, at: Time)
    requires Base(s) && PublishersOk(s.f, s.publishers)
    ensures var s' := OrderStep(s, QueueTasks(o, at));
            && Base(s') && Grows(s, s') && PublishersOk(s'.f, s'.publishers)
            && (F.DoneMeansReady(s.f) ==> F.DoneMeansReady(s'.f))
  {
    hide ItemsOk, F.ValidDb, F.ReadyOnlyWhenDone, F.DoneMeansReady, F.DbStep, K.DbStep, K.Valid, F.MarkTasksQueued,
         F.TaskShape, F.TaskStep, PublisherOk;
    StutterKeeps(s);
    var s' := OrderStep(s, QueueTasks(o, at));
    if s' != s {
      var p := s.publishers[o];
      forall t | t in s.f.tasks
        ensures s'.f.tasks.Keys == s.f.tasks.Keys
        ensures F.TaskStep(s.f.tasks[t], s'.f.tasks[t]) && F.TaskShape(s'.f.tasks[t])
        ensures s'.f.tasks[t].order == s.f.tasks[t].order
        ensures t !in p.tasks ==> s'.f.tasks[t] == s.f.tasks[t]
        ensures t in p.tasks ==> s.f.tasks[t].status == F.Created && s'.f.tasks[t].status == F.Queued
      {
        QueueWrites(s.f, o, p, at, t);
      }
      F.QueuedKeys(s.f.tasks, p.published, at);
      QueueingKeepsDb(s.f, s'.f, o, p);
      QueueingKeepsPublishers(s.f, s'.f, s.publishers, o);
      MissedFact(s);
      Carry(s, s');
    }
  }

  /** Every step of order creation keeps the facts about the tables, the items and the orders. */
  lemma OrderKeeps(s: Sys, ev: Event)
    requires Base(s) && PublishersOk(s.f, s.publishers) && IsOrder(ev)
    ensures var s' := OrderStep(s, ev);
            && Base(s') && Grows(s, s') && PublishersOk(s'.f, s'.publishers)
            && (F.DoneMeansReady(s.f) ==> F.DoneMeansReady(s'.f))
  {
    hide Base, Grows, PublishersOk, F.DoneMeansReady;
    match ev
    case CreateOrder(o, kitchen, items, recipes, ids) => CreateKeeps(s, o, kitchen, items, recipes, ids);
    case Publish(o) => PublishKeeps(s, o);
    case AbortPublish(o) => AbortKeeps(s, o);
    case QueueTasks(o, at) => QueueKeeps(s, o, at);
  }

  lemma NewTasksCreated(f: F.Db, f': F.Db, o: OrderId, ids: TaskList, tasks: seq<F.Task>)
    requires |ids| == |tasks| && Added(f, f', o, ids, tasks) && NewJobs(tasks, o)
    ensures forall t | t in f'.tasks && t !in f.tasks :: f'.tasks[t].status == F.Created && f'.tasks[t].order == o
  {
  }

  /** Order creation only makes new tasks of its own order, and moves created ones to queued. */
  lemma OrdersOnlyQueue(s: Sys, ev: Event, t: TaskId)
    requires Base(s) && PublishersOk(s.f, s.publishers) && IsOrder(ev) && t in OrderStep(s, ev).f.tasks
    ensures var task := OrderStep(s, ev).f.tasks[t];
            || (t in s.f.tasks && task == s.f.tasks[t])
            || (t in s.f.tasks && s.f.tasks[t].status == F.Created && task.status == F.Queued
                && task.order == s.f.tasks[t].order)
            || (t !in s.f.tasks && task.status == F.Created
                && ev.CreateOrder? && task.order == ev.order && ev.order !in s.f.orders)
  {
    hide ItemsOk, F.ValidDb, F.ReadyOnlyWhenDone, K.Valid, TaskListed, EdgeListed, F.MarkTasksQueued, B.OrderTasks,
         Chained, AddOrder;
    if OrderStep(s, ev).f != s.f {
      match ev
      case CreateOrder(o, kitchen, items, recipes, ids) =>
        var tasks := B.OrderTasks(o, items, recipes);
        BuiltJobs(s, o, items, recipes, ids);
        AddOrderAdds(s.f, o, kitchen, ids, tasks);
        NewTasksCreated(s.f, OrderStep(s, ev).f, o, ids, tasks);
      case QueueTasks(o, at) =>
        assert PublisherOk(s.f, o, s.publishers[o]);
        F.QueuedKeys(s.f.tasks, s.publishers[o].published, at);
        QueueWrites(s.f, o, s.publishers[o], at, t);
      case _ =>
    }
  }
}
