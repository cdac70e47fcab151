/** The task transitions of Fulfillment as they run: fields of one task and its order, assigned in place. */
module TransitionService {
  import opened Common
  import opened Fulfillment

  class Service {
    var tasks: map<TaskId, Task>
    var orders: map<OrderId, Order>
    const deps: set<(TaskId, TaskId)>

    ghost function Tables(): Db
      reads this
    {
      Db(tasks, orders, deps)
    }

    /** Every task has the fields of its status, and no order is ready before its tasks are done. */
    ghost predicate Valid()
      reads this
    {
      ValidDb(Tables()) && ReadyOnlyWhenDone(Tables())
    }

    constructor (db: Db)
      requires ValidDb(db) && ReadyOnlyWhenDone(db)
      ensures Valid() && Tables() == db
    {
      tasks, orders, deps := db.tasks, db.orders, db.deps;
    }

    method GetDispatchReadiness(id: TaskId) returns (readiness: Readiness)
      requires Valid()
      ensures readiness == DispatchReadiness(Tables(), id)
      ensures readiness == Ready <==> id in tasks && tasks[id].status in {Queued, Retrying} && DepsDone(Tables(), id)
      ensures readiness == UnknownTask <==> id !in tasks
      ensures readiness == NotDispatchable <==> id in tasks && tasks[id].status !in {Queued, Retrying}
      ensures readiness.WaitingFor? ==>
                forall x :: x in readiness.tasks <==> (id, x) in deps && x in tasks && tasks[x].status != Done
    {
      if id in tasks { ReadyMeansDepsDone(Tables(), id); }
      if id !in tasks {
        return UnknownTask;
      }
      if tasks[id].status !in {Queued, Retrying} {
        return NotDispatchable;
      }
      var waiting := set p | p in deps && p.0 == id && p.1 in tasks && tasks[p.1].status != Done :: p.1;
      assert waiting == UnfinishedDependencies(Tables(), id);
      if waiting == {} {
        return Ready;
      }
      return WaitingFor(waiting);
    }

    /** Compares a request with what was recorded; `already` is the error of a replay. */
    method ValidateSameStationAndKds(task: Task, station: StationId, kdsTask: KdsId, already: Option<Error>)
      returns (error: Option<Error>)
      ensures error == SamePlacement(task, station, kdsTask, already)
      ensures error.None? <==> task.station == Some(station) && task.kdsTask == Some(kdsTask)
      ensures error.Some? && already.Some? ==> error == already
      ensures error.Some? && already.None? ==>
                error == Some(if task.station != Some(station) then StationMismatch else KdsTaskMismatch)
    {
      if task.station != Some(station) {
        if already.Some? {
          return already;
        }
        return Some(StationMismatch);
      }
      if task.kdsTask != Some(kdsTask) {
        if already.Some? {
          return already;
        }
        return Some(KdsTaskMismatch);
      }
      return None;
    }

    method MarkTaskDisplayed(id: TaskId, req: MarkDisplayedRequest) returns (error: Option<Error>)
      requires Valid()
      modifies this`tasks
      ensures Valid() && error == MarkDisplayed(old(Tables()), id, req).error
      ensures Tables() == MarkDisplayed(old(Tables()), id, req).db
    {
      hide ValidDb, ReadyOnlyWhenDone, DoneMeansReady, Moves, WholeSeconds;
      MarkDisplayedFacts(Tables(), id, req);
      if id !in tasks {
        return Some(TaskNotFound);
      }
      if tasks[id].status == Displayed {
        error := ValidateSameStationAndKds(tasks[id], req.station, req.kdsTask, Some(AlreadyDisplayed));
        return;
      }
      if !CanTransition(tasks[id].status, Displayed) {
        return Some(InvalidTransition);
      }
      var task := tasks[id];
      task := task.(station := Some(req.station));
      task := task.(kdsTask := Some(req.kdsTask));
      task := task.(displayedAt := Some(req.displayedAt));
      task := task.(status := Displayed);
      tasks := tasks[id := task];
      return None;
    }

    method Start(id: TaskId, req: StartRequest) returns (error: Option<Error>)
      requires Valid()
      modifies this`tasks, this`orders
      ensures Valid() && error == StartTask(old(Tables()), id, req).error
      ensures Tables() == StartTask(old(Tables()), id, req).db
    {
      hide ValidDb, ReadyOnlyWhenDone, DoneMeansReady, Moves, WholeSeconds;
      StartTaskFacts(Tables(), id, req);
      if id !in tasks {
        return Some(TaskNotFound);
      }
      if tasks[id].status == InProgress {
        error := ValidateSameStationAndKds(tasks[id], req.station, req.kdsTask, Some(AlreadyStarted));
        return;
      }
      if !CanTransition(tasks[id].status, InProgress) {
        return Some(InvalidTransition);
      }
      error := ValidateSameStationAndKds(tasks[id], req.station, req.kdsTask, None);
      if error.Some? {
        return;
      }
      var task := tasks[id];
      task := task.(startedAt := Some(req.startedAt));
      task := task.(slaDeadlineAt := Some(req.startedAt + task.estimated * SECOND));
      task := task.(status := InProgress);
      tasks := tasks[id := task];
      if task.order in orders {
        orders := orders[task.order := orders[task.order].(status := Cooking)];
      }
      return None;
    }

    method Complete(id: TaskId, req: CompleteRequest, unseen: set<TaskId>) returns (error: Option<Error>)
      requires Valid()
      modifies this`tasks, this`orders
      ensures Valid() && error == CompleteTask(old(Tables()), id, req, unseen).error
      ensures Tables() == CompleteTask(old(Tables()), id, req, unseen).db
    {
      hide ValidDb, ReadyOnlyWhenDone, DoneMeansReady, Moves, WholeSeconds, AllOrderTasksDone;
      CompleteTaskFacts(Tables(), id, req, unseen);
      if id !in tasks {
        return Some(TaskNotFound);
      }
      if tasks[id].status == Done {
        error := ValidateSameStationAndKds(tasks[id], req.station, req.kdsTask, Some(AlreadyCompleted));
        return;
      }
      if !CanTransition(tasks[id].status, Done) {
        return Some(InvalidTransition);
      }
      error := ValidateSameStationAndKds(tasks[id], req.station, req.kdsTask, None);
      if error.Some? {
        return;
      }
      if tasks[id].startedAt.None? || req.completedAt < tasks[id].startedAt.value {
        return Some(InvalidCompletionTime);
      }
      var task := tasks[id];
      task := task.(completedAt := Some(req.completedAt));
      task := task.(actualDuration := Some(WholeSeconds(req.completedAt - task.startedAt.value)));
      if task.slaDeadlineAt.None? {
        task := task.(delay := Some(0));
      } else {
        task := task.(delay := Some(Max(0, WholeSeconds(req.completedAt - task.slaDeadlineAt.value))));
      }
      task := task.(status := Done);
      tasks := tasks[id := task];
      var orderReady := AllOrderTasksDone(Db(tasks, orders, deps), task.order, unseen);
      if orderReady && task.order in orders {
        orders := orders[task.order := orders[task.order].(status := ReadyForPickup)];
      }
      return None;
    }

    method MarkDispatchFailed(id: TaskId, attempts: Option<int>) returns (error: Option<Error>)
      requires Valid()
      modifies this`tasks
      ensures Valid() && error == DispatchFailed(old(Tables()), id, attempts).error
      ensures Tables() == DispatchFailed(old(Tables()), id, attempts).db
    {
      hide ValidDb, ReadyOnlyWhenDone, DoneMeansReady, Moves, WholeSeconds;
      DispatchFailedFacts(Tables(), id, attempts);
      if id !in tasks {
        return Some(TaskNotFound);
      }
      if tasks[id].status == Failed {
        return None;
      }
      if !CanTransition(tasks[id].status, Failed) {
        return Some(InvalidTransition);
      }
      var task := tasks[id];
      if attempts.Some? && attempts.value > task.attempts {
        task := task.(attempts := attempts.value);
      }
      task := task.(status := Failed);
      tasks := tasks[id := task];
      return None;
    }
  }
}
