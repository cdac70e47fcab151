/** The kitchen service as it runs: its two tables, rewritten in place by each request. */
module KdsService {
  import opened Common
  import opened Idempotency
  import K = Kds

  /** The outcome of a call to Fulfillment, as the service distinguishes them. */
  datatype CallResult = Accepted | Rejected | Unavailable

  datatype Failure = Domain(error: K.Error) | FulfillmentRejected | FulfillmentUnavailable

  function FailureOf(call: CallResult): Failure
    requires call != Accepted
  {
    if call == Unavailable then FulfillmentUnavailable else FulfillmentRejected
  }

  class Service {
    var stations: map<StationId, K.Station>
    var rows: seq<K.Row>
    ghost var peak: map<StationId, int>

    ghost function Tables(): K.Db
      reads this
    {
      K.Db(stations, rows)
    }

    /** One row per task, every counter the number of rows it counts, every limit kept. */
    ghost predicate Valid()
      reads this
    {
      K.Valid(Tables(), peak)
    }

    constructor ()
      ensures Valid() && Tables() == K.Db(map[], [])
    {
      stations, rows, peak := map[], [], map[];
    }

    // ----- stations -----

    method CreateStation(id: StationId, kitchen: KitchenId, stationType: string, capacity: int, limit: int)
      requires Valid() && id !in stations && capacity >= 1 && limit >= 1
      modifies this
      ensures Valid() && Tables() == K.CreateStation(old(Tables()), id, kitchen, stationType, capacity, limit)
      ensures var st := stations[id];
              && st.kitchen == kitchen && st.stationType == stationType && st.status == K.Available
              && st.capacity == capacity && st.busySlots == 0 && st.visibleBacklogLimit == limit
      ensures stations == old(stations)[id := stations[id]] && rows == old(rows)
    {
      K.StationFacts(Tables(), peak, id, K.Station(kitchen, stationType, K.Available, capacity, 0, limit));
      stations := stations[id := K.Station(kitchen, stationType, K.Available, capacity, 0, limit)];
      peak := K.RaisePeak(peak, id, capacity);
    }

    method UpdateStationCapacity(id: StationId, capacity: int) returns (found: bool)
      requires Valid() && capacity >= 1
      modifies this
      ensures Valid() && found == (id in old(stations))
      ensures Tables() == if found then K.SetCapacity(old(Tables()), id, capacity) else old(Tables())
      ensures rows == old(rows)
      ensures found ==> stations == old(stations)[id := old(stations)[id].(capacity := capacity)]
    {
      if id !in stations {
        return false;
      }
      K.StationFacts(Tables(), peak, id, stations[id].(capacity := capacity));
      stations := stations[id := stations[id].(capacity := capacity)];
      peak := K.RaisePeak(peak, id, capacity);
      return true;
    }

    method UpdateStationStatus(id: StationId, status: K.StationStatus) returns (found: bool)
      requires Valid()
      modifies this
      ensures Valid() && found == (id in old(stations))
      ensures Tables() == if found then K.SetStatus(old(Tables()), id, status) else old(Tables())
      ensures rows == old(rows)
      ensures found ==> stations == old(stations)[id := old(stations)[id].(status := status)]
    {
      if id !in stations {
        return false;
      }
      K.CapacityWithinPeak(Tables(), peak, id);
      K.StationFacts(Tables(), peak, id, stations[id].(status := status));
      stations := stations[id := stations[id].(status := status)];
      return true;
    }

    // ----- delivery -----

    method ValidateDeliveryStation(station: K.Station, req: K.Delivery) returns (error: Option<K.Error>)
      ensures error == K.ValidateDelivery(station, req)
      ensures error.None? <==>
                station.status == K.Available && station.kitchen == req.kitchen
                && station.stationType == req.stationType
      ensures error == Some(K.StationNotAvailable) <==> station.status != K.Available
      ensures error == Some(K.KitchenMismatch) <==> station.status == K.Available && station.kitchen != req.kitchen
      ensures error == Some(K.TypeMismatch) <==>
                && station.status == K.Available && station.kitchen == req.kitchen
                && station.stationType != req.stationType
    {
      if station.status != K.Available {
        return Some(K.StationNotAvailable);
      }
      if station.kitchen != req.kitchen {
        return Some(K.KitchenMismatch);
      }
      if station.stationType != req.stationType {
        return Some(K.TypeMismatch);
      }
      return None;
    }

    /** From the station lock on. A row that violates a unique constraint is not inserted. */
    method InsertDelivery(station: StationId, req: K.Delivery) returns (reply: K.DeliveryReply)
      requires Valid() && req.key == KDSIdempotencyKey(req.task)
      modifies this`rows
      ensures Valid()
      ensures Tables() == K.DeliverTask(old(Tables()), station, req).db
      ensures reply == K.DeliverTask(old(Tables()), station, req).reply
      ensures if reply == K.Delivered(|old(rows)|, true) then K.ShowsRow(old(Tables()), Tables(), station, req)
              else Tables() == old(Tables())
      ensures var refusal := K.DeliveryRefusal(old(Tables()), station, req);
              if reply.Refused? then refusal == Some(reply.error) else refusal.None?
    {
      hide K.Valid, K.DbStep, K.KeepsLimits, K.Count;
      K.DeliverFacts(Tables(), peak, station, req);
      if station !in stations {
        return K.Refused(K.StationNotFound);
      }
      var invalid := ValidateDeliveryStation(stations[station], req);
      if invalid.Some? {
        return K.Refused(invalid.value);
      }
      var visibleBacklogSize := K.Count(rows, station, K.Displayed);
      if visibleBacklogSize >= stations[station].visibleBacklogLimit {
        return K.Refused(K.BacklogLimitExceeded);
      }
      var replay := K.FindKey(rows, req.key);
      if replay.Some? {
        return K.Delivered(replay.value, false);
      }
      var duplicate := K.FindTask(rows, req.task);
      if duplicate.Some? {
        return K.Refused(K.TaskAlreadyExists);
      }
      rows := rows + [K.NewRow(station, req)];
      return K.Delivered(|rows| - 1, true);
    }

    /** With nobody in between: a task already delivered is answered with its row whatever the
        station is like by now, and nothing changes; otherwise it is refused or gets its one row. */
    method DeliverTask(station: StationId, req: K.Delivery) returns (reply: K.DeliveryReply)
      requires Valid() && req.key == KDSIdempotencyKey(req.task)
      modifies this`rows
      ensures Valid()
      ensures var row := K.FindTask(old(rows), req.task);
              if row.Some? then reply == K.Delivered(row.value, false) && rows == old(rows)
              else if reply.Delivered?
              then reply == K.Delivered(|old(rows)|, true) && K.ShowsRow(old(Tables()), Tables(), station, req)
              else rows == old(rows) && K.DeliveryRefusal(old(Tables()), station, req) == Some(reply.error)
    {
      K.SameLookup(Tables(), req.task);
      var existing := K.FindKey(rows, req.key);
      if existing.Some? {
        return K.Delivered(existing.value, false);
      }
      reply := InsertDelivery(station, req);
    }

    // ----- claim -----

    method ValidateClaim(id: StationId, station: K.Station, row: K.Row) returns (error: Option<K.Error>)
      ensures error == K.ValidateClaim(id, station, row)
      ensures error.None? <==>
                && row.station == id && row.status == K.Displayed
                && station.status == K.Available && station.busySlots < station.capacity
      ensures error == Some(K.RowStationMismatch) <==> row.station != id
      ensures error == Some(K.StationNotAvailable) <==> row.station == id && station.status != K.Available
      ensures error == Some(K.AlreadyClaimed) <==>
                row.station == id && station.status == K.Available && row.status == K.Claimed
      ensures error == Some(K.NotDisplayed) <==>
                row.station == id && station.status == K.Available && row.status !in {K.Claimed, K.Displayed}
    {
      if row.station != id {
        return Some(K.RowStationMismatch);
      }
      if station.status != K.Available {
        return Some(K.StationNotAvailable);
      }
      if row.status == K.Claimed {
        return Some(K.AlreadyClaimed);
      }
      if row.status != K.Displayed {
        return Some(K.NotDisplayed);
      }
      if station.busySlots >= station.capacity {
        return Some(K.CapacityExceeded);
      }
      return None;
    }

    method BeginClaim(station: StationId, task: TaskId, worker: WorkerId, at: Time) returns (error: Option<K.Error>)
      requires Valid()
      modifies this`stations, this`rows
      ensures Valid() && error == K.ClaimRefusal(old(Tables()), station, task)
      ensures Tables() == if error.Some? then old(Tables()) else K.BeginClaim(old(Tables()), station, task, worker, at)
      ensures error.None? ==>
                K.TakesRow(old(Tables()), Tables(), station, K.FindTask(old(rows), task).value, worker, at)
    {
      hide K.Valid, K.DbStep, K.KeepsLimits;
      if station !in stations {
        return Some(K.StationNotFound);
      }
      var found := K.FindTask(rows, task);
      if found.None? {
        return Some(K.RowNotFound);
      }
      var k := found.value;
      error := ValidateClaim(station, stations[station], rows[k]);
      if error.Some? {
        return;
      }
      K.ClaimFacts(Tables(), peak, station, task, worker, at);
      rows := rows[k := rows[k].(status := K.Claimed)];
      rows := rows[k := rows[k].(claimedBy := Some(worker))];
      rows := rows[k := rows[k].(claimedAt := Some(at))];
      stations := stations[station := stations[station].(busySlots := stations[station].busySlots + 1)];
      assert Tables() == K.BeginClaim(old(Tables()), station, task, worker, at);
    }

    method CompensateClaim(task: TaskId, worker: WorkerId)
      requires Valid()
      modifies this`stations, this`rows
      ensures Valid() && Tables() == K.CompensateClaim(old(Tables()), task, worker)
      ensures var k := K.FindTask(old(rows), task);
              if k.Some? && old(rows)[k.value].status == K.Claimed && old(rows)[k.value].claimedBy == Some(worker)
              then K.ReleasesRow(old(Tables()), Tables(), k.value) else Tables() == old(Tables())
    {
      K.CompensateFacts(Tables(), peak, task, worker);
      var found := K.FindTask(rows, task);
      if found.None? {
        return;
      }
      var k := found.value;
      var station := rows[k].station;
      if station !in stations {
        return;
      }
      if rows[k].status == K.Claimed && rows[k].claimedBy == Some(worker) {
        rows := rows[k := rows[k].(status := K.Displayed)];
        rows := rows[k := rows[k].(claimedBy := None)];
        rows := rows[k := rows[k].(claimedAt := None)];
        stations := stations[station := stations[station].(busySlots := Max(0, stations[station].busySlots - 1))];
        assert Tables() == K.CompensateClaim(old(Tables()), task, worker);
      }
    }

    /** With nobody in between: a claim whose start call fails leaves both tables exactly as they were. */
    method ClaimTask(station: StationId, task: TaskId, worker: WorkerId, at: Time, start: CallResult)
      returns (failure: Option<Failure>)
      requires Valid()
      modifies this`stations, this`rows
      ensures Valid()
      ensures var refusal := K.ClaimRefusal(old(Tables()), station, task);
              && (failure.None? <==> refusal.None? && start == Accepted)
              && (refusal.Some? ==> failure == Some(Domain(refusal.value)))
              && (refusal.None? && start != Accepted ==> failure == Some(FailureOf(start)))
      ensures if failure.None?
              then K.TakesRow(old(Tables()), Tables(), station, K.FindTask(old(rows), task).value, worker, at)
              else Tables() == old(Tables())
    {
      var refusal := BeginClaim(station, task, worker, at);
      if refusal.Some? {
        return Some(Domain(refusal.value));
      }
      if start != Accepted {
        K.CompensationUndoesClaim(old(Tables()), peak, station, task, worker, at);
        CompensateClaim(task, worker);
        return Some(FailureOf(start));
      }
      return None;
    }

    // ----- complete -----

    method ValidateComplete(id: StationId, row: K.Row, worker: WorkerId) returns (error: Option<K.Error>)
      ensures error == K.ValidateComplete(id, row, worker)
      ensures error.None? <==> row.station == id && row.status == K.Claimed && row.claimedBy == Some(worker)
      ensures error == Some(K.RowStationMismatch) <==> row.station != id
      ensures error == Some(K.AlreadyCompleted) <==> row.station == id && row.status == K.Completed
      ensures error == Some(K.NotClaimed) <==> row.station == id && row.status !in {K.Claimed, K.Completed}
    {
      if row.station != id {
        return Some(K.RowStationMismatch);
      }
      if row.status == K.Completed {
        return Some(K.AlreadyCompleted);
      }
      if row.status != K.Claimed {
        return Some(K.NotClaimed);
      }
      if row.claimedBy != Some(worker) {
        return Some(K.ClaimedByAnother);
      }
      return None;
    }

    /** The k-th row is the task's, claimed at that station by that worker. */
    predicate IsOwned(k: nat, station: StationId, task: TaskId, worker: WorkerId)
      reads this`rows
    {
      && k < |rows| && rows[k].req.task == task && rows[k].station == station
      && rows[k].status == K.Claimed && rows[k].claimedBy == Some(worker)
    }

    method CheckComplete(station: StationId, task: TaskId, worker: WorkerId) returns (error: Option<K.Error>)
      ensures error == K.CompleteRefusal(Tables(), station, task, worker)
      ensures error.None? <==>
                && station in stations
                && exists k: nat :: IsOwned(k, station, task, worker) && K.FindTask(rows, task) == Some(k)
    {
      if station !in stations {
        return Some(K.StationNotFound);
      }
      var found := K.FindTask(rows, task);
      if found.None? {
        return Some(K.RowNotFound);
      }
      error := ValidateComplete(station, rows[found.value], worker);
      assert error.None? ==> IsOwned(found.value, station, task, worker);
    }

    method FinishComplete(station: StationId, task: TaskId, worker: WorkerId, at: Time) returns (error: Option<K.Error>)
      requires Valid()
      modifies this`stations, this`rows
      ensures Valid() && error == K.CompleteRefusal(old(Tables()), station, task, worker)
      ensures Tables() == if error.Some? then old(Tables()) else K.FinishComplete(old(Tables()), station, task, at)
      ensures error.None? ==> K.CompletesRow(old(Tables()), Tables(), station, K.FindTask(old(rows), task).value, at)
      ensures error.None? ==> stations[station].busySlots >= 0
    {
      error := CheckComplete(station, task, worker);
      if error.Some? {
        return;
      }
      K.FinishFacts(Tables(), peak, station, task, worker, at);
      var k := K.FindTask(rows, task).value;
      rows := rows[k := rows[k].(status := K.Completed)];
      rows := rows[k := rows[k].(completedAt := Some(at))];
      stations := stations[station := stations[station].(busySlots := Max(0, stations[station].busySlots - 1))];
      assert Tables() == K.FinishComplete(old(Tables()), station, task, at);
    }

    /** With nobody in between: the row is completed and its slot released exactly when the worker
        owns it and Fulfillment accepted; otherwise both tables are as they were. */
    method CompleteTask(station: StationId, task: TaskId, worker: WorkerId, at: Time, complete: CallResult)
      returns (failure: Option<Failure>)
      requires Valid()
      modifies this`stations, this`rows
      ensures Valid()
      ensures var refusal := K.CompleteRefusal(old(Tables()), station, task, worker);
              && (failure.None? <==> refusal.None? && complete == Accepted)
              && (refusal.Some? ==> failure == Some(Domain(refusal.value)))
              && (refusal.None? && complete != Accepted ==> failure == Some(FailureOf(complete)))
      ensures if failure.None?
              then K.CompletesRow(old(Tables()), Tables(), station, K.FindTask(old(rows), task).value, at)
              else Tables() == old(Tables())
    {
      var refusal := CheckComplete(station, task, worker);
      if refusal.Some? {
        return Some(Domain(refusal.value));
      }
      if complete != Accepted {
        return Some(FailureOf(complete));
      }
      refusal := FinishComplete(station, task, worker, at);
      assert refusal.None?;
      return None;
    }
  }
}
