/**
 Stations and the task rows shown on them, as values. Every function is one
 transaction of the kitchen service: it maps the tables it locked to the tables
 it commits. Claiming and completing are two transactions each, because the
 service calls Fulfillment between them with no lock held.
 */
module Kds {
  import opened Common
  import opened Idempotency

  datatype StationStatus = Available | Unavailable | Maintenance
  datatype RowStatus = Displayed | Claimed | Completed | FailedRow | Removed

  datatype Station = Station(
    kitchen: KitchenId, stationType: string, status: StationStatus,
    capacity: int, busySlots: int, visibleBacklogLimit: int)

  datatype Delivery = Delivery(
    task: TaskId, order: OrderId, kitchen: KitchenId, stationType: string,
    operation: string, estimated: int, key: string)

  datatype Row = Row(
    req: Delivery, station: StationId, status: RowStatus,
    claimedBy: Option<WorkerId>, claimedAt: Option<Time>, completedAt: Option<Time>)

  // The key of a row is its position, so rows are only ever appended or overwritten.
  datatype Db = Db(stations: map<StationId, Station>, rows: seq<Row>)

  datatype Error =
    | StationNotFound | StationNotAvailable | KitchenMismatch | TypeMismatch
    | BacklogLimitExceeded | TaskAlreadyExists
    | RowNotFound | RowStationMismatch | AlreadyClaimed | NotDisplayed | CapacityExceeded
    | AlreadyCompleted | NotClaimed | ClaimedByAnother

  // 404 for a missing station or row, 409 for every other refusal.
  predicate IsConflict(e: Error) { !e.StationNotFound? && !e.RowNotFound? }

  // ----- queries -----

  function FindTask(rows: seq<Row>, task: TaskId): (r: Option<KdsId>)
    ensures r.Some? ==> r.value < |rows| && rows[r.value].req.task == task
    ensures r.None? <==> forall i | 0 <= i < |rows| :: rows[i].req.task != task
  {
    if rows == [] then None
    else if rows[|rows| - 1].req.task == task then Some(|rows| - 1)
    else FindTask(rows[..|rows| - 1], task)
  }

  function FindKey(rows: seq<Row>, key: string): (r: Option<KdsId>)
    ensures r.Some? ==> r.value < |rows| && rows[r.value].req.key == key
    ensures r.None? <==> forall i | 0 <= i < |rows| :: rows[i].req.key != key
  {
    if rows == [] then None
    else if rows[|rows| - 1].req.key == key then Some(|rows| - 1)
    else FindKey(rows[..|rows| - 1], key)
  }

  function One(b: bool): nat { if b then 1 else 0 }

  function Count(rows: seq<Row>, station: StationId, status: RowStatus): nat {
    if rows == [] then 0
    else Count(rows[..|rows| - 1], station, status)
         + One(rows[|rows| - 1].station == station && rows[|rows| - 1].status == status)
  }

  function VisibleBacklog(db: Db, station: StationId): nat { Count(db.rows, station, Displayed) }

  // ----- delivery -----

  function ValidateDelivery(station: Station, req: Delivery): Option<Error> {
    if station.status != Available then Some(StationNotAvailable)
    else if station.kitchen != req.kitchen then Some(KitchenMismatch)
    else if station.stationType != req.stationType then Some(TypeMismatch)
    else None
  }

  /** What deliver_task checks under the station lock, in its order. */
  function DeliveryRefusal(db: Db, station: StationId, req: Delivery): Option<Error> {
    if station !in db.stations then Some(StationNotFound)
    else if ValidateDelivery(db.stations[station], req).Some? then ValidateDelivery(db.stations[station], req)
    else if VisibleBacklog(db, station) >= db.stations[station].visibleBacklogLimit then Some(BacklogLimitExceeded)
    else None
  }

  datatype DeliveryReply = Delivered(row: KdsId, created: bool) | Refused(error: Error)
  datatype DeliveryOutcome = DeliveryOutcome(db: Db, reply: DeliveryReply)

  function NewRow(station: StationId, req: Delivery): Row {
    Row(req, station, Displayed, None, None, None)
  }

  /** The half of deliver_task that runs after the unlocked lookup by key found nothing.
      Inserting a second row for a key or a task violates a unique constraint: the
      transaction is rolled back and answered from the row that is there. */
  function DeliverTask(db: Db, station: StationId, req: Delivery): DeliveryOutcome {
    var refusal := DeliveryRefusal(db, station, req);
    if refusal.Some? then DeliveryOutcome(db, Refused(refusal.value))
    else
      var replay := FindKey(db.rows, req.key);
      if replay.Some? then DeliveryOutcome(db, Delivered(replay.value, false))
      else if FindTask(db.rows, req.task).Some? then DeliveryOutcome(db, Refused(TaskAlreadyExists))
      else DeliveryOutcome(db.(rows := db.rows + [NewRow(station, req)]), Delivered(|db.rows|, true))
  }

  // ----- claim -----

  function ValidateClaim(id: StationId, station: Station, row: Row): Option<Error> {
    if row.station != id then Some(RowStationMismatch)
    else if station.status != Available then Some(StationNotAvailable)
    else if row.status == Claimed then Some(AlreadyClaimed)
    else if row.status != Displayed then Some(NotDisplayed)
    else if station.busySlots >= station.capacity then Some(CapacityExceeded)
    else None
  }

  function ClaimRefusal(db: Db, station: StationId, task: TaskId): Option<Error> {
    if station !in db.stations then Some(StationNotFound)
    else if FindTask(db.rows, task).None? then Some(RowNotFound)
    else ValidateClaim(station, db.stations[station], db.rows[FindTask(db.rows, task).value])
  }

  function SetBusy(stations: map<StationId, Station>, id: StationId, busy: int): map<StationId, Station>
    requires id in stations
  {
    stations[id := stations[id].(busySlots := busy)]
  }

  /** The first transaction of claim_task: take the row and a slot, then call Fulfillment. */
  function BeginClaim(db: Db, station: StationId, task: TaskId, worker: WorkerId, at: Time): Db
    requires ClaimRefusal(db, station, task).None?
  {
    var k := FindTask(db.rows, task).value;
    Db(SetBusy(db.stations, station, db.stations[station].busySlots + 1),
       db.rows[k := db.rows[k].(status := Claimed, claimedBy := Some(worker), claimedAt := Some(at))])
  }

  /** Undo a claim whose start call failed, unless the row has moved on since. */
  function CompensateClaim(db: Db, task: TaskId, worker: WorkerId): Db {
    if FindTask(db.rows, task).None? then db
    else
      var k := FindTask(db.rows, task).value;
      var row := db.rows[k];
      if row.station !in db.stations then db
      else if row.status == Claimed && row.claimedBy == Some(worker) then
        Db(SetBusy(db.stations, row.station, Max(0, db.stations[row.station].busySlots - 1)),
           db.rows[k := row.(status := Displayed, claimedBy := None, claimedAt := None)])
      else db
  }

  // ----- complete -----

  function ValidateComplete(id: StationId, row: Row, worker: WorkerId): Option<Error> {
    if row.station != id then Some(RowStationMismatch)
    else if row.status == Completed then Some(AlreadyCompleted)
    else if row.status != Claimed then Some(NotClaimed)
    else if row.claimedBy != Some(worker) then Some(ClaimedByAnother)
    else None
  }

  /** The check complete_task makes before and again after its call to Fulfillment. */
  function CompleteRefusal(db: Db, station: StationId, task: TaskId, worker: WorkerId): Option<Error> {
    if station !in db.stations then Some(StationNotFound)
    else if FindTask(db.rows, task).None? then Some(RowNotFound)
    else ValidateComplete(station, db.rows[FindTask(db.rows, task).value], worker)
  }

  /** The last transaction of complete_task: release the slot for good. */
  function FinishComplete(db: Db, station: StationId, task: TaskId, at: Time): Db
    requires station in db.stations && FindTask(db.rows, task).Some?
  {
    var k := FindTask(db.rows, task).value;
    Db(SetBusy(db.stations, station, Max(0, db.stations[station].busySlots - 1)),
       db.rows[k := db.rows[k].(status := Completed, completedAt := Some(at))])
  }

  // ----- administration -----

  function CreateStation(db: Db, id: StationId, kitchen: KitchenId, stationType: string, capacity: int,
                         limit: int): Db {
    db.(stations := db.stations[id := Station(kitchen, stationType, Available, capacity, 0, limit)])
  }

  function RaisePeak(peak: map<StationId, int>, id: StationId, capacity: int): map<StationId, int> {
    peak[id := if id in peak then Max(peak[id], capacity) else capacity]
  }

  function SetCapacity(db: Db, id: StationId, capacity: int): Db
    requires id in db.stations
  {
    db.(stations := db.stations[id := db.stations[id].(capacity := capacity)])
  }

  function SetStatus(db: Db, id: StationId, status: StationStatus): Db
    requires id in db.stations
  {
    db.(stations := db.stations[id := db.stations[id].(status := status)])
  }

  // ----- when the calls are accepted -----

  /** A delivery is accepted exactly on a known station that is available, of the task's kitchen and
      type, and with a place left on its screen; otherwise the first check that fails says why. */
  lemma DeliveryAccepts(db: Db, station: StationId, req: Delivery)
    ensures var refusal := DeliveryRefusal(db, station, req);
            if station !in db.stations then refusal == Some(StationNotFound)
            else
              var st := db.stations[station];
              var full := Count(db.rows, station, Displayed) >= st.visibleBacklogLimit;
              && (refusal == Some(StationNotAvailable) <==> st.status != Available)
              && (refusal == Some(KitchenMismatch) <==> st.status == Available && st.kitchen != req.kitchen)
              && (refusal == Some(TypeMismatch) <==>
                    st.status == Available && st.kitchen == req.kitchen && st.stationType != req.stationType)
              && (refusal == Some(BacklogLimitExceeded) <==> full && OpenTo(st, req))
              && (refusal.None? <==> !full && OpenTo(st, req))
  {
  }

  predicate OpenTo(st: Station, req: Delivery) {
    st.status == Available && st.kitchen == req.kitchen && st.stationType == req.stationType
  }

  lemma ClaimAccepts(db: Db, station: StationId, task: TaskId)
    ensures var refusal := ClaimRefusal(db, station, task);
            if station !in db.stations then refusal == Some(StationNotFound)
            else if FindTask(db.rows, task).None? then refusal == Some(RowNotFound)
            else
              var st, row := db.stations[station], db.rows[FindTask(db.rows, task).value];
              var open := row.station == station && st.status == Available;
              && (refusal == Some(RowStationMismatch) <==> row.station != station)
              && (refusal == Some(StationNotAvailable) <==> row.station == station && st.status != Available)
              && (refusal == Some(AlreadyClaimed) <==> open && row.status == Claimed)
              && (refusal == Some(NotDisplayed) <==> open && row.status !in {Claimed, Displayed})
              && (refusal == Some(CapacityExceeded) <==> open && row.status == Displayed && st.busySlots >= st.capacity)
              && (refusal.None? <==> open && row.status == Displayed && st.busySlots < st.capacity)
  {
  }

  lemma CompleteAccepts(db: Db, station: StationId, task: TaskId, worker: WorkerId)
    ensures var refusal := CompleteRefusal(db, station, task, worker);
            if station !in db.stations then refusal == Some(StationNotFound)
            else if FindTask(db.rows, task).None? then refusal == Some(RowNotFound)
            else
              var row := db.rows[FindTask(db.rows, task).value];
              var own := row.station == station && row.status == Claimed;
              && (refusal == Some(RowStationMismatch) <==> row.station != station)
              && (refusal == Some(AlreadyCompleted) <==> row.station == station && row.status == Completed)
              && (refusal == Some(NotClaimed) <==> row.station == station && row.status !in {Claimed, Completed})
              && (refusal == Some(ClaimedByAnother) <==> own && row.claimedBy != Some(worker))
              && (refusal.None? <==> own && row.claimedBy == Some(worker))
  {
  }

  // ----- what the transactions write -----

  ghost predicate OnlyRow(rows: seq<Row>, rows': seq<Row>, k: KdsId) {
    k < |rows| == |rows'| && forall i | 0 <= i < |rows| && i != k :: rows'[i] == rows[i]
  }

  /** Of all stations only this one's busy slots change, by that many. */
  ghost predicate OnlySlots(stations: map<StationId, Station>, stations': map<StationId, Station>,
                            id: StationId, more: int) {
    && id in stations && stations'.Keys == stations.Keys
    && (forall s | s in stations && s != id :: stations'[s] == stations[s])
    && stations'[id] == stations[id].(busySlots := stations[id].busySlots + more)
  }

  /** The task gets a row of its own at the station: on display, and nothing else recorded. */
  ghost predicate ShowsRow(db: Db, db': Db, station: StationId, req: Delivery) {
    && db'.stations == db.stations && |db'.rows| == |db.rows| + 1 && db'.rows[..|db.rows|] == db.rows
    && var row := db'.rows[|db.rows|];
       && row.req == req && row.station == station && row.status == Displayed
       && row.claimedBy.None? && row.claimedAt.None? && row.completedAt.None?
  }

  /** The row is taken by the worker at that time, with one slot of its station. */
  ghost predicate TakesRow(db: Db, db': Db, station: StationId, k: KdsId, worker: WorkerId, at: Time) {
    && OnlyRow(db.rows, db'.rows, k) && OnlySlots(db.stations, db'.stations, station, 1)
    && db'.rows[k] == db.rows[k].(status := Claimed, claimedBy := Some(worker), claimedAt := Some(at))
  }

  /** The row is on display again as if it had never been taken, and its slot is free. */
  ghost predicate ReleasesRow(db: Db, db': Db, k: KdsId) {
    && OnlyRow(db.rows, db'.rows, k) && OnlySlots(db.stations, db'.stations, db.rows[k].station, -1)
    && db'.rows[k] == db.rows[k].(status := Displayed, claimedBy := None, claimedAt := None)
  }

  /** The row is completed at that time by the worker who took it, and its slot is free. */
  ghost predicate CompletesRow(db: Db, db': Db, station: StationId, k: KdsId, at: Time) {
    && OnlyRow(db.rows, db'.rows, k) && OnlySlots(db.stations, db'.stations, station, -1)
    && db'.rows[k] == db.rows[k].(status := Completed, completedAt := Some(at))
  }

  // ----- counting -----

  lemma {:induction false} CountUpdate(rows: seq<Row>, k: nat, row: Row, station: StationId, status: RowStatus)
    requires k < |rows|
    ensures Count(rows[k := row], station, status) + One(rows[k].station == station && rows[k].status == status)
         == Count(rows, station, status) + One(row.station == station && row.status == status)
  {
    var n := |rows| - 1;
    if k == n {
      assert rows[k := row][..n] == rows[..n];
    } else {
      assert rows[k := row][..n] == rows[..n][k := row];
      CountUpdate(rows[..n], k, row, station, status);
    }
  }

  lemma CountAppend(rows: seq<Row>, row: Row, station: StationId, status: RowStatus)
    ensures Count(rows + [row], station, status)
         == Count(rows, station, status) + One(row.station == station && row.status == status)
  {
  }

  lemma {:induction false} CountZero(rows: seq<Row>, station: StationId, status: RowStatus)
    requires forall i | 0 <= i < |rows| :: rows[i].station != station
    ensures Count(rows, station, status) == 0
  {
    if rows != [] { CountZero(rows[..|rows| - 1], station, status); }
  }

  lemma {:induction false} CountPositive(rows: seq<Row>, k: nat)
    requires k < |rows|
    ensures Count(rows, rows[k].station, rows[k].status) >= 1
  {
    if k < |rows| - 1 { CountPositive(rows[..|rows| - 1], k); }
  }

  // ----- the invariant of the two tables -----

  ghost predicate RowOk(stations: map<StationId, Station>, row: Row) {
    && row.req.key == KDSIdempotencyKey(row.req.task)
    && row.station in stations
    && stations[row.station].kitchen == row.req.kitchen
    && stations[row.station].stationType == row.req.stationType
    && StatusOk(row)
  }

  /** A row names a worker exactly while it is claimed or after it was completed. */
  predicate StatusOk(row: Row) {
    && row.status in {Displayed, Claimed, Completed}
    && (row.status == Displayed <==> row.claimedBy.None?)
    && (row.status == Displayed <==> row.claimedAt.None?)
    && (row.status == Completed <==> row.completedAt.Some?)
  }

  ghost predicate OneRowPerTask(rows: seq<Row>) {
    forall i, j | 0 <= i < j < |rows| :: rows[i].req.task != rows[j].req.task
  }

  /** One row per task, keyed by that task's own key, on a station of the right kind. */
  ghost predicate RowShape(db: Db) {
    && OneRowPerTask(db.rows)
    && (forall i | 0 <= i < |db.rows| :: RowOk(db.stations, db.rows[i]))
  }

  /** The counter of every station is the number of rows claimed on it. */
  ghost predicate SlotsConserved(db: Db) {
    forall s | s in db.stations :: db.stations[s].busySlots == Count(db.rows, s, Claimed)
  }

  /** peak records the largest capacity each station has had. */
  ghost predicate WithinPeak(db: Db, peak: map<StationId, int>) {
    && peak.Keys == db.stations.Keys
    && (forall s | s in db.stations :: StationWithin(db.stations[s], db.rows, s, peak[s]))
  }

  ghost predicate StationWithin(station: Station, rows: seq<Row>, s: StationId, peak: int) {
    && 1 <= station.capacity <= peak
    && station.busySlots <= peak
    && Count(rows, s, Displayed) + Count(rows, s, Claimed) <= station.visibleBacklogLimit + peak
  }

  /** The station shows no more unclaimed rows than its limit. */
  predicate Fits(db: Db, station: StationId) {
    station in db.stations ==> Count(db.rows, station, Displayed) <= db.stations[station].visibleBacklogLimit
  }

  /** Whatever screen was within its limit still is. */
  ghost predicate KeepsLimits(db: Db, db': Db) {
    forall s :: Fits(db, s) ==> Fits(db', s)
  }

  ghost predicate Valid(db: Db, peak: map<StationId, int>) {
    RowShape(db) && SlotsConserved(db) && WithinPeak(db, peak)
  }

  /** What every transaction keeps: rows stay where they are, and a completed row never changes. */
  ghost predicate DbStep(db: Db, db': Db) {
    && |db.rows| <= |db'.rows|
    && (forall i | 0 <= i < |db.rows| ::
         && db'.rows[i].req == db.rows[i].req
         && db'.rows[i].station == db.rows[i].station
         && (db.rows[i].status == Completed ==> db'.rows[i] == db.rows[i]))
    && db.stations.Keys <= db'.stations.Keys
    && (forall s | s in db.stations :: SameSite(db.stations[s], db'.stations[s]))
  }

  predicate SameSite(a: Station, b: Station) {
    b.kitchen == a.kitchen && b.stationType == a.stationType && b.visibleBacklogLimit == a.visibleBacklogLimit
  }

  lemma DbStepReflexive(db: Db)
    ensures DbStep(db, db)
  {
  }

  lemma LimitsReflexive(db: Db)
    ensures KeepsLimits(db, db)
  {
  }

  lemma CapacityWithinPeak(db: Db, peak: map<StationId, int>, id: StationId)
    requires Valid(db, peak) && id in db.stations
    ensures db.stations[id].capacity >= 1 && RaisePeak(peak, id, db.stations[id].capacity) == peak
  {
  }

  lemma FoundIsTheRow(db: Db, k: KdsId)
    requires RowShape(db) && k < |db.rows|
    ensures FindTask(db.rows, db.rows[k].req.task) == Some(k)
  {
  }

  // ----- the transactions keep it -----

  lemma AppendRow(db: Db, peak: map<StationId, int>, station: StationId, req: Delivery)
    requires Valid(db, peak) && req.key == KDSIdempotencyKey(req.task)
    requires DeliveryRefusal(db, station, req).None? && FindTask(db.rows, req.task).None?
    ensures var db' := db.(rows := db.rows + [NewRow(station, req)]);
            Valid(db', peak) && DbStep(db, db') && KeepsLimits(db, db')
  {
    var db' := db.(rows := db.rows + [NewRow(station, req)]);
    forall s | s in db.stations
      ensures Count(db'.rows, s, Claimed) == Count(db.rows, s, Claimed)
      ensures Count(db'.rows, s, Displayed) == Count(db.rows, s, Displayed) + One(s == station)
      ensures StationWithin(db'.stations[s], db'.rows, s, peak[s])
    {
      assert StationWithin(db.stations[s], db.rows, s, peak[s]);
      CountAppend(db.rows, NewRow(station, req), s, Claimed);
      CountAppend(db.rows, NewRow(station, req), s, Displayed);
    }
  }

  /** Looking a task up under its own key or under its identifier gives the same row. */
  lemma SameLookup(db: Db, task: TaskId)
    requires RowShape(db)
    ensures FindKey(db.rows, KDSIdempotencyKey(task)) == FindTask(db.rows, task)
  {
    var known, shown := FindKey(db.rows, KDSIdempotencyKey(task)), FindTask(db.rows, task);
    assert shown.Some? ==> RowOk(db.stations, db.rows[shown.value]);
    if known.Some? {
      assert RowOk(db.stations, db.rows[known.value]);
      KeyIsInjective(db.rows[known.value].req.task, task);
      FoundIsTheRow(db, known.value);
    }
  }

  lemma NotForTheTask(db: Db, station: StationId, req: Delivery)
    ensures DeliveryRefusal(db, station, req) != Some(TaskAlreadyExists)
  {
  }

  /** A task delivered under its own key gets one row, and every later delivery is answered
      with that row; the constraint on the task alone is never what refuses it. */
  lemma DeliverFacts(db: Db, peak: map<StationId, int>, station: StationId, req: Delivery)
    requires Valid(db, peak) && req.key == KDSIdempotencyKey(req.task)
    ensures var out := DeliverTask(db, station, req);
            Valid(out.db, peak) && DbStep(db, out.db) && KeepsLimits(db, out.db)
    ensures var out := DeliverTask(db, station, req);
            && out.reply != Refused(TaskAlreadyExists)
            && out.db.stations == db.stations
            && (out.reply.Delivered? ==> FindTask(out.db.rows, req.task) == Some(out.reply.row))
            && (if FindTask(db.rows, req.task).None? && DeliveryRefusal(db, station, req).None?
                then out.reply == Delivered(|db.rows|, true) && ShowsRow(db, out.db, station, req)
                else out.db == db && out.reply != Delivered(|db.rows|, true))
            && (DeliveryRefusal(db, station, req).Some? ==>
                  out.reply == Refused(DeliveryRefusal(db, station, req).value))
            && (DeliveryRefusal(db, station, req).None? ==> out.reply.Delivered?)
  {
    hide RowShape, SlotsConserved, WithinPeak, DbStep, KeepsLimits, DeliveryRefusal;
    var out := DeliverTask(db, station, req);
    NotForTheTask(db, station, req);
    SameLookup(db, req.task);
    DbStepReflexive(db);
    LimitsReflexive(db);
    if out.db != db { AppendRow(db, peak, station, req); }
  }

  /** Claimed, released by compensation, or completed. */
  predicate RowMove(a: RowStatus, b: RowStatus) {
    (a == Displayed && b == Claimed) || (a == Claimed && b in {Displayed, Completed})
  }

  /** A row that changes its status within displayed, claimed, completed moves the counts with it. */
  lemma MovedCounts(rows: seq<Row>, k: KdsId, row: Row, s: StationId)
    requires k < |rows| && row.station == rows[k].station
    requires RowMove(rows[k].status, row.status)
    ensures var rows' := rows[k := row];
            && Count(rows', s, Claimed) == Count(rows, s, Claimed)
                 + (if s == row.station then One(row.status == Claimed) - One(rows[k].status == Claimed) else 0)
            && Count(rows', s, Displayed) + Count(rows', s, Claimed)
               <= Count(rows, s, Displayed) + Count(rows, s, Claimed)
            && (row.status != Displayed ==> Count(rows', s, Displayed) <= Count(rows, s, Displayed))
  {
    CountUpdate(rows, k, row, s, Claimed);
    CountUpdate(rows, k, row, s, Displayed);
  }

  lemma MovedShape(db: Db, db': Db, k: KdsId)
    requires RowShape(db) && k < |db.rows| == |db'.rows| && db'.rows == db.rows[k := db'.rows[k]]
    requires db'.rows[k].req == db.rows[k].req && db'.rows[k].station == db.rows[k].station
    requires db.rows[k].status != Completed && StatusOk(db'.rows[k])
    requires db'.stations.Keys == db.stations.Keys
    requires forall s | s in db.stations :: SameSite(db.stations[s], db'.stations[s])
    ensures RowShape(db') && DbStep(db, db')
  {
  }

  /** Keeping the busy counter in step with the row keeps everything else. */
  lemma MoveRow(db: Db, db': Db, k: KdsId, row: Row, busy: int, peak: map<StationId, int>)
    requires Valid(db, peak) && k < |db.rows|
    requires row.req == db.rows[k].req && row.station == db.rows[k].station && StatusOk(row)
    requires RowMove(db.rows[k].status, row.status)
    requires row.station in db.stations
    requires busy == db.stations[row.station].busySlots + One(row.status == Claimed) - One(db.rows[k].status == Claimed)
    requires busy <= peak[row.station]
    requires db' == Db(SetBusy(db.stations, row.station, busy), db.rows[k := row])
    ensures Valid(db', peak) && DbStep(db, db')
    ensures row.status != Displayed ==> KeepsLimits(db, db')
  {
    forall s | s in db.stations
      ensures db'.stations[s].busySlots == Count(db'.rows, s, Claimed)
      ensures StationWithin(db'.stations[s], db'.rows, s, peak[s])
      ensures row.status != Displayed ==> Count(db'.rows, s, Displayed) <= Count(db.rows, s, Displayed)
    {
      assert StationWithin(db.stations[s], db.rows, s, peak[s]);
      MovedCounts(db.rows, k, row, s);
    }
    MovedShape(db, db', k);
  }

  lemma ClaimFacts(db: Db, peak: map<StationId, int>,
                   station: StationId, task: TaskId, worker: WorkerId, at: Time)
    requires Valid(db, peak) && ClaimRefusal(db, station, task).None?
    ensures var db' := BeginClaim(db, station, task, worker, at);
            Valid(db', peak) && DbStep(db, db') && KeepsLimits(db, db')
    ensures TakesRow(db, BeginClaim(db, station, task, worker, at), station, FindTask(db.rows, task).value, worker, at)
  {
    var k := FindTask(db.rows, task).value;
    var db' := BeginClaim(db, station, task, worker, at);
    MoveRow(db, db', k, db'.rows[k], db'.stations[station].busySlots, peak);
  }

  lemma CompensateFacts(db: Db, peak: map<StationId, int>, task: TaskId, worker: WorkerId)
    requires Valid(db, peak)
    ensures var db' := CompensateClaim(db, task, worker);
            Valid(db', peak) && DbStep(db, db')
    ensures var db' := CompensateClaim(db, task, worker);
            var k := FindTask(db.rows, task);
            if k.Some? && db.rows[k.value].status == Claimed && db.rows[k.value].claimedBy == Some(worker)
            then ReleasesRow(db, db', k.value) else db' == db
  {
    var db' := CompensateClaim(db, task, worker);
    if FindTask(db.rows, task).Some? { assert RowOk(db.stations, db.rows[FindTask(db.rows, task).value]); }
    if db' != db {
      var k := FindTask(db.rows, task).value;
      CountPositive(db.rows, k);
      MoveRow(db, db', k, db'.rows[k], db'.stations[db.rows[k].station].busySlots, peak);
    }
  }

  /** Compensation is the exact inverse of the claim: row, owner, time and slot. */
  lemma CompensationUndoesClaim(db: Db, peak: map<StationId, int>,
                                station: StationId, task: TaskId, worker: WorkerId, at: Time)
    requires Valid(db, peak) && ClaimRefusal(db, station, task).None?
    ensures CompensateClaim(BeginClaim(db, station, task, worker, at), task, worker) == db
  {
    var k := FindTask(db.rows, task).value;
    var claimed := BeginClaim(db, station, task, worker, at);
    ClaimFacts(db, peak, station, task, worker, at);
    assert claimed.rows[k].req.task == task;
    FoundIsTheRow(claimed, k);
    assert RowOk(db.stations, db.rows[k]);
    var undone := CompensateClaim(claimed, task, worker);
    assert undone.rows[k] == db.rows[k];
    assert undone.rows == db.rows;
    assert undone.stations[station] == db.stations[station];
    assert undone.stations == db.stations;
  }

  /** A row shown again leaves every other screen alone, and fits its own exactly when that had a place left. */
  lemma CompensationFits(db: Db, peak: map<StationId, int>, task: TaskId, worker: WorkerId, s: StationId)
    requires Valid(db, peak) && Fits(db, s) && CompensateClaim(db, task, worker) != db
    ensures FindTask(db.rows, task).Some?
    ensures var st := db.rows[FindTask(db.rows, task).value].station;
            && st in db.stations
            && (Fits(CompensateClaim(db, task, worker), s)
                <==> s != st || Count(db.rows, st, Displayed) < db.stations[st].visibleBacklogLimit)
  {
    var k := FindTask(db.rows, task).value;
    CountUpdate(db.rows, k, CompensateClaim(db, task, worker).rows[k], s, Displayed);
  }

  lemma FinishFacts(db: Db, peak: map<StationId, int>,
                    station: StationId, task: TaskId, worker: WorkerId, at: Time)
    requires Valid(db, peak) && CompleteRefusal(db, station, task, worker).None?
    ensures var db' := FinishComplete(db, station, task, at);
            Valid(db', peak) && DbStep(db, db') && KeepsLimits(db, db')
    ensures CompletesRow(db, FinishComplete(db, station, task, at), station, FindTask(db.rows, task).value, at)
    ensures db.stations[station].busySlots >= 1
  {
    var k := FindTask(db.rows, task).value;
    var db' := FinishComplete(db, station, task, at);
    CountPositive(db.rows, k);
    MoveRow(db, db', k, db'.rows[k], db'.stations[station].busySlots, peak);
  }

  /** Administration of one station: its site and counter stay, its capacity is remembered in the peak. */
  lemma StationFacts(db: Db, peak: map<StationId, int>, id: StationId, station: Station)
    requires Valid(db, peak) && station.capacity >= 1
    requires id in db.stations ==>
               SameSite(db.stations[id], station) && station.busySlots == db.stations[id].busySlots
    requires id !in db.stations ==> station.busySlots == 0 && station.visibleBacklogLimit >= 0
    ensures var db' := db.(stations := db.stations[id := station]);
            && Valid(db', RaisePeak(peak, id, station.capacity)) && DbStep(db, db')
            && KeepsLimits(db, db')
  {
    var db' := db.(stations := db.stations[id := station]);
    var peak' := RaisePeak(peak, id, station.capacity);
    if id !in db.stations {
      CountZero(db.rows, id, Claimed);
      CountZero(db.rows, id, Displayed);
    }
    forall s | s in db'.stations ensures StationWithin(db'.stations[s], db'.rows, s, peak'[s]) {
      assert s in db.stations ==> StationWithin(db.stations[s], db.rows, s, peak[s]);
    }
    forall i | 0 <= i < |db'.rows| ensures RowOk(db'.stations, db'.rows[i]) {
      assert RowOk(db.stations, db.rows[i]);
    }
  }
}
