/** The query behind the candidate list, and why its answer is the stations a delivery would accept. */
module Candidates {
  import opened Common
  import opened Kds
  import opened StationSelector

  /** The grouped subquery: displayed rows counted per station; a station without any has no group. */
  function BacklogGroups(rows: seq<Row>): map<StationId, nat> {
    if rows == [] then map[]
    else
      var groups := BacklogGroups(rows[..|rows| - 1]);
      var row := rows[|rows| - 1];
      if row.status == Displayed then groups[row.station := Coalesce(groups, row.station) + 1] else groups
  }

  function Coalesce(groups: map<StationId, nat>, station: StationId): nat {
    if station in groups then groups[station] else 0
  }

  lemma {:induction false} GroupsAreCounts(rows: seq<Row>, station: StationId)
    ensures Coalesce(BacklogGroups(rows), station) == Count(rows, station, Displayed)
  {
    if rows != [] { GroupsAreCounts(rows[..|rows| - 1], station); }
  }

  /** The rows the outer join keeps. */
  predicate Selected(db: Db, kitchen: KitchenId, stationType: string, station: StationId) {
    && station in db.stations
    && db.stations[station].kitchen == kitchen
    && db.stations[station].stationType == stationType
    && db.stations[station].status == Available
    && Coalesce(BacklogGroups(db.rows), station) < db.stations[station].visibleBacklogLimit
  }

  function AsCandidate(db: Db, station: StationId): DispatchCandidate
    requires station in db.stations
  {
    var s := db.stations[station];
    DispatchCandidate(station, if s.status == Available then "available" else "unavailable", "ok",
                      s.capacity, s.busySlots, Coalesce(BacklogGroups(db.rows), station), s.visibleBacklogLimit)
  }

  /** A list the query may return: each selected station once, with its own figures. */
  ghost predicate QueryResult(db: Db, kitchen: KitchenId, stationType: string, result: seq<DispatchCandidate>) {
    && DistinctStations(result)
    && (forall s :: Selected(db, kitchen, stationType, s) ==> AsCandidate(db, s) in result)
    && (forall c | c in result :: Selected(db, kitchen, stationType, c.station) && c == AsCandidate(db, c.station))
  }

  /** In the same state the query offers exactly the stations whose delivery checks pass. */
  lemma SelectedMeansAccepted(db: Db, station: StationId, req: Delivery)
    ensures Selected(db, req.kitchen, req.stationType, station) <==> DeliveryRefusal(db, station, req).None?
  {
    GroupsAreCounts(db.rows, station);
  }

  /** Fewer rows on the screen, then fewer busy slots, then the earlier identifier. */
  ghost predicate Favoured(db: Db, s: StationId, d: StationId)
    requires s in db.stations && d in db.stations
  {
    && VisibleBacklog(db, s) <= VisibleBacklog(db, d)
    && (VisibleBacklog(db, s) == VisibleBacklog(db, d) ==>
          && db.stations[s].busySlots <= db.stations[d].busySlots
          && (db.stations[s].busySlots == db.stations[d].busySlots ==> Precedes(s, d)))
  }

  /** What the dispatcher may pick from the state it asked about: the one favoured over all other
      stations that would accept the task, or nothing when every station would refuse. */
  ghost predicate RightChoice(db: Db, req: Delivery, choice: Option<StationId>) {
    match choice
    case None => forall s :: DeliveryRefusal(db, s, req).Some?
    case Some(s) =>
      && DeliveryRefusal(db, s, req).None?
      && (forall d :: d != s && DeliveryRefusal(db, d, req).None? ==>
            Favoured(db, s, d))
  }

  lemma PreferredIsFavoured(db: Db, s: StationId, d: StationId)
    requires s in db.stations && d in db.stations && Preferred(AsCandidate(db, s), AsCandidate(db, d))
    ensures Favoured(db, s, d)
  {
    GroupsAreCounts(db.rows, s);
    GroupsAreCounts(db.rows, d);
  }

  /** Selecting from the answer of the query picks the right station of the whole kitchen. */
  lemma SelectionIsRight(db: Db, req: Delivery, result: seq<DispatchCandidate>)
    requires QueryResult(db, req.kitchen, req.stationType, result)
    ensures RightChoice(db, req, match Choose(result) case None => None case Some(c) => Some(c.station))
  {
    ChooseIsBest(result);
    forall s ensures Selected(db, req.kitchen, req.stationType, s) <==> DeliveryRefusal(db, s, req).None? {
      SelectedMeansAccepted(db, s, req);
    }
    forall s | Selected(db, req.kitchen, req.stationType, s) ensures Eligible(AsCandidate(db, s)) {}
    if Choose(result).Some? {
      var best := Choose(result).value.station;
      forall d | d != best && DeliveryRefusal(db, d, req).None? ensures Favoured(db, best, d) {
        PreferredIsFavoured(db, best, d);
      }
    }
  }
}
