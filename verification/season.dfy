/**
 * The season document as the standings engine sees it once the JSON has
 * been loaded: every optional number already coerced with `Number(x) || 0`,
 * every flag reduced to its truthiness, and every keyed object
 * (`byDriver`, `adjustments`) listed as its entries in enumeration order.
 */
module SeasonData {
  import opened Wrappers
  import Seqs

  type DriverId = string
  type RaceId = string

  /** A season driver; car number and colour are display-only and omitted. */
  datatype Driver = Driver(id: DriverId, name: string)

  /**
   * A calendar entry. `raceDate` is the date's sort key; `includeInStats`
   * is false only when the document says literally `false`.
   */
  datatype ScheduleEntry = ScheduleEntry(id: RaceId, round: int, raceDate: int, includeInStats: bool)

  /** One driver's qualifying and race outcome in one race. */
  datatype Outcome = Outcome(qualiPos: int, qDNP: bool, racePos: int, dnf: bool)

  /** One `byDriver` entry. */
  datatype DriverOutcome = DriverOutcome(driver: DriverId, outcome: Outcome)

  /**
   * One `adjustments` entry. `None` stands for points given as `""` or
   * `null`; any other value is already coerced to an integer.
   */
  datatype Adjustment = Adjustment(driver: DriverId, points: Option<int>)

  /** The recorded results of one race, joined to the schedule by `raceId`. */
  datatype RaceResult = RaceResult(raceId: RaceId, byDriver: seq<DriverOutcome>, adjustments: seq<Adjustment>)

  /** Qualifying and race points by position; a missing table is empty. */
  datatype PointsTables = PointsTables(quali: seq<int>, race: seq<int>)

  datatype Season = Season(drivers: seq<Driver>, schedule: seq<ScheduleEntry>, results: seq<RaceResult>, points: PointsTables)

  /** The one failure of the engine: dereferencing a driver id it has no tally for. */
  datatype Error = UnknownDriver(driver: DriverId)

  function DriverIds(drivers: seq<Driver>): set<DriverId> {
    set i | 0 <= i < |drivers| :: drivers[i].id
  }

  /** The driver record an id resolves to when the list is keyed by id: the last one listed with it. */
  function KnownDriver(drivers: seq<Driver>, id: DriverId): (r: Option<Driver>)
    ensures r.None? <==> forall i :: 0 <= i < |drivers| ==> drivers[i].id != id
    ensures r.Some? ==> exists i :: 0 <= i < |drivers| && drivers[i] == r.value && r.value.id == id
                                    && forall j :: i < j < |drivers| ==> drivers[j].id != id
  {
    if drivers == [] then None
    else
      var n := |drivers| - 1;
      if drivers[n].id == id then Some(drivers[n])
      else
        var r := KnownDriver(drivers[..n], id);
        KnownDriverStep(drivers, id, r);
        r
  }

  lemma KnownDriverStep(drivers: seq<Driver>, id: DriverId, r: Option<Driver>)
    requires |drivers| > 0 && drivers[|drivers| - 1].id != id
    requires var pre := drivers[..|drivers| - 1];
             && (r.None? <==> forall i :: 0 <= i < |pre| ==> pre[i].id != id)
             && (r.Some? ==> exists i :: 0 <= i < |pre| && pre[i] == r.value && r.value.id == id
                                         && forall j :: i < j < |pre| ==> pre[j].id != id)
    ensures r.None? <==> forall i :: 0 <= i < |drivers| ==> drivers[i].id != id
    ensures r.Some? ==> exists i :: 0 <= i < |drivers| && drivers[i] == r.value && r.value.id == id
                                    && forall j :: i < j < |drivers| ==> drivers[j].id != id
  {
    var n := |drivers| - 1;
    var pre := drivers[..n];
    if r.Some? {
      var i :| 0 <= i < |pre| && pre[i] == r.value && r.value.id == id
               && forall j :: i < j < |pre| ==> pre[j].id != id;
      assert drivers[i] == pre[i];
      forall j | i < j < |drivers|
        ensures drivers[j].id != id
      {
        if j < n {
          assert drivers[j] == pre[j];
        }
      }
    } else {
      forall i | 0 <= i < |drivers|
        ensures drivers[i].id != id
      {
        if i < n {
          assert drivers[i] == pre[i];
        }
      }
    }
  }

  /** No two season drivers share an id. */
  predicate DistinctIds(drivers: seq<Driver>) {
    forall i, j :: 0 <= i < j < |drivers| ==> drivers[i].id != drivers[j].id
  }

  /**
   * Whether a result counts towards the tallies: the first schedule entry
   * with its id decides, and a result for an unscheduled race counts.
   */
  function Included(schedule: seq<ScheduleEntry>, raceId: RaceId): (b: bool)
    ensures b <==> (forall j :: 0 <= j < |schedule| ==> schedule[j].id != raceId)
                   || (exists j :: 0 <= j < |schedule| && schedule[j].id == raceId && schedule[j].includeInStats
                                   && forall i :: 0 <= i < j ==> schedule[i].id != raceId)
  {
    match Seqs.FindFirst(schedule, (e: ScheduleEntry) => e.id == raceId)
    case None => true
    case Some(j) => schedule[j].includeInStats
  }

  /** The results `computePointsByDriver` folds, in their stored order. */
  function IncludedResults(s: Season): seq<RaceResult> {
    Seqs.Filter(s.results, (r: RaceResult) => Included(s.schedule, r.raceId))
  }

  /** Every listed driver id with a total of 0: where both the final and the race-by-race totals start. */
  function ZeroTotals(drivers: seq<Driver>): (m: map<DriverId, int>)
    ensures m.Keys == DriverIds(drivers)
    ensures forall id :: id in m ==> m[id] == 0
  {
    map id | id in DriverIds(drivers) :: 0
  }
}
