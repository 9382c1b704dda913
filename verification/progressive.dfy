/**
 * `computeStandingsAfterEachRace`: replays the included races in race-date
 * order, keeping a running points total per driver, and records everyone's
 * position after each race.
 */
module Progressive {
  import opened Wrappers
  import opened SeasonData
  import opened Scoring
  import opened Ranking
  import Sorting
  import Seqs

  /** The positions recorded after one race. */
  datatype Snapshot = Snapshot(raceId: RaceId, round: int, positions: map<DriverId, int>)

  predicate RaceDateBefore(a: ScheduleEntry, b: ScheduleEntry) {
    a.raceDate < b.raceDate
  }

  /** The schedule entries with `includeInStats`, in their stored order. */
  function IncludedRaces(schedule: seq<ScheduleEntry>): seq<ScheduleEntry> {
    Seqs.Filter(schedule, (e: ScheduleEntry) => e.includeInStats)
  }

  /** The included schedule entries, stably sorted by race date. */
  function RaceOrder(schedule: seq<ScheduleEntry>): (races: seq<ScheduleEntry>)
    ensures multiset(races) == multiset(IncludedRaces(schedule))
    ensures |races| == |IncludedRaces(schedule)|
    ensures forall i, j :: 0 <= i < j < |races| ==> races[i].raceDate <= races[j].raceDate
  {
    var included := IncludedRaces(schedule);
    var races := Sorting.Sort(included, RaceDateBefore);
    assert |multiset(races)| == |multiset(included)|;
    races
  }

  /** Every replayed race is a schedule entry marked `includeInStats`. */
  lemma RaceOrderFromSchedule(schedule: seq<ScheduleEntry>, i: nat)
    requires i < |RaceOrder(schedule)|
    ensures RaceOrder(schedule)[i] in schedule && RaceOrder(schedule)[i].includeInStats
  {
    var races := RaceOrder(schedule);
    assert races[i] in multiset(races);
    assert races[i] in IncludedRaces(schedule);
  }

  /** The entries held on race date `d`. */
  function OnDate(d: int): ScheduleEntry -> bool {
    (e: ScheduleEntry) => e.raceDate == d
  }

  /**
   * The sort is stable: the included races held on any one date are
   * replayed in their schedule order.
   */
  lemma RaceOrderStable(schedule: seq<ScheduleEntry>, d: int)
    ensures Seqs.Filter(RaceOrder(schedule), OnDate(d)) == Seqs.Filter(IncludedRaces(schedule), OnDate(d))
  {
    assert Sorting.StrictOrder(RaceDateBefore);
    assert Sorting.Interchangeable(RaceDateBefore, OnDate(d));
    Sorting.SortStable(IncludedRaces(schedule), RaceDateBefore, OnDate(d));
  }

  /**
   * Credits one race's qualifying, race and adjustment points to the
   * running totals. Ids without a running total are never ranked, so
   * crediting them is left out.
   */
  function CreditOutcomes(cum: map<DriverId, int>, es: seq<DriverOutcome>, pts: PointsTables): (c: map<DriverId, int>)
    ensures c.Keys == cum.Keys
    ensures forall id :: id in cum ==> c[id] == cum[id] + QualiIn(es, id, pts.quali) + RaceIn(es, id, pts.race)
  {
    if es == [] then cum
    else
      var e := es[0];
      var cum' := if e.driver in cum then cum[e.driver := cum[e.driver] + QualiPoints(e.outcome, pts.quali) + RacePoints(e.outcome, pts.race)] else cum;
      CreditOutcomes(cum', es[1..], pts)
  }

  function CreditAdjustments(cum: map<DriverId, int>, adjs: seq<Adjustment>): (c: map<DriverId, int>)
    ensures c.Keys == cum.Keys
    ensures forall id :: id in cum ==> c[id] == cum[id] + AdjIn(adjs, id)
  {
    if adjs == [] then cum
    else
      var a := adjs[0];
      var cum' := if a.driver in cum then cum[a.driver := cum[a.driver] + AdjustmentValue(a)] else cum;
      CreditAdjustments(cum', adjs[1..])
  }

  /** The result the replay uses for a race: the first one stored with its id. */
  function ResultFor(results: seq<RaceResult>, raceId: RaceId): (r: Option<RaceResult>)
    ensures r.None? <==> forall k :: 0 <= k < |results| ==> results[k].raceId != raceId
    ensures r.Some? ==> exists k :: 0 <= k < |results| && results[k] == r.value && results[k].raceId == raceId
                                    && forall k' :: 0 <= k' < k ==> results[k'].raceId != raceId
  {
    match Seqs.FindFirst(results, (r: RaceResult) => r.raceId == raceId)
    case None => None
    case Some(k) => Some(results[k])
  }

  /** What one race adds to a driver's running total. */
  function RaceWorth(s: Season, race: ScheduleEntry, id: DriverId): int {
    match ResultFor(s.results, race.id)
    case None => 0
    case Some(res) => ResultPoints(res, id, s.points)
  }

  /** The running totals after one more race; a race with no result changes nothing. */
  function AfterRace(s: Season, cum: map<DriverId, int>, race: ScheduleEntry): (c: map<DriverId, int>)
    ensures c.Keys == cum.Keys
    ensures forall id :: id in cum ==> c[id] == cum[id] + RaceWorth(s, race, id)
  {
    match ResultFor(s.results, race.id)
    case None => cum
    case Some(res) => CreditAdjustments(CreditOutcomes(cum, res.byDriver, s.points), res.adjustments)
  }

  /** A race with no stored result leaves the running totals as they were. */
  lemma AfterRaceNoResult(s: Season, cum: map<DriverId, int>, race: ScheduleEntry)
    requires ResultFor(s.results, race.id).None?
    ensures AfterRace(s, cum, race) == cum
  {
  }

  /** `(s.drivers || []).find(d => d.id === id)?.name || ""`. */
  function FirstName(drivers: seq<Driver>, id: DriverId): string {
    match Seqs.FindFirst(drivers, (d: Driver) => d.id == id)
    case None => ""
    case Some(j) => drivers[j].name
  }

  /** One row per entry of the driver list, with its running total. */
  function TrendRows(drivers: seq<Driver>, cum: map<DriverId, int>): (rows: seq<Standing>)
    requires DriverIds(drivers) <= cum.Keys
    ensures |rows| == |drivers|
    ensures forall i :: 0 <= i < |rows| ==> rows[i] == Standing(drivers[i].id, FirstName(drivers, drivers[i].id), cum[drivers[i].id])
  {
    seq(|drivers|, i requires 0 <= i < |drivers| => Standing(drivers[i].id, FirstName(drivers, drivers[i].id), cum[drivers[i].id]))
  }

  /** Driver `i`'s row when ids are distinct: its own name and running total. */
  function RowOf(drivers: seq<Driver>, cum: map<DriverId, int>, i: nat): Standing
    requires i < |drivers| && DriverIds(drivers) <= cum.Keys
  {
    Standing(drivers[i].id, drivers[i].name, cum[drivers[i].id])
  }

  /** The positions after one race: every driver id gets one. */
  function SnapshotPositions(drivers: seq<Driver>, cum: map<DriverId, int>): (pos: map<DriverId, int>)
    requires DriverIds(drivers) <= cum.Keys
    ensures pos.Keys == DriverIds(drivers)
  {
    var rows := TrendRows(drivers, cum);
    assert IdsOf(rows) == DriverIds(drivers) by {
      assert forall i :: 0 <= i < |rows| ==> rows[i].id == drivers[i].id;
    }
    IdsOfPermutation(rows, Rank(rows));
    Positions(Rank(rows))
  }

  /** With distinct driver ids the positions after a race are exactly 1..N. */
  lemma SnapshotOneToN(drivers: seq<Driver>, cum: map<DriverId, int>)
    requires DriverIds(drivers) <= cum.Keys && DistinctIds(drivers)
    ensures OneToN(SnapshotPositions(drivers, cum), |drivers|)
  {
    var rows := TrendRows(drivers, cum);
    assert UniqueIds(rows);
    RankedPositions(rows);
  }

  /**
   * With distinct ids, a driver with more running points, or as many and
   * an earlier name, holds the smaller position after the race.
   */
  lemma SnapshotOrder(drivers: seq<Driver>, cum: map<DriverId, int>, i: nat, j: nat)
    requires DriverIds(drivers) <= cum.Keys && DistinctIds(drivers)
    requires i < |drivers| && j < |drivers|
    ensures RankBefore(RowOf(drivers, cum, i), RowOf(drivers, cum, j))
            ==> SnapshotPositions(drivers, cum)[drivers[i].id] < SnapshotPositions(drivers, cum)[drivers[j].id]
    ensures SnapshotPositions(drivers, cum)[drivers[i].id] < SnapshotPositions(drivers, cum)[drivers[j].id]
            ==> !RankBefore(RowOf(drivers, cum, j), RowOf(drivers, cum, i))
  {
    var rows := TrendRows(drivers, cum);
    FirstNameOfDistinct(drivers, i);
    FirstNameOfDistinct(drivers, j);
    assert rows[i] == RowOf(drivers, cum, i) && rows[j] == RowOf(drivers, cum, j);
    assert UniqueIds(rows);
    RankedOrder(rows, i, j);
  }

  /** With distinct ids, the name lookup finds the driver's own entry. */
  lemma FirstNameOfDistinct(drivers: seq<Driver>, i: nat)
    requires DistinctIds(drivers) && i < |drivers|
    ensures FirstName(drivers, drivers[i].id) == drivers[i].name
  {
    var found := Seqs.FindFirst(drivers, (d: Driver) => d.id == drivers[i].id);
    assert found.Some?;
  }

  /** The running totals after the first `n` of `races`, starting from `cum`. */
  function Cumulative(s: Season, races: seq<ScheduleEntry>, cum: map<DriverId, int>, n: nat): (c: map<DriverId, int>)
    requires n <= |races|
    ensures c.Keys == cum.Keys
    decreases n
  {
    if n == 0 then cum else Cumulative(s, races[1..], AfterRace(s, cum, races[0]), n - 1)
  }

  /** What a run of races adds to a driver's total, race by race. */
  function WorthSum(s: Season, races: seq<ScheduleEntry>, id: DriverId): int {
    if races == [] then 0 else RaceWorth(s, races[0], id) + WorthSum(s, races[1..], id)
  }

  lemma {:induction false} WorthSumSnoc(s: Season, races: seq<ScheduleEntry>, id: DriverId)
    requires |races| > 0
    ensures WorthSum(s, races, id) == WorthSum(s, races[..|races| - 1], id) + RaceWorth(s, races[|races| - 1], id)
  {
    if |races| > 1 {
      assert races[1..][..|races| - 2] == races[..|races| - 1][1..];
      WorthSumSnoc(s, races[1..], id);
    }
  }

  /** A driver's running total is the starting total plus every replayed race's worth. */
  lemma {:induction false} CumulativeIsSum(s: Season, races: seq<ScheduleEntry>, cum: map<DriverId, int>, n: nat, id: DriverId)
    requires n <= |races| && id in cum
    ensures Cumulative(s, races, cum, n)[id] == cum[id] + WorthSum(s, races[..n], id)
    decreases n
  {
    if n > 0 {
      CumulativeIsSum(s, races[1..], AfterRace(s, cum, races[0]), n - 1, id);
      assert races[1..][..n - 1] == races[..n][1..];
    }
  }

  /** Replaying one more race applies exactly that race to the running totals. */
  lemma {:induction false} CumulativeStep(s: Season, races: seq<ScheduleEntry>, cum: map<DriverId, int>, n: nat)
    requires n < |races|
    ensures Cumulative(s, races, cum, n + 1) == AfterRace(s, Cumulative(s, races, cum, n), races[n])
    decreases n
  {
    if n > 0 {
      CumulativeStep(s, races[1..], AfterRace(s, cum, races[0]), n - 1);
      assert races[1..][n - 1] == races[n];
    }
  }

  /** Replaying `n` races is replaying the other `n - 1` after the first. */
  lemma CumulativeFirst(s: Season, races: seq<ScheduleEntry>, cum: map<DriverId, int>, n: nat)
    requires 0 < n <= |races|
    ensures Cumulative(s, races, cum, n) == Cumulative(s, races[1..], AfterRace(s, cum, races[0]), n - 1)
  {
  }

  /** The snapshots of the remaining `races`, starting from running totals `cum`. */
  function Replay(s: Season, races: seq<ScheduleEntry>, cum: map<DriverId, int>): (out: seq<Snapshot>)
    requires cum.Keys == DriverIds(s.drivers)
    ensures |out| == |races|
    decreases |races|
  {
    if races == [] then []
    else
      var cum' := AfterRace(s, cum, races[0]);
      [Snapshot(races[0].id, races[0].round, SnapshotPositions(s.drivers, cum'))] + Replay(s, races[1..], cum')
  }

  /** The first snapshot of a replay ranks the totals after its first race. */
  lemma ReplayHead(s: Season, races: seq<ScheduleEntry>, cum: map<DriverId, int>)
    requires cum.Keys == DriverIds(s.drivers) && |races| > 0
    ensures Replay(s, races, cum)[0]
            == Snapshot(races[0].id, races[0].round, SnapshotPositions(s.drivers, AfterRace(s, cum, races[0])))
  {
    assert races != [];
  }

  /** Every later snapshot is the replay of the remaining races from the updated totals. */
  lemma ReplayTail(s: Season, races: seq<ScheduleEntry>, cum: map<DriverId, int>, k: nat)
    requires cum.Keys == DriverIds(s.drivers) && 0 < k < |races|
    ensures Replay(s, races, cum)[k] == Replay(s, races[1..], AfterRace(s, cum, races[0]))[k - 1]
  {
    assert races != [];
  }

  /** The `k`-th snapshot ranks the totals after the first `k + 1` races. */
  lemma ReplayAt(s: Season, races: seq<ScheduleEntry>, cum: map<DriverId, int>, k: nat)
    requires cum.Keys == DriverIds(s.drivers) && k < |races|
    ensures Replay(s, races, cum)[k].raceId == races[k].id
    ensures Replay(s, races, cum)[k].round == races[k].round
    ensures Replay(s, races, cum)[k].positions == SnapshotPositions(s.drivers, Cumulative(s, races, cum, k + 1))
  {
    ReplayRaceAt(s, races, cum, k);
    ReplayPositionsAfter(s, races, cum, k + 1);
  }

  /** The `k`-th snapshot names the `k`-th race. */
  lemma {:induction false} ReplayRaceAt(s: Season, races: seq<ScheduleEntry>, cum: map<DriverId, int>, k: nat)
    requires cum.Keys == DriverIds(s.drivers) && k < |races|
    ensures Replay(s, races, cum)[k].raceId == races[k].id
    ensures Replay(s, races, cum)[k].round == races[k].round
    decreases k
  {
    if k > 0 {
      var c1 := AfterRace(s, cum, races[0]);
      ReplayTail(s, races, cum, k);
      ReplayRaceAt(s, races[1..], c1, k - 1);
      assert races[1..][k - 1] == races[k];
    } else {
      ReplayHeadRace(s, races, cum);
    }
  }

  /** The first snapshot names the first race. */
  lemma ReplayHeadRace(s: Season, races: seq<ScheduleEntry>, cum: map<DriverId, int>)
    requires cum.Keys == DriverIds(s.drivers) && |races| > 0
    ensures Replay(s, races, cum)[0].raceId == races[0].id
    ensures Replay(s, races, cum)[0].round == races[0].round
  {
    ReplayHead(s, races, cum);
  }

  /** The snapshot of the `n`-th race ranks the totals after the first `n` races. */
  lemma {:induction false} ReplayPositionsAfter(s: Season, races: seq<ScheduleEntry>, cum: map<DriverId, int>, n: nat)
    requires cum.Keys == DriverIds(s.drivers) && 0 < n <= |races|
    ensures Replay(s, races, cum)[n - 1].positions == SnapshotPositions(s.drivers, Cumulative(s, races, cum, n))
    decreases n
  {
    CumulativeFirst(s, races, cum, n);
    if n > 1 {
      ReplayTail(s, races, cum, n - 1);
      ReplayPositionsAfter(s, races[1..], AfterRace(s, cum, races[0]), n - 1);
    } else {
      ReplayHead(s, races, cum);
    }
  }

  /**
   * `computeStandingsAfterEachRace`: one snapshot per included schedule
   * entry, in race-date order.
   */
  function ComputeStandingsAfterEachRace(s: Season): (out: seq<Snapshot>)
    ensures |out| == |IncludedRaces(s.schedule)|
  {
    Replay(s, RaceOrder(s.schedule), ZeroTotals(s.drivers))
  }

  /** The season totals after the first `n` included races in date order. */
  function TotalsAfter(s: Season, n: nat): (c: map<DriverId, int>)
    requires n <= |RaceOrder(s.schedule)|
    ensures c.Keys == DriverIds(s.drivers)
  {
    Cumulative(s, RaceOrder(s.schedule), ZeroTotals(s.drivers), n)
  }
}

/** Facts about the race-by-race standings. */
module ProgressiveFacts {
  import opened SeasonData
  import opened Ranking
  import opened Progressive

  /**
   * The `k`-th snapshot names the `k`-th included race in date order and
   * ranks every season driver by the points they have scored in that race
   * and the ones before it.
   */
  lemma SnapshotAfterRace(s: Season, k: nat)
    requires k < |ComputeStandingsAfterEachRace(s)|
    ensures var snap := ComputeStandingsAfterEachRace(s)[k];
            && snap.raceId == RaceOrder(s.schedule)[k].id
            && snap.round == RaceOrder(s.schedule)[k].round
            && snap.positions == SnapshotPositions(s.drivers, TotalsAfter(s, k + 1))
            && snap.positions.Keys == DriverIds(s.drivers)
            && (DistinctIds(s.drivers) ==> OneToN(snap.positions, |s.drivers|))
  {
    ReplayAt(s, RaceOrder(s.schedule), ZeroTotals(s.drivers), k);
    if DistinctIds(s.drivers) {
      SnapshotOneToN(s.drivers, TotalsAfter(s, k + 1));
    }
  }

  /** A driver's total after `n` races is the sum of those races' worth to them. */
  lemma TotalsAfterIsSum(s: Season, n: nat, id: DriverId)
    requires n <= |RaceOrder(s.schedule)| && id in DriverIds(s.drivers)
    ensures TotalsAfter(s, n)[id] == WorthSum(s, RaceOrder(s.schedule)[..n], id)
  {
    CumulativeIsSum(s, RaceOrder(s.schedule), ZeroTotals(s.drivers), n, id);
  }

  /**
   * With distinct ids, after race `k` a driver ahead on points, or level
   * on points with an earlier name, holds the smaller position.
   */
  lemma SnapshotRanksByTotal(s: Season, k: nat, i: nat, j: nat)
    requires k < |ComputeStandingsAfterEachRace(s)| && DistinctIds(s.drivers)
    requires i < |s.drivers| && j < |s.drivers|
    ensures ComputeStandingsAfterEachRace(s)[k].positions == SnapshotPositions(s.drivers, TotalsAfter(s, k + 1))
    ensures var pos := ComputeStandingsAfterEachRace(s)[k].positions;
            var cum := TotalsAfter(s, k + 1);
            && (RankBefore(RowOf(s.drivers, cum, i), RowOf(s.drivers, cum, j)) ==> pos[s.drivers[i].id] < pos[s.drivers[j].id])
            && (pos[s.drivers[i].id] < pos[s.drivers[j].id] ==> !RankBefore(RowOf(s.drivers, cum, j), RowOf(s.drivers, cum, i)))
  {
    ReplayAt(s, RaceOrder(s.schedule), ZeroTotals(s.drivers), k);
    SnapshotOrder(s.drivers, TotalsAfter(s, k + 1), i, j);
  }

  /** A race with no stored result leaves everyone's position where it was. */
  lemma NoResultKeepsPositions(s: Season, k: nat)
    requires 0 < k < |ComputeStandingsAfterEachRace(s)|
    requires ResultFor(s.results, RaceOrder(s.schedule)[k].id).None?
    ensures ComputeStandingsAfterEachRace(s)[k].positions == ComputeStandingsAfterEachRace(s)[k - 1].positions
  {
    ReplayNoResult(s, RaceOrder(s.schedule), ZeroTotals(s.drivers), k);
  }

  /** In any replay, a race with no stored result repeats the previous snapshot's positions. */
  lemma {:induction false} ReplayNoResult(s: Season, races: seq<ScheduleEntry>, cum: map<DriverId, int>, k: nat)
    requires cum.Keys == DriverIds(s.drivers) && 0 < k < |races|
    requires ResultFor(s.results, races[k].id).None?
    ensures Replay(s, races, cum)[k].positions == Replay(s, races, cum)[k - 1].positions
    decreases k
  {
    var cum' := AfterRace(s, cum, races[0]);
    assert races[1..][k - 1] == races[k];
    ReplayTail(s, races, cum, k);
    if k > 1 {
      ReplayTail(s, races, cum, k - 1);
      ReplayNoResult(s, races[1..], cum', k - 1);
    } else {
      ReplayHead(s, races, cum);
      ReplayHead(s, races[1..], cum');
      AfterRaceNoResult(s, cum', races[1..][0]);
    }
  }

  /** Replaying a race that has no stored result leaves the running totals as they were. */
  lemma NoResultSameTotals(s: Season, races: seq<ScheduleEntry>, cum: map<DriverId, int>, k: nat)
    requires k < |races| && ResultFor(s.results, races[k].id).None?
    ensures Cumulative(s, races, cum, k + 1) == Cumulative(s, races, cum, k)
  {
    CumulativeStep(s, races, cum, k);
    AfterRaceNoResult(s, Cumulative(s, races, cum, k), races[k]);
  }
}
