/**
 * `computeFinalStandings`: the season-final ranking. Unlike the tallies it
 * sums every stored result, whatever the schedule's `includeInStats` says,
 * and it reads a driver's total without checking that the driver exists.
 */
module FinalStandings {
  import opened Wrappers
  import opened SeasonData
  import opened Scoring
  import opened Ranking
  import Seqs

  /** The roster entry with id `id`, as the search predicate for `find`. */
  function HasId(id: DriverId): Driver -> bool {
    (x: Driver) => x.id == id
  }

  /**
   * The drivers as `Object.values` of an object keyed by id sees them: one
   * per id, at the place of the id's first occurrence, carrying the latest
   * driver record with that id.
   */
  function Roster(drivers: seq<Driver>): (r: seq<Driver>)
    ensures DistinctIds(r)
    ensures DriverIds(r) == DriverIds(drivers)
    ensures forall i :: 0 <= i < |r| ==> r[i] in drivers
    ensures |r| <= |drivers|
  {
    if drivers == [] then []
    else
      var n := |drivers| - 1;
      var d := drivers[n];
      var r := Roster(drivers[..n]);
      DriverIdsSnoc(drivers);
      match Seqs.FindFirst(r, HasId(d.id))
      case None =>
        RosterAppend(r, d, drivers);
        r + [d]
      case Some(k) =>
        RosterReplace(r, k, d, drivers);
        r[k := d]
  }

  lemma DriverIdsSnoc(drivers: seq<Driver>)
    requires |drivers| > 0
    ensures DriverIds(drivers) == DriverIds(drivers[..|drivers| - 1]) + {drivers[|drivers| - 1].id}
    ensures forall x :: x in drivers[..|drivers| - 1] ==> x in drivers
  {
    var n := |drivers| - 1;
    assert forall i :: 0 <= i < n ==> drivers[..n][i] == drivers[i];
  }

  lemma RosterAppend(r: seq<Driver>, d: Driver, drivers: seq<Driver>)
    requires DistinctIds(r)
    requires forall i :: 0 <= i < |r| ==> r[i].id != d.id
    requires forall i :: 0 <= i < |r| ==> r[i] in drivers
    requires d in drivers
    ensures DistinctIds(r + [d])
    ensures DriverIds(r + [d]) == DriverIds(r) + {d.id}
    ensures forall i :: 0 <= i < |r + [d]| ==> (r + [d])[i] in drivers
  {
    var r' := r + [d];
    assert forall i :: 0 <= i < |r| ==> r'[i] == r[i];
    assert r'[|r|] == d;
    forall id | id in DriverIds(r')
      ensures id in DriverIds(r) + {d.id}
    {
      var i :| 0 <= i < |r'| && r'[i].id == id;
      if i < |r| {
        assert r[i].id == id;
      }
    }
    forall id | id in DriverIds(r)
      ensures id in DriverIds(r')
    {
      var i :| 0 <= i < |r| && r[i].id == id;
      assert r'[i].id == id;
    }
  }

  lemma RosterReplace(r: seq<Driver>, k: nat, d: Driver, drivers: seq<Driver>)
    requires DistinctIds(r)
    requires k < |r| && r[k].id == d.id
    requires forall i :: 0 <= i < |r| ==> r[i] in drivers
    requires d in drivers
    ensures var r' := r[k := d];
      && DistinctIds(r')
      && DriverIds(r') == DriverIds(r)
      && forall i :: 0 <= i < |r'| ==> r'[i] in drivers
  {
    var r' := r[k := d];
    assert forall i :: 0 <= i < |r| && i != k ==> r'[i] == r[i];
    forall id | id in DriverIds(r')
      ensures id in DriverIds(r)
    {
      var i :| 0 <= i < |r'| && r'[i].id == id;
      assert r[i].id == id;
    }
    forall id | id in DriverIds(r)
      ensures id in DriverIds(r')
    {
      var i :| 0 <= i < |r| && r[i].id == id;
      assert r'[i].id == id;
    }
  }

  /** Each roster entry is the record its id resolves to: the last one listed with that id. */
  lemma {:induction false} RosterHoldsLatest(drivers: seq<Driver>)
    ensures forall i :: 0 <= i < |Roster(drivers)| ==> KnownDriver(drivers, Roster(drivers)[i].id) == Some(Roster(drivers)[i])
  {
    if drivers != [] {
      var n := |drivers| - 1;
      var d := drivers[n];
      var r := Roster(drivers[..n]);
      RosterHoldsLatest(drivers[..n]);
      var r' := Roster(drivers);
      forall i | 0 <= i < |r'|
        ensures KnownDriver(drivers, r'[i].id) == Some(r'[i])
      {
        if r'[i].id != d.id {
          assert KnownDriver(drivers, r'[i].id) == KnownDriver(drivers[..n], r'[i].id);
          match Seqs.FindFirst(r, HasId(d.id))
          case None =>
            assert r' == r + [d];
            assert r'[i] == r[i];
          case Some(k) =>
            assert r' == r[k := d];
            assert r'[i] == r[i];
        } else {
          match Seqs.FindFirst(r, HasId(d.id))
          case None =>
            assert r' == r + [d];
            assert i == |r|;
          case Some(k) =>
            assert r' == r[k := d];
            assert i == k;
        }
      }
    }
  }

  /** With distinct ids the roster is the driver list itself. */
  lemma {:induction false} RosterOfDistinct(drivers: seq<Driver>)
    requires DistinctIds(drivers)
    ensures Roster(drivers) == drivers
  {
    if drivers != [] {
      var n := |drivers| - 1;
      var d := drivers[n];
      assert DistinctIds(drivers[..n]);
      RosterOfDistinct(drivers[..n]);
      assert Seqs.FindFirst(Roster(drivers[..n]), HasId(d.id)).None?;
      Seqs.SnocPrefix(drivers);
    }
  }

  function CreditFinal(m: map<DriverId, int>, e: DriverOutcome, pts: PointsTables): map<DriverId, int> {
    if e.driver in m then m[e.driver := m[e.driver] + QualiPoints(e.outcome, pts.quali) + RacePoints(e.outcome, pts.race)]
    else m
  }

  /** The `byDriver` loop: an entry passing a gate for an unknown id fails. */
  function AddFinalOutcomes(m: map<DriverId, int>, es: seq<DriverOutcome>, pts: PointsTables): (r: Result<map<DriverId, int>, Error>)
    ensures r.Failure? <==> exists j :: 0 <= j < |es| && Scores(es[j].outcome) && es[j].driver !in m
    ensures r.Failure? ==> r.error.driver !in m
    ensures r.Success? ==> r.value.Keys == m.Keys
    ensures r.Success? ==> forall id :: id in m ==>
      r.value[id] == m[id] + QualiIn(es, id, pts.quali) + RaceIn(es, id, pts.race)
  {
    if es == [] then Success(m)
    else if Scores(es[0].outcome) && es[0].driver !in m then Failure(UnknownDriver(es[0].driver))
    else
      var r := AddFinalOutcomes(CreditFinal(m, es[0], pts), es[1..], pts);
      UnknownEntryShift(es, m.Keys);
      r
  }

  /** The `adjustments` loop: unlike the tallies, any unknown id fails, whatever its points. */
  function AddFinalAdjustments(m: map<DriverId, int>, adjs: seq<Adjustment>): (r: Result<map<DriverId, int>, Error>)
    ensures r.Failure? <==> exists j :: 0 <= j < |adjs| && adjs[j].driver !in m
    ensures r.Failure? ==> r.error.driver !in m
    ensures r.Success? ==> r.value.Keys == m.Keys
    ensures r.Success? ==> forall id :: id in m ==> r.value[id] == m[id] + AdjIn(adjs, id)
  {
    if adjs == [] then Success(m)
    else if adjs[0].driver !in m then Failure(UnknownDriver(adjs[0].driver))
    else
      var r := AddFinalAdjustments(m[adjs[0].driver := m[adjs[0].driver] + AdjustmentValue(adjs[0])], adjs[1..]);
      UnknownAdjustmentShift(adjs, m.Keys);
      r
  }

  /** Every driver's total over every stored result. */
  function FinalTotals(m: map<DriverId, int>, results: seq<RaceResult>, pts: PointsTables): (r: Result<map<DriverId, int>, Error>)
    ensures r.Failure? <==> HasUnknownScorer(results, m.Keys) || HasUnknownAdjustment(results, m.Keys)
    ensures r.Failure? ==> r.error.driver !in m
    ensures r.Success? ==> r.value.Keys == m.Keys
    ensures r.Success? ==> forall id :: id in m ==> r.value[id] == m[id] + GrandTotal(results, id, pts)
  {
    if results == [] then Success(m)
    else
      UnknownFirstOrRest(results, m.Keys);
      match AddFinalOutcomes(m, results[0].byDriver, pts)
      case Failure(e) => Failure(e)
      case Success(m1) =>
        match AddFinalAdjustments(m1, results[0].adjustments)
        case Failure(e) => Failure(e)
        case Success(m2) => FinalTotals(m2, results[1..], pts)
  }

  /** One unranked row per roster driver. */
  function RosterRows(roster: seq<Driver>, totals: map<DriverId, int>): (rows: seq<Standing>)
    requires DriverIds(roster) <= totals.Keys
    ensures |rows| == |roster|
    ensures forall i :: 0 <= i < |rows| ==> rows[i] == Standing(roster[i].id, roster[i].name, totals[roster[i].id])
  {
    seq(|roster|, i requires 0 <= i < |roster| => Standing(roster[i].id, roster[i].name, totals[roster[i].id]))
  }

  /**
   * `computeFinalStandings`: fails exactly when some result credits points
   * to, or adjusts, an unknown id. Otherwise one row per driver id, each
   * total summed over every result, ranked by total and then name.
   */
  function ComputeFinalStandings(s: Season): (r: Result<seq<Standing>, Error>)
    ensures r.Failure? <==> HasUnknownScorer(s.results, DriverIds(s.drivers)) || HasUnknownAdjustment(s.results, DriverIds(s.drivers))
    ensures r.Failure? ==> r.error.driver !in DriverIds(s.drivers)
    ensures r.Success? ==> UniqueIds(r.value) && IdsOf(r.value) == DriverIds(s.drivers)
    ensures r.Success? ==> |r.value| == |Roster(s.drivers)|
    ensures r.Success? ==> forall i :: 0 <= i < |r.value| ==> KnownDriver(s.drivers, r.value[i].id) == Some(Driver(r.value[i].id, r.value[i].name))
    ensures r.Success? ==> forall i :: 0 <= i < |r.value| ==> r.value[i].total == GrandTotal(s.results, r.value[i].id, s.points)
    ensures r.Success? ==> forall i, j :: 0 <= i < j < |r.value| ==> !RankBefore(r.value[j], r.value[i])
  {
    var roster := Roster(s.drivers);
    match FinalTotals(ZeroTotals(roster), s.results, s.points)
    case Failure(e) => Failure(e)
    case Success(m) =>
      var ranked := Rank(RosterRows(roster, m));
      FinalRows(s, m, ranked);
      Success(ranked)
  }

  /** The rows of a successful computation: what the final standings promise. */
  lemma FinalRows(s: Season, m: map<DriverId, int>, ranked: seq<Standing>)
    requires FinalTotals(ZeroTotals(Roster(s.drivers)), s.results, s.points) == Success(m)
    requires ranked == Rank(RosterRows(Roster(s.drivers), m))
    ensures UniqueIds(ranked) && IdsOf(ranked) == DriverIds(s.drivers)
    ensures |ranked| == |Roster(s.drivers)|
    ensures forall i :: 0 <= i < |ranked| ==> KnownDriver(s.drivers, ranked[i].id) == Some(Driver(ranked[i].id, ranked[i].name))
    ensures forall i :: 0 <= i < |ranked| ==> ranked[i].total == GrandTotal(s.results, ranked[i].id, s.points)
    ensures forall i, j :: 0 <= i < j < |ranked| ==> !RankBefore(ranked[j], ranked[i])
  {
    var roster := Roster(s.drivers);
    var zero := ZeroTotals(roster);
    assert m.Keys == DriverIds(roster);
    var rows := RosterRows(roster, m);
    RankedRosterFacts(roster, m, rows, ranked);
    LatestNames(s.drivers, ranked);
    forall i | 0 <= i < |ranked|
      ensures ranked[i].total == GrandTotal(s.results, ranked[i].id, s.points)
    {
      assert zero[ranked[i].id] == 0;
    }
  }

  lemma RankedRosterFacts(roster: seq<Driver>, totals: map<DriverId, int>, rows: seq<Standing>, ranked: seq<Standing>)
    requires DistinctIds(roster) && DriverIds(roster) <= totals.Keys
    requires rows == RosterRows(roster, totals)
    requires multiset(ranked) == multiset(rows)
    ensures UniqueIds(ranked) && |ranked| == |roster|
    ensures IdsOf(ranked) == DriverIds(roster)
    ensures forall i :: 0 <= i < |ranked| ==> Driver(ranked[i].id, ranked[i].name) in roster
    ensures forall i :: 0 <= i < |ranked| ==> ranked[i].total == totals[ranked[i].id]
  {
    assert UniqueIds(rows);
    UniqueIdsPermutation(rows, ranked);
    Seqs.PermutationElements(rows, ranked);
    forall i | 0 <= i < |ranked|
      ensures Driver(ranked[i].id, ranked[i].name) in roster
      ensures ranked[i].total == totals[ranked[i].id]
    {
      assert ranked[i] in rows;
      var k :| 0 <= k < |rows| && rows[k] == ranked[i];
      assert roster[k] == Driver(ranked[i].id, ranked[i].name);
    }
    RowIds(roster, totals, rows);
    IdsOfPermutation(rows, ranked);
  }

  /** Rows whose records come from the roster carry the latest name of their id. */
  lemma LatestNames(drivers: seq<Driver>, ranked: seq<Standing>)
    requires forall i :: 0 <= i < |ranked| ==> Driver(ranked[i].id, ranked[i].name) in Roster(drivers)
    ensures forall i :: 0 <= i < |ranked| ==> KnownDriver(drivers, ranked[i].id) == Some(Driver(ranked[i].id, ranked[i].name))
  {
    var roster := Roster(drivers);
    RosterHoldsLatest(drivers);
    forall i | 0 <= i < |ranked|
      ensures KnownDriver(drivers, ranked[i].id) == Some(Driver(ranked[i].id, ranked[i].name))
    {
      var k :| 0 <= k < |roster| && roster[k] == Driver(ranked[i].id, ranked[i].name);
    }
  }

  lemma RowIds(roster: seq<Driver>, totals: map<DriverId, int>, rows: seq<Standing>)
    requires DriverIds(roster) <= totals.Keys
    requires rows == RosterRows(roster, totals)
    ensures IdsOf(rows) == DriverIds(roster)
  {
    assert forall i :: 0 <= i < |rows| ==> rows[i].id == roster[i].id;
  }

}

/** How the final standings relate to the tallies. */
module FinalFacts {
  import opened SeasonData
  import opened Scoring
  import opened Tallies
  import opened FinalStandings
  import Seqs

  /**
   * When no stored result belongs to an excluded race, the final totals
   * are the tallies' totals; the two differ only through `includeInStats`.
   */
  lemma FinalMatchesTalliesWhenAllIncluded(s: Season)
    requires forall k :: 0 <= k < |s.results| ==> Included(s.schedule, s.results[k].raceId)
    requires ComputeFinalStandings(s).Success?
    ensures ComputePointsByDriver(s).Success?
    ensures forall i :: 0 <= i < |ComputeFinalStandings(s).value| ==>
      var row := ComputeFinalStandings(s).value[i];
      row.id in ComputePointsByDriver(s).value && ComputePointsByDriver(s).value[row.id].total == row.total
  {
    Seqs.FilterAll(s.results, (r: RaceResult) => Included(s.schedule, r.raceId));
    assert IncludedResults(s) == s.results;
    var rows := ComputeFinalStandings(s).value;
    forall i | 0 <= i < |rows|
      ensures rows[i].id in DriverIds(s.drivers)
    {
      assert rows[i].id in Ranking.IdsOf(rows);
    }
  }
}
