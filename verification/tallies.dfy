/**
 * `computePointsByDriver`: one tally per season driver, folding the
 * qualifying, race and adjustment points of every included result.
 */
module Tallies {
  import opened Wrappers
  import opened SeasonData
  import opened Scoring
  import Seqs

  datatype Tally = Tally(id: DriverId, name: string, qualiPts: int, racePts: int, adjPts: int, total: int)

  /** One all-zero tally per driver id; a later driver with the same id replaces an earlier one. */
  function ZeroTallies(drivers: seq<Driver>): (m: map<DriverId, Tally>)
    ensures m.Keys == DriverIds(drivers)
    ensures forall id :: id in m ==> m[id] == Tally(id, m[id].name, 0, 0, 0, 0)
    ensures forall id :: id in m ==> KnownDriver(drivers, id) == Some(Driver(id, m[id].name))
  {
    if drivers == [] then map[]
    else
      var n := |drivers| - 1;
      assert DriverIds(drivers) == DriverIds(drivers[..n]) + {drivers[n].id} by {
        assert forall i :: 0 <= i < n ==> drivers[..n][i] == drivers[i];
      }
      ZeroTallies(drivers[..n])[drivers[n].id := Tally(drivers[n].id, drivers[n].name, 0, 0, 0, 0)]
  }

  /** Credits one entry's qualifying and race points to a known driver. */
  function Credit(m: map<DriverId, Tally>, e: DriverOutcome, pts: PointsTables): (m': map<DriverId, Tally>)
    ensures m'.Keys == m.Keys
  {
    if e.driver in m then
      var t := m[e.driver];
      m[e.driver := t.(qualiPts := t.qualiPts + QualiPoints(e.outcome, pts.quali),
                       racePts := t.racePts + RacePoints(e.outcome, pts.race))]
    else m
  }

  /**
   * The `byDriver` loop. An entry that passes a scoring gate for an id with
   * no tally dereferences an undefined tally and stops the computation.
   */
  function AddOutcomes(m: map<DriverId, Tally>, es: seq<DriverOutcome>, pts: PointsTables): (r: Result<map<DriverId, Tally>, Error>)
    ensures r.Failure? <==> exists j :: 0 <= j < |es| && Scores(es[j].outcome) && es[j].driver !in m
    ensures r.Failure? ==> r.error.driver !in m
    ensures r.Success? ==> r.value.Keys == m.Keys
    ensures r.Success? ==> forall id :: id in m ==>
      && r.value[id].id == m[id].id && r.value[id].name == m[id].name
      && r.value[id].qualiPts == m[id].qualiPts + QualiIn(es, id, pts.quali)
      && r.value[id].racePts == m[id].racePts + RaceIn(es, id, pts.race)
      && r.value[id].adjPts == m[id].adjPts
  {
    if es == [] then Success(m)
    else if Scores(es[0].outcome) && es[0].driver !in m then Failure(UnknownDriver(es[0].driver))
    else
      var r := AddOutcomes(Credit(m, es[0], pts), es[1..], pts);
      UnknownEntryShift(es, m.Keys);
      r
  }

  /** The `adjustments` loop: ids without a tally are skipped. */
  function AddAdjustments(m: map<DriverId, Tally>, adjs: seq<Adjustment>): (r: map<DriverId, Tally>)
    ensures r.Keys == m.Keys
    ensures forall id :: id in m ==>
      r[id] == m[id].(adjPts := m[id].adjPts + AdjIn(adjs, id))
  {
    if adjs == [] then m
    else
      var a := adjs[0];
      var m' := if a.driver in m then m[a.driver := m[a.driver].(adjPts := m[a.driver].adjPts + AdjustmentValue(a))] else m;
      AddAdjustments(m', adjs[1..])
  }

  /** Folds results in stored order; the caller has already dropped excluded races. */
  function AddResults(m: map<DriverId, Tally>, results: seq<RaceResult>, pts: PointsTables): (r: Result<map<DriverId, Tally>, Error>)
    ensures r.Failure? <==> HasUnknownScorer(results, m.Keys)
    ensures r.Failure? ==> r.error.driver !in m
    ensures r.Success? ==> r.value.Keys == m.Keys
    ensures r.Success? ==> forall id :: id in m ==>
      && r.value[id].id == m[id].id && r.value[id].name == m[id].name
      && r.value[id].qualiPts == m[id].qualiPts + QualiTotal(results, id, pts.quali)
      && r.value[id].racePts == m[id].racePts + RaceTotal(results, id, pts.race)
      && r.value[id].adjPts == m[id].adjPts + AdjTotal(results, id)
  {
    if results == [] then Success(m)
    else
      match AddOutcomes(m, results[0].byDriver, pts)
      case Failure(e) => Failure(e)
      case Success(m1) =>
        var r := AddResults(AddAdjustments(m1, results[0].adjustments), results[1..], pts);
        UnknownFirstOrRest(results, m.Keys);
        r
  }

  /** The tallies of `drivers` over results already filtered for inclusion. */
  function TalliesOver(drivers: seq<Driver>, included: seq<RaceResult>, pts: PointsTables): (r: Result<map<DriverId, Tally>, Error>)
    ensures r.Failure? <==> HasUnknownScorer(included, DriverIds(drivers))
    ensures r.Failure? ==> r.error.driver !in DriverIds(drivers)
    ensures r.Success? ==> r.value.Keys == DriverIds(drivers)
    ensures r.Success? ==> forall id :: id in r.value ==>
      && r.value[id].id == id
      && KnownDriver(drivers, id) == Some(Driver(id, r.value[id].name))
      && r.value[id].qualiPts == QualiTotal(included, id, pts.quali)
      && r.value[id].racePts == RaceTotal(included, id, pts.race)
      && r.value[id].adjPts == AdjTotal(included, id)
      && r.value[id].total == r.value[id].qualiPts + r.value[id].racePts + r.value[id].adjPts
  {
    match AddResults(ZeroTallies(drivers), included, pts)
    case Failure(e) => Failure(e)
    case Success(m) =>
      Success(map id | id in m :: m[id].(total := m[id].qualiPts + m[id].racePts + m[id].adjPts))
  }

  /**
   * `computePointsByDriver`: fails exactly when an included result credits
   * points to an unknown id; otherwise one tally per driver id, each part
   * the driver's sum over the included results, and the total their sum.
   */
  function ComputePointsByDriver(s: Season): (r: Result<map<DriverId, Tally>, Error>)
    ensures r.Failure? <==> HasUnknownScorer(IncludedResults(s), DriverIds(s.drivers))
    ensures r.Failure? ==> r.error.driver !in DriverIds(s.drivers)
    ensures r.Success? ==> r.value.Keys == DriverIds(s.drivers)
    ensures r.Success? ==> forall id :: id in r.value ==>
      && r.value[id].id == id
      && KnownDriver(s.drivers, id) == Some(Driver(id, r.value[id].name))
      && r.value[id].qualiPts == QualiTotal(IncludedResults(s), id, s.points.quali)
      && r.value[id].racePts == RaceTotal(IncludedResults(s), id, s.points.race)
      && r.value[id].adjPts == AdjTotal(IncludedResults(s), id)
      && r.value[id].total == r.value[id].qualiPts + r.value[id].racePts + r.value[id].adjPts
  {
    TalliesOver(s.drivers, IncludedResults(s), s.points)
  }
}

/** Properties of `computePointsByDriver` that relate several seasons or several calls. */
module TallyFacts {
  import opened Wrappers
  import opened SeasonData
  import opened Scoring
  import opened Tallies
  import Seqs

  /** `s` with its `i`-th result removed. */
  function WithoutResult(s: Season, i: nat): Season
    requires i < |s.results|
  {
    s.(results := s.results[..i] + s.results[i + 1..])
  }

  lemma IncludedResultsSplit(s: Season, i: nat)
    requires i < |s.results|
    ensures var p := (r: RaceResult) => Included(s.schedule, r.raceId);
      && IncludedResults(s) == Seqs.Filter(s.results[..i], p) + Seqs.Filter([s.results[i]], p) + Seqs.Filter(s.results[i + 1..], p)
      && IncludedResults(WithoutResult(s, i)) == Seqs.Filter(s.results[..i], p) + Seqs.Filter(s.results[i + 1..], p)
  {
    var p := (r: RaceResult) => Included(s.schedule, r.raceId);
    assert s.results == s.results[..i] + [s.results[i]] + s.results[i + 1..];
    Seqs.FilterAppend(s.results[..i] + [s.results[i]], s.results[i + 1..], p);
    Seqs.FilterAppend(s.results[..i], [s.results[i]], p);
    Seqs.FilterAppend(s.results[..i], s.results[i + 1..], p);
  }

  lemma ExcludedResultDropsOut(s: Season, i: nat)
    requires i < |s.results|
    requires !Included(s.schedule, s.results[i].raceId)
    ensures IncludedResults(WithoutResult(s, i)) == IncludedResults(s)
  {
    var p := (r: RaceResult) => Included(s.schedule, r.raceId);
    IncludedResultsSplit(s, i);
    var one := Seqs.Filter([s.results[i]], p);
    assert !p(s.results[i]);
    assert one == [];
    assert Seqs.Filter(s.results[..i], p) + one == Seqs.Filter(s.results[..i], p);
  }

  /** A result for a race whose schedule entry has `includeInStats == false` changes nothing. */
  lemma ExcludedResultIgnored(s: Season, i: nat)
    requires i < |s.results|
    requires !Included(s.schedule, s.results[i].raceId)
    ensures ComputePointsByDriver(WithoutResult(s, i)) == ComputePointsByDriver(s)
  {
    ExcludedResultDropsOut(s, i);
    var s' := WithoutResult(s, i);
    assert s'.drivers == s.drivers && s'.points == s.points;
  }

  lemma UnknownScorerGrows(a: seq<RaceResult>, b: seq<RaceResult>, known: set<DriverId>)
    requires forall x :: x in a ==> x in b
    requires HasUnknownScorer(a, known)
    ensures HasUnknownScorer(b, known)
  {
    var k, j :| 0 <= k < |a| && 0 <= j < |a[k].byDriver|
                && Scores(a[k].byDriver[j].outcome) && a[k].byDriver[j].driver !in known;
    assert a[k] in b;
    var k' :| 0 <= k' < |b| && b[k'] == a[k];
    assert Scores(b[k'].byDriver[j].outcome);
  }

  /**
   * A result whose race is not on the schedule is counted: every driver's
   * tally is what it would be without that result plus what the result is
   * worth to them.
   */
  lemma UnscheduledResultStays(s: Season, i: nat)
    requires i < |s.results|
    requires forall j :: 0 <= j < |s.schedule| ==> s.schedule[j].id != s.results[i].raceId
    ensures var p := (r: RaceResult) => Included(s.schedule, r.raceId);
      && IncludedResults(s) == Seqs.Filter(s.results[..i], p) + [s.results[i]] + Seqs.Filter(s.results[i + 1..], p)
      && IncludedResults(WithoutResult(s, i)) == Seqs.Filter(s.results[..i], p) + Seqs.Filter(s.results[i + 1..], p)
  {
    var p := (r: RaceResult) => Included(s.schedule, r.raceId);
    IncludedResultsSplit(s, i);
    var x := s.results[i];
    var one := Seqs.Filter([x], p);
    assert p(x);
    assert x in one;
    assert one == [x];
  }

  lemma UnscheduledResultCounted(s: Season, i: nat)
    requires i < |s.results|
    requires forall j :: 0 <= j < |s.schedule| ==> s.schedule[j].id != s.results[i].raceId
    requires ComputePointsByDriver(s).Success?
    ensures ComputePointsByDriver(WithoutResult(s, i)).Success?
    ensures forall id :: id in ComputePointsByDriver(s).value ==>
      ComputePointsByDriver(s).value[id].total
        == ComputePointsByDriver(WithoutResult(s, i)).value[id].total + ResultPoints(s.results[i], id, s.points)
  {
    UnscheduledResultStays(s, i);
    var p := (r: RaceResult) => Included(s.schedule, r.raceId);
    var x := s.results[i];
    var pre := Seqs.Filter(s.results[..i], p);
    var post := Seqs.Filter(s.results[i + 1..], p);
    var s' := WithoutResult(s, i);
    var inc, inc' := IncludedResults(s), IncludedResults(s');
    var known := DriverIds(s.drivers);
    assert s'.drivers == s.drivers && s'.points == s.points;
    if HasUnknownScorer(inc', known) {
      UnknownScorerGrows(inc', inc, known);
    }
    var t, t' := ComputePointsByDriver(s).value, ComputePointsByDriver(s').value;
    forall id | id in t
      ensures t[id].total == t'[id].total + ResultPoints(x, id, s.points)
    {
      InsertedResultTotal(pre, x, post, id, s.points);
    }
  }

  lemma InsertedResultTotal(pre: seq<RaceResult>, x: RaceResult, post: seq<RaceResult>, id: DriverId, pts: PointsTables)
    ensures GrandTotal(pre + [x] + post, id, pts) == GrandTotal(pre + post, id, pts) + ResultPoints(x, id, pts)
  {
    TotalsAppend(pre + [x], post, id, pts);
    TotalsAppend(pre, [x], id, pts);
    TotalsAppend(pre, post, id, pts);
    assert [x][1..] == [];
    assert QualiTotal([x], id, pts.quali) == QualiIn(x.byDriver, id, pts.quali);
    assert RaceTotal([x], id, pts.race) == RaceIn(x.byDriver, id, pts.race);
    assert AdjTotal([x], id) == AdjIn(x.adjustments, id);
  }

  /** A driver named by no included entry or adjustment has an all-zero tally. */
  lemma UntouchedDriverIsZero(s: Season, id: DriverId)
    requires ComputePointsByDriver(s).Success?
    requires id in DriverIds(s.drivers)
    requires forall k, j :: 0 <= k < |s.results| && 0 <= j < |s.results[k].byDriver| ==> s.results[k].byDriver[j].driver != id
    requires forall k, j :: 0 <= k < |s.results| && 0 <= j < |s.results[k].adjustments| ==> s.results[k].adjustments[j].driver != id
    ensures var t := ComputePointsByDriver(s).value[id];
      t.qualiPts == 0 && t.racePts == 0 && t.adjPts == 0 && t.total == 0
  {
    AbsentFromIncluded(s, id);
    AbsentDriverEarnsNothing(IncludedResults(s), id, s.points);
  }

  /** A driver no result mentions is not mentioned by the included results either. */
  lemma AbsentFromIncluded(s: Season, id: DriverId)
    requires forall k, j :: 0 <= k < |s.results| && 0 <= j < |s.results[k].byDriver| ==> s.results[k].byDriver[j].driver != id
    requires forall k, j :: 0 <= k < |s.results| && 0 <= j < |s.results[k].adjustments| ==> s.results[k].adjustments[j].driver != id
    ensures var inc := IncludedResults(s);
      forall k, j :: 0 <= k < |inc| && 0 <= j < |inc[k].byDriver| ==> inc[k].byDriver[j].driver != id
    ensures var inc := IncludedResults(s);
      forall k, j :: 0 <= k < |inc| && 0 <= j < |inc[k].adjustments| ==> inc[k].adjustments[j].driver != id
  {
    var inc := IncludedResults(s);
    forall k | 0 <= k < |inc|
      ensures inc[k] in s.results
    {
      assert inc[k] in inc;
    }
  }

  /** With no results at all, every driver has an all-zero tally. */
  lemma NoResultsAllZero(s: Season)
    requires s.results == []
    ensures ComputePointsByDriver(s).Success?
    ensures forall id :: id in ComputePointsByDriver(s).value ==>
      var t := ComputePointsByDriver(s).value[id];
      t.qualiPts == 0 && t.racePts == 0 && t.adjPts == 0 && t.total == 0
  {
    assert IncludedResults(s) == [];
  }
}
