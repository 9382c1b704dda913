/**
 * Per-race scoring: the points-table lookup, the qualifying and race gates,
 * adjustment coercion, and the per-driver point sums over a list of results
 * that every aggregate is measured against.
 */
module Scoring {
  import opened Wrappers
  import opened SeasonData

  /**
   * `pointsFor`: position P earns the table's entry at index P-1; a
   * non-positive position or one beyond the table earns 0. It never fails.
   */
  function PointsFor(pos: int, table: seq<int>): (p: int)
    ensures pos <= 0 || pos > |table| ==> p == 0
    ensures 0 < pos <= |table| ==> p == table[pos - 1]
    ensures p == 0 || p in table
  {
    if pos <= 0 then 0
    else
      var idx := pos - 1;
      if idx < |table| then table[idx] else 0
  }

  /** Qualifying points are awarded only for a positive position without DNP. */
  predicate QualiScores(o: Outcome) {
    o.qualiPos > 0 && !o.qDNP
  }

  /** Race points are awarded only for a positive position without DNF. */
  predicate RaceScores(o: Outcome) {
    o.racePos > 0 && !o.dnf
  }

  /** Whether the viewer touches the driver's tally at all for this outcome. */
  predicate Scores(o: Outcome) {
    QualiScores(o) || RaceScores(o)
  }

  function QualiPoints(o: Outcome, table: seq<int>): int {
    if QualiScores(o) then PointsFor(o.qualiPos, table) else 0
  }

  function RacePoints(o: Outcome, table: seq<int>): int {
    if RaceScores(o) then PointsFor(o.racePos, table) else 0
  }

  /** An adjustment of `""` or `null` is worth 0. */
  function AdjustmentValue(a: Adjustment): int {
    a.points.GetOr(0)
  }

  // Reference sums: what one driver earns from a list of entries or results.

  function QualiIn(es: seq<DriverOutcome>, id: DriverId, table: seq<int>): int {
    if es == [] then 0
    else (if es[0].driver == id then QualiPoints(es[0].outcome, table) else 0) + QualiIn(es[1..], id, table)
  }

  function RaceIn(es: seq<DriverOutcome>, id: DriverId, table: seq<int>): int {
    if es == [] then 0
    else (if es[0].driver == id then RacePoints(es[0].outcome, table) else 0) + RaceIn(es[1..], id, table)
  }

  function AdjIn(adjs: seq<Adjustment>, id: DriverId): int {
    if adjs == [] then 0
    else (if adjs[0].driver == id then AdjustmentValue(adjs[0]) else 0) + AdjIn(adjs[1..], id)
  }

  function QualiTotal(results: seq<RaceResult>, id: DriverId, table: seq<int>): int {
    if results == [] then 0
    else QualiIn(results[0].byDriver, id, table) + QualiTotal(results[1..], id, table)
  }

  function RaceTotal(results: seq<RaceResult>, id: DriverId, table: seq<int>): int {
    if results == [] then 0
    else RaceIn(results[0].byDriver, id, table) + RaceTotal(results[1..], id, table)
  }

  function AdjTotal(results: seq<RaceResult>, id: DriverId): int {
    if results == [] then 0
    else AdjIn(results[0].adjustments, id) + AdjTotal(results[1..], id)
  }

  /** Everything one race result is worth to one driver. */
  function ResultPoints(r: RaceResult, id: DriverId, pts: PointsTables): int {
    QualiIn(r.byDriver, id, pts.quali) + RaceIn(r.byDriver, id, pts.race) + AdjIn(r.adjustments, id)
  }

  /** Everything a list of results is worth to one driver. */
  function GrandTotal(results: seq<RaceResult>, id: DriverId, pts: PointsTables): int {
    QualiTotal(results, id, pts.quali) + RaceTotal(results, id, pts.race) + AdjTotal(results, id)
  }

  /** Some entry would credit points to an id without a tally. */
  predicate HasUnknownScorer(results: seq<RaceResult>, known: set<DriverId>) {
    exists k, j :: 0 <= k < |results| && 0 <= j < |results[k].byDriver|
                   && Scores(results[k].byDriver[j].outcome) && results[k].byDriver[j].driver !in known
  }

  /** Some adjustment names an id without a tally. */
  predicate HasUnknownAdjustment(results: seq<RaceResult>, known: set<DriverId>) {
    exists k, j :: 0 <= k < |results| && 0 <= j < |results[k].adjustments|
                   && results[k].adjustments[j].driver !in known
  }

  /** An unknown id shows up either in the first result or in the ones after it. */
  lemma UnknownFirstOrRest(results: seq<RaceResult>, known: set<DriverId>)
    requires |results| > 0
    ensures HasUnknownScorer(results, known)
            <==> (exists j :: 0 <= j < |results[0].byDriver| && Scores(results[0].byDriver[j].outcome)
                                                            && results[0].byDriver[j].driver !in known)
                 || HasUnknownScorer(results[1..], known)
    ensures HasUnknownAdjustment(results, known)
            <==> (exists j :: 0 <= j < |results[0].adjustments| && results[0].adjustments[j].driver !in known)
                 || HasUnknownAdjustment(results[1..], known)
  {
    assert forall k :: 1 <= k < |results| ==> results[1..][k - 1] == results[k];
    assert forall k :: 0 <= k < |results| - 1 ==> results[1..][k] == results[k + 1];
  }

  /** An unknown scorer among the entries is the first entry or one among the rest. */
  lemma UnknownEntryShift(es: seq<DriverOutcome>, known: set<DriverId>)
    requires |es| > 0
    ensures (exists j :: 0 <= j < |es| && Scores(es[j].outcome) && es[j].driver !in known)
            <==> (Scores(es[0].outcome) && es[0].driver !in known)
                 || exists j :: 0 <= j < |es[1..]| && Scores(es[1..][j].outcome) && es[1..][j].driver !in known
  {
    assert forall j :: 1 <= j < |es| ==> es[1..][j - 1] == es[j];
  }

  /** An unknown id among the adjustments is the first one's or one among the rest. */
  lemma UnknownAdjustmentShift(adjs: seq<Adjustment>, known: set<DriverId>)
    requires |adjs| > 0
    ensures (exists j :: 0 <= j < |adjs| && adjs[j].driver !in known)
            <==> adjs[0].driver !in known || exists j :: 0 <= j < |adjs[1..]| && adjs[1..][j].driver !in known
  {
    assert forall j :: 1 <= j < |adjs| ==> adjs[1..][j - 1] == adjs[j];
  }

  /** The reference sums split over concatenated result lists. */
  lemma {:induction false} TotalsAppend(a: seq<RaceResult>, b: seq<RaceResult>, id: DriverId, pts: PointsTables)
    ensures GrandTotal(a + b, id, pts) == GrandTotal(a, id, pts) + GrandTotal(b, id, pts)
  {
    if a == [] {
      assert a + b == b;
    } else {
      assert (a + b)[0] == a[0];
      assert (a + b)[1..] == a[1..] + b;
      TotalsAppend(a[1..], b, id, pts);
    }
  }

  /** A driver named by no entry and no adjustment earns nothing. */
  lemma {:induction false} AbsentDriverEarnsNothing(results: seq<RaceResult>, id: DriverId, pts: PointsTables)
    requires forall k, j :: 0 <= k < |results| && 0 <= j < |results[k].byDriver| ==> results[k].byDriver[j].driver != id
    requires forall k, j :: 0 <= k < |results| && 0 <= j < |results[k].adjustments| ==> results[k].adjustments[j].driver != id
    ensures QualiTotal(results, id, pts.quali) == 0
    ensures RaceTotal(results, id, pts.race) == 0
    ensures AdjTotal(results, id) == 0
  {
    if results != [] {
      AbsentEntriesEarnNothing(results[0], id, pts);
      AbsentDriverEarnsNothing(results[1..], id, pts);
    }
  }

  lemma {:induction false} AbsentEntriesEarnNothing(r: RaceResult, id: DriverId, pts: PointsTables)
    requires forall j :: 0 <= j < |r.byDriver| ==> r.byDriver[j].driver != id
    requires forall j :: 0 <= j < |r.adjustments| ==> r.adjustments[j].driver != id
    ensures QualiIn(r.byDriver, id, pts.quali) == 0
    ensures RaceIn(r.byDriver, id, pts.race) == 0
    ensures AdjIn(r.adjustments, id) == 0
    decreases |r.byDriver| + |r.adjustments|
  {
    if r.byDriver != [] {
      AbsentEntriesEarnNothing(r.(byDriver := r.byDriver[1..]), id, pts);
    } else if r.adjustments != [] {
      AbsentEntriesEarnNothing(r.(adjustments := r.adjustments[1..]), id, pts);
    }
  }
}
