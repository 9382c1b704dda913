# TT-Race standings engine in Dafny

TT-Race is a single-page time-trial league tracker (`app.js`). This project
models its standings engine and proves properties of the model:

- `pointsFor`: the points one finishing position earns from a table.
- `computePointsByDriver`: the per-driver tallies of qualifying, race and
  adjustment points over the results the schedule includes in the statistics.
- `computeStandingsAfterEachRace`: the replay of the included races in
  race-date order. After each race it records every driver's position.
- `computeFinalStandings`: the season-final ranking. It sums every stored
  result whether or not the schedule includes it.
- The lifetime table and chart. For every name, they give the position the
  name finished in each season.
- The results panel's row selection and ordering.

The data is already-parsed season documents:

- Numbers are integers that have already gone through `Number(x) || 0`.
- Flags are booleans.
- An object keyed by driver id (`byDriver`, `adjustments`) is a sequence of
  its entries, in enumeration order.
- Driver ids, names and race ids are strings. No id or name is the name of
  an `Object.prototype` member (see "Left out").
- Every driver, schedule entry, result, `byDriver` value and adjustment is
  an object, never `null` (see "Left out").
- Points are exact integers. Sums stay within the range in which a
  JavaScript double represents every integer exactly (see "Left out").
- Under those assumptions, a result for an unknown driver that reaches a
  code path which dereferences the missing record is a JavaScript
  `TypeError`. The model returns it as `Failure(UnknownDriver(id))`.

Modules, one per part of the engine:

| file | module | what it holds |
|---|---|---|
| wrappers.dfy | `Wrappers` | `Option` and `Result` |
| seqs.dfy | `Seqs` | `find` and `filter` on sequences, distinctness, permutations |
| order.dfy | `NameOrder` | the name order standing in for `localeCompare`, and the key-then-name order |
| sorting.dfy | `Sorting` | a stable insertion sort for a strict order, standing in for `Array.prototype.sort` |
| season.dfy | `SeasonData` | the season document, the `includeInStats` test, id lookup, zero totals |
| scoring.dfy | `Scoring` | `pointsFor`, the scoring gates, and reference per-driver sums |
| tallies.dfy | `Tallies`, `TallyFacts` | `computePointsByDriver` and how the tallies change with the list of results |
| ranking.dfy | `Ranking` | the shared comparator and the `pos[o.id] = i + 1` position map |
| final.dfy | `FinalStandings`, `FinalFacts` | `computeFinalStandings` and how it relates to the tallies |
| progressive.dfy | `Progressive`, `ProgressiveFacts` | `computeStandingsAfterEachRace` and what its snapshots say about the running totals |
| lifetime.dfy | `Lifetime`, `LifetimeFacts` | the lifetime name → season-position table and what its entries mean |
| panel.dfy | `ResultsPanel` | the results panel's rows |

The model follows the code in these places, which are easy to misread:

- The final standings ignore `includeInStats`; the tallies honour it.
- The final standings fail on an adjustment for an unknown id, because
  line 113 is unguarded. The tallies skip such an adjustment.
- The replay uses only the first stored result of a race. The tallies
  count every stored result with an included race id.
- A result's race counts as included when the FIRST schedule entry with
  that id does not say `includeInStats: false`. A result for an
  unscheduled race counts as well.

## Model

| member | source | states |
|---|---|---|
| Scoring.PointsFor | app.js:55 | a non-positive or out-of-table position earns 0; position p earns the table's p-th entry; the result is 0 or an entry of the table |
| SeasonData.Included | app.js:60 | a race id counts exactly when no schedule entry has it, or the first entry with it has `includeInStats` |
| SeasonData.KnownDriver | app.js:185 | the record an id resolves to in an object keyed by id: none exactly when no driver has the id, otherwise the last driver listed with it |
| Tallies.ZeroTallies | app.js:59 | one zero tally per driver id, named after the last driver listed with that id |
| Tallies.AddOutcomes | app.js:63-67 | fails exactly when an entry passes a scoring gate for an id with no tally; otherwise each tally gains that driver's qualifying and race points from the entries |
| Tallies.AddAdjustments | app.js:68-71 | each known driver's adjustment points grow by its adjustments' sum; unknown ids change nothing |
| Tallies.AddResults | app.js:61-72 | over a list of results: fails exactly when some result has a scoring entry for an unknown id; otherwise each part grows by the driver's sum over all results |
| Tallies.ComputePointsByDriver | app.js:57-75 | fails exactly when an included result credits an unknown id; otherwise one tally per driver id, named after its last record, whose parts are the driver's sums over the included results and whose total is their sum |
| TallyFacts.ExcludedResultIgnored | app.js:60-62 | removing a result whose race is excluded leaves the tallies unchanged |
| TallyFacts.ExcludedResultDropsOut | app.js:60-62 | a result for an excluded race is not among the results the tallies fold |
| TallyFacts.UnscheduledResultCounted | app.js:60-62 | a result for a race missing from the schedule still counts: each driver's total is the total without it plus what it is worth |
| TallyFacts.UnknownScorerGrows | app.js:65-66 | once some result credits an unknown id, any list of results containing it also does |
| TallyFacts.UntouchedDriverIsZero | app.js:59-73 | a driver that no result mentions ends with all-zero tallies |
| TallyFacts.NoResultsAllZero | app.js:59-74 | with no results the tallies succeed and every total is 0 |
| Scoring.TotalsAppend | app.js:106-115 | a driver's season sum over two runs of results is the sum of the two |
| Scoring.AbsentDriverEarnsNothing | app.js:106-115 | a driver no result mentions earns no qualifying, race or adjustment points |
| Ranking.RankBeforeIsStrictOrder | app.js:116 | the comparator "more points, then earlier name" is irreflexive and transitive |
| Ranking.Rank | app.js:116 | the ranking is a permutation of its input, totals never increase down it, and equal totals are in name order |
| Ranking.RankStable | app.js:116 | the sort is stable: rows with equal total and equal name keep their input order |
| Ranking.Positions | app.js:96 | every ranked id gets a position in 1..n pointing at one of its own rows |
| Ranking.PositionIsLastRow | app.js:96 | the position written last wins: no later row has the same id |
| Ranking.PositionsOfUniqueIds | app.js:96 | with one row per id, row i's driver holds position i + 1 and the positions are exactly 1..n |
| Ranking.RankedPositions | app.js:95-96 | ranking distinct-id rows gives every id a position, and the positions are exactly 1..n |
| Ranking.RankedOrder | app.js:95-96 | with distinct ids, a row that sorts before another holds the smaller position, and a smaller position never goes to the row that sorts after |
| FinalStandings.Roster | app.js:105 | `Object.values` of the id-keyed map: one record per id, covering every id, each taken from the driver list, no longer than the list |
| FinalStandings.RosterHoldsLatest | app.js:105 | each roster record is the last one listed with its id |
| FinalStandings.RosterOfDistinct | app.js:105 | with distinct ids the roster is the driver list in its own order |
| FinalStandings.AddFinalOutcomes | app.js:107-111 | fails exactly when an entry passes a scoring gate for an unknown id; otherwise each total gains the driver's qualifying and race points |
| FinalStandings.AddFinalAdjustments | app.js:112-114 | fails exactly when any adjustment names an unknown id; otherwise each total gains the driver's adjustments |
| FinalStandings.FinalTotals | app.js:106-115 | fails exactly when some result credits or adjusts an unknown id; otherwise each total grows by the driver's sum over every result |
| FinalStandings.ComputeFinalStandings | app.js:102-117 | fails exactly when some result credits or adjusts an unknown id; otherwise one row per driver id, named after its last record, whose total is the driver's sum over every stored result, ranked by total then name |
| FinalStandings.FinalRows | app.js:116 | the ranked rows of a successful run: one per id, each with its last name and season total, in comparator order |
| FinalFacts.FinalMatchesTalliesWhenAllIncluded | app.js:57-117 | when every stored result is included, the tallies succeed whenever the final standings do, and the two give the same totals |
| Progressive.RaceOrder | app.js:80 | the replayed races are a permutation of the included schedule entries, in non-decreasing date order |
| Progressive.RaceOrderFromSchedule | app.js:80 | every replayed race is a schedule entry marked `includeInStats` |
| Progressive.RaceOrderStable | app.js:80 | the sort is stable: the included races on any one date are replayed in schedule order |
| SeasonData.ZeroTotals | app.js:81 | every listed driver id starts at 0, as the final totals also do (app.js:105) |
| Progressive.CreditOutcomes | app.js:86-90 | each running total gains the driver's qualifying and race points from the entries |
| Progressive.CreditAdjustments | app.js:91-93 | each running total gains the driver's adjustments |
| Progressive.ResultFor | app.js:84 | the result used for a race is the first stored one with its id; none exactly when no result has the id |
| Progressive.AfterRace | app.js:84-94 | each running total grows by what the race is worth to the driver |
| Progressive.AfterRaceNoResult | app.js:84 | a race with no stored result changes no running total |
| Progressive.TrendRows | app.js:95 | one row per listed driver, carrying the first listed name for its id and its running total |
| Progressive.FirstNameOfDistinct | app.js:95 | with distinct ids the name lookup finds the driver's own name |
| Progressive.SnapshotPositions | app.js:95-96 | every driver id gets a position |
| Progressive.SnapshotOneToN | app.js:95-96 | with distinct driver ids the positions are exactly 1..N |
| Progressive.SnapshotOrder | app.js:95-96 | with distinct ids, more running points, or equal points and an earlier name, means a smaller position, and a smaller position is never the one that sorts after |
| Progressive.CumulativeIsSum | app.js:83-94 | a running total is the starting total plus the worth of every race replayed so far |
| Progressive.CumulativeStep | app.js:83-94 | replaying one more race applies exactly that race to the running totals |
| Progressive.ReplayAt | app.js:83-98 | the k-th snapshot names the k-th race and ranks the totals after the first k + 1 races |
| Progressive.ComputeStandingsAfterEachRace | app.js:77-100 | one snapshot per included schedule entry |
| ProgressiveFacts.SnapshotAfterRace | app.js:77-100 | snapshot k names the k-th included race in date order and gives every driver id a position, exactly 1..N with distinct ids |
| ProgressiveFacts.TotalsAfterIsSum | app.js:81-94 | the total a snapshot ranks is the sum of the replayed races' worth to the driver |
| ProgressiveFacts.SnapshotRanksByTotal | app.js:95-97 | with distinct driver ids, in snapshot k a driver ahead on points, or level with an earlier name, holds the smaller position |
| ProgressiveFacts.NoResultKeepsPositions | app.js:84-97 | a race with no stored result repeats the previous snapshot's positions |
| ProgressiveFacts.NoResultSameTotals | app.js:84 | replaying a race with no stored result leaves the running totals as they were |
| ProgressiveFacts.ReplayNoResult | app.js:84-97 | the same for a replay from any starting totals over any run of races |
| Lifetime.NamePlaces | app.js:245-248 | within a season each name maps to one plus the index of a row with that name |
| Lifetime.NamePlaceIsLast | app.js:245-248 | the place recorded for a name is its last row in the season |
| Lifetime.FoldDescribes | app.js:243-249 | the write-by-write table equals the direct description: the finishing names, each with its place in each season and nothing elsewhere |
| Lifetime.AllFinal | app.js:243-244 | every season's final standings in order; fails with the first failing season's error |
| Lifetime.LifetimePositions | app.js:242-249 | succeeds exactly when every season's final standings do; otherwise it fails with the error of a failing season |
| LifetimeFacts.LifetimeLine | app.js:292-300 | a name's line has one entry per season, and the entry for a season is its place there, or nothing; that season's standings hold one row per roster driver |
| LifetimeFacts.EntryOfRows | app.js:245-248 | such an entry is nothing exactly when no row of the season carries the name, otherwise the place of its last row |
| LifetimeFacts.LifetimeEntryBound | app.js:245-248 | a recorded position lies between 1 and the number of drivers the season lists |
| LifetimeFacts.LifetimeNames | app.js:243-249 | a name is in the table exactly when some season's final standings carry it |
| ResultsPanel.SelectRows | app.js:208-212 | a row appears exactly when some entry's id resolves to a driver and that entry has a position or the flag |
| ResultsPanel.PanelBeforeIsStrictOrder | app.js:213-214 | "smaller position key, then earlier name" is irreflexive and transitive |
| ResultsPanel.PanelRows | app.js:213-214 | the listed rows are a permutation of the selected ones, position keys (blank counts as 99) never decrease, and equal keys are in name order |
| ResultsPanel.PanelRowsStable | app.js:213-214 | the sort is stable: rows with the same position key and the same name are listed in entry order |
| ResultsPanel.PanelRowShown | app.js:209-211 | every listed row has a position or carries the flag, and shows a listed driver's name |
| ResultsPanel.SelectedRowShown | app.js:209-211 | every selected row has a position or carries the flag, and shows a listed driver's name |

## Left out

- I/O (the one `fetch` of the season document), the DOM, canvas drawing
  and `currentSeason()`. The season is a parameter.
- `sanitizeNumberInput` and the `Number(x) || 0` coercions: positions and
  points are integers already. Non-finite or fractional numbers, and
  non-numeric points-table entries, are not modelled. `pointsFor`'s
  `Number.isFinite(table[idx])` test therefore holds for every in-range
  index. An out-of-range index reads `undefined` and fails it; the model's
  bounds check covers that case.
- Date parsing: `raceDate` is an integer sort key. An unparsable date, which
  makes the JavaScript comparator return NaN, is not modelled.
- JavaScript's enumeration of integer-like keys before other keys in
  `Object.values` is not modelled. It only affects the order of rows with
  equal total and equal name.
- `localeCompare` is modelled as lexicographic order on character codes.
  Locale collation is not modelled.
- Ids and names that are `Object.prototype` member names are not modelled.
  In the source, a `byDriver` or `adjustments` key such as `toString` or
  `constructor` finds an inherited member instead of a missing entry, and
  writes `NaN` rather than failing. A driver id `__proto__` replaces the
  prototype of the id-keyed map. A driver named `constructor` is missing
  from the lifetime table, and the lifetime chart then throws (app.js:298).
  The model treats every id and name as an ordinary key, so its "fails
  exactly when" contracts hold only for such keys.
- Non-string ids and names are not modelled. A missing name makes
  `localeCompare` throw in the final ranking and the panel sort (app.js:116,
  213-214), while the replay falls back to `""` (app.js:95). Race ids are
  joined with `===` (app.js:60, 84), so the number 3 and the string "3" do
  not match in the source. The model has one type per kind of id.
- `null` records are not modelled. The source reads a field of each record
  without a null check, so a `null` record makes it throw a `TypeError`:
  a driver (`d.id`, app.js:59, 81, 105), a schedule entry (`x.id`,
  app.js:60, 80), a result (`entry.raceId`, app.js:62, 84), a `byDriver`
  value (`vals.qualiPos`, app.js:64, 87, 108, 210) or an adjustment
  (`adj.points`, app.js:69, 92, 113). The model's records are always
  present, so these failures have no counterpart in it.
- Double-precision arithmetic is not modelled. The source adds points as
  JavaScript numbers (app.js:65-66, 73, 88-92, 109-113), which round once a
  sum passes 2^53. The model's integers are unbounded, and its sums agree
  with the source only while every sum stays below 2^53 in magnitude.
- Progressive.CreditOutcomes: in the source, a scoring entry or adjustment
  for an id with no running total writes `NaN` under that id. The id is
  never ranked, so the model skips it.
- Progressive.SnapshotPositions: with repeated driver ids the source ranks
  one row per listed entry, and the last row's position wins. The model
  computes the same map, but the positions 1..N and the ordering property
  are stated only for distinct ids. The same holds for
  ProgressiveFacts.SnapshotRanksByTotal: with a repeated id every row
  carries the first listed name (app.js:95), so the name order it states
  is not the source's for such ids.
- Lifetime.LifetimePositions: the lifetime table's per-name arrays are
  sparse and end at the last season the name appears in. The chart's arrays
  are full-length and filled with `null`. The model uses the chart's form
  (`None` for seasons without the name). The season labels, colours and the
  maximum-position scan are display-only and not modelled.
- Driver number and colour, the adjustments' notes, and the panel's
  adjustments list are display-only and not modelled.
- ResultsPanel.SelectRows: the row count per entry is not stated. The
  contract says which rows appear, not how often.
