/**
 * The lifetime table and chart: every name that appears in any season's
 * final standings, with the position it finished in each season (the last
 * row carrying that name wins), or nothing for seasons it is absent from.
 */
module Lifetime {
  import opened Wrappers
  import opened SeasonData
  import opened Ranking
  import opened FinalStandings
  import Seqs

  /** The names carried by a season's rows. */
  function NamesOf(rows: seq<Standing>): set<string> {
    set i | 0 <= i < |rows| :: rows[i].name
  }

  lemma NamesOfSnoc(rows: seq<Standing>)
    requires |rows| > 0
    ensures NamesOf(rows) == NamesOf(rows[..|rows| - 1]) + {rows[|rows| - 1].name}
  {
    var n := |rows| - 1;
    assert forall i :: 0 <= i < n ==> rows[..n][i] == rows[i];
  }

  /** Every recorded place is one plus the index of a row with that name. */
  predicate RecordsPlaces(rows: seq<Standing>, m: map<string, int>) {
    forall name :: name in m ==> 1 <= m[name] <= |rows| && rows[m[name] - 1].name == name
  }

  /**
   * One season's `allDrivers[name][si] = idx + 1` writes: each name maps
   * to one plus the index of a row with that name.
   */
  function NamePlaces(rows: seq<Standing>): (m: map<string, int>)
    ensures m.Keys == NamesOf(rows)
    ensures RecordsPlaces(rows, m)
  {
    if rows == [] then map[]
    else
      var n := |rows| - 1;
      var m := NamePlaces(rows[..n]);
      NamePlacesStep(rows, m);
      m[rows[n].name := |rows|]
  }

  lemma NamePlacesStep(rows: seq<Standing>, m: map<string, int>)
    requires |rows| > 0
    requires m.Keys == NamesOf(rows[..|rows| - 1])
    requires RecordsPlaces(rows[..|rows| - 1], m)
    ensures m[rows[|rows| - 1].name := |rows|].Keys == NamesOf(rows)
    ensures RecordsPlaces(rows, m[rows[|rows| - 1].name := |rows|])
  {
    NamesOfSnoc(rows);
    var last := rows[|rows| - 1].name;
    forall name | name in m && name != last
      ensures rows[..|rows| - 1][m[name] - 1] == rows[m[name] - 1]
    {
    }
  }

  lemma NamePlacesSnoc(rows: seq<Standing>, row: Standing)
    ensures NamePlaces(rows + [row]) == NamePlaces(rows)[row.name := |rows| + 1]
  {
    assert (rows + [row])[..|rows|] == rows;
  }

  /** The recorded place is the last row with that name: later writes overwrite earlier ones. */
  lemma {:induction false} NamePlaceIsLast(rows: seq<Standing>, j: nat)
    requires j < |rows|
    ensures rows[j].name in NamePlaces(rows) && NamePlaces(rows)[rows[j].name] >= j + 1
  {
    var n := |rows| - 1;
    if j == n || rows[j].name == rows[n].name {
      NamePlacesLastName(rows);
    } else {
      var prefix := rows[..n];
      assert prefix[j] == rows[j];
      NamePlaceIsLast(prefix, j);
      NamePlacesOtherName(rows, rows[j].name);
    }
  }

  /** The last row's name is placed at the last row. */
  lemma NamePlacesLastName(rows: seq<Standing>)
    requires |rows| > 0
    ensures rows[|rows| - 1].name in NamePlaces(rows)
    ensures NamePlaces(rows)[rows[|rows| - 1].name] == |rows|
  {
  }

  /** A name other than the last row's keeps the place the earlier rows gave it. */
  lemma NamePlacesOtherName(rows: seq<Standing>, name: string)
    requires |rows| > 0 && name != rows[|rows| - 1].name
    requires name in NamePlaces(rows[..|rows| - 1])
    ensures name in NamePlaces(rows) && NamePlaces(rows)[name] == NamePlaces(rows[..|rows| - 1])[name]
  {
  }

  /** A name's line: one entry per season, `None` where it did not finish. */
  type Line = seq<Option<int>>

  function Blank(n: nat): (line: Line)
    ensures |line| == n && forall i :: 0 <= i < n ==> line[i] == None
  {
    seq(n, i => None)
  }

  /** Every line in the table has one entry per season. */
  ghost predicate Lines(t: map<string, Line>, n: nat) {
    forall name :: name in t ==> |t[name]| == n
  }

  /** Records `name` at place `p` in season `si`, creating a blank line for a new name. */
  function Place(t: map<string, Line>, name: string, si: nat, p: int, n: nat): (t': map<string, Line>)
    requires Lines(t, n) && si < n
    ensures Lines(t', n) && t'.Keys == t.Keys + {name}
  {
    var line := if name in t then t[name] else Blank(n);
    t[name := line[si := Some(p)]]
  }

  /** The writes for one season's rows, in ranking order. */
  function PlaceSeason(t: map<string, Line>, rows: seq<Standing>, si: nat, n: nat): (t': map<string, Line>)
    requires Lines(t, n) && si < n
    ensures Lines(t', n)
  {
    if rows == [] then t
    else Place(PlaceSeason(t, rows[..|rows| - 1], si, n), rows[|rows| - 1].name, si, |rows|, n)
  }

  /** The writes for every season, in season order, into a table of `n` seasons. */
  function Fold(standings: seq<seq<Standing>>, n: nat): (t: map<string, Line>)
    requires |standings| <= n
    ensures Lines(t, n)
  {
    if standings == [] then map[]
    else
      var k := |standings| - 1;
      PlaceSeason(Fold(standings[..k], n), standings[k], k, n)
  }

  /** Every name that finishes some season. */
  function AllNames(standings: seq<seq<Standing>>): set<string> {
    if standings == [] then {} else AllNames(standings[..|standings| - 1]) + NamesOf(standings[|standings| - 1])
  }

  /** What the table should hold for `name` in season `si`. */
  function Expected(standings: seq<seq<Standing>>, name: string, si: nat): Option<int> {
    if si < |standings| && name in NamePlaces(standings[si]) then Some(NamePlaces(standings[si])[name]) else None
  }

  /** `t` is the table for `standings`: every finishing name, each with its expected places. */
  ghost predicate Describes(t: map<string, Line>, standings: seq<seq<Standing>>, n: nat) {
    && t.Keys == AllNames(standings)
    && Lines(t, n)
    && forall name, si :: name in t && 0 <= si < n ==> t[name][si] == Expected(standings, name, si)
  }

  lemma AllNamesSnoc(pre: seq<seq<Standing>>, rows: seq<Standing>)
    ensures AllNames(pre + [rows]) == AllNames(pre) + NamesOf(rows)
  {
    assert (pre + [rows])[..|pre|] == pre;
  }

  /** Opening a season with no rows yet changes nothing. */
  lemma SeasonStart(t: map<string, Line>, pre: seq<seq<Standing>>, n: nat)
    requires Describes(t, pre, n)
    ensures Describes(t, pre + [[]], n)
  {
    AllNamesSnoc(pre, []);
    assert NamesOf([]) == {};
    forall name, si | name in t && 0 <= si < n
      ensures t[name][si] == Expected(pre + [[]], name, si)
    {
      if si < |pre| {
        assert (pre + [[]])[si] == pre[si];
      }
    }
  }

  /** One more row of the current season moves its name to that row's place. */
  lemma PlaceRowStep(t: map<string, Line>, pre: seq<seq<Standing>>, rows: seq<Standing>, row: Standing, n: nat)
    requires |pre| < n && Describes(t, pre + [rows], n)
    ensures Describes(Place(t, row.name, |pre|, |rows + [row]|, n), pre + [rows + [row]], n)
  {
    var t' := Place(t, row.name, |pre|, |rows + [row]|, n);
    AllNamesSnoc(pre, rows);
    AllNamesSnoc(pre, rows + [row]);
    NamesOfSnoc(rows + [row]);
    assert (rows + [row])[..|rows|] == rows;
    forall name, si | name in t' && 0 <= si < n
      ensures t'[name][si] == Expected(pre + [rows + [row]], name, si)
    {
      PlaceRowAt(t, pre, rows, row, n, name, si);
    }
  }

  lemma PlaceRowAt(t: map<string, Line>, pre: seq<seq<Standing>>, rows: seq<Standing>, row: Standing, n: nat, name: string, si: nat)
    requires |pre| < n && Describes(t, pre + [rows], n)
    requires name in t || name == row.name
    requires si < n
    ensures name in Place(t, row.name, |pre|, |rows| + 1, n)
    ensures Place(t, row.name, |pre|, |rows| + 1, n)[name][si] == Expected(pre + [rows + [row]], name, si)
  {
    var all := pre + [rows];
    var all' := pre + [rows + [row]];
    if si < |pre| {
      assert all'[si] == pre[si] == all[si];
      if name !in t {
        AllNamesContains(all, si);
      }
    } else if si == |pre| {
      assert all'[si] == rows + [row] && all[si] == rows;
      NamePlacesSnoc(rows, row);
      if name !in t {
        AllNamesContains(all, si);
      }
    }
  }

  /** Every name of every season is among all the names. */
  lemma {:induction false} AllNamesContains(standings: seq<seq<Standing>>, si: nat)
    requires si < |standings|
    ensures NamesOf(standings[si]) <= AllNames(standings)
  {
    var k := |standings| - 1;
    if si < k {
      assert standings[..k][si] == standings[si];
      AllNamesContains(standings[..k], si);
    }
  }

  lemma {:induction false} PlaceSeasonDescribes(t: map<string, Line>, pre: seq<seq<Standing>>, rows: seq<Standing>, n: nat)
    requires |pre| < n && Describes(t, pre + [[]], n)
    ensures Describes(PlaceSeason(t, rows, |pre|, n), pre + [rows], n)
    decreases |rows|
  {
    if rows != [] {
      var m := |rows| - 1;
      PlaceSeasonDescribes(t, pre, rows[..m], n);
      PlaceRowStep(PlaceSeason(t, rows[..m], |pre|, n), pre, rows[..m], rows[m], n);
      Seqs.SnocPrefix(rows);
    }
  }

  /** Replaying every season's writes builds exactly the expected table. */
  lemma {:induction false} FoldDescribes(standings: seq<seq<Standing>>, n: nat)
    requires |standings| <= n
    ensures Describes(Fold(standings, n), standings, n)
  {
    if standings != [] {
      var k := |standings| - 1;
      var pre := standings[..k];
      FoldDescribes(pre, n);
      SeasonStart(Fold(pre, n), pre, n);
      PlaceSeasonDescribes(Fold(pre, n), pre, standings[k], n);
      assert pre + [standings[k]] == standings;
    }
  }

  /**
   * Every season's final standings, in season order; the first season
   * whose standings fail makes the whole computation fail with its error.
   */
  function AllFinal(seasons: seq<Season>): (r: Result<seq<seq<Standing>>, Error>)
    ensures r.Success? <==> forall i :: 0 <= i < |seasons| ==> ComputeFinalStandings(seasons[i]).Success?
    ensures r.Success? ==> |r.value| == |seasons|
                           && forall i :: 0 <= i < |seasons| ==> r.value[i] == ComputeFinalStandings(seasons[i]).value
    ensures r.Failure? ==> exists i :: 0 <= i < |seasons| && ComputeFinalStandings(seasons[i]) == Failure(r.error)
                                       && forall j :: 0 <= j < i ==> ComputeFinalStandings(seasons[j]).Success?
  {
    match Seqs.FindFirst(seasons, (x: Season) => ComputeFinalStandings(x).Failure?)
    case Some(i) => Failure(ComputeFinalStandings(seasons[i]).error)
    case None =>
      Success(seq(|seasons|, i requires 0 <= i < |seasons| => ComputeFinalStandings(seasons[i]).value))
  }

  /**
   * The lifetime position table: for each name that finishes some season,
   * one entry per season with the place it finished there.
   */
  function LifetimePositions(seasons: seq<Season>): (r: Result<map<string, Line>, Error>)
    ensures r.Success? <==> forall i :: 0 <= i < |seasons| ==> ComputeFinalStandings(seasons[i]).Success?
    ensures r.Failure? ==> exists i :: 0 <= i < |seasons| && ComputeFinalStandings(seasons[i]) == Failure(r.error)
  {
    match AllFinal(seasons)
    case Failure(e) => Failure(e)
    case Success(standings) => Success(Fold(standings, |seasons|))
  }
}

/** Facts about the lifetime position table. */
module LifetimeFacts {
  import opened Wrappers
  import opened SeasonData
  import opened Ranking
  import opened FinalStandings
  import opened Lifetime

  /** Where a name stands in one season: its last row, or nowhere. */
  lemma PlaceInSeason(rows: seq<Standing>, name: string)
    ensures name !in NamePlaces(rows) <==> forall q :: 0 <= q < |rows| ==> rows[q].name != name
    ensures name in NamePlaces(rows) ==> forall q :: NamePlaces(rows)[name] <= q < |rows| ==> rows[q].name != name
  {
    forall q | 0 <= q < |rows| && rows[q].name == name
      ensures name in NamePlaces(rows) && NamePlaces(rows)[name] > q
    {
      NamePlaceIsLast(rows, q);
    }
  }

  /** The table line of a name holds, for each season, what that season's standings give it. */
  lemma LifetimeLine(seasons: seq<Season>, name: string, si: nat)
    requires LifetimePositions(seasons).Success? && si < |seasons|
    requires name in LifetimePositions(seasons).value
    ensures ComputeFinalStandings(seasons[si]).Success?
    ensures |ComputeFinalStandings(seasons[si]).value| == |Roster(seasons[si].drivers)|
    ensures var rows := ComputeFinalStandings(seasons[si]).value;
            && |LifetimePositions(seasons).value[name]| == |seasons|
            && LifetimePositions(seasons).value[name][si]
               == (if name in NamePlaces(rows) then Some(NamePlaces(rows)[name]) else None)
  {
    FoldDescribes(AllFinal(seasons).value, |seasons|);
  }

  /**
   * What a table entry taken from a season's final standings means: no
   * entry exactly when no row carries the name, and otherwise the place
   * of the last row that does.
   */
  lemma EntryOfRows(e: Option<int>, rows: seq<Standing>, name: string)
    requires e == (if name in NamePlaces(rows) then Some(NamePlaces(rows)[name]) else None)
    ensures e.None? <==> forall q :: 0 <= q < |rows| ==> rows[q].name != name
    ensures e.Some? ==> && 1 <= e.value <= |rows|
                        && rows[e.value - 1].name == name
                        && forall q :: e.value <= q < |rows| ==> rows[q].name != name
  {
    PlaceInSeason(rows, name);
  }

  /** A recorded position lies between 1 and the number of drivers the season lists. */
  lemma LifetimeEntryBound(seasons: seq<Season>, name: string, si: nat)
    requires LifetimePositions(seasons).Success? && si < |seasons|
    requires name in LifetimePositions(seasons).value
    ensures |LifetimePositions(seasons).value[name]| == |seasons|
    ensures LifetimePositions(seasons).value[name][si].Some? ==>
              1 <= LifetimePositions(seasons).value[name][si].value <= |seasons[si].drivers|
  {
    LifetimeLine(seasons, name, si);
    var rows := ComputeFinalStandings(seasons[si]).value;
    EntryOfRows(LifetimePositions(seasons).value[name][si], rows, name);
  }

  /** A name is in the table exactly when some season's final standings carry it. */
  lemma LifetimeNames(seasons: seq<Season>, name: string)
    requires LifetimePositions(seasons).Success?
    ensures name in LifetimePositions(seasons).value
            <==> exists si, q :: 0 <= si < |seasons| && 0 <= q < |ComputeFinalStandings(seasons[si]).value|
                                 && ComputeFinalStandings(seasons[si]).value[q].name == name
  {
    var standings := AllFinal(seasons).value;
    FoldDescribes(standings, |seasons|);
    AllNamesMembers(standings, name);
  }

  lemma {:induction false} AllNamesMembers(standings: seq<seq<Standing>>, name: string)
    ensures name in AllNames(standings)
            <==> exists si, q :: 0 <= si < |standings| && 0 <= q < |standings[si]| && standings[si][q].name == name
  {
    if standings != [] {
      var k := |standings| - 1;
      var pre := standings[..k];
      AllNamesMembers(pre, name);
      if name in AllNames(standings) {
        if name in NamesOf(standings[k]) {
          var q :| 0 <= q < |standings[k]| && standings[k][q].name == name;
        } else {
          var si, q :| 0 <= si < |pre| && 0 <= q < |pre[si]| && pre[si][q].name == name;
          assert standings[si] == pre[si];
        }
      } else {
        forall si, q | 0 <= si < |standings| && 0 <= q < |standings[si]|
          ensures standings[si][q].name != name
        {
          if si < k {
            assert standings[si] == pre[si];
          }
        }
      }
    }
  }
}
