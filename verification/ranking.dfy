/**
 * Ranking and tie-break: the comparator `b.total - a.total ||
 * a.name.localeCompare(b.name)` shared by the final standings and the
 * per-race snapshots, and the `pos[o.id] = i + 1` position map.
 */
module Ranking {
  import opened SeasonData
  import opened NameOrder
  import Sorting
  import Seqs

  /** A driver's row in a ranking: id, display name and points total. */
  datatype Standing = Standing(id: DriverId, name: string, total: int)

  /** `a` sorts strictly before `b`: more points, or equal points and an earlier name. */
  predicate RankBefore(a: Standing, b: Standing) {
    KeyThenName(-a.total, a.name, -b.total, b.name)
  }

  lemma RankBeforeIsStrictOrder()
    ensures Sorting.StrictOrder(RankBefore)
  {
    forall a: Standing
      ensures !RankBefore(a, a)
    {
      KeyThenNameIrreflexive(-a.total, a.name);
    }
    forall a: Standing, b: Standing, c: Standing | RankBefore(a, b) && RankBefore(b, c)
      ensures RankBefore(a, c)
    {
      KeyThenNameTransitive(-a.total, a.name, -b.total, b.name, -c.total, c.name);
    }
  }

  /**
   * The rows in ranking order: a permutation of the input, totals
   * non-increasing, and equal totals in name order.
   */
  function Rank(rows: seq<Standing>): (r: seq<Standing>)
    ensures multiset(r) == multiset(rows)
    ensures Sorting.SortedBy(r, RankBefore)
    ensures forall i, j :: 0 <= i < j < |r| ==> r[i].total >= r[j].total
    ensures forall i, j :: 0 <= i < j < |r| && r[i].total == r[j].total ==> !NameLess(r[j].name, r[i].name)
  {
    RankBeforeIsStrictOrder();
    Sorting.Sort(rows, RankBefore)
  }

  /** The rows that tie under the ranking order: total `total` and name `name`. */
  function Tied(total: int, name: string): Standing -> bool {
    (row: Standing) => row.total == total && row.name == name
  }

  /** The sort is stable: rows that tie on total and name keep their input order. */
  lemma RankStable(rows: seq<Standing>, total: int, name: string)
    ensures Seqs.Filter(Rank(rows), Tied(total, name)) == Seqs.Filter(rows, Tied(total, name))
  {
    RankBeforeIsStrictOrder();
    KeyThenNameIrreflexive(-total, name);
    assert Sorting.Interchangeable(RankBefore, Tied(total, name));
    Sorting.SortStable(rows, RankBefore, Tied(total, name));
  }

  /** No two rows share a driver id. */
  predicate UniqueIds(rows: seq<Standing>) {
    forall i, j :: 0 <= i < j < |rows| ==> rows[i].id != rows[j].id
  }

  lemma UniqueIdsPermutation(a: seq<Standing>, b: seq<Standing>)
    requires multiset(a) == multiset(b) && UniqueIds(a)
    ensures UniqueIds(b)
  {
    assert Seqs.Distinct(a);
    Seqs.DistinctPermutation(a, b);
    forall i, j | 0 <= i < j < |b|
      ensures b[i].id != b[j].id
    {
      assert b[i] in multiset(a) && b[j] in multiset(a);
      var p :| 0 <= p < |a| && a[p] == b[i];
      var q :| 0 <= q < |a| && a[q] == b[j];
      assert p != q;
    }
  }

  function IdsOf(rows: seq<Standing>): set<DriverId> {
    set i | 0 <= i < |rows| :: rows[i].id
  }

  lemma IdsOfSnoc(rows: seq<Standing>)
    requires |rows| > 0
    ensures IdsOf(rows) == IdsOf(rows[..|rows| - 1]) + {rows[|rows| - 1].id}
  {
    var n := |rows| - 1;
    assert forall i :: 0 <= i < n ==> rows[..n][i] == rows[i];
  }

  lemma IdsOfPermutation(a: seq<Standing>, b: seq<Standing>)
    requires multiset(a) == multiset(b)
    ensures IdsOf(a) == IdsOf(b)
  {
    Seqs.PermutationElements(a, b);
    forall id | id in IdsOf(a)
      ensures id in IdsOf(b)
    {
      var i :| 0 <= i < |a| && a[i].id == id;
      assert a[i] in b;
    }
    forall id | id in IdsOf(b)
      ensures id in IdsOf(a)
    {
      var i :| 0 <= i < |b| && b[i].id == id;
      assert b[i] in a;
    }
  }

  /**
   * The position map built by `ordered.forEach((o, i) => pos[o.id] = i + 1)`:
   * every id in the ranking maps to one plus the index of a row of
   * that driver, and no later row belongs to the same driver.
   */
  function Positions(ranked: seq<Standing>): (pos: map<DriverId, int>)
    ensures pos.Keys == IdsOf(ranked)
    ensures forall id :: id in pos ==> 1 <= pos[id] <= |ranked| && ranked[pos[id] - 1].id == id
  {
    if ranked == [] then map[]
    else
      var n := |ranked| - 1;
      var pos := Positions(ranked[..n]);
      PositionsSnoc(ranked, pos);
      pos[ranked[n].id := n + 1]
  }

  lemma PositionsSnoc(ranked: seq<Standing>, pos: map<DriverId, int>)
    requires |ranked| > 0
    requires pos.Keys == IdsOf(ranked[..|ranked| - 1])
    requires forall id :: id in pos ==> 1 <= pos[id] <= |ranked| - 1 && ranked[..|ranked| - 1][pos[id] - 1].id == id
    ensures var pos' := pos[ranked[|ranked| - 1].id := |ranked|];
            && pos'.Keys == IdsOf(ranked)
            && forall id :: id in pos' ==> 1 <= pos'[id] <= |ranked| && ranked[pos'[id] - 1].id == id
  {
    IdsOfSnoc(ranked);
  }

  /** No row after the recorded position belongs to the same driver. */
  lemma {:induction false} PositionIsLastRow(ranked: seq<Standing>, j: nat)
    requires j < |ranked|
    ensures Positions(ranked)[ranked[j].id] >= j + 1
  {
    var n := |ranked| - 1;
    if j == n || ranked[j].id == ranked[n].id {
      PositionsLastId(ranked);
    } else {
      var prefix := ranked[..n];
      assert prefix[j] == ranked[j];
      PositionIsLastRow(prefix, j);
      PositionsOtherId(ranked, ranked[j].id);
    }
  }

  /** The last row's driver is placed at the last row. */
  lemma PositionsLastId(ranked: seq<Standing>)
    requires |ranked| > 0
    ensures ranked[|ranked| - 1].id in Positions(ranked)
    ensures Positions(ranked)[ranked[|ranked| - 1].id] == |ranked|
  {
  }

  /** A driver other than the last row's keeps the position the earlier rows gave it. */
  lemma PositionsOtherId(ranked: seq<Standing>, id: DriverId)
    requires |ranked| > 0 && id != ranked[|ranked| - 1].id
    requires id in Positions(ranked[..|ranked| - 1])
    ensures id in Positions(ranked) && Positions(ranked)[id] == Positions(ranked[..|ranked| - 1])[id]
  {
  }

  /**
   * The positions are exactly 1..n: each within 1..n, each taken, and no
   * two drivers sharing one.
   */
  ghost predicate OneToN(pos: map<DriverId, int>, n: nat) {
    && (forall id :: id in pos ==> 1 <= pos[id] <= n)
    && (forall p :: 1 <= p <= n ==> Taken(pos, p))
    && (forall a, b :: a in pos && b in pos && a != b ==> pos[a] != pos[b])
  }

  /** Some driver holds position `p`. */
  ghost predicate Taken(pos: map<DriverId, int>, p: int) {
    exists id :: id in pos && pos[id] == p
  }

  /**
   * With one row per driver, every row's driver gets its own index plus
   * one, and the positions are exactly 1..n.
   */
  lemma PositionsOfUniqueIds(ranked: seq<Standing>)
    requires UniqueIds(ranked)
    ensures forall i :: 0 <= i < |ranked| ==> Positions(ranked)[ranked[i].id] == i + 1
    ensures OneToN(Positions(ranked), |ranked|)
  {
    PositionsAtIndex(ranked);
    PositionsOneToN(ranked);
  }

  /** With one row per driver, the positions are exactly 1..n. */
  lemma PositionsOneToN(ranked: seq<Standing>)
    requires UniqueIds(ranked)
    ensures OneToN(Positions(ranked), |ranked|)
  {
    PositionsTaken(ranked);
    PositionsInjectiveOf(ranked);
  }

  /** No two drivers share a position. */
  lemma PositionsInjectiveOf(ranked: seq<Standing>)
    ensures forall a, b :: a in Positions(ranked) && b in Positions(ranked) && a != b ==> Positions(ranked)[a] != Positions(ranked)[b]
  {
    PositionsInjective(Positions(ranked), ranked);
  }

  /** With one row per driver, every row's driver sits at that row's index plus one. */
  lemma PositionsAtIndex(ranked: seq<Standing>)
    requires UniqueIds(ranked)
    ensures forall i :: 0 <= i < |ranked| ==> Positions(ranked)[ranked[i].id] == i + 1
  {
    forall i | 0 <= i < |ranked|
      ensures Positions(ranked)[ranked[i].id] == i + 1
    {
      UniquePosition(ranked, i);
    }
  }

  /** With one row per driver, a row's driver sits at that row's index plus one. */
  lemma UniquePosition(ranked: seq<Standing>, i: nat)
    requires UniqueIds(ranked) && i < |ranked|
    ensures Positions(ranked)[ranked[i].id] == i + 1
  {
    PositionIsLastRow(ranked, i);
  }

  /** With one row per driver, every position 1..n is held by someone. */
  lemma PositionsTaken(ranked: seq<Standing>)
    requires UniqueIds(ranked)
    ensures forall p :: 1 <= p <= |ranked| ==> Taken(Positions(ranked), p)
  {
    forall p | 1 <= p <= |ranked|
      ensures Taken(Positions(ranked), p)
    {
      UniquePosition(ranked, p - 1);
    }
  }

  /** A map that points every key at a row carrying that key is one-to-one. */
  lemma PositionsInjective(pos: map<DriverId, int>, ranked: seq<Standing>)
    requires forall id :: id in pos ==> 1 <= pos[id] <= |ranked| && ranked[pos[id] - 1].id == id
    ensures forall a, b :: a in pos && b in pos && a != b ==> pos[a] != pos[b]
  {
  }

  /**
   * Ranking rows with distinct ids gives every id a position, and the
   * positions are exactly 1..n.
   */
  lemma RankedPositions(rows: seq<Standing>)
    requires UniqueIds(rows)
    ensures Positions(Rank(rows)).Keys == IdsOf(rows)
    ensures OneToN(Positions(Rank(rows)), |rows|)
  {
    var ranked := Rank(rows);
    IdsOfPermutation(rows, ranked);
    UniqueIdsPermutation(rows, ranked);
    PositionsOfUniqueIds(ranked);
  }

  /** The ranking index of a row: the place it was sorted into. */
  lemma RankIndex(rows: seq<Standing>, i: nat) returns (a: nat)
    requires UniqueIds(rows) && i < |rows|
    ensures a < |Rank(rows)| && Rank(rows)[a] == rows[i]
    ensures Positions(Rank(rows))[rows[i].id] == a + 1
  {
    var ranked := Rank(rows);
    Seqs.PermutationElements(rows, ranked);
    assert rows[i] in ranked;
    a :| 0 <= a < |ranked| && ranked[a] == rows[i];
    UniqueIdsPermutation(rows, ranked);
    PositionIsLastRow(ranked, a);
    var p := Positions(ranked)[rows[i].id];
    assert ranked[p - 1].id == rows[i].id;
  }

  /** In a sorted ranking with one row per driver, sorting earlier means a smaller position. */
  lemma SortedPositions(ranked: seq<Standing>, a: nat, b: nat)
    requires UniqueIds(ranked) && Sorting.SortedBy(ranked, RankBefore)
    requires a < |ranked| && b < |ranked|
    ensures Positions(ranked)[ranked[a].id] == a + 1 && Positions(ranked)[ranked[b].id] == b + 1
    ensures RankBefore(ranked[a], ranked[b]) ==> a < b
  {
    UniquePosition(ranked, a);
    UniquePosition(ranked, b);
    SortedIndexOrder(ranked, a, b);
  }

  /** In a sorted ranking, a row that sorts before another sits at a smaller index. */
  lemma SortedIndexOrder(ranked: seq<Standing>, a: nat, b: nat)
    requires Sorting.SortedBy(ranked, RankBefore)
    requires a < |ranked| && b < |ranked|
    ensures RankBefore(ranked[a], ranked[b]) ==> a < b
  {
    KeyThenNameIrreflexive(-ranked[a].total, ranked[a].name);
    if b < a {
      assert !RankBefore(ranked[a], ranked[b]);
    }
  }

  /**
   * With distinct ids, a row that sorts before another gets the smaller
   * position, and a smaller position never goes to the row that sorts
   * after.
   */
  lemma RankedOrder(rows: seq<Standing>, i: nat, j: nat)
    requires UniqueIds(rows) && i < |rows| && j < |rows|
    ensures rows[i].id in Positions(Rank(rows)) && rows[j].id in Positions(Rank(rows))
    ensures RankBefore(rows[i], rows[j]) ==> Positions(Rank(rows))[rows[i].id] < Positions(Rank(rows))[rows[j].id]
    ensures Positions(Rank(rows))[rows[i].id] < Positions(Rank(rows))[rows[j].id] ==> !RankBefore(rows[j], rows[i])
  {
    var a := RankIndex(rows, i);
    var b := RankIndex(rows, j);
    var ranked := Rank(rows);
    UniqueIdsPermutation(rows, ranked);
    SortedPositions(ranked, a, b);
    SortedPositions(ranked, b, a);
  }
}
