/**
 * The per-race results panel: which entries get a qualifying or race row,
 * and the order the rows are listed in (by position, entries without a
 * position last, then by name).
 */
module ResultsPanel {
  import opened Wrappers
  import opened SeasonData
  import opened NameOrder
  import Sorting
  import Seqs

  /** The two tables of the panel. */
  datatype Session = Qualifying | Race

  /**
   * A panel row. `pos` 0 stands for the blank position shown as "-";
   * `flagged` is the DNP mark in qualifying and the DNF mark in the race.
   */
  datatype PanelRow = PanelRow(pos: int, name: string, flagged: bool)

  /** The row an outcome contributes to a session's table, if it shows there at all. */
  function RowFor(session: Session, o: Outcome, d: Driver): Option<PanelRow> {
    match session
    case Qualifying => if o.qualiPos > 0 || o.qDNP then Some(PanelRow(o.qualiPos, d.name, o.qDNP)) else None
    case Race => if o.racePos > 0 || o.dnf then Some(PanelRow(o.racePos, d.name, o.dnf)) else None
  }

  /** The rows of one session's table, in entry order, before sorting. */
  function SelectRows(session: Session, es: seq<DriverOutcome>, drivers: seq<Driver>): (rows: seq<PanelRow>)
    ensures |rows| <= |es|
    ensures forall row :: row in rows <==>
      exists k :: 0 <= k < |es| && KnownDriver(drivers, es[k].driver).Some?
                  && RowFor(session, es[k].outcome, KnownDriver(drivers, es[k].driver).value) == Some(row)
  {
    if es == [] then []
    else
      var rest := SelectRows(session, es[1..], drivers);
      assert forall k :: 1 <= k < |es| ==> es[1..][k - 1] == es[k];
      match KnownDriver(drivers, es[0].driver)
      case None => rest
      case Some(d) =>
        match RowFor(session, es[0].outcome, d)
        case None => rest
        case Some(row) => [row] + rest
  }

  /** The sort key of a position: a blank position counts as 99. */
  function PosKey(pos: int): int {
    if pos == 0 then 99 else pos
  }

  /** `a` is listed before `b`: a smaller position key, or the same key and an earlier name. */
  predicate PanelBefore(a: PanelRow, b: PanelRow) {
    KeyThenName(PosKey(a.pos), a.name, PosKey(b.pos), b.name)
  }

  lemma PanelBeforeIsStrictOrder()
    ensures Sorting.StrictOrder(PanelBefore)
  {
    forall a: PanelRow
      ensures !PanelBefore(a, a)
    {
      KeyThenNameIrreflexive(PosKey(a.pos), a.name);
    }
    forall a: PanelRow, b: PanelRow, c: PanelRow | PanelBefore(a, b) && PanelBefore(b, c)
      ensures PanelBefore(a, c)
    {
      KeyThenNameTransitive(PosKey(a.pos), a.name, PosKey(b.pos), b.name, PosKey(c.pos), c.name);
    }
  }

  /**
   * One session's table as listed: the selected rows, reordered so that
   * position keys never decrease and equal keys are in name order.
   */
  function PanelRows(session: Session, es: seq<DriverOutcome>, drivers: seq<Driver>): (rows: seq<PanelRow>)
    ensures multiset(rows) == multiset(SelectRows(session, es, drivers))
    ensures Sorting.SortedBy(rows, PanelBefore)
    ensures forall i, j :: 0 <= i < j < |rows| ==> PosKey(rows[i].pos) <= PosKey(rows[j].pos)
    ensures forall i, j :: 0 <= i < j < |rows| && PosKey(rows[i].pos) == PosKey(rows[j].pos)
                           ==> !NameLess(rows[j].name, rows[i].name)
  {
    PanelBeforeIsStrictOrder();
    Sorting.Sort(SelectRows(session, es, drivers), PanelBefore)
  }

  /** The rows that tie under the listing order: position key `key` and name `name`. */
  function InSlot(key: int, name: string): PanelRow -> bool {
    (row: PanelRow) => PosKey(row.pos) == key && row.name == name
  }

  /**
   * The sort is stable: rows that tie on position key and name are listed
   * in entry order.
   */
  lemma PanelRowsStable(session: Session, es: seq<DriverOutcome>, drivers: seq<Driver>, key: int, name: string)
    ensures Seqs.Filter(PanelRows(session, es, drivers), InSlot(key, name))
         == Seqs.Filter(SelectRows(session, es, drivers), InSlot(key, name))
  {
    PanelBeforeIsStrictOrder();
    KeyThenNameIrreflexive(key, name);
    assert Sorting.Interchangeable(PanelBefore, InSlot(key, name));
    Sorting.SortStable(SelectRows(session, es, drivers), PanelBefore, InSlot(key, name));
  }

  /**
   * Every listed row either has a position or carries the flag, and its
   * name is the listed name of the driver the entry's id resolves to.
   */
  lemma PanelRowShown(session: Session, es: seq<DriverOutcome>, drivers: seq<Driver>, i: nat)
    requires i < |PanelRows(session, es, drivers)|
    ensures var row := PanelRows(session, es, drivers)[i];
            && (row.pos > 0 || row.flagged)
            && exists d :: d in drivers && d.name == row.name
  {
    var row := PanelRows(session, es, drivers)[i];
    assert row in multiset(SelectRows(session, es, drivers));
    SelectedRowShown(session, es, drivers, row);
  }

  /** A selected row has a position or carries the flag, and shows a listed driver's name. */
  lemma SelectedRowShown(session: Session, es: seq<DriverOutcome>, drivers: seq<Driver>, row: PanelRow)
    requires row in SelectRows(session, es, drivers)
    ensures row.pos > 0 || row.flagged
    ensures exists d :: d in drivers && d.name == row.name
  {
    var k :| 0 <= k < |es| && KnownDriver(drivers, es[k].driver).Some?
             && RowFor(session, es[k].outcome, KnownDriver(drivers, es[k].driver).value) == Some(row);
    var d := KnownDriver(drivers, es[k].driver).value;
    assert d in drivers;
  }
}
