/**
 * The row ledger: the retained full copy of the decoded sheet
 * (`XCommentBot.original_df`) together with the name of its status column
 * (`_status_col_name`), and the in-place status write-back
 * `update_excel_file`.
 */
module RowLedger {
  import opened Schema
  import opened Sheet

  /** The table with a column `name` appended and filled with "" unless one is already there. */
  function WithColumn(t: Table, name: string): (r: Table)
    requires WellFormed(t)
    ensures WellFormed(r)
    ensures name in r.columns && |r.rows| == |t.rows|
    ensures name in t.columns ==> r == t
    ensures name !in t.columns ==> r.columns == t.columns + [name]
  {
    if name in t.columns then t
    else Table(t.columns + [name], seq(|t.rows|, i requires 0 <= i < |t.rows| => t.rows[i] + [Value("")]))
  }

  /** The old cells keep their values and the new column, if any, holds "". */
  lemma WithColumnCells(t: Table, name: string)
    requires WellFormed(t)
    ensures forall i, c :: 0 <= i < |t.rows| && 0 <= c < |WithColumn(t, name).columns| ==>
              WithColumn(t, name).rows[i][c] == if c < |t.columns| then t.rows[i][c] else Value("")
  {
  }

  /**
   * `.loc[row, name] = s` after the status column has been made sure of:
   * when `row` labels a row, every cell of that row under `name` becomes `s`;
   * nothing else changes.
   */
  function SetStatus(t: Table, name: string, row: int, s: string): (r: Table)
    requires WellFormed(t)
    ensures WellFormed(r)
    ensures r.columns == WithColumn(t, name).columns && |r.rows| == |t.rows|
  {
    var w := WithColumn(t, name);
    if 0 <= row < |w.rows| then
      Table(w.columns, w.rows[row := seq(|w.columns|, c requires 0 <= c < |w.columns| =>
                                           if w.columns[c] == name then Value(s) else w.rows[row][c])])
    else w
  }

  /** Exactly the cells of row `row` under `name` hold `s`; every other cell is as in `WithColumn`. */
  lemma SetStatusCells(t: Table, name: string, row: int, s: string)
    requires WellFormed(t)
    ensures forall i, c :: 0 <= i < |t.rows| && 0 <= c < |WithColumn(t, name).columns| ==>
              SetStatus(t, name, row, s).rows[i][c] ==
                if i == row && WithColumn(t, name).columns[c] == name then Value(s) else WithColumn(t, name).rows[i][c]
  {
  }

  /** A row id that labels no row changes nothing but, if it was missing, the status column. */
  lemma SetStatusUnknownRow(t: Table, name: string, row: int, s: string)
    requires WellFormed(t)
    requires !(0 <= row < |t.rows|)
    ensures SetStatus(t, name, row, s) == WithColumn(t, name)
  {
  }

  class Ledger {
    /** Whether `original_df` has been set at all. */
    var loaded: bool
    var columns: seq<string>
    var rows: seq<seq<Cell>>
    /** `_status_col_name`: the detected or created status column, once known. */
    var statusName: Option<string>

    ghost predicate Valid()
      reads this
    {
      WellFormed(Table(columns, rows))
    }

    function Snapshot(): Table
      reads this
    {
      Table(columns, rows)
    }

    /** The column written to: the recorded status column, else the default name. */
    function StatusColumnName(): (n: string)
      reads this
      ensures n == DefaultStatusName || statusName == Some(n)
      ensures statusName.Some? ==> n == statusName.value
    {
      match statusName
      case Some(n) => n
      case None => DefaultStatusName
    }

    /** A bot starts with no ledger. */
    constructor ()
      ensures Valid() && !loaded && statusName == None && Snapshot() == Table([], [])
    {
      loaded := false;
      columns := [];
      rows := [];
      statusName := None;
    }

    /** `self.original_df = df.copy()`: the ledger keeps the sheet exactly as decoded. */
    method Attach(t: Table)
      requires WellFormed(t)
      modifies this
      ensures Valid() && loaded && Snapshot() == t && statusName == old(statusName)
    {
      loaded := true;
      columns := t.columns;
      rows := t.rows;
    }

    /**
     * Records the status column and creates it, filled with "", when the
     * ledger has no column of that exact name.
     */
    method AdoptStatusColumn(name: string)
      requires Valid() && loaded
      modifies this
      ensures Valid() && loaded
      ensures Snapshot() == WithColumn(old(Snapshot()), name) && statusName == Some(name)
    {
      if name !in columns {
        var t := WithColumn(Snapshot(), name);
        columns, rows := t.columns, t.rows;
      }
      statusName := Some(name);
    }

    /**
     * `update_excel_file`: never fails; without a ledger it does nothing,
     * otherwise it writes `status` into the status cell of row `row` when
     * that row exists (creating the status column first if it is missing).
     */
    method UpdateStatus(row: int, status: string)
      requires Valid()
      modifies this
      ensures Valid()
      ensures loaded == old(loaded) && statusName == old(statusName)
      ensures !loaded ==> Snapshot() == old(Snapshot())
      ensures loaded ==> Snapshot() == SetStatus(old(Snapshot()), old(StatusColumnName()), row, status)
    {
      if !loaded {
        return;
      }
      var name := StatusColumnName();
      if name !in columns {
        var t := WithColumn(Snapshot(), name);
        columns, rows := t.columns, t.rows;
      }
      assert Snapshot() == WithColumn(old(Snapshot()), name);
      if 0 <= row < |rows| {
        var cols, cells := columns, rows[row];
        rows := rows[row := seq(|cols|, c requires 0 <= c < |cols| => if cols[c] == name then Value(status) else cells[c])];
      }
      ghost var expected := SetStatus(old(Snapshot()), name, row, status);
      WithColumnCells(old(Snapshot()), name);
      SetStatusCells(old(Snapshot()), name, row, status);
      assert forall i :: 0 <= i < |rows| ==> rows[i] == expected.rows[i];
    }
  }
}
