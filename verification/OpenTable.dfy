/** The table of open files (fs/fs.c): 32 rows, each a file, how often it is held, and
    whether it has lost its name.  A row with no references is free.

    `Refs` and `IsNameless` say what the table means for one file; the lemmas say what
    each edit of the rows does to that meaning, and the class edits them in place. */
module OpenTable {

  const OPEN_MAX: nat := 32

  datatype Row = Row(ino: nat, refs: nat, nameless: bool)

  // ---- looking -------------------------------------------------------------------

  predicate IsRow(r: Row, ino: nat) {
    r.refs != 0 && r.ino == ino
  }

  /** The first row for `ino` from `i` on, or the length. */
  function RowFrom(rows: seq<Row>, ino: nat, i: nat): (k: nat)
    requires i <= |rows|
    ensures i <= k <= |rows|
    ensures forall j :: i <= j < k ==> !IsRow(rows[j], ino)
    ensures k < |rows| ==> IsRow(rows[k], ino)
    decreases |rows| - i
  {
    if i == |rows| || IsRow(rows[i], ino) then i else RowFrom(rows, ino, i + 1)
  }

  function RowOf(rows: seq<Row>, ino: nat): nat {
    RowFrom(rows, ino, 0)
  }

  /** The first free row from `i` on, or the length. */
  function FreeFrom(rows: seq<Row>, i: nat): (k: nat)
    requires i <= |rows|
    ensures i <= k <= |rows|
    ensures forall j :: i <= j < k ==> rows[j].refs != 0
    ensures k < |rows| ==> rows[k].refs == 0
    decreases |rows| - i
  {
    if i == |rows| || rows[i].refs == 0 then i else FreeFrom(rows, i + 1)
  }

  // ---- what the table means ---------------------------------------------------------

  function Refs(rows: seq<Row>, ino: nat): nat {
    var k := RowOf(rows, ino);
    if k < |rows| then rows[k].refs else 0
  }

  predicate IsNameless(rows: seq<Row>, ino: nat) {
    var k := RowOf(rows, ino);
    k < |rows| && rows[k].nameless
  }

  /** No file has two rows. */
  ghost predicate OneRowEach(rows: seq<Row>) {
    forall i, j :: 0 <= i < j < |rows| && rows[i].refs != 0 && rows[j].refs != 0 ==> rows[i].ino != rows[j].ino
  }

  // ---- the three edits ---------------------------------------------------------------

  /** open_hold: the file's row, else the first free one, else a refusal. */
  function Hold(rows: seq<Row>, ino: nat): (r: (bool, seq<Row>))
    ensures |r.1| == |rows|
  {
    var k := RowOf(rows, ino);
    if k < |rows| then (true, rows[k := rows[k].(refs := rows[k].refs + 1)])
    else
      var f := FreeFrom(rows, 0);
      if f < |rows| then (true, rows[f := Row(ino, 1, false)]) else (false, rows)
  }

  /** fs_close's half: one reference less, the mark gone with the last. */
  function Release(rows: seq<Row>, ino: nat): (r: seq<Row>)
    ensures |r| == |rows|
  {
    var k := RowOf(rows, ino);
    if k < |rows| then
      rows[k := Row(ino, rows[k].refs - 1, rows[k].refs != 1 && rows[k].nameless)]
    else rows
  }

  function Mark(rows: seq<Row>, ino: nat): (r: seq<Row>)
    ensures |r| == |rows|
  {
    var k := RowOf(rows, ino);
    if k < |rows| then rows[k := rows[k].(nameless := true)] else rows
  }

  // ---- what they do to the meaning -----------------------------------------------------

  lemma IsTheRow(rows: seq<Row>, ino: nat, i: nat)
    requires OneRowEach(rows) && i < |rows| && IsRow(rows[i], ino)
    ensures RowOf(rows, ino) == i
  {
    hide RowFrom;
    var k := RowOf(rows, ino);
    assert !(k < i) && !(i < k);
  }

  lemma NoRow(rows: seq<Row>, ino: nat)
    requires forall i :: 0 <= i < |rows| ==> !IsRow(rows[i], ino)
    ensures RowOf(rows, ino) == |rows|
  {
    hide RowFrom;
  }

  /** Rewriting a row that is free or `ino`'s, as free or `ino`'s, leaves every other
      file alone. */
  lemma OtherRows(rows: seq<Row>, k: nat, r: Row, ino: nat, other: nat)
    requires OneRowEach(rows) && k < |rows|
    requires rows[k].refs == 0 || rows[k].ino == ino
    requires r.refs == 0 || (r.ino == ino && (rows[k].refs == 0 ==> RowOf(rows, ino) == |rows|))
    requires other != ino
    ensures OneRowEach(rows[k := r])
    ensures Refs(rows[k := r], other) == Refs(rows, other)
    ensures IsNameless(rows[k := r], other) == IsNameless(rows, other)
  {
    hide RowFrom;
    var after := rows[k := r];
    var i := RowOf(rows, other);
    if i < |rows| {
      assert after[i] == rows[i];
      IsTheRow(after, other, i);
    } else {
      forall j | 0 <= j < |after|
        ensures !IsRow(after[j], other)
      {
        assert !IsRow(rows[j], other);
      }
      NoRow(after, other);
    }
  }

  /** One more hold: counted for this file, every other untouched; a fresh row has a
      name.  Refused exactly when the file has no row and none is free. */
  lemma HoldMeaning(rows: seq<Row>, ino: nat)
    requires OneRowEach(rows)
    ensures var (ok, after) := Hold(rows, ino);
            && OneRowEach(after)
            && (ok <==> Refs(rows, ino) > 0 || exists i :: 0 <= i < |rows| && rows[i].refs == 0)
            && (ok ==> Refs(after, ino) == Refs(rows, ino) + 1 && IsNameless(after, ino) == IsNameless(rows, ino))
            && (!ok ==> after == rows)
            && forall other :: other != ino ==>
                 Refs(after, other) == Refs(rows, other) && IsNameless(after, other) == IsNameless(rows, other)
  {
    hide RowFrom, FreeFrom;
    var (ok, after) := Hold(rows, ino);
    if ok {
      var k := if RowOf(rows, ino) < |rows| then RowOf(rows, ino) else FreeFrom(rows, 0);
      forall other | other != ino
        ensures Refs(after, other) == Refs(rows, other) && IsNameless(after, other) == IsNameless(rows, other)
      {
        OtherRows(rows, k, after[k], ino, other);
      }
      OtherRows(rows, k, after[k], ino, ino + 1);
      IsTheRow(after, ino, k);
    }
  }

  /** One hold less; with the last the row, and its mark, are gone. */
  lemma ReleaseMeaning(rows: seq<Row>, ino: nat)
    requires OneRowEach(rows) && Refs(rows, ino) > 0
    ensures var after := Release(rows, ino);
            && OneRowEach(after)
            && Refs(after, ino) == Refs(rows, ino) - 1
            && (IsNameless(after, ino) <==> IsNameless(rows, ino) && Refs(rows, ino) > 1)
            && forall other :: other != ino ==>
                 Refs(after, other) == Refs(rows, other) && IsNameless(after, other) == IsNameless(rows, other)
  {
    hide RowFrom;
    var after := Release(rows, ino);
    var k := RowOf(rows, ino);
    forall other | other != ino
      ensures Refs(after, other) == Refs(rows, other) && IsNameless(after, other) == IsNameless(rows, other)
    {
      OtherRows(rows, k, after[k], ino, other);
    }
    OtherRows(rows, k, after[k], ino, ino + 1);
    if rows[k].refs > 1 {
      IsTheRow(after, ino, k);
    } else {
      forall j | 0 <= j < |after|
        ensures !IsRow(after[j], ino)
      {
      }
      NoRow(after, ino);
    }
  }

  lemma MarkMeaning(rows: seq<Row>, ino: nat)
    requires OneRowEach(rows)
    ensures var after := Mark(rows, ino);
            && OneRowEach(after)
            && (forall any :: Refs(after, any) == Refs(rows, any))
            && (IsNameless(after, ino) <==> Refs(rows, ino) > 0)
            && forall other :: other != ino ==> IsNameless(after, other) == IsNameless(rows, other)
  {
    hide RowFrom;
    var after := Mark(rows, ino);
    var k := RowOf(rows, ino);
    if k < |rows| {
      forall other | other != ino
        ensures Refs(after, other) == Refs(rows, other) && IsNameless(after, other) == IsNameless(rows, other)
      {
        OtherRows(rows, k, after[k], ino, other);
      }
      OtherRows(rows, k, after[k], ino, ino + 1);
      IsTheRow(after, ino, k);
    }
  }

  // ---- in place --------------------------------------------------------------------

  class Table {
    const rows: array<Row>

    ghost predicate Valid()
      reads this
    {
      rows.Length == OPEN_MAX
    }

    constructor ()
      ensures Valid() && fresh(rows)
      ensures forall ino :: Refs(rows[..], ino) == 0
    {
      rows := new Row[OPEN_MAX](i => Row(0, 0, false));
      new;
      forall ino
        ensures Refs(rows[..], ino) == 0
      {
        NoRow(rows[..], ino);
      }
    }

    /** open_row: the row's index, or the length for none. */
    method Find(ino: nat) returns (k: nat)
      requires Valid()
      ensures k == RowOf(rows[..], ino)
    {
      k := 0;
      while k < rows.Length
        invariant 0 <= k <= rows.Length
        invariant RowFrom(rows[..], ino, k) == RowOf(rows[..], ino)
      {
        if rows[k].refs != 0 && rows[k].ino == ino { return; }
        k := k + 1;
      }
    }

    /** open_hold */
    method Acquire(ino: nat) returns (ok: bool)
      requires Valid()
      modifies rows
      ensures (ok, rows[..]) == Hold(old(rows[..]), ino)
    {
      var k := Find(ino);
      if k < rows.Length {
        rows[k] := rows[k].(refs := rows[k].refs + 1);
        return true;
      }
      var i := 0;
      while i < rows.Length
        invariant 0 <= i <= rows.Length && rows[..] == old(rows[..])
        invariant FreeFrom(rows[..], i) == FreeFrom(rows[..], 0)
      {
        if rows[i].refs == 0 {
          rows[i] := Row(ino, 1, false);
          return true;
        }
        i := i + 1;
      }
      return false;
    }

    /** fs_close's bookkeeping; `last` asks for the reap. */
    method Drop(ino: nat) returns (found: bool, last: bool)
      requires Valid()
      modifies rows
      ensures found == (Refs(old(rows[..]), ino) > 0)
      ensures last == (Refs(old(rows[..]), ino) == 1 && IsNameless(old(rows[..]), ino))
      ensures rows[..] == Release(old(rows[..]), ino)
    {
      var k := Find(ino);
      if k == rows.Length { return false, false; }
      rows[k] := rows[k].(refs := rows[k].refs - 1);
      last := rows[k].refs == 0 && rows[k].nameless;
      if rows[k].refs == 0 {
        rows[k] := rows[k].(nameless := false);
      }
      return true, last;
    }
  }
}
