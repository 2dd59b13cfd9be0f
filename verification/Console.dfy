/** The console above the terminal (dev/tty.c): the hardware cursor, programmed at the end
    of a batch, and the whole of it in place. */
module Console {
  import opened Terminal

  /** `at`: where the hardware cursor was last put; `pokes`: how often. */
  datatype Console = Console(tty: Tty, at: nat, dirty: bool, depth: nat, pokes: nat)

  function Place(t: Tty): nat {
    Off(t.cur.row, t.cur.col)
  }

  function Programmed(c: Console): Console {
    c.(at := Place(c.tty), dirty := false, pokes := c.pokes + 1)
  }

  /** tty_cursor_sync */
  function Synced(c: Console): Console {
    if Place(c.tty) == c.at then c.(dirty := false)
    else if c.depth != 0 then c.(dirty := true)
    else Programmed(c)
  }

  datatype Act = Begin | Byte(i: Input) | End

  function Step(c: Console, a: Act): (d: Console)
    requires Inv(c.tty)
    ensures Inv(d.tty)
  {
    match a
    case Begin => c.(depth := c.depth + 1)
    case Byte(i) => Synced(c.(tty := Put(c.tty, i)))
    case End =>
      var d := c.(depth := if c.depth > 0 then c.depth - 1 else 0);
      if d.depth == 0 && d.dirty then Programmed(d) else d
  }

  function Run(c: Console, acts: seq<Act>): (d: Console)
    requires Inv(c.tty)
    ensures Inv(d.tty)
    decreases |acts|
  {
    if acts == [] then c else Run(Step(c, acts[0]), acts[1..])
  }

  // ---- the cursor is where it should be -----------------------------------------------------

  /** Dirty exactly when the hardware is behind, and never outside a batch. */
  predicate CursorOk(c: Console) {
    Inv(c.tty) && (c.dirty <==> c.at != Place(c.tty)) && (c.depth == 0 ==> !c.dirty)
  }

  lemma StepKeeps(c: Console, a: Act)
    requires CursorOk(c)
    ensures CursorOk(Step(c, a))
  {
    hide Put, Off;
  }

  /** Whatever bytes and batches come, outside a batch the hardware cursor is at the
      terminal's. */
  lemma {:induction false} CursorFollows(c: Console, acts: seq<Act>)
    requires CursorOk(c)
    ensures CursorOk(Run(c, acts))
    ensures Run(c, acts).depth == 0 ==> Run(c, acts).at == Off(Run(c, acts).tty.cur.row, Run(c, acts).tty.cur.col)
    decreases |acts|
  {
    hide Step;
    if acts != [] {
      StepKeeps(c, acts[0]);
      CursorFollows(Step(c, acts[0]), acts[1..]);
    }
  }

  /** The batch stays open all through the run. */
  predicate StaysOpen(c: Console, acts: seq<Act>)
    requires Inv(c.tty)
    decreases |acts|
  {
    c.depth > 0 && (acts == [] || StaysOpen(Step(c, acts[0]), acts[1..]))
  }

  lemma {:induction false} OpenBatchIsQuiet(c: Console, acts: seq<Act>)
    requires CursorOk(c) && StaysOpen(c, acts)
    ensures Run(c, acts).pokes == c.pokes && Run(c, acts).at == c.at && CursorOk(Run(c, acts))
    decreases |acts|
  {
    hide Put, Off;
    if acts != [] {
      StepKeeps(c, acts[0]);
      OpenBatchIsQuiet(Step(c, acts[0]), acts[1..]);
    }
  }

  /** An outermost batch, with any batches nested in it, programs the cursor once if it
      ends elsewhere and not at all otherwise, and leaves it at row * 80 + column. */
  lemma OneProgramPerBatch(c: Console, acts: seq<Act>)
    requires CursorOk(c) && c.depth == 0
    requires StaysOpen(Step(c, Begin), acts) && Run(Step(c, Begin), acts).depth == 1
    ensures var u := Step(Run(Step(c, Begin), acts), End);
            && u.depth == 0 && u.at == u.tty.cur.row * 80 + u.tty.cur.col
            && u.pokes == c.pokes + if u.at != c.at then 1 else 0
  {
    OpenBatchIsQuiet(Step(c, Begin), acts);
  }

  lemma SyncTwice(c: Console)
    ensures Synced(Synced(c)) == Synced(c)
  {
  }

  /** A batch of bytes. */
  function Bytes(s: seq<Input>): (acts: seq<Act>)
    ensures |acts| == |s| && forall i :: 0 <= i < |s| ==> acts[i] == Byte(s[i])
  {
    seq(|s|, i requires 0 <= i < |s| => Byte(s[i]))
  }

  lemma {:induction false} BytesRun(c: Console, s: seq<Input>)
    requires Inv(c.tty)
    ensures Run(c, Bytes(s)).tty == PutAll(c.tty, s) && Run(c, Bytes(s)).depth == c.depth
    ensures c.depth > 0 ==> StaysOpen(c, Bytes(s))
    decreases |s|
  {
    hide Put, Off;
    if s != [] {
      assert Bytes(s)[1..] == Bytes(s[1..]);
      BytesRun(Step(c, Byte(s[0])), s[1..]);
    }
  }

  // ---- in place -----------------------------------------------------------------------------

  class Screen {
    const cells: array<Cell>
    const plain: byte
    var cur: Cursor
    var saved: Saved
    var top: nat
    var bot: nat
    var visible: bool
    var parser: Parser
    var at: nat
    var dirty: bool
    var depth: nat
    var pokes: nat

    ghost function Value(): Tty
      reads this, cells
    {
      Tty(cells[..], cur, saved, top, bot, visible, plain, parser)
    }

    ghost function Whole(): Console
      reads this, cells
    {
      Console(Value(), at, dirty, depth, pokes)
    }

    ghost predicate Valid()
      reads this, cells
    {
      Inv(Value())
    }

    /** tty_init, as far as the screen goes. */
    constructor (attr: byte)
      ensures Valid() && CursorOk(Whole()) && fresh(cells)
    {
      cells := new Cell[CELLS](i => Cell(attr, SPACE));
      plain := attr;
      cur := Cursor(0, 0, attr, false);
      saved := NotSaved;
      top, bot := 0, ROWS - 1;
      visible := true;
      parser := Parser(Ground, NO_PARAMS, 0, false, false);
      at, dirty, depth, pokes := 0, false, 0, 1;
    }

    /** tty_erase_range */
    method EraseRange(lo: nat, hi: nat)
      requires cells.Length == CELLS
      modifies cells
      ensures cells[..] == Erased(old(cells[..]), lo, hi, Cell(cur.attr, SPACE))
    {
      var last := if hi >= CELLS then CELLS - 1 else hi;
      if lo > last { return; }
      var i := lo;
      while i <= last
        invariant lo <= i <= last + 1
        invariant forall k :: 0 <= k < CELLS ==>
          cells[k] == if lo <= k < i then Cell(cur.attr, SPACE) else old(cells[k])
      {
        cells[i] := Cell(cur.attr, SPACE);
        i := i + 1;
      }
    }

    /** tty_scroll */
    method Scroll()
      requires Valid()
      modifies this`cur, cells
      ensures Value() == old(Value()).(cells := Scrolled(old(cells[..]), top, bot, Cell(cur.attr, SPACE)),
                                       cur := old(cur).(row := bot))
    {
      ShiftRows();
      BlankRow();
      assert cells[..] == Scrolled(old(cells[..]), top, bot, Cell(cur.attr, SPACE));
      cur := cur.(row := bot);
    }

    /** The first loop: every cell of the region but the last row takes the one below. */
    method ShiftRows()
      requires Valid()
      modifies cells
      ensures forall k :: 0 <= k < CELLS ==>
                cells[k] == if top * COLS <= k < bot * COLS then old(cells[k + COLS]) else old(cells[k])
    {
      var i := top * COLS;
      while i < bot * COLS
        invariant top * COLS <= i <= bot * COLS
        invariant forall k :: 0 <= k < CELLS ==>
          cells[k] == if top * COLS <= k < i then old(cells[k + COLS]) else old(cells[k])
      {
        cells[i] := cells[i + COLS];
        i := i + 1;
      }
    }

    method BlankRow()
      requires Valid()
      modifies cells
      ensures forall k :: 0 <= k < CELLS ==>
                cells[k] == if bot * COLS <= k < bot * COLS + COLS then Cell(cur.attr, SPACE) else old(cells[k])
    {
      var i := bot * COLS;
      while i < bot * COLS + COLS
        invariant bot * COLS <= i <= bot * COLS + COLS
        invariant forall k :: 0 <= k < CELLS ==>
          cells[k] == if bot * COLS <= k < i then Cell(cur.attr, SPACE) else old(cells[k])
      {
        cells[i] := Cell(cur.attr, SPACE);
        i := i + 1;
      }
    }

    /** tty_linefeed */
    method Feed()
      requires Valid()
      modifies this`cur, cells
      ensures Value() == LineFeed(old(Value())) && Valid()
    {
      hide Scrolled;
      if cur.row == bot {
        Scroll();
      } else if cur.row + 1 < ROWS {
        cur := cur.(row := cur.row + 1);
      }
    }

    /** tty_putcell at the cursor */
    method PutHere(ch: byte)
      requires Valid()
      modifies cells
      ensures Value() == PutCell(old(Value()), ch) && Valid()
    {
      cells[cur.row * COLS + cur.col] := Cell(cur.attr, ch);
    }

    /** The printable case of tty_ground_put. */
    method PrintByte(ch: byte)
      requires Valid()
      modifies this`cur, cells
      ensures Value() == Printed(old(Value()), ch) && Valid()
    {
      hide LineFeed, PutCell;
      if cur.wrap {
        cur := cur.(wrap := false);
        cur := cur.(col := 0);
        Feed();
      }
      PutHere(ch);
      PutCellKeeps(old(if cur.wrap then LineFeed(Homed(Value())) else Value()), ch);
      if cur.col + 1 >= COLS {
        cur := cur.(wrap := true);
      } else {
        cur := cur.(col := cur.col + 1);
      }
    }

    /** tty_ground_put */
    method GroundByte(ch: byte)
      requires Valid()
      modifies this`cur, this`parser, cells
      ensures Value() == GroundPut(old(Value()), ch) && Valid()
    {
      hide LineFeed, Printed, PutCell;
      if ch == ESC {
        parser := parser.(mode := Escape);
      } else if ch == 10 {
        cur := cur.(wrap := false);
        cur := cur.(col := 0);
        Feed();
      } else if ch == 13 {
        cur := cur.(wrap := false);
        cur := cur.(col := 0);
      } else if ch == 9 {
        cur := cur.(col := (cur.col + 8) / 8 * 8);
        if cur.col >= COLS {
          cur := cur.(col := COLS - 1, wrap := true);
        } else {
          cur := cur.(wrap := false);
        }
      } else if ch == 8 {
        cur := cur.(wrap := false);
        if cur.col > 0 {
          cur := cur.(col := cur.col - 1);
        }
        PutHere(SPACE);
      } else if ch >= 0x20 {
        PrintByte(ch);
      }
    }

    /** ED and EL */
    method Erase(line: bool, n: nat)
      requires Valid()
      modifies this`cur, cells
      ensures Value() == (if line then EraseLine(old(Value()), n) else EraseDisplay(old(Value()), n)) && Valid()
    {
      hide Erased;
      cur := cur.(wrap := false);
      var lo := cur.row * COLS;
      var here := lo + cur.col;
      if line {
        if n == 0 { EraseRange(here, lo + (COLS - 1)); }
        else if n == 1 { EraseRange(lo, here); }
        else if n == 2 { EraseRange(lo, lo + (COLS - 1)); }
      } else {
        if n == 0 { EraseRange(here, CELLS - 1); }
        else if n == 1 { EraseRange(0, here); }
        else if n == 2 || n == 3 {
          EraseRange(0, CELLS - 1);
          cur := cur.(col := 0, row := 0);
        }
      }
    }

    /** DECSTBM */
    method Margins()
      requires Valid()
      modifies this`cur, this`top, this`bot
      ensures Value() == SetMargins(old(Value())) && Valid()
    {
      var marginTop := Param(parser, 0, 1);
      var marginBot := Param(parser, 1, ROWS);
      if marginBot > ROWS { marginBot := ROWS; }
      if marginTop < 1 || marginTop >= marginBot {
        marginTop, marginBot := 1, ROWS;
      }
      top, bot := marginTop - 1, marginBot - 1;
      cur := cur.(row := 0, col := 0, wrap := false);
    }

    /** The moving finals of tty_csi_dispatch. */
    method MoveBy(final: byte)
      requires Valid() && (final == 0x48 || final == 0x66 || 0x41 <= final <= 0x44) && !parser.dec
      modifies this`cur
      ensures Value() == Dispatch(old(Value()), final, 0) && Valid()
    {
      var n := Param(parser, 0, 1);
      cur := cur.(wrap := false);
      if final == 0x48 || final == 0x66 {
        var col := Param(parser, 1, 1);
        cur := cur.(row := Clamp(n - 1, ROWS), col := Clamp(col - 1, COLS));
      } else if final == 0x41 {
        cur := cur.(row := Clamp(cur.row - n, ROWS));
      } else if final == 0x42 {
        cur := cur.(row := Clamp(cur.row + n, ROWS));
      } else if final == 0x43 {
        cur := cur.(col := Clamp(cur.col + n, COLS));
      } else {
        cur := cur.(col := Clamp(cur.col - n, COLS));
      }
    }

    /** tty_csi_dispatch */
    method DispatchByte(final: byte, colour: byte)
      requires Valid()
      modifies this`cur, this`saved, this`top, this`bot, this`visible, cells
      ensures Value() == Dispatch(old(Value()), final, colour) && Valid()
    {
      hide EraseDisplay, EraseLine, SetMargins, Move;
      if parser.dec {
        if (final == 0x68 || final == 0x6C) && parser.nparam == 1 && parser.params[0] == 25 {
          visible := final == 0x68;
        }
        return;
      }
      if final == 0x48 || final == 0x66 || 0x41 <= final <= 0x44 {
        MoveBy(final);
      } else if final == 0x4A {
        Erase(false, if parser.nparam == 0 then 0 else parser.params[0]);
      } else if final == 0x4B {
        Erase(true, if parser.nparam == 0 then 0 else parser.params[0]);
      } else if final == 0x6D {
        cur := cur.(attr := colour);
      } else if final == 0x72 {
        Margins();
      } else if final == 0x73 {
        saved := Saved(cur);
      } else if final == 0x75 {
        if saved.Saved? { cur := saved.cursor; }
      }
    }

    /** The CSI state of tty_putc_vga. */
    method CsiByte(ch: byte, colour: byte)
      requires Valid()
      modifies this`cur, this`saved, this`top, this`bot, this`visible, this`parser, cells
      ensures Value() == CsiPut(old(Value()), ch, colour) && Valid()
    {
      hide Dispatch;
      if 0x30 <= ch <= 0x39 {
        if !parser.have {
          if parser.nparam >= MAX_PARAMS { return; }
          parser := parser.(nparam := parser.nparam + 1, have := true);
        }
        var i := parser.nparam - 1;
        parser := parser.(params := parser.params[i := Digit(parser.params[i], ch - 0x30)]);
      } else if ch == 0x3B {
        if !parser.have && parser.nparam < MAX_PARAMS {
          parser := parser.(nparam := parser.nparam + 1);
        }
        parser := parser.(have := false);
      } else if ch == 0x3F {
        parser := parser.(dec := true);
      } else if 0x40 <= ch <= 0x7E {
        DispatchByte(ch, colour);
        parser := parser.(mode := Ground);
      }
    }

    /** tty_cursor_sync */
    method Sync()
      modifies this`at, this`dirty, this`pokes
      ensures Whole() == Synced(old(Whole()))
    {
      var off := cur.row * COLS + cur.col;
      if off == at {
        dirty := false;
        return;
      }
      if depth != 0 {
        dirty := true;
        return;
      }
      at, dirty, pokes := off, false, pokes + 1;
    }

    /** The ESC state of tty_putc_vga; a reset clears, and syncs as it does. */
    method EscapeByte(ch: byte)
      requires Valid()
      modifies this, cells
      ensures Valid() && Synced(Whole()) == Synced(old(Whole()).(tty := EscapePut(old(Value()), ch)))
    {
      hide Erased;
      if ch == 0x5B {
        parser := Parser(Csi, NO_PARAMS, 0, false, false);
      } else if ch == 0x63 {
        cur := cur.(attr := plain);
        saved := NotSaved;
        parser := parser.(mode := Ground);
        EraseRange(0, CELLS - 1);
        cur := cur.(col := 0, row := 0, wrap := false);
        SyncTwice(Whole());
        Sync();
      } else {
        parser := parser.(mode := Ground);
      }
    }

    /** tty_putc */
    method Putc(i: Input)
      requires Valid()
      modifies this, cells
      ensures Valid() && Whole() == Step(old(Whole()), Byte(i))
    {
      hide GroundPut, EscapePut, CsiPut, Synced;
      match parser.mode {
        case Ground => GroundByte(i.ch);
        case Escape => EscapeByte(i.ch);
        case Csi => CsiByte(i.ch, i.colour);
      }
      Sync();
    }

    /** tty_batch_begin */
    method BatchBegin()
      requires Valid()
      modifies this`depth
      ensures Valid() && Whole() == Step(old(Whole()), Begin)
    {
      depth := depth + 1;
    }

    /** tty_batch_end */
    method BatchEnd()
      requires Valid()
      modifies this`depth, this`at, this`dirty, this`pokes
      ensures Valid() && Whole() == Step(old(Whole()), End)
    {
      if depth > 0 { depth := depth - 1; }
      if depth == 0 && dirty {
        at, dirty, pokes := cur.row * COLS + cur.col, false, pokes + 1;
      }
    }

    /** The loop of tty_write. */
    method PutEach(s: seq<Input>)
      requires Valid()
      modifies this, cells
      ensures Valid() && Whole() == Run(old(Whole()), Bytes(s))
    {
      hide Step;
      var i := 0;
      assert Bytes(s[..0]) == [];
      while i < |s|
        invariant 0 <= i <= |s| && Valid()
        invariant Whole() == Run(old(Whole()), Bytes(s[..i]))
      {
        RunSnoc(old(Whole()), Bytes(s[..i]), Byte(s[i]));
        assert Bytes(s[..i + 1]) == Bytes(s[..i]) + [Byte(s[i])];
        Putc(s[i]);
        i := i + 1;
      }
      assert s[..|s|] == s;
    }

    /** tty_write */
    method Write(s: seq<Input>)
      requires Valid() && CursorOk(Whole())
      modifies this, cells
      ensures Valid() && CursorOk(Whole()) && depth == old(depth)
      ensures Value() == PutAll(old(Value()), s)
      ensures depth == 0 ==> at == Place(Value()) && pokes == old(pokes) + if at != old(at) then 1 else 0
    {
      BatchBegin();
      PutEach(s);
      WroteBatch(old(Whole()), s);
      BatchEnd();
    }
  }

  /** What a write does to the whole console. */
  lemma WroteBatch(c: Console, s: seq<Input>)
    requires CursorOk(c)
    ensures var u := Step(Run(Step(c, Begin), Bytes(s)), End);
            && CursorOk(u) && u.depth == c.depth && u.tty == PutAll(c.tty, s)
            && (c.depth == 0 ==> u.at == Place(u.tty) && u.pokes == c.pokes + if u.at != c.at then 1 else 0)
  {
    hide Put, PutAll, Inv;
    var open := Step(c, Begin);
    StepKeeps(c, Begin);
    BytesRun(open, s);
    OpenBatchIsQuiet(open, Bytes(s));
    StepKeeps(Run(open, Bytes(s)), End);
  }

  lemma PutCellKeeps(t: Tty, ch: byte)
    requires Inv(t)
    ensures PutCell(t, ch) == t.(cells := PutCell(t, ch).cells)
  {
  }

  lemma {:induction false} RunSnoc(c: Console, acts: seq<Act>, a: Act)
    requires Inv(c.tty)
    ensures Run(c, acts + [a]) == Step(Run(c, acts), a)
    decreases |acts|
  {
    hide Step;
    if acts == [] {
      assert acts + [a] == [a];
      assert Run(Step(c, a), []) == Step(c, a);
    } else {
      assert (acts + [a])[1..] == acts[1..] + [a];
      RunSnoc(Step(c, acts[0]), acts[1..], a);
    }
  }
}
