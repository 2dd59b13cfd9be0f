/** The VGA console (dev/tty.c): cell grid, cursor with deferred wrap, scrolling region,
    and the escape-sequence parser: what one byte does, as functions.  The colour an SGR
    would set is an input, so every statement holds for any colour arithmetic. */
module Terminal {

  type byte = x: int | 0 <= x < 256

  const COLS: nat := 80
  const ROWS: nat := 25
  const CELLS: nat := 2000
  const MAX_PARAMS: nat := 8
  const PARAM_MAX: nat := 9999

  const ESC: byte := 0x1B
  const SPACE: byte := 0x20

  /** attribute << 8 | character */
  datatype Cell = Cell(attr: byte, ch: byte)

  datatype Cursor = Cursor(col: nat, row: nat, attr: byte, wrap: bool)

  datatype Saved = NotSaved | Saved(cursor: Cursor)

  datatype Mode = Ground | Escape | Csi

  datatype Parser = Parser(mode: Mode, params: seq<nat>, nparam: nat, have: bool, dec: bool)

  datatype Tty = Tty(
    cells: seq<Cell>,
    cur: Cursor,
    saved: Saved,
    top: nat,
    bot: nat,
    visible: bool,             // tty_cursor_visible
    plain: byte,               // tty_attr_default
    parser: Parser)

  /** A byte written, and the attribute an SGR ending at it would set. */
  datatype Input = Input(ch: byte, colour: byte)

  // ---- what must always hold ---------------------------------------------------------

  predicate OnScreen(c: Cursor) {
    c.col < COLS && c.row < ROWS && (c.wrap ==> c.col == COLS - 1)
  }

  predicate ParserOk(p: Parser) {
    && |p.params| == MAX_PARAMS && p.nparam <= MAX_PARAMS && (p.have ==> p.nparam > 0)
    && forall i :: 0 <= i < MAX_PARAMS ==> p.params[i] <= PARAM_MAX
  }

  predicate Inv(t: Tty) {
    && |t.cells| == CELLS
    && OnScreen(t.cur) && (t.saved.Saved? ==> OnScreen(t.saved.cursor))
    && t.top < t.bot < ROWS
    && ParserOk(t.parser)
  }

  // ---- cells --------------------------------------------------------------------------

  function Off(row: nat, col: nat): nat {
    row * COLS + col
  }

  function Blank(t: Tty): Cell {
    Cell(t.cur.attr, SPACE)
  }

  /** Cells `lo` to `hi` inclusive, as far as there are any. */
  function Erased(cells: seq<Cell>, lo: nat, hi: nat, blank: Cell): (r: seq<Cell>)
    ensures |r| == |cells|
    ensures forall i :: 0 <= i < |cells| ==> r[i] == if lo <= i <= hi then blank else cells[i]
  {
    seq(|cells|, i requires 0 <= i < |cells| => if lo <= i <= hi then blank else cells[i])
  }

  /** Rows `top` to `bot` move up by one. */
  function Scrolled(cells: seq<Cell>, top: nat, bot: nat, blank: Cell): (r: seq<Cell>)
    requires |cells| == CELLS && top < bot < ROWS
    ensures |r| == CELLS
    ensures forall i :: 0 <= i < CELLS ==>
              r[i] == if Off(top, 0) <= i < Off(bot, 0) then cells[i + COLS]
                      else if Off(bot, 0) <= i < Off(bot, COLS) then blank
                      else cells[i]
  {
    seq(CELLS, i requires 0 <= i < CELLS =>
      if Off(top, 0) <= i < Off(bot, 0) then cells[i + COLS]
      else if Off(bot, 0) <= i < Off(bot, COLS) then blank
      else cells[i])
  }

  // ---- one byte in the ground state -----------------------------------------------------

  function LineFeed(t: Tty): (u: Tty)
    requires Inv(t)
    ensures Inv(u)
    ensures u == t.(cells := u.cells, cur := t.cur.(row := u.cur.row))
  {
    if t.cur.row == t.bot then
      t.(cells := Scrolled(t.cells, t.top, t.bot, Blank(t)), cur := t.cur.(row := t.bot))
    else if t.cur.row + 1 < ROWS then t.(cur := t.cur.(row := t.cur.row + 1))
    else t
  }

  function PutCell(t: Tty, ch: byte): (u: Tty)
    requires Inv(t)
    ensures Inv(u)
  {
    t.(cells := t.cells[Off(t.cur.row, t.cur.col) := Cell(t.cur.attr, ch)])
  }

  function Homed(t: Tty): Tty {
    t.(cur := t.cur.(col := 0, wrap := false))
  }

  function Tabbed(c: Cursor): Cursor {
    var col := (c.col + 8) / 8 * 8;
    if col >= COLS then c.(col := COLS - 1, wrap := true) else c.(col := col, wrap := false)
  }

  /** A printable byte: pay the wrap owed, put it, step or owe. */
  function Printed(t: Tty, ch: byte): (u: Tty)
    requires Inv(t)
    ensures Inv(u)
  {
    var v := if t.cur.wrap then LineFeed(Homed(t)) else t;
    var w := PutCell(v, ch);
    if w.cur.col + 1 >= COLS then w.(cur := w.cur.(wrap := true)) else w.(cur := w.cur.(col := w.cur.col + 1))
  }

  function GroundPut(t: Tty, ch: byte): (u: Tty)
    requires Inv(t)
    ensures Inv(u)
  {
    if ch == ESC then t.(parser := t.parser.(mode := Escape))
    else if ch == 10 then LineFeed(Homed(t))
    else if ch == 13 then Homed(t)
    else if ch == 9 then t.(cur := Tabbed(t.cur))
    else if ch == 8 then
      PutCell(t.(cur := t.cur.(wrap := false, col := if t.cur.col > 0 then t.cur.col - 1 else 0)), SPACE)
    else if ch >= 0x20 then Printed(t, ch)
    else t
  }

  // ---- one byte of a sequence ------------------------------------------------------------

  /** A digit into a parameter: a 16-bit multiply and add, then the clamp. */
  function Digit(v: nat, d: nat): (r: nat)
    ensures r <= PARAM_MAX
  {
    var w := (v * 10 + d) % 0x1_0000;
    if w > PARAM_MAX then PARAM_MAX else w
  }

  const NO_PARAMS: seq<nat> := [0, 0, 0, 0, 0, 0, 0, 0]

  function Param(p: Parser, i: nat, fallback: nat): (n: nat)
    requires ParserOk(p) && i < MAX_PARAMS && fallback <= PARAM_MAX
    ensures n <= PARAM_MAX
  {
    if i >= p.nparam || p.params[i] == 0 then fallback else p.params[i]
  }

  /** clamp_u16 into 0..n-1 */
  function Clamp(v: int, n: nat): (r: nat)
    requires n > 0
    ensures r < n
  {
    if v < 0 then 0 else if v > n - 1 then n - 1 else v
  }

  function Move(t: Tty, row: int, col: int): (u: Tty)
    requires Inv(t)
    ensures Inv(u)
  {
    t.(cur := t.cur.(row := Clamp(row, ROWS), col := Clamp(col, COLS), wrap := false))
  }

  function EraseTo(t: Tty, lo: nat, hi: nat): (u: Tty)
    requires Inv(t)
    ensures Inv(u)
  {
    t.(cells := Erased(t.cells, lo, hi, Blank(t)), cur := t.cur.(wrap := false))
  }

  function EraseDisplay(t: Tty, n: nat): (u: Tty)
    requires Inv(t)
    ensures Inv(u)
  {
    var at := Off(t.cur.row, t.cur.col);
    if n == 0 then EraseTo(t, at, CELLS - 1)
    else if n == 1 then EraseTo(t, 0, at)
    else if n == 2 || n == 3 then Move(EraseTo(t, 0, CELLS - 1), 0, 0)
    else t.(cur := t.cur.(wrap := false))
  }

  function EraseLine(t: Tty, n: nat): (u: Tty)
    requires Inv(t)
    ensures Inv(u)
  {
    var lo := Off(t.cur.row, 0);
    var hi := Off(t.cur.row, COLS - 1);
    var at := Off(t.cur.row, t.cur.col);
    if n == 0 then EraseTo(t, at, hi)
    else if n == 1 then EraseTo(t, lo, at)
    else if n == 2 then EraseTo(t, lo, hi)
    else t.(cur := t.cur.(wrap := false))
  }

  /** DECSTBM: an empty or inverted region is the whole screen. */
  function SetMargins(t: Tty): (u: Tty)
    requires Inv(t)
    ensures Inv(u)
  {
    var top := Param(t.parser, 0, 1);
    var low := Param(t.parser, 1, ROWS);
    var bot := if low > ROWS then ROWS else low;
    var whole := top < 1 || top >= bot;
    Move(t.(top := if whole then 0 else top - 1, bot := if whole then ROWS - 1 else bot - 1), 0, 0)
  }

  function Dispatch(t: Tty, final: byte, colour: byte): (u: Tty)
    requires Inv(t)
    ensures Inv(u)
  {
    var n := Param(t.parser, 0, 1);
    var first := if t.parser.nparam == 0 then 0 else t.parser.params[0];
    if t.parser.dec then                                                                // DECTCEM
      if (final == 0x68 || final == 0x6C) && t.parser.nparam == 1 && first == 25
      then t.(visible := final == 0x68) else t
    else if final == 0x48 || final == 0x66 then Move(t, n - 1, Param(t.parser, 1, 1) - 1)   // H f
    else if final == 0x41 then Move(t, t.cur.row - n, t.cur.col)                        // A
    else if final == 0x42 then Move(t, t.cur.row + n, t.cur.col)                        // B
    else if final == 0x43 then Move(t, t.cur.row, t.cur.col + n)                        // C
    else if final == 0x44 then Move(t, t.cur.row, t.cur.col - n)                        // D
    else if final == 0x4A then EraseDisplay(t, first)                                   // J
    else if final == 0x4B then EraseLine(t, first)                                      // K
    else if final == 0x6D then t.(cur := t.cur.(attr := colour))                        // m
    else if final == 0x72 then SetMargins(t)                                            // r
    else if final == 0x73 then t.(saved := Saved(t.cur))                                // s
    else if final == 0x75 && t.saved.Saved? then t.(cur := t.saved.cursor)              // u
    else t
  }

  /** RIS: colours, saved cursor and screen go; the margins stay. */
  function Reset(t: Tty): (u: Tty)
    requires Inv(t)
    ensures Inv(u)
  {
    var v := t.(cur := t.cur.(attr := t.plain), saved := NotSaved, parser := t.parser.(mode := Ground));
    Move(EraseTo(v, 0, CELLS - 1), 0, 0)
  }

  function EscapePut(t: Tty, ch: byte): (u: Tty)
    requires Inv(t)
    ensures Inv(u)
  {
    if ch == 0x5B then t.(parser := Parser(Csi, NO_PARAMS, 0, false, false))   // [
    else if ch == 0x63 then Reset(t)                                           // c
    else t.(parser := t.parser.(mode := Ground))
  }

  function Accumulate(p: Parser, d: nat): (q: Parser)
    requires ParserOk(p)
    ensures ParserOk(q)
  {
    if !p.have && p.nparam >= MAX_PARAMS then p
    else
      var n := if p.have then p.nparam else p.nparam + 1;
      p.(nparam := n, have := true, params := p.params[n - 1 := Digit(p.params[n - 1], d)])
  }

  function CsiPut(t: Tty, ch: byte, colour: byte): (u: Tty)
    requires Inv(t)
    ensures Inv(u)
  {
    var p := t.parser;
    if 0x30 <= ch <= 0x39 then t.(parser := Accumulate(p, ch - 0x30))
    else if ch == 0x3B then                                                    // ;
      t.(parser := p.(nparam := if !p.have && p.nparam < MAX_PARAMS then p.nparam + 1 else p.nparam, have := false))
    else if ch == 0x3F then t.(parser := p.(dec := true))                      // ?
    else if 0x40 <= ch <= 0x7E then
      var u := Dispatch(t, ch, colour);
      u.(parser := u.parser.(mode := Ground))
    else t
  }

  /** tty_putc_vga */
  function Put(t: Tty, i: Input): (u: Tty)
    requires Inv(t)
    ensures Inv(u)
  {
    match t.parser.mode
    case Ground => GroundPut(t, i.ch)
    case Escape => EscapePut(t, i.ch)
    case Csi => CsiPut(t, i.ch, i.colour)
  }

  function PutAll(t: Tty, s: seq<Input>): (u: Tty)
    requires Inv(t)
    ensures Inv(u)
    decreases |s|
  {
    if s == [] then t else PutAll(Put(t, s[0]), s[1..])
  }

  lemma {:induction false} PutAllAppend(t: Tty, a: seq<Input>, b: seq<Input>)
    requires Inv(t)
    ensures PutAll(t, a + b) == PutAll(PutAll(t, a), b)
    decreases |a|
  {
    hide Put;
    if a == [] {
      assert a + b == b;
    } else {
      assert (a + b)[1..] == a[1..] + b;
      PutAllAppend(Put(t, a[0]), a[1..], b);
    }
  }

  // ---- the scrolling region --------------------------------------------------------------

  predicate InRegion(t: Tty) {
    t.top <= t.cur.row <= t.bot
  }

  /** The same screen outside rows `top` to `bot`. */
  ghost predicate SameOutside(t: Tty, u: Tty) {
    && |t.cells| == |u.cells| == CELLS && u.top == t.top && u.bot == t.bot
    && forall i :: 0 <= i < CELLS && !(Off(t.top, 0) <= i < Off(t.bot + 1, 0)) ==> u.cells[i] == t.cells[i]
  }

  lemma LineFeedInRegion(t: Tty)
    requires Inv(t) && InRegion(t)
    ensures SameOutside(t, LineFeed(t)) && InRegion(LineFeed(t))
  {
    var u := LineFeed(t);
    var r := Scrolled(t.cells, t.top, t.bot, Blank(t));
    forall i | 0 <= i < CELLS && !(Off(t.top, 0) <= i < Off(t.bot + 1, 0))
      ensures u.cells[i] == t.cells[i]
    {
      assert !(Off(t.top, 0) <= i < Off(t.bot, 0)) && !(Off(t.bot, 0) <= i < Off(t.bot, COLS));
      assert r[i] == t.cells[i];
    }
  }

  lemma PlainStep(t: Tty, i: Input)
    requires Inv(t) && t.parser.mode == Ground && i.ch != ESC && InRegion(t)
    ensures SameOutside(t, Put(t, i)) && InRegion(Put(t, i)) && Put(t, i).parser == t.parser
  {
    hide LineFeed;
    LineFeedInRegion(Homed(t));
  }

  /** Output without escapes that starts inside the region stays inside it: no row
      outside ever changes. */
  lemma {:induction false} PlainOutputStaysInRegion(t: Tty, s: seq<Input>)
    requires Inv(t) && t.parser.mode == Ground && InRegion(t) && forall i :: i in s ==> i.ch != ESC
    ensures SameOutside(t, PutAll(t, s)) && InRegion(PutAll(t, s))
    decreases |s|
  {
    hide Put;
    if s != [] {
      assert s[0] in s;
      PlainStep(t, s[0]);
      PlainOutputStaysInRegion(Put(t, s[0]), s[1..]);
    }
  }

  // ---- the deferred wrap -------------------------------------------------------------------

  predicate Printable(s: seq<Input>) {
    forall i :: 0 <= i < |s| ==> s[i].ch >= 0x20
  }

  /** Row `row` from column `col` on shows `s`; every other cell is as in `t`. */
  ghost predicate Shows(t: Tty, u: Tty, row: nat, col: nat, s: seq<Input>)
    requires |t.cells| == |u.cells| == CELLS
  {
    forall k :: 0 <= k < CELLS ==>
      u.cells[k] == if Off(row, col) <= k < Off(row, col) + |s| then Cell(t.cur.attr, s[k - Off(row, col)].ch) else t.cells[k]
  }

  /** One printable byte with no wrap owed: a cell, then a step or an armed wrap. */
  lemma OnePrinted(t: Tty, i: Input)
    requires Inv(t) && t.parser.mode == Ground && !t.cur.wrap && i.ch >= 0x20
    ensures Off(t.cur.row, t.cur.col) < |t.cells|
    ensures var last := t.cur.col + 1 == COLS;
            Put(t, i) == t.(cells := t.cells[Off(t.cur.row, t.cur.col) := Cell(t.cur.attr, i.ch)],
                            cur := t.cur.(wrap := last, col := if last then t.cur.col else t.cur.col + 1))
  {
  }

  /** One cell and then the rest of a text is the whole text. */
  lemma ShowsMore(t: Tty, v: Tty, u: Tty, row: nat, col: nat, s: seq<Input>)
    requires |t.cells| == |v.cells| == |u.cells| == CELLS && s != [] && Off(row, col) < CELLS
    requires v.cells == t.cells[Off(row, col) := Cell(t.cur.attr, s[0].ch)] && v.cur.attr == t.cur.attr
    requires Shows(v, u, row, col + 1, s[1..])
    ensures Shows(t, u, row, col, s)
  {
    var at := Off(row, col);
    forall k | 0 <= k < CELLS
      ensures u.cells[k] == if at <= k < at + |s| then Cell(t.cur.attr, s[k - at].ch) else t.cells[k]
    {
      assert at < k < at + |s| ==> s[1..][k - at - 1] == s[k - at];
    }
  }

  /** Text that fits the row stays on it: the last column only arms the wrap. */
  lemma {:induction false} TextOnOneRow(t: Tty, s: seq<Input>)
    requires Inv(t) && t.parser.mode == Ground && !t.cur.wrap && Printable(s) && t.cur.col + |s| <= COLS
    ensures var u := PutAll(t, s);
            && u.cur.row == t.cur.row && u.cur.attr == t.cur.attr
            && u.cur.col == (if t.cur.col + |s| < COLS then t.cur.col + |s| else COLS - 1)
            && (u.cur.wrap <==> t.cur.col + |s| == COLS)
            && u == t.(cells := u.cells, cur := u.cur)
            && Shows(t, u, t.cur.row, t.cur.col, s)
    decreases |s|
  {
    hide Put, Shows, Off;
    if s == [] {
      ShowsNothing(t, t.cur.row, t.cur.col);
    } else {
      OnePrinted(t, s[0]);
      var v := Put(t, s[0]);
      if |s| == 1 {
        assert PutAll(v, s[1..]) == v;
        ShowsNothing(v, t.cur.row, t.cur.col + 1);
        assert s[1..] == [];
      } else {
        TextOnOneRow(v, s[1..]);
      }
      ShowsMore(t, v, PutAll(v, s[1..]), t.cur.row, t.cur.col, s);
    }
  }

  lemma ShowsNothing(t: Tty, row: nat, col: nat)
    requires |t.cells| == CELLS
    ensures Shows(t, t, row, col, [])
  {
  }

  /** A line of any length up to the full width, and a newline, cost exactly one row. */
  lemma LineCostsOneRow(t: Tty, s: seq<Input>, nl: Input)
    requires Inv(t) && t.parser.mode == Ground && t.cur.col == 0 && Printable(s) && |s| <= COLS && nl.ch == 10
    ensures var u := PutAll(t, s + [nl]);
            && u.cur.col == 0 && !u.cur.wrap
            && u.cur.row == (if t.cur.row == t.bot then t.bot else if t.cur.row + 1 < ROWS then t.cur.row + 1 else t.cur.row)
  {
    hide LineFeed;
    TextOnOneRow(t, s);
    PutAllAppend(t, s, [nl]);
    var v := PutAll(t, s);
    assert PutAll(v, [nl]) == Put(v, nl) by { OnePut(v, nl); }
    NextRow(Homed(v));
  }

  lemma OnePut(t: Tty, i: Input)
    requires Inv(t)
    ensures PutAll(t, [i]) == Put(t, i)
  {
    hide Put;
    assert PutAll(Put(t, i), []) == Put(t, i);
  }

  lemma NextRow(t: Tty)
    requires Inv(t)
    ensures LineFeed(t).cur.row
         == if t.cur.row == t.bot then t.bot else if t.cur.row + 1 < ROWS then t.cur.row + 1 else t.cur.row
  {
  }

  // ---- save and restore ------------------------------------------------------------------

  /** The byte saves the cursor or resets the terminal. */
  predicate Resaves(t: Tty, i: Input) {
    (t.parser.mode == Csi && !t.parser.dec && i.ch == 0x73) || (t.parser.mode == Escape && i.ch == 0x63)
  }

  predicate NeverResaves(t: Tty, s: seq<Input>)
    requires Inv(t)
    decreases |s|
  {
    s == [] || (!Resaves(t, s[0]) && NeverResaves(Put(t, s[0]), s[1..]))
  }

  lemma SavedStays(t: Tty, i: Input)
    requires Inv(t) && !Resaves(t, i)
    ensures Put(t, i).saved == t.saved
  {
  }

  lemma {:induction false} SavedSurvives(t: Tty, s: seq<Input>)
    requires Inv(t) && NeverResaves(t, s)
    ensures PutAll(t, s).saved == t.saved
    decreases |s|
  {
    hide Put;
    if s != [] {
      SavedStays(t, s[0]);
      SavedSurvives(Put(t, s[0]), s[1..]);
    }
  }

  function Sequence(final: byte): seq<Input> {
    [Input(ESC, 0), Input(0x5B, 0), Input(final, 0)]
  }

  /** A three-byte sequence with no parameter. */
  lemma SequenceRuns(t: Tty, final: byte)
    requires Inv(t) && t.parser.mode == Ground && 0x40 <= final <= 0x7E
    ensures var c := t.(parser := Parser(Csi, NO_PARAMS, 0, false, false));
            && Inv(c)
            && PutAll(t, Sequence(final)) == Dispatch(c, final, 0).(parser := c.parser.(mode := Ground))
  {
    hide Dispatch;
    var s := Sequence(final);
    var t1 := Put(t, s[0]);
    var t2 := Put(t1, s[1]);
    assert s == [s[0]] + ([s[1]] + [s[2]]);
    PutAllAppend(t, [s[0]], [s[1]] + [s[2]]);
    OnePut(t, s[0]);
    PutAllAppend(t1, [s[1]], [s[2]]);
    OnePut(t1, s[1]);
    OnePut(t2, s[2]);
    DispatchKeepsParser(t2, final, 0);
  }

  lemma DispatchKeepsParser(t: Tty, final: byte, colour: byte)
    requires Inv(t)
    ensures Dispatch(t, final, colour).parser == t.parser
  {
  }

  /** Whatever is written between a save and a restore, the cursor comes back: place,
      colour and armed wrap. */
  lemma RestoreReturns(t: Tty, s: seq<Input>)
    requires Inv(t) && t.parser.mode == Ground
    requires NeverResaves(PutAll(t, Sequence(0x73)), s)
    requires PutAll(PutAll(t, Sequence(0x73)), s).parser.mode == Ground
    ensures PutAll(t, Sequence(0x73) + s + Sequence(0x75)).cur == t.cur
  {
    hide Put, PutAll, Sequence;
    var v := PutAll(t, Sequence(0x73));
    SequenceRuns(t, 0x73);
    SavedSurvives(v, s);
    PutAllAppend(t, Sequence(0x73), s);
    PutAllAppend(t, Sequence(0x73) + s, Sequence(0x75));
    SequenceRuns(PutAll(v, s), 0x75);
  }

  // ---- erasing, by row and column -----------------------------------------------------------

  function CellAt(t: Tty, row: nat, col: nat): Cell
    requires |t.cells| == CELLS && row < ROWS && col < COLS
  {
    t.cells[Off(row, col)]
  }

  /** ED: from the cursor on, up to and with the cursor, or everything; nothing else. */
  lemma EraseDisplayByPlace(t: Tty, n: nat, row: nat, col: nat)
    requires Inv(t) && row < ROWS && col < COLS
    ensures CellAt(EraseDisplay(t, n), row, col) ==
            if (n == 0 && (row > t.cur.row || (row == t.cur.row && col >= t.cur.col)))
               || (n == 1 && (row < t.cur.row || (row == t.cur.row && col <= t.cur.col)))
               || n == 2 || n == 3
            then Blank(t) else CellAt(t, row, col)
  {
  }

  /** EL: the same within the cursor's row. */
  lemma EraseLineByPlace(t: Tty, n: nat, row: nat, col: nat)
    requires Inv(t) && row < ROWS && col < COLS
    ensures CellAt(EraseLine(t, n), row, col) ==
            if row == t.cur.row && ((n == 0 && col >= t.cur.col) || (n == 1 && col <= t.cur.col) || n == 2)
            then Blank(t) else CellAt(t, row, col)
  {
  }

  /** A scroll moves every row of the region but the first up by one, blanks the last and
      leaves the rest. */
  lemma ScrollByPlace(t: Tty, row: nat, col: nat)
    requires Inv(t) && t.cur.row == t.bot && row < ROWS && col < COLS
    ensures CellAt(LineFeed(t), row, col) ==
            if t.top <= row < t.bot then CellAt(t, row + 1, col)
            else if row == t.bot then Blank(t)
            else CellAt(t, row, col)
  {
    var i := Off(row, col);
    var u := LineFeed(t);
    assert t.top <= row < t.bot <==> Off(t.top, 0) <= i < Off(t.bot, 0);
    assert row == t.bot <==> Off(t.bot, 0) <= i < Off(t.bot, COLS);
    assert row < t.bot ==> Off(row + 1, col) == i + COLS;
    assert u.cells == Scrolled(t.cells, t.top, t.bot, Blank(t));
  }

  // ---- parameters ---------------------------------------------------------------------------

  /** What the digits spell. */
  function Value(ds: seq<nat>): nat {
    if ds == [] then 0 else Value(ds[..|ds| - 1]) * 10 + ds[|ds| - 1]
  }

  /** What the parameter holds after them. */
  function Slot(ds: seq<nat>): (v: nat)
    ensures v <= PARAM_MAX
  {
    if ds == [] then 0 else Digit(Slot(ds[..|ds| - 1]), ds[|ds| - 1])
  }

  function AtMost(v: nat): nat {
    if v > PARAM_MAX then PARAM_MAX else v
  }

  /** The values that wrap in 16 bits and land below the clamp. */
  predicate Wraps(v: nat) {
    0x1_0000 <= v < 0x1_0000 + PARAM_MAX
  }

  predicate Digits(ds: seq<nat>) {
    forall i :: 0 <= i < |ds| ==> ds[i] < 10
  }

  /** One more digit on a parameter that was right is right exactly when the value does
      not wrap into the clamp's range. */
  lemma DigitExactly(v: nat, d: nat)
    requires d < 10
    ensures Digit(AtMost(v), d) == AtMost(v * 10 + d) <==> !Wraps(v * 10 + d)
  {
  }

  /** Some prefix spells a value that wraps. */
  ghost predicate WrapsSomewhere(ds: seq<nat>) {
    exists k :: 0 < k <= |ds| && Wraps(Value(ds[..k]))
  }

  predicate ExactAt(ds: seq<nat>, k: nat)
    requires k <= |ds|
  {
    Slot(ds[..k]) == AtMost(Value(ds[..k]))
  }

  lemma PrefixStep(ds: seq<nat>, k: nat)
    requires Digits(ds) && 0 < k <= |ds| && ExactAt(ds, k - 1)
    ensures ExactAt(ds, k) <==> !Wraps(Value(ds[..k]))
  {
    assert ds[..k][..k - 1] == ds[..k - 1];
    DigitExactly(Value(ds[..k - 1]), ds[k - 1]);
  }

  lemma {:induction false} ExactUpTo(ds: seq<nat>, k: nat)
    requires Digits(ds) && k <= |ds| && !WrapsSomewhere(ds)
    ensures ExactAt(ds, k)
  {
    if k == 0 {
      assert ds[..0] == [];
    } else {
      ExactUpTo(ds, k - 1);
      PrefixStep(ds, k);
    }
  }

  /** A parameter follows its digits, clamped at 9999, at every point exactly when no
      prefix of them spells a value from 65536 to 75534. */
  lemma ParametersExactly(ds: seq<nat>)
    requires Digits(ds)
    ensures (forall k :: 0 <= k <= |ds| ==> ExactAt(ds, k)) <==> !WrapsSomewhere(ds)
  {
    if WrapsSomewhere(ds) {
      var k :| 0 < k <= |ds| && Wraps(Value(ds[..k]));
      if ExactAt(ds, k - 1) { PrefixStep(ds, k); }
    } else {
      forall k | 0 <= k <= |ds|
        ensures ExactAt(ds, k)
      {
        ExactUpTo(ds, k);
      }
    }
  }

  /** The digits' value, less 65536 each time it wraps on the way. */
  function Raw(ds: seq<nat>): nat {
    if ds == [] then 0
    else
      var x := Raw(ds[..|ds| - 1]) * 10 + ds[|ds| - 1];
      if Wraps(x) then x - 0x1_0000 else x
  }

  /** Whatever the digits, the parameter is that value clamped. */
  lemma {:induction false} SlotIsRaw(ds: seq<nat>)
    requires Digits(ds)
    ensures Slot(ds) == AtMost(Raw(ds))
  {
    if ds != [] {
      var n := |ds| - 1;
      SlotIsRaw(ds[..n]);
      DigitExactly(Raw(ds[..n]), ds[n]);
    }
  }

  lemma {:induction false} RawIsValue(ds: seq<nat>)
    requires !WrapsSomewhere(ds)
    ensures Raw(ds) == Value(ds)
  {
    if ds != [] {
      var n := |ds| - 1;
      forall k | 0 < k <= n
        ensures !Wraps(Value(ds[..n][..k]))
      {
        assert ds[..n][..k] == ds[..k];
      }
      RawIsValue(ds[..n]);
      assert ds[..|ds|] == ds;
    }
  }

  /** The value a final byte uses: it is the digits' value clamped at 9999 exactly when
      no prefix wrapped, or enough digits followed to reach the clamp again. */
  lemma ParameterExactly(ds: seq<nat>)
    requires Digits(ds)
    ensures Slot(ds) == AtMost(Value(ds)) <==> !WrapsSomewhere(ds) || Raw(ds) >= PARAM_MAX
  {
    hide Slot, Value, Raw;
    SlotIsRaw(ds);
    if WrapsSomewhere(ds) {
      var k :| 0 < k <= |ds| && Wraps(Value(ds[..k]));
      PrefixSmaller(ds, k);
    } else {
      RawIsValue(ds);
    }
  }

  /** 65537 becomes 1: the clamp comes after the multiply. */
  lemma ClampComesTooLate()
    ensures Value([6, 5, 5, 3, 7]) == 65537 && Slot([6, 5, 5, 3, 7]) == 1
  {
    var ds := [6, 5, 5, 3, 7];
    assert ds[..4] == [6, 5, 5, 3] && ds[..4][..3] == [6, 5, 5] && [6, 5, 5][..2] == [6, 5] && [6, 5][..1] == [6];
    assert Value([6]) == 6 && Slot([6]) == 6;
    assert Value([6, 5]) == 65 && Slot([6, 5]) == 65;
    assert Value([6, 5, 5]) == 655 && Slot([6, 5, 5]) == 655;
    assert Value(ds[..4]) == 6553 && Slot(ds[..4]) == 6553;
  }

  /** The digits of a parameter, typed into the next slot, leave `Slot` of them there. */
  lemma {:induction false} TypedDigits(t: Tty, ds: seq<nat>, s: seq<Input>)
    requires Inv(t) && t.parser.mode == Csi && !t.parser.have && t.parser.nparam < MAX_PARAMS
    requires t.parser.params[t.parser.nparam] == 0 && Digits(ds) && ds != []
    requires |s| == |ds| && forall i :: 0 <= i < |s| ==> s[i].ch == 0x30 + ds[i]
    ensures var p := t.parser;
            PutAll(t, s) == t.(parser := p.(params := p.params[p.nparam := Slot(ds)], nparam := p.nparam + 1, have := true))
    decreases |ds|
  {
    hide Digit, Put, PutAll;
    var n := |ds| - 1;
    var before := PutAll(t, s[..n]);
    assert s == s[..n] + [s[n]];
    PutAllAppend(t, s[..n], [s[n]]);
    OnePut(before, s[n]);
    if n == 0 {
      assert s[..0] == [] && ds[..0] == [];
      assert before == t by { NothingPut(t); }
    } else {
      TypedDigits(t, ds[..n], s[..n]);
    }
    DigitPut(t, before, Slot(ds[..n]), n > 0, s[n], ds[n]);
  }

  lemma NothingPut(t: Tty)
    requires Inv(t)
    ensures PutAll(t, []) == t
  {
  }

  /** One digit onto what the slot holds, opening the slot if it is the first. */
  lemma DigitPut(t: Tty, before: Tty, v: nat, have: bool, i: Input, d: nat)
    requires Inv(t) && t.parser.mode == Csi && !t.parser.have && t.parser.nparam < MAX_PARAMS
    requires t.parser.params[t.parser.nparam] == 0 && d < 10 && i.ch == 0x30 + d && (!have ==> v == 0)
    requires var p := t.parser;
             before == if have then t.(parser := p.(params := p.params[p.nparam := v], nparam := p.nparam + 1, have := true)) else t
    requires Inv(before)
    ensures var p := t.parser;
            Put(before, i) == t.(parser := p.(params := p.params[p.nparam := Digit(v, d)], nparam := p.nparam + 1, have := true))
  {
    hide Digit;
    var p := t.parser;
    assert Accumulate(before.parser, d).params == p.params[p.nparam := Digit(v, d)];
  }

  lemma {:induction false} PrefixSmaller(ds: seq<nat>, k: nat)
    requires k <= |ds|
    ensures Value(ds[..k]) <= Value(ds)
    decreases |ds|
  {
    if k == |ds| {
      assert ds[..k] == ds;
    } else {
      var n := |ds| - 1;
      assert ds[..n][..k] == ds[..k];
      PrefixSmaller(ds[..n], k);
    }
  }
}
