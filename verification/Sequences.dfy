/** Whole control sequences on the console (dev/tty.c), from the bytes typed: what each final
    byte does with the numbers the digits before it spell, and what each control character
    does, stated by place and without the functions that compute it. */
module Sequences {
  import opened Terminal

  // ---- from the bytes to the final one ------------------------------------------------

  /** `s` is the digits `ds`, typed. */
  predicate Typed(ds: seq<nat>, s: seq<Input>) {
    && Digits(ds) && |s| == |ds|
    && forall i :: 0 <= i < |s| ==> s[i].ch == 0x30 + ds[i]
  }

  const INTRO: seq<Input> := [Input(ESC, 0), Input(0x5B, 0)]
  const SEMICOLON: Input := Input(0x3B, 0)
  const PRIVATE: Input := Input(0x3F, 0)

  function OneBytes(s: seq<Input>, final: Input): seq<Input> {
    INTRO + s + [final]
  }

  function TwoBytes(a: seq<Input>, b: seq<Input>, final: Input): seq<Input> {
    INTRO + (a + [SEMICOLON] + b) + [final]
  }

  function PrivateBytes(s: seq<Input>, final: Input): seq<Input> {
    INTRO + ([PRIVATE] + s) + [final]
  }

  function Introduced(t: Tty): Tty {
    t.(parser := Parser(Csi, NO_PARAMS, 0, false, false))
  }

  function WithOne(t: Tty, r: nat, have: bool): Tty {
    t.(parser := Parser(Csi, [r, 0, 0, 0, 0, 0, 0, 0], 1, have, false))
  }

  function WithTwo(t: Tty, r: nat, c: nat): Tty {
    t.(parser := Parser(Csi, [r, c, 0, 0, 0, 0, 0, 0], 2, true, false))
  }

  /** What parameter `i` holds, 0 when it was not given. */
  function Given(p: Parser, i: nat): (v: nat)
    requires ParserOk(p) && i < MAX_PARAMS
    ensures v <= PARAM_MAX
  {
    if i < p.nparam then p.params[i] else 0
  }

  /** Everything but the parser is as it was, and the parser holds these two numbers. */
  ghost predicate Holds(t: Tty, v: Tty, first: nat, second: nat) {
    && Inv(v) && v == t.(parser := v.parser) && v.parser.mode == Csi
    && Given(v.parser, 0) == first && Given(v.parser, 1) == second
  }

  lemma IntroducedBy(t: Tty)
    requires Inv(t) && t.parser.mode == Ground
    ensures Inv(Introduced(t)) && PutAll(t, INTRO) == Introduced(t)
  {
    var t1 := Put(t, Input(ESC, 0));
    assert INTRO == [Input(ESC, 0)] + [Input(0x5B, 0)];
    PutAllAppend(t, [Input(ESC, 0)], [Input(0x5B, 0)]);
    OnePut(t, Input(ESC, 0));
    OnePut(t1, Input(0x5B, 0));
  }

  /** The introducer, a middle, and the final byte. */
  lemma ThreeParts(t: Tty, middle: seq<Input>, final: Input)
    requires Inv(t) && t.parser.mode == Ground
    ensures Inv(Introduced(t))
    ensures PutAll(t, INTRO + middle + [final]) == Put(PutAll(Introduced(t), middle), final)
  {
    hide Put, PutAll;
    IntroducedBy(t);
    PutAllAppend(t, INTRO, middle);
    PutAllAppend(t, INTRO + middle, [final]);
    OnePut(PutAll(Introduced(t), middle), final);
  }

  lemma FirstParameter(t: Tty, ds: seq<nat>, s: seq<Input>)
    requires Inv(t) && Typed(ds, s)
    ensures Inv(Introduced(t))
    ensures PutAll(Introduced(t), s) == if ds == [] then Introduced(t) else WithOne(t, Slot(ds), true)
  {
    hide Put, PutAll, Slot;
    if ds == [] {
      assert s == [];
      NothingPut(Introduced(t));
    } else {
      TypedDigits(Introduced(t), ds, s);
    }
  }

  lemma OneHolds(t: Tty, ds: seq<nat>, s: seq<Input>)
    requires Inv(t) && Typed(ds, s)
    ensures Inv(Introduced(t))
    ensures Holds(t, PutAll(Introduced(t), s), Slot(ds), 0) && !PutAll(Introduced(t), s).parser.dec
  {
    hide Put, PutAll;
    FirstParameter(t, ds, s);
  }

  /** A semicolon closes the number before it, which is 0 if there was none. */
  lemma Separated(t: Tty, ds: seq<nat>)
    requires Inv(t) && Digits(ds)
    ensures var v := if ds == [] then Introduced(t) else WithOne(t, Slot(ds), true);
            Inv(v) && Put(v, SEMICOLON) == WithOne(t, Slot(ds), false)
  {
    hide Digit;
  }

  lemma NextParameter(t: Tty, r: nat, ds: seq<nat>, s: seq<Input>)
    requires Inv(WithOne(t, r, false)) && Typed(ds, s)
    ensures PutAll(WithOne(t, r, false), s) == if ds == [] then WithOne(t, r, false) else WithTwo(t, r, Slot(ds))
  {
    hide Put, PutAll, Slot;
    if ds == [] {
      assert s == [];
      NothingPut(WithOne(t, r, false));
    } else {
      TypedDigits(WithOne(t, r, false), ds, s);
    }
  }

  lemma TwoHold(t: Tty, ds: seq<nat>, es: seq<nat>, a: seq<Input>, b: seq<Input>)
    requires Inv(t) && Typed(ds, a) && Typed(es, b)
    ensures Inv(Introduced(t))
    ensures var v := PutAll(Introduced(t), a + [SEMICOLON] + b);
            Holds(t, v, Slot(ds), Slot(es)) && !v.parser.dec
  {
    hide Put, PutAll, Slot, Introduced;
    FirstParameter(t, ds, a);
    PutAllAppend(Introduced(t), a, [SEMICOLON]);
    PutAllAppend(Introduced(t), a + [SEMICOLON], b);
    OnePut(PutAll(Introduced(t), a), SEMICOLON);
    Separated(t, ds);
    NextParameter(t, Slot(ds), es, b);
    NothingSpelled();
  }

  lemma NothingSpelled()
    ensures Slot([]) == 0
  {
  }

  lemma PrivateHolds(t: Tty, ds: seq<nat>, s: seq<Input>)
    requires Inv(t) && Typed(ds, s)
    ensures Inv(Introduced(t))
    ensures var v := PutAll(Introduced(t), [PRIVATE] + s);
            && Holds(t, v, Slot(ds), 0) && v.parser.dec
            && v.parser.nparam == if ds == [] then 0 else 1
  {
    hide Put, PutAll, Slot;
    var v := Introduced(t).(parser := Introduced(t).parser.(dec := true));
    PutAllAppend(Introduced(t), [PRIVATE], s);
    OnePut(Introduced(t), PRIVATE);
    assert Put(Introduced(t), PRIVATE) == v by { PrivateMark(Introduced(t)); }
    if ds == [] {
      assert s == [];
      NothingPut(v);
      NothingSpelled();
    } else {
      TypedDigits(v, ds, s);
    }
  }

  lemma PrivateMark(t: Tty)
    requires Inv(t) && t.parser.mode == Csi
    ensures Put(t, PRIVATE) == t.(parser := t.parser.(dec := true))
  {
  }

  // ---- moving the cursor -------------------------------------------------------------------

  /** The place a one-based coordinate names: 0 counts as 1, too much as the last. */
  function Coordinate(v: nat, n: nat): nat
    requires n > 0
  {
    if v == 0 then 0 else if v > n then n - 1 else v - 1
  }

  function Less(at: nat, n: nat): nat {
    if n <= at then at - n else 0
  }

  function More(at: nat, n: nat, size: nat): nat
    requires size > 0
  {
    if at + n < size then at + n else size - 1
  }

  /** Up, down, right or left by `v`, which counts as 1 when it is 0, as far as the edge. */
  function Shifted(c: Cursor, final: byte, v: nat): Cursor {
    var n := if v == 0 then 1 else v;
    var d := c.(wrap := false);
    if final == 0x41 then d.(row := Less(c.row, n))
    else if final == 0x42 then d.(row := More(c.row, n, ROWS))
    else if final == 0x43 then d.(col := More(c.col, n, COLS))
    else d.(col := Less(c.col, n))
  }

  /** Only the cursor changed, and the sequence is over. */
  ghost predicate CursorOnly(t: Tty, u: Tty) {
    u == t.(cur := u.cur, parser := u.parser) && u.parser.mode == Ground
  }

  lemma ShiftPut(t: Tty, v: Tty, x: nat, y: nat, i: Input)
    requires Holds(t, v, x, y) && !v.parser.dec && 0x41 <= i.ch <= 0x44
    ensures CursorOnly(t, Put(v, i)) && Put(v, i).cur == Shifted(t.cur, i.ch, x)
  {
  }

  /** CUU, CUD, CUF and CUB, byte by byte: the cursor goes up, down, right or left by the
      number the parameter holds, which is the one spelled unless it wraps; no digits or 0
      count as 1, and the edge stops it.  Nothing else changes. */
  lemma CursorMoves(t: Tty, ds: seq<nat>, s: seq<Input>, final: Input)
    requires Inv(t) && t.parser.mode == Ground && Typed(ds, s) && 0x41 <= final.ch <= 0x44
    ensures var u := PutAll(t, OneBytes(s, final));
            && CursorOnly(t, u)
            && u.cur == Shifted(t.cur, final.ch, Slot(ds))
            && (!WrapsSomewhere(ds) ==> u.cur == Shifted(t.cur, final.ch, Value(ds)))
  {
    hide Put, PutAll, Slot, Value, Inv, Introduced, WrapsSomewhere, Raw, Holds, Typed, Shifted;
    ThreeParts(t, s, final);
    OneHolds(t, ds, s);
    ShiftPut(t, PutAll(Introduced(t), s), Slot(ds), 0, final);
    if !WrapsSomewhere(ds) {
      assert Digits(ds) by { assert Typed(ds, s); DigitsOf(ds, s); }
      ParameterExactly(ds);
      OnScreenCursor(t);
      ShiftedClamps(t.cur, final.ch, Value(ds));
    }
  }

  lemma DigitsOf(ds: seq<nat>, s: seq<Input>)
    requires Typed(ds, s)
    ensures Digits(ds)
  {
  }

  lemma OnScreenCursor(t: Tty)
    requires Inv(t)
    ensures OnScreen(t.cur)
  {
  }

  lemma ShiftedClamps(c: Cursor, final: byte, v: nat)
    requires OnScreen(c)
    ensures Shifted(c, final, AtMost(v)) == Shifted(c, final, v)
  {
  }

  lemma HomePut(t: Tty, v: Tty, x: nat, y: nat, i: Input)
    requires Holds(t, v, x, y) && !v.parser.dec && (i.ch == 0x48 || i.ch == 0x66)
    ensures CursorOnly(t, Put(v, i))
    ensures Put(v, i).cur == t.cur.(row := Coordinate(x, ROWS), col := Coordinate(y, COLS), wrap := false)
  {
  }

  /** CUP and HVP, byte by byte: ESC [ row ; column H puts the cursor at the place the
      parameters hold, which is the one spelled unless it wraps, whatever the terminal
      held, and changes no cell.  A number left out counts as 1. */
  lemma CursorPosition(t: Tty, rs: seq<nat>, cs: seq<nat>, row: seq<Input>, col: seq<Input>, final: Input)
    requires Inv(t) && t.parser.mode == Ground && Typed(rs, row) && Typed(cs, col)
    requires final.ch == 0x48 || final.ch == 0x66
    ensures var u := PutAll(t, TwoBytes(row, col, final));
            && u.cur == t.cur.(row := Coordinate(Slot(rs), ROWS), col := Coordinate(Slot(cs), COLS), wrap := false)
            && (!WrapsSomewhere(rs) ==> u.cur.row == Coordinate(Value(rs), ROWS))
            && (!WrapsSomewhere(cs) ==> u.cur.col == Coordinate(Value(cs), COLS))
            && CursorOnly(t, u)
    ensures var u := PutAll(t, OneBytes(row, final));
            && u.cur == t.cur.(row := Coordinate(Slot(rs), ROWS), col := 0, wrap := false)
            && CursorOnly(t, u)
  {
    hide Put, PutAll, Slot, Value, Inv, Introduced, WrapsSomewhere, Raw, Holds, Typed;
    ThreeParts(t, row + [SEMICOLON] + col, final);
    TwoHold(t, rs, cs, row, col);
    HomePut(t, PutAll(Introduced(t), row + [SEMICOLON] + col), Slot(rs), Slot(cs), final);
    ThreeParts(t, row, final);
    OneHolds(t, rs, row);
    HomePut(t, PutAll(Introduced(t), row), Slot(rs), 0, final);
    DigitsOf(rs, row);
    DigitsOf(cs, col);
    ParameterExactly(rs);
    ParameterExactly(cs);
  }

  // ---- the margins -----------------------------------------------------------------------

  /** The rows a one-based inclusive region names: a number left out or 0 is the screen's
      own edge, too low a bottom is the last row, and an empty or inverted region is the
      whole screen. */
  function Region(first: nat, last: nat): (nat, nat) {
    var top := Coordinate(first, ROWS);
    var bot := if last == 0 then ROWS - 1 else Coordinate(last, ROWS);
    if top < bot then (top, bot) else (0, ROWS - 1)
  }

  /** Only the margins changed, and the cursor went to the top left. */
  ghost predicate RegionOnly(t: Tty, u: Tty, region: (nat, nat)) {
    && u == t.(top := region.0, bot := region.1, cur := t.cur.(row := 0, col := 0, wrap := false), parser := u.parser)
    && u.parser.mode == Ground
  }

  lemma RegionPut(t: Tty, v: Tty, x: nat, y: nat, i: Input)
    requires Holds(t, v, x, y) && !v.parser.dec && i.ch == 0x72
    ensures RegionOnly(t, Put(v, i), Region(x, y))
  {
  }

  /** DECSTBM, byte by byte: ESC [ first ; last r, with either number left out, or the
      semicolon and the second. */
  lemma MarginsSet(t: Tty, ds: seq<nat>, es: seq<nat>, a: seq<Input>, b: seq<Input>, final: Input)
    requires Inv(t) && t.parser.mode == Ground && Typed(ds, a) && Typed(es, b) && final.ch == 0x72
    ensures RegionOnly(t, PutAll(t, TwoBytes(a, b, final)), Region(Slot(ds), Slot(es)))
    ensures RegionOnly(t, PutAll(t, OneBytes(a, final)), Region(Slot(ds), 0))
    ensures !WrapsSomewhere(ds) ==> Region(Slot(ds), Slot(es)) == Region(Value(ds), Slot(es))
    ensures !WrapsSomewhere(es) ==> Region(Slot(ds), Slot(es)) == Region(Slot(ds), Value(es))
  {
    hide Put, PutAll, Slot, Value, Inv, Introduced, WrapsSomewhere, Raw, Holds, Typed, RegionOnly;
    ThreeParts(t, a + [SEMICOLON] + b, final);
    TwoHold(t, ds, es, a, b);
    RegionPut(t, PutAll(Introduced(t), a + [SEMICOLON] + b), Slot(ds), Slot(es), final);
    ThreeParts(t, a, final);
    OneHolds(t, ds, a);
    RegionPut(t, PutAll(Introduced(t), a), Slot(ds), 0, final);
    DigitsOf(ds, a);
    DigitsOf(es, b);
    ParameterExactly(ds);
    ParameterExactly(es);
  }

  // ---- erasing ---------------------------------------------------------------------------

  /** Whether ED or EL with number `n` takes the cell at `row`, `col`. */
  predicate Takes(c: Cursor, final: byte, n: nat, row: nat, col: nat) {
    if final == 0x4A then
      || (n == 0 && (row > c.row || (row == c.row && col >= c.col)))
      || (n == 1 && (row < c.row || (row == c.row && col <= c.col)))
      || n == 2 || n == 3
    else
      row == c.row && ((n == 0 && col >= c.col) || (n == 1 && col <= c.col) || n == 2)
  }

  /** ED with 2 or 3 goes to the top left; every other erase leaves the cursor's place. */
  ghost predicate ErasedBy(t: Tty, u: Tty, final: byte, n: nat) {
    && u == t.(cells := u.cells, cur := u.cur, parser := u.parser) && u.parser.mode == Ground
    && u.cur == if final == 0x4A && (n == 2 || n == 3) then t.cur.(row := 0, col := 0, wrap := false)
                else t.cur.(wrap := false)
  }

  lemma ErasePut(t: Tty, v: Tty, x: nat, y: nat, i: Input)
    requires Inv(t) && Holds(t, v, x, y) && !v.parser.dec && (i.ch == 0x4A || i.ch == 0x4B)
    ensures ErasedBy(t, Put(v, i), i.ch, x)
  {
    hide Erased;
  }

  lemma EraseCell(t: Tty, v: Tty, x: nat, y: nat, i: Input, row: nat, col: nat)
    requires Inv(t) && Holds(t, v, x, y) && !v.parser.dec && (i.ch == 0x4A || i.ch == 0x4B)
    requires row < ROWS && col < COLS
    ensures CellAt(Put(v, i), row, col) == if Takes(t.cur, i.ch, x, row, col) then Blank(t) else CellAt(t, row, col)
  {
    hide EraseDisplay, EraseLine;
    if i.ch == 0x4A { EraseDisplayByPlace(v, x, row, col); } else { EraseLineByPlace(v, x, row, col); }
  }

  /** ED and EL, byte by byte: from the cursor on, up to and with the cursor, or everything,
      of the screen or of the cursor's row, by the number typed; the rest stays. */
  lemma Erases(t: Tty, ds: seq<nat>, s: seq<Input>, final: Input, row: nat, col: nat)
    requires Inv(t) && t.parser.mode == Ground && Typed(ds, s) && (final.ch == 0x4A || final.ch == 0x4B)
    requires row < ROWS && col < COLS
    ensures var u := PutAll(t, OneBytes(s, final));
            && ErasedBy(t, u, final.ch, Slot(ds))
            && CellAt(u, row, col) ==
               if Takes(t.cur, final.ch, Slot(ds), row, col) then Blank(t) else CellAt(t, row, col)
  {
    hide Put, PutAll, Slot, Introduced, Holds, Typed, Takes, ErasedBy, ParserOk, OnScreen;
    ThreeParts(t, s, final);
    OneHolds(t, ds, s);
    ErasePut(t, PutAll(Introduced(t), s), Slot(ds), 0, final);
    EraseCell(t, PutAll(Introduced(t), s), Slot(ds), 0, final, row, col);
  }

  // ---- the rest of the sequences ----------------------------------------------------------

  /** SGR sets the colour and nothing else: the owed wrap stays owed. */
  lemma ColourSet(t: Tty, ds: seq<nat>, s: seq<Input>, final: Input)
    requires Inv(t) && t.parser.mode == Ground && Typed(ds, s) && final.ch == 0x6D
    ensures var u := PutAll(t, OneBytes(s, final));
            CursorOnly(t, u) && u.cur == t.cur.(attr := final.colour)
  {
    hide PutAll, Slot, Introduced, Typed;
    ThreeParts(t, s, final);
    OneHolds(t, ds, s);
  }

  /** s keeps the cursor, u puts back the one kept if any, and a final byte the console does
      not know does nothing. */
  lemma SaveRestoreExactly(t: Tty, ds: seq<nat>, s: seq<Input>, final: Input)
    requires Inv(t) && t.parser.mode == Ground && Typed(ds, s) && 0x40 <= final.ch <= 0x7E
    requires !(0x41 <= final.ch <= 0x44) && final.ch !in {0x48, 0x66, 0x4A, 0x4B, 0x6D, 0x72}
    ensures var u := PutAll(t, OneBytes(s, final));
            && u == t.(cur := u.cur, saved := u.saved, parser := u.parser) && u.parser.mode == Ground
            && u.saved == (if final.ch == 0x73 then Saved(t.cur) else t.saved)
            && u.cur == if final.ch == 0x75 && t.saved.Saved? then t.saved.cursor else t.cur
  {
    hide PutAll, Slot, Introduced, Typed;
    ThreeParts(t, s, final);
    OneHolds(t, ds, s);
  }

  /** DECTCEM, byte by byte: ESC [ ? 25 h shows the cursor, ESC [ ? 25 l hides it, and no
      other private sequence does anything. */
  lemma CursorShown(t: Tty, ds: seq<nat>, s: seq<Input>, final: Input)
    requires Inv(t) && t.parser.mode == Ground && Typed(ds, s) && 0x40 <= final.ch <= 0x7E
    ensures var u := PutAll(t, PrivateBytes(s, final));
            && u == t.(visible := u.visible, parser := u.parser) && u.parser.mode == Ground
            && u.visible == if Slot(ds) == 25 && final.ch == 0x68 then true
                            else if Slot(ds) == 25 && final.ch == 0x6C then false
                            else t.visible
  {
    hide PutAll, Slot, Introduced, Typed;
    ThreeParts(t, [PRIVATE] + s, final);
    PrivateHolds(t, ds, s);
    NothingSpelled();
  }

  /** RIS, byte by byte: a blank screen in the default colour, the cursor at the top left,
      no saved cursor; the margins and the cursor's visibility stay. */
  lemma ResetExactly(t: Tty, row: nat, col: nat)
    requires Inv(t) && t.parser.mode == Ground && row < ROWS && col < COLS
    ensures var u := PutAll(t, [Input(ESC, 0)] + [Input(0x63, 0)]);
            && CellAt(u, row, col) == Cell(t.plain, SPACE)
            && u.cur == Cursor(0, 0, t.plain, false) && u.saved == NotSaved
            && u == t.(cells := u.cells, cur := u.cur, saved := u.saved, parser := t.parser)
  {
    var t1 := Put(t, Input(ESC, 0));
    PutAllAppend(t, [Input(ESC, 0)], [Input(0x63, 0)]);
    OnePut(t, Input(ESC, 0));
    OnePut(t1, Input(0x63, 0));
  }

  /** An escape the console does not know leaves everything as it was.  So does, inside a
      sequence, a byte that is neither digit, separator, private mark nor final, and a digit
      of a ninth parameter. */
  lemma UnknownBytes(t: Tty, i: Input, v: Tty, j: Input)
    requires Inv(t) && t.parser.mode == Ground && i.ch != 0x5B && i.ch != 0x63
    requires Inv(v) && v.parser.mode == Csi
    ensures PutAll(t, [Input(ESC, 0)] + [i]) == t
    ensures j.ch < 0x30 || j.ch == 0x3A || 0x3C <= j.ch <= 0x3E || j.ch > 0x7E ==> Put(v, j) == v
    ensures 0x30 <= j.ch <= 0x39 && v.parser.nparam == MAX_PARAMS && !v.parser.have ==> Put(v, j) == v
  {
    var t1 := Put(t, Input(ESC, 0));
    PutAllAppend(t, [Input(ESC, 0)], [i]);
    OnePut(t, Input(ESC, 0));
    OnePut(t1, i);
  }

  // ---- the control characters ---------------------------------------------------------------

  /** A tab goes to the next multiple of 8, or to the last column owing a wrap. */
  lemma TabStops(t: Tty, i: Input)
    requires Inv(t) && t.parser.mode == Ground && i.ch == 9
    ensures var u := Put(t, i);
            && u == t.(cur := t.cur.(col := u.cur.col, wrap := u.cur.wrap))
            && (t.cur.col < COLS - 8 ==> u.cur.col % 8 == 0 && t.cur.col < u.cur.col <= t.cur.col + 8 && !u.cur.wrap)
            && (t.cur.col >= COLS - 8 ==> u.cur.col == COLS - 1 && u.cur.wrap)
  {
  }

  /** A backspace steps left, never past the first column, and blanks the cell it lands on;
      a carriage return goes to the first column; any other control byte does nothing. */
  lemma ControlsExactly(t: Tty, i: Input, row: nat, col: nat)
    requires Inv(t) && t.parser.mode == Ground && i.ch < 0x20 && i.ch !in {9, 10, ESC}
    requires row < ROWS && col < COLS
    ensures var u := Put(t, i);
            && (i.ch == 8 ==>
                  && u == t.(cells := u.cells, cur := t.cur.(col := Less(t.cur.col, 1), wrap := false))
                  && CellAt(u, row, col) == if row == t.cur.row && col == Less(t.cur.col, 1) then Blank(t)
                                            else CellAt(t, row, col))
            && (i.ch == 13 ==> u == t.(cur := t.cur.(col := 0, wrap := false)))
            && (i.ch != 8 && i.ch != 13 ==> u == t)
  {
  }

  /** A newline goes to the first column of the next row.  On the region's last row the
      region scrolls and the cursor stays; on the screen's last row below the region nothing
      moves; elsewhere no cell changes. */
  lemma NewlineExactly(t: Tty, i: Input, row: nat, col: nat)
    requires Inv(t) && t.parser.mode == Ground && i.ch == 10 && row < ROWS && col < COLS
    ensures var u := Put(t, i);
            && u == t.(cells := u.cells, cur := u.cur)
            && u.cur == t.cur.(col := 0, wrap := false,
                               row := if t.cur.row == t.bot then t.bot else More(t.cur.row, 1, ROWS))
            && CellAt(u, row, col) ==
               if t.cur.row == t.bot && t.top <= row < t.bot then CellAt(t, row + 1, col)
               else if t.cur.row == t.bot && row == t.bot then Blank(t)
               else CellAt(t, row, col)
  {
    hide Scrolled;
    if t.cur.row == t.bot { ScrollByPlace(Homed(t), row, col); }
  }
}
