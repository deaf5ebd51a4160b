/**
 * The terminal of `plugins/terminal/src/terminal.ts`: a state machine over the characters written
 * to it (ECMA-48 control functions in their 8-bit C1 form and in the 7-bit `ESC Fe` form, control
 * strings, control sequences), which draws into a grid of cells, and the key map that turns a
 * keyboard event into the text the terminal sends to its stdin.
 *
 * The grid of `span` elements is a grid of cell texts; the styling a cell receives from the
 * current attributes is not modelled, the attributes themselves are.
 */
module Terminal {
  import opened Wrappers
  import opened Text
  import ShellLex
  import Bits
  import Streams

  const ESC: char := 0x1B as char
  /** STRING TERMINATOR in its 8-bit form. */
  const ST: char := 0x9C as char
  /** The variation selector appended to the text of a framed cell. */
  const VS16: char := 0xFE0F as char

  /** The `TypeError` of assigning `textContent` on a cell that does not exist. */
  const SET_TEXT := "Cannot set properties of undefined (setting 'textContent')"

  /** The `TypeError` of indexing a row that does not exist with `key`. */
  function ReadError(key: string): string
  {
    "Cannot read properties of undefined (reading '" + key + "')"
  }

  /** `String(x)` for the numbers the cursor can hold. */
  function NumText(x: Num): string
  {
    if x.NaN? then "NaN" else IntToString(x.n)
  }

  /** The colour tables (`Colors`): eight normal and eight bright colours and the two defaults. */
  datatype Colors = Colors(normal: seq<string>, bright: seq<string>, default: string, defaultBackground: string)

  const DEFAULT_COLORS := Colors(
    ["000000", "cd0000", "00cd00", "cdcd00", "0000ee", "cd00cd", "00cdcd", "e5e5e5"],
    ["7f7f7f", "ff0000", "00ff00", "ffff00", "0000ff", "ff00ff", "00ffff", "ffffff"],
    "e5e5e5", "000000")

  /** `weight`: `'normal' | 'bold' | 'light'`. */
  datatype Weight = Normal | Bold | Light
  /** `underline`: `false | true | 'double'`. */
  datatype Underline = NoLine | Single | Double
  /** `blink`: `false | true | 'fast'`. */
  datatype Blink = Steady | Slow | Fast
  /** `align`: `null | 'super' | 'sub'`. */
  datatype Align = Baseline | Super | Sub

  /** The graphic rendition attributes, which the source keeps as separate fields of the terminal. */
  datatype Style = Style(
    color: string, backgroundColor: string, invertColors: bool, weight: Weight, italic: bool,
    strikethrough: bool, underline: Underline, overline: bool, underlineColor: Option<string>,
    blink: Blink, hidden: bool, framed: bool, align: Align)

  /** The attributes of a new terminal, which SGR 0 restores. */
  function Plain(c: Colors): Style
  {
    Style(c.default, c.defaultBackground, false, Normal, false, false, NoLine, false, None, Steady, false, false, Baseline)
  }

  /** A control-sequence parameter: `null` for an empty one, otherwise what `parseInt` gives. */
  type Arg = Option<Num>

  /**
   * What a terminal fixes when it is made. `csiColor` stands for `getCSIColor`, which the model
   * does not compute: it is a function of the parameters alone.
   */
  datatype Config = Config(height: nat, width: nat, tabSize: nat, colors: Colors, csiColor: seq<Arg> -> Option<string>)

  /** The tab size is a positive whole number and the colour tables have eight entries each. */
  predicate Sound(cf: Config)
  {
    cf.tabSize >= 1 && |cf.colors.normal| == 8 && |cf.colors.bright| == 8
  }

  /** The cell texts, row by row; a row may grow longer than the width, never shorter. */
  type Grid = seq<seq<string>>

  /** Everything a character written to the terminal can change. */
  datatype Screen = Screen(
    grid: Grid, row: Num, col: Num, scrollRow: int, wasEscape: bool, inString: bool,
    stringType: Option<int>, stringChars: string, inCSI: bool, csiParams: string, style: Style)

  /** How drawing ends: normally, with a `TypeError`, or in a loop that never ends. */
  datatype Status = Going | Thrown(msg: string) | Hung
  datatype Drawn = Drawn(grid: Grid, status: Status)
  datatype Step = Step(screen: Screen, status: Status)

  // ---------------------------------------------------------------- numbers

  function Plus(a: Num, b: Num): Num
  {
    if a.Finite? && b.Finite? then Finite(a.n + b.n) else NaN
  }

  function Minus(a: Num, b: Num): Num
  {
    if a.Finite? && b.Finite? then Finite(a.n - b.n) else NaN
  }

  /** `arg ?? 1`: only a missing parameter defaults; `NaN` and `0` are kept. */
  function OrOne(a: Arg): Num
  {
    if a.Some? then a.value else Finite(1)
  }

  /** `x >= k`, false for `NaN`. */
  predicate AtLeast(x: Num, k: int)
  {
    x.Finite? && x.n >= k
  }

  /** `charElts[row]` is a row of the grid. */
  predicate RowAt(g: Grid, row: Num)
  {
    row.Finite? && 0 <= row.n < |g|
  }

  /** `tabSize * Math.ceil(col / tabSize)`: the first tab stop at or after `col`. */
  function TabStop(col: int, t: nat): (r: int)
    requires t >= 1
    ensures r % t == 0 && col <= r < col + t
  {
    TabStopBounds(col, t);
    (-((-col) / t)) * t
  }

  lemma TabStopBounds(col: int, t: nat)
    requires t >= 1
    ensures var r := (-((-col) / t)) * t; r % t == 0 && col <= r < col + t
  {
    var q, m := (-col) / t, (-col) % t;
    assert -col == q * t + m;
    var r := (-q) * t;
    assert r == -(q * t);
    Bits.ModUnique(r, t, -q, 0);
  }

  /** A tab stop is its own tab stop. */
  lemma TabIdempotent(col: int, t: nat)
    requires t >= 1
    ensures TabStop(TabStop(col, t), t) == TabStop(col, t)
  {
    var r := TabStop(col, t);
    var r2 := TabStop(r, t);
    assert r2 % t == 0 && r <= r2 < r + t;
    var k := r / t;
    var k2 := r2 / t;
    assert r == k * t && r2 == k2 * t;
    assert k * t <= k2 * t < k * t + t;
    if k2 > k {
      Bits.MulAtLeast(k2 - k, t);
    } else if k2 < k {
      Bits.MulAtLeast(k - k2, t);
    }
  }

  // ---------------------------------------------------------------- parameters

  /** `csiParams.split(';').map(arg => arg === '' ? null : parseInt(arg))`. */
  function Args(params: string): (r: seq<Arg>)
    ensures |r| == |Split(params, ';')| >= 1
  {
    var parts := Split(params, ';');
    seq(|parts|, i requires 0 <= i < |parts| => if parts[i] == "" then None else Some(ParseInt(parts[i], 0)))
  }

  /** No parameters give one missing parameter. */
  lemma ArgsOfEmpty()
    ensures Args("") == [None]
  {
    SplitFree("", ';');
  }

  /** A decimal number as the only parameter is read back as that number. */
  lemma ArgsOfNat(n: nat)
    ensures Args(NatToString(n)) == [Some(Finite(n))]
  {
    var d := NatToString(n);
    SplitFree(d, ';');
    Parsed(n);
    var r := Args(d);
    assert |r| == 1 && r[0] == Some(ParseInt(d, 0));
  }

  /** Two decimal numbers separated by `;` are read back as two parameters. */
  lemma ArgsOfPair(m: nat, n: nat)
    ensures Args(NatToString(m) + ";" + NatToString(n)) == [Some(Finite(m)), Some(Finite(n))]
  {
    var a, b := NatToString(m), NatToString(n);
    SplitCons(a, b, ';');
    SplitFree(b, ';');
    assert Split(a + ";" + b, ';') == [a, b];
    Parsed(m);
    Parsed(n);
    ArgsOfTwo(a + ";" + b, a, b);
  }

  /** Parameters that split into two non-empty parts give the two numbers those parts are read as. */
  lemma ArgsOfTwo(params: string, a: string, b: string)
    requires Split(params, ';') == [a, b] && a != "" && b != ""
    ensures Args(params) == [Some(ParseInt(a, 0)), Some(ParseInt(b, 0))]
  {
    var r := Args(params);
    assert |r| == 2 && r[0] == Some(ParseInt(a, 0)) && r[1] == Some(ParseInt(b, 0));
  }

  lemma Parsed(n: nat)
    ensures NatToString(n) != "" && ParseInt(NatToString(n), 0) == Finite(n)
  {
    ParseDigitsOfNatToString(n, 0);
    ParseIntOfDigits(NatToString(n), 0);
  }

  // ---------------------------------------------------------------- the grid

  function Blanks(n: nat): (r: seq<string>)
    ensures |r| == n && forall j :: 0 <= j < n ==> r[j] == " "
  {
    seq(n, _ => " ")
  }

  /** `slice`'s clamping of a bound that may be `NaN` (which counts as 0). */
  function SliceAt(len: nat, x: Num): (k: nat)
    ensures k <= len
  {
    if x.NaN? then 0 else SliceIndex(len, x.n)
  }

  /**
   * `for (let i = from; i < to; i++) charElts[row][i].textContent = ''`: nothing when the loop does
   * not run; reading from a row that does not exist throws; so does setting a cell before the
   * row's start or past its end, after the cells before it were cleared.
   */
  function Erase(g: Grid, row: Num, from: Num, to: Num): (r: Drawn)
    ensures |r.grid| == |g|
  {
    if !(from.Finite? && to.Finite? && from.n < to.n) then Drawn(g, Going)
    else if !RowAt(g, row) then Drawn(g, Thrown(ReadError(IntToString(from.n))))
    else if from.n < 0 then Drawn(g, Thrown(SET_TEXT))
    else
      var line := g[row.n];
      Drawn(g[row.n := Cleared(line, from.n, to.n)], if to.n > |line| then Thrown(SET_TEXT) else Going)
  }

  /** The row with its cells from `from` up to `to` (those it has) emptied. */
  function Cleared(line: seq<string>, from: int, to: int): (r: seq<string>)
    ensures |r| == |line|
  {
    seq(|line|, j requires 0 <= j < |line| => if from <= j < to then "" else line[j])
  }

  /** `for (let row of charElts.slice(lo, hi)) for (let elt of row) elt.textContent = ' '`. */
  function BlankRows(g: Grid, lo: nat, hi: nat): (r: Grid)
    ensures |r| == |g|
  {
    seq(|g|, k requires 0 <= k < |g| => if lo <= k < hi then Blanks(|g[k]|) else g[k])
  }

  /**
   * ERASE IN PAGE (`J`): with no parameter or 0 the cursor's row is emptied from the cursor to the
   * width and every later row blanked; with 1 the cursor's row is emptied up to the cursor and every
   * earlier row blanked; with anything else every row is blanked.
   */
  function EraseDisplay(width: nat, g: Grid, a: Arg, row: Num, col: Num): (r: Drawn)
    ensures |r.grid| == |g|
  {
    if a == None || a == Some(Finite(0)) then
      var d := Erase(g, row, col, Finite(width));
      if d.status.Going? then Drawn(BlankRows(d.grid, SliceAt(|g|, Plus(row, Finite(1))), |g|), Going) else d
    else if a == Some(Finite(1)) then
      var d := Erase(g, row, Finite(0), col);
      if d.status.Going? then Drawn(BlankRows(d.grid, 0, SliceAt(|g|, row)), Going) else d
    else Drawn(BlankRows(g, 0, |g|), Going)
  }

  /**
   * ERASE IN LINE (`K`): the cursor's row is emptied from the cursor to the width (no parameter or
   * 0), up to the cursor (1) or up to the width (2); any other parameter does nothing.
   */
  function EraseLine(width: nat, g: Grid, a: Arg, row: Num, col: Num): (r: Drawn)
    ensures |r.grid| == |g|
  {
    if a == None || a == Some(Finite(0)) then Erase(g, row, col, Finite(width))
    else if a == Some(Finite(1)) then Erase(g, row, Finite(0), col)
    else if a == Some(Finite(2)) then Erase(g, row, Finite(0), Finite(width))
    else Drawn(g, Going)
  }

  /**
   * `charElts[row][col].textContent = cell`, after pushing blank cells onto the row until `col` is
   * one of its cells. A row that does not exist throws; a column that no push can reach (negative
   * or `NaN`) keeps the loop pushing forever.
   */
  function Put(g: Grid, row: Num, col: Num, cell: string): (r: Drawn)
    ensures r.status.Thrown? <==> !RowAt(g, row)
    ensures r.status.Hung? <==> RowAt(g, row) && !AtLeast(col, 0)
    ensures r.status.Going? ==>
      RowAt(g, row) && AtLeast(col, 0) && |r.grid| == |g| &&
      |r.grid[row.n]| == (if col.n < |g[row.n]| then |g[row.n]| else col.n + 1) &&
      r.grid[row.n][col.n] == cell &&
      (forall k :: 0 <= k < |g| && k != row.n ==> r.grid[k] == g[k]) &&
      (forall j :: 0 <= j < |r.grid[row.n]| && j != col.n ==>
        r.grid[row.n][j] == if j < |g[row.n]| then g[row.n][j] else " ")
  {
    if !RowAt(g, row) then Drawn(g, Thrown(ReadError(NumText(col))))
    else if !AtLeast(col, 0) then Drawn(g, Hung)
    else
      var line := g[row.n];
      var wide := if col.n < |line| then line else line + Blanks(col.n + 1 - |line|);
      Drawn(g[row.n := wide[col.n := cell]], Going)
  }

  /** The text a character leaves in its cell: a framed cell also gets the variation selector. */
  function Cell(st: Style, c: char): string
  {
    if st.framed then [c, VS16] else [c]
  }

  // ---------------------------------------------------------------- control functions

  /**
   * `drawC1`: DCS, SOS, OSC, PM and APC open a control string of that type with no characters
   * yet; CSI starts a control sequence; every other C1 code does nothing.
   */
  function C1(s: Screen, code: int): Screen
  {
    if code == 0x90 || code == 0x98 || code == 0x9D || code == 0x9E || code == 0x9F then
      s.(inString := true, stringType := Some(code), stringChars := "")
    else if code == 0x9B then s.(inCSI := true)
    else s
  }

  /** SELECT GRAPHIC RENDITION (`m`), by the first parameter only. */
  function Sgr(cf: Config, st: Style, args: seq<Arg>): Style
    requires Sound(cf) && |args| >= 1
  {
    SgrBy(cf, st, args[0], args)
  }

  /** SGR by its first parameter `a`; the whole list only matters to `getCSIColor`. */
  function SgrBy(cf: Config, st: Style, a: Arg, args: seq<Arg>): Style
    requires Sound(cf)
  {
    match a
    case None => Plain(cf.colors)
    case Some(NaN) => st
    case Some(Finite(n)) =>
      if n == 0 then Plain(cf.colors)
      else if n < 30 then SgrFace(st, n)
      else if n < 50 || 90 <= n then SgrColor(cf, st, n, args)
      else SgrMark(cf, st, n, args)
  }

  /** The codes below 30: weight, italic, underline, blink, inverse, hidden and crossed out. */
  function SgrFace(st: Style, n: int): (r: Style)
    ensures r.overline == st.overline
  {
    if n == 1 then st.(weight := Bold)
    else if n == 2 then st.(weight := Light)
    else if n == 3 then st.(italic := true)
    else if n == 4 then st.(underline := Single)
    else if n == 5 then st.(blink := Slow)
    else if n == 6 then st.(blink := Fast)
    else if n == 7 then st.(invertColors := true)
    else if n == 8 then st.(hidden := true)
    else if n == 9 then st.(strikethrough := true)
    else if n == 21 then st.(underline := Double)
    else if n == 22 then st.(weight := Normal)
    else if n == 23 then st.(italic := false)
    else if n == 24 then st.(underline := NoLine)
    else if n == 25 then st.(blink := Steady)
    else if n == 27 then st.(invertColors := false)
    else if n == 28 then st.(hidden := false)
    else if n == 29 then st.(strikethrough := false)
    else st
  }

  /** The colour codes 30-49 and 90-107. */
  function SgrColor(cf: Config, st: Style, n: int, args: seq<Arg>): (r: Style)
    requires Sound(cf)
    ensures r.overline == st.overline
  {
    var c := cf.colors;
    if 30 <= n < 38 then st.(color := c.normal[n - 30])
    else if n == 38 then st.(color := OrElse(cf.csiColor(args), st.color))
    else if n == 39 then st.(color := c.default)
    else if 40 <= n < 48 then st.(backgroundColor := c.normal[n - 40])
    else if n == 48 then st.(backgroundColor := OrElse(cf.csiColor(args), st.backgroundColor))
    else if n == 49 then st.(backgroundColor := c.defaultBackground)
    else if 90 <= n < 98 then st.(color := c.bright[n - 90])
    else if 100 <= n < 108 then st.(backgroundColor := c.bright[n - 100])
    else st
  }

  /** The codes 50-89: frame, overline, underline colour and vertical alignment. */
  function SgrMark(cf: Config, st: Style, n: int, args: seq<Arg>): (r: Style)
    ensures r.overline == (st.overline || n == 53)
  {
    if n == 51 || n == 52 then st.(framed := true)
    else if n == 53 then st.(overline := true)
    else if n == 54 then st.(framed := false)
    else if n == 58 then st.(underlineColor := cf.csiColor(args))
    else if n == 59 then st.(underlineColor := None)
    else if n == 73 then st.(align := Super)
    else if n == 74 then st.(align := Sub)
    else if n == 75 then st.(align := Baseline)
    else st
  }

  /** `x ?? fallback`. */
  function OrElse(x: Option<string>, fallback: string): string
  {
    if x.Some? then x.value else fallback
  }

  /**
   * The effect of a final other than `m`, before the row is clamped: the cursor movements, the
   * erasures and the scrolls.
   */
  function Motion(width: nat, s: Screen, f: char, a: Arg): (r: Step)
    ensures |r.screen.grid| == |s.grid|
    ensures r.screen == s.(grid := r.screen.grid, row := r.screen.row, col := r.screen.col, scrollRow := r.screen.scrollRow)
  {
    if f == 'A' then Step(s.(row := Minus(s.row, OrOne(a))), Going)
    else if f == 'B' then Step(s.(row := Plus(s.row, OrOne(a))), Going)
    else if f == 'C' then Step(s.(col := Plus(s.col, OrOne(a))), Going)
    else if f == 'D' then Step(s.(col := Minus(s.col, OrOne(a))), Going)
    else if f == 'E' then Step(s.(row := Plus(s.row, OrOne(a)), col := Finite(0)), Going)
    else if f == 'F' then Step(s.(row := Minus(s.row, OrOne(a)), col := Finite(0)), Going)
    else if f == 'G' then Step(s.(col := Minus(OrOne(a), Finite(1))), Going)
    else if f == 'H' || f == 'f' then Step(s.(row := Minus(OrOne(a), Finite(1)), col := Minus(OrOne(a), Finite(1))), Going)
    else if f == 'J' then
      var d := EraseDisplay(width, s.grid, a, s.row, s.col);
      Step(s.(grid := d.grid), d.status)
    else if f == 'K' then
      var d := EraseLine(width, s.grid, a, s.row, s.col);
      Step(s.(grid := d.grid), d.status)
    else if f == 'S' then Step(s.(scrollRow := s.scrollRow + 1), Going)
    else if f == 'T' then Step(s.(scrollRow := s.scrollRow - 1), Going)
    else Step(s, Going)
  }

  /**
   * A cursor below the last row is moved onto it and the page scrolls by as many rows, so the
   * cursor stays on the same line of the scrolled text; a row above the first is left alone.
   */
  function Clamp(height: nat, s: Screen): (r: Screen)
    ensures r == s.(row := r.row, scrollRow := r.scrollRow)
    ensures s.row.Finite? ==>
      r.row.Finite? && r.row.n < height && r.row.n + r.scrollRow == s.row.n + s.scrollRow
    ensures !AtLeast(s.row, height) <==> r == s
  {
    if AtLeast(s.row, height) then s.(row := Finite(height - 1), scrollRow := s.scrollRow + s.row.n - height + 1)
    else s
  }

  /**
   * `drawCSI`: the final character `f` of a control sequence acts on the parameters collected so
   * far, `args` being `Args(s.csiParams)`.
   */
  function Csi(cf: Config, s: Screen, f: char, args: seq<Arg>): (r: Step)
    requires Sound(cf) && |args| >= 1
    ensures r.screen == s.(grid := r.screen.grid, row := r.screen.row, col := r.screen.col,
      scrollRow := r.screen.scrollRow, style := r.screen.style)
    ensures |r.screen.grid| == |s.grid|
  {
    if f == 'm' then Step(s.(style := Sgr(cf, s.style, args)), Going)
    else
      var m := Motion(cf.width, s, f, args[0]);
      if m.status.Going? then Step(Clamp(cf.height, m.screen), Going) else m
  }

  /** BACKSPACE: one column back, to the last column of the row above from the first column. */
  function Backspace(width: nat, s: Screen): Screen
  {
    var col := Minus(s.col, Finite(1));
    if col.Finite? && col.n < 0 then s.(col := Finite(width - 1), row := Minus(s.row, Finite(1)))
    else s.(col := col)
  }

  /** CHARACTER TABULATION: to the next tab stop, or staying on one. */
  function Tab(t: nat, col: Num): Num
    requires t >= 1
  {
    if col.NaN? then NaN else Finite(TabStop(col.n, t))
  }

  /**
   * `drawChar`: inside a control sequence, parameter bytes are collected and a final byte acts;
   * after ESC, a byte in 0x40-0x5F acts as the C1 code 0x40 above it; inside a control string every
   * character but ST is collected; BACKSPACE and TAB move the cursor, C1 codes act, and every other
   * character is put in the cursor's cell unless the text is hidden. The cursor does not advance.
   */
  function Draw(cf: Config, s: Screen, c: char): Step
    requires Sound(cf)
  {
    var code := c as int;
    if s.inCSI then
      if 0x30 <= code < 0x40 then Step(s.(csiParams := s.csiParams + [c]), Going)
      else if 0x40 <= code <= 0x7F then Csi(cf, s, c, Args(s.csiParams))
      else Step(s, Going)
    else if s.wasEscape then
      Step((if 0x40 <= code < 0x60 then C1(s, code + 0x40) else s).(wasEscape := false), Going)
    else if c == ESC then Step(s.(wasEscape := true), Going)
    else if s.inString then
      Step(if c == ST then s.(inString := false) else s.(stringChars := s.stringChars + [c]), Going)
    else if code == 0x08 then Step(Backspace(cf.width, s), Going)
    else if code == 0x09 then Step(s.(col := Tab(cf.tabSize, s.col)), Going)
    else if 0x80 <= code < 0xA0 then Step(C1(s, code), Going)
    else if s.style.hidden then Step(s, Going)
    else
      var d := Put(s.grid, s.row, s.col, Cell(s.style, c));
      Step(s.(grid := d.grid), d.status)
  }

  /** `write`: the characters one by one, until one of them throws or never returns. */
  function DrawAll(cf: Config, s: Screen, text: string): Step
    requires Sound(cf)
    decreases |text|
  {
    if |text| == 0 then Step(s, Going)
    else
      var first := Draw(cf, s, text[0]);
      if first.status.Going? then DrawAll(cf, first.screen, text[1..]) else first
  }

  // ---------------------------------------------------------------- keys

  /** The fields of a `KeyboardEvent` that `onkey` reads. */
  datatype KeyEvent = KeyEvent(key: string, altKey: bool, ctrlKey: bool, metaKey: bool, shiftKey: bool)

  function Bit(b: bool): nat
  {
    if b then 1 else 0
  }

  /** The modifier parameter of a key with Alt or Meta: one plus a bit per modifier held. */
  function Modifier(e: KeyEvent): (r: nat)
    ensures 1 <= r <= 16
    ensures ((r - 1) % 2 == 1 <==> e.shiftKey) && ((r - 1) / 2 % 2 == 1 <==> e.altKey)
    ensures ((r - 1) / 4 % 2 == 1 <==> e.ctrlKey) && ((r - 1) / 8 == 1 <==> e.metaKey)
  {
    1 + Bit(e.shiftKey) + 2 * Bit(e.altKey) + 4 * Bit(e.ctrlKey) + 8 * Bit(e.metaKey)
  }

  /**
   * `onkey`'s text for a key: a one-character key with Alt or Meta as a control sequence carrying
   * the modifiers, with Ctrl alone as the code 64 below it, otherwise as itself; Enter, Tab and
   * Backspace as their control characters; the arrows, End, Home, PageDown and PageUp as control
   * sequences; nothing for any other key.
   */
  function KeyText(e: KeyEvent): Option<string>
  {
    var k := e.key;
    if |k| == 1 then
      if e.altKey || e.metaKey then Some([ESC, '['] + NatToString(Modifier(e)) + k)
      else if e.ctrlKey then Some([ShellLex.FromCharCode(Finite(k[0] as int - 64))])
      else Some(k)
    else if k == "Enter" then Some("\n")
    else if k == "Tab" then Some("\t")
    else if k == "Backspace" then Some([0x08 as char])
    else if k == "ArrowUp" then Some([ESC, '[', 'A'])
    else if k == "ArrowDown" then Some([ESC, '[', 'B'])
    else if k == "ArrowRight" then Some([ESC, '[', 'C'])
    else if k == "ArrowLeft" then Some([ESC, '[', 'D'])
    else if k == "End" then Some([ESC, '[', 'F'])
    else if k == "Home" then Some([ESC, '[', 'H'])
    else if k == "PageDown" then Some([ESC, '[', 'S'])
    else if k == "PageUp" then Some([ESC, '[', 'T'])
    else None
  }

  /**
   * Ctrl with a capital letter gives its C0 control character, but Ctrl with a small letter (what a
   * browser reports for Ctrl+C) gives a printable character from `!` to `:`.
   */
  lemma CtrlLetters(e: KeyEvent)
    requires |e.key| == 1 && e.ctrlKey && !e.altKey && !e.metaKey
    ensures 'A' <= e.key[0] <= 'Z' ==> KeyText(e) == Some([(e.key[0] as int - 64) as char]) && 1 <= e.key[0] as int - 64 <= 26
    ensures 'a' <= e.key[0] <= 'z' ==> KeyText(e) == Some([(e.key[0] as int - 64) as char]) && '!' <= (e.key[0] as int - 64) as char <= ':'
  {
    var v := e.key[0] as int - 64;
    if 'A' <= e.key[0] <= 'Z' || 'a' <= e.key[0] <= 'z' {
      assert 0 <= v < 0xD800 && v % 0x1_0000 == v;
    }
  }

  // ---------------------------------------------------------------- properties of drawing

  /** The 7-bit form `ESC Fe` of a C1 control acts as its 8-bit form, outside control sequences and strings. */
  lemma EscFeIsC1(cf: Config, s: Screen, c: char)
    requires Sound(cf) && !s.inCSI && !s.wasEscape && !s.inString && 0x40 <= c as int < 0x60
    ensures DrawAll(cf, s, [ESC, c]) == DrawAll(cf, s, [(c as int + 0x40) as char])
  {
    var code := c as int + 0x40;
    var s1 := s.(wasEscape := true);
    assert Draw(cf, s, ESC) == Step(s1, Going);
    assert C1(s1, code).(wasEscape := false) == C1(s, code);
    assert Draw(cf, s1, c) == Step(C1(s, code), Going);
    assert Draw(cf, s, code as char) == Step(C1(s, code), Going);
    var t := [ESC, c];
    assert t[1..] == [c];
    assert DrawAll(cf, s1, [c]) == Step(C1(s, code), Going);
  }

  /**
   * Only the 8-bit STRING TERMINATOR ends a control string: its 7-bit form `ESC \` leaves the string
   * open and its characters as they were.
   */
  lemma OnlyEightBitStEndsString(cf: Config, s: Screen)
    requires Sound(cf) && s.inString && !s.inCSI && !s.wasEscape
    ensures DrawAll(cf, s, [ESC, '\\']) == Step(s, Going)
    ensures DrawAll(cf, s, [ST]) == Step(s.(inString := false), Going)
  {
    var s1 := s.(wasEscape := true);
    assert Draw(cf, s, ESC) == Step(s1, Going);
    assert Draw(cf, s1, '\\') == Step(s, Going);
    var t := [ESC, '\\'];
    assert t[1..] == ['\\'];
    assert DrawAll(cf, s1, ['\\']) == Step(s, Going);
  }

  /** Inside a control string, every character other than ESC and ST is collected. */
  lemma {:induction false} StringCollects(cf: Config, s: Screen, t: string)
    requires Sound(cf) && s.inString && !s.inCSI && !s.wasEscape
    requires forall i :: 0 <= i < |t| ==> t[i] != ESC && t[i] != ST
    ensures DrawAll(cf, s, t) == Step(s.(stringChars := s.stringChars + t), Going)
    decreases |t|
  {
    if |t| > 0 {
      var s1 := s.(stringChars := s.stringChars + [t[0]]);
      assert Draw(cf, s, t[0]) == Step(s1, Going);
      StringCollects(cf, s1, t[1..]);
      assert s.stringChars + [t[0]] + t[1..] == s.stringChars + t;
    }
  }

  /** A control sequence is never left: nothing written afterwards clears `inCSI` or drops a collected parameter byte. */
  lemma {:induction false} CsiSticks(cf: Config, s: Screen, t: string)
    requires Sound(cf) && s.inCSI
    ensures DrawAll(cf, s, t).screen.inCSI && s.csiParams <= DrawAll(cf, s, t).screen.csiParams
    decreases |t|
  {
    if |t| > 0 {
      var first := Draw(cf, s, t[0]);
      assert first.screen.inCSI && s.csiParams <= first.screen.csiParams;
      if first.status.Going? {
        CsiSticks(cf, first.screen, t[1..]);
      }
    }
  }

  /** Inside a control sequence, parameter bytes (0x30-0x3F) are appended to the parameters. */
  lemma {:induction false} CsiParamsGrow(cf: Config, s: Screen, t: string)
    requires Sound(cf) && s.inCSI
    requires forall i :: 0 <= i < |t| ==> 0x30 <= t[i] as int < 0x40
    ensures DrawAll(cf, s, t) == Step(s.(csiParams := s.csiParams + t), Going)
    decreases |t|
  {
    if |t| > 0 {
      var s1 := s.(csiParams := s.csiParams + [t[0]]);
      assert Draw(cf, s, t[0]) == Step(s1, Going);
      CsiParamsGrow(cf, s1, t[1..]);
      assert s.csiParams + [t[0]] + t[1..] == s.csiParams + t;
    }
  }

  /** Writing two texts one after the other draws what writing them together draws. */
  lemma {:induction false} DrawAllConcat(cf: Config, s: Screen, a: string, b: string)
    requires Sound(cf)
    ensures DrawAll(cf, s, a + b) ==
      var x := DrawAll(cf, s, a); if x.status.Going? then DrawAll(cf, x.screen, b) else x
    decreases |a|
  {
    if |a| > 0 {
      assert (a + b)[0] == a[0] && (a + b)[1..] == a[1..] + b;
      var first := Draw(cf, s, a[0]);
      if first.status.Going? {
        DrawAllConcat(cf, first.screen, a[1..], b);
      }
    } else {
      assert a + b == b;
    }
  }

  /** SGR with one numeric parameter. */
  function SgrCode(cf: Config, st: Style, n: int): Style
    requires Sound(cf)
  {
    SgrBy(cf, st, Some(Finite(n)), [Some(Finite(n))])
  }

  /** SGR 0, or SGR with no parameter, restores the attributes of a new terminal. */
  lemma SgrReset(cf: Config, st: Style)
    requires Sound(cf)
    ensures SgrCode(cf, st, 0) == Sgr(cf, st, [None]) == Plain(cf.colors)
  {
  }

  /*
   * Each code that sets an attribute is undone by its partner code, which leaves every other
   * attribute as it was: the four lemmas below cover every pair.
   */

  /** SGR 1 (bold) and 2 (light) are undone by 22. */
  lemma SgrWeightToggles(cf: Config, st: Style)
    requires Sound(cf)
    ensures SgrCode(cf, SgrCode(cf, st, 1), 22) == st.(weight := Normal)
    ensures SgrCode(cf, SgrCode(cf, st, 2), 22) == st.(weight := Normal)
  {
  }

  /** SGR 3 (italic) is undone by 23 and 9 (crossed out) by 29. */
  lemma SgrSlantToggles(cf: Config, st: Style)
    requires Sound(cf)
    ensures SgrCode(cf, SgrCode(cf, st, 3), 23) == st.(italic := false)
    ensures SgrCode(cf, SgrCode(cf, st, 9), 29) == st.(strikethrough := false)
  {
  }

  /** SGR 4 (underline) and 21 (double underline) are undone by 24. */
  lemma SgrLineToggles(cf: Config, st: Style)
    requires Sound(cf)
    ensures SgrCode(cf, SgrCode(cf, st, 4), 24) == st.(underline := NoLine)
    ensures SgrCode(cf, SgrCode(cf, st, 21), 24) == st.(underline := NoLine)
  {
  }

  /** SGR 5 (blink) and 6 (fast blink) are undone by 25. */
  lemma SgrBlinkToggles(cf: Config, st: Style)
    requires Sound(cf)
    ensures SgrCode(cf, SgrCode(cf, st, 5), 25) == st.(blink := Steady)
    ensures SgrCode(cf, SgrCode(cf, st, 6), 25) == st.(blink := Steady)
  {
  }

  /** SGR 7 (inverse) and 8 (hidden) are undone by 27 and 28. */
  lemma SgrShowToggles(cf: Config, st: Style)
    requires Sound(cf)
    ensures SgrCode(cf, SgrCode(cf, st, 7), 27) == st.(invertColors := false)
    ensures SgrCode(cf, SgrCode(cf, st, 8), 28) == st.(hidden := false)
  {
  }

  /** SGR 51 and 52 (framed) are undone by 54; 73 (superscript) and 74 (subscript) by 75. */
  lemma SgrFrameToggles(cf: Config, st: Style)
    requires Sound(cf)
    ensures SgrCode(cf, SgrCode(cf, st, 51), 54) == st.(framed := false)
    ensures SgrCode(cf, SgrCode(cf, st, 52), 54) == st.(framed := false)
  {
  }

  lemma SgrAlignToggles(cf: Config, st: Style)
    requires Sound(cf)
    ensures SgrCode(cf, SgrCode(cf, st, 73), 75) == st.(align := Baseline)
    ensures SgrCode(cf, SgrCode(cf, st, 74), 75) == st.(align := Baseline)
  {
  }

  /** The foreground codes pick from the tables, and 39 goes back to the default colour. */
  lemma SgrForeground(cf: Config, st: Style, n: int)
    requires Sound(cf) && (30 <= n < 38 || 90 <= n < 98)
    ensures SgrCode(cf, st, n) == st.(color := if n < 38 then cf.colors.normal[n - 30] else cf.colors.bright[n - 90])
    ensures SgrCode(cf, SgrCode(cf, st, n), 39) == st.(color := cf.colors.default)
  {
    assert SgrCode(cf, st, n) == SgrColor(cf, st, n, [Some(Finite(n))]);
  }

  /** The background codes pick from the tables, and 49 goes back to the default background. */
  lemma SgrBackground(cf: Config, st: Style, n: int)
    requires Sound(cf) && (40 <= n < 48 || 100 <= n < 108)
    ensures SgrCode(cf, st, n) == st.(backgroundColor := if n < 48 then cf.colors.normal[n - 40] else cf.colors.bright[n - 100])
    ensures SgrCode(cf, SgrCode(cf, st, n), 49) == st.(backgroundColor := cf.colors.defaultBackground)
  {
    assert SgrCode(cf, st, n) == SgrColor(cf, st, n, [Some(Finite(n))]);
  }


  /** No code but a reset clears the overline: SGR 55 is not recognised. */
  lemma OverlineOnlyResets(cf: Config, st: Style, n: int)
    requires Sound(cf) && st.overline
    ensures SgrCode(cf, st, n).overline <==> n != 0
  {
  }

  /**
   * With a first parameter `n` (as the text `NatToString(n)` reads, by `ArgsOfNat`), CURSOR UP
   * moves `n` rows up and CURSOR DOWN `n` rows down; past the last row the page scrolls instead.
   * A parameter of 0 moves by 0, not by the default 1.
   */
  lemma CursorUpDown(cf: Config, s: Screen, args: seq<Arg>, n: nat)
    requires Sound(cf) && |args| >= 1 && args[0] == Some(Finite(n)) && s.row.Finite? && s.row.n < cf.height
    ensures Csi(cf, s, 'A', args) == Step(s.(row := Finite(s.row.n - n)), Going)
    ensures var r := Csi(cf, s, 'B', args).screen;
      r.row == Finite(if s.row.n + n < cf.height then s.row.n + n else cf.height - 1) &&
      r.scrollRow == s.scrollRow + s.row.n + n - r.row.n && r.col == s.col
  {
  }

  /**
   * CURSOR POSITION `m;n` (as the text `NatToString(m) + ";" + NatToString(n)` reads, by
   * `ArgsOfPair`) puts the cursor in row `m` and also in column `m`: the column parameter is ignored.
   */
  lemma CupIgnoresColumn(cf: Config, s: Screen, m: nat, n: nat)
    requires Sound(cf) && 1 <= m <= cf.height
    ensures Csi(cf, s, 'H', [Some(Finite(m)), Some(Finite(n))]) == Step(s.(row := Finite(m - 1), col := Finite(m - 1)), Going)
    ensures Csi(cf, s, 'f', [Some(Finite(m)), Some(Finite(n))]) == Csi(cf, s, 'H', [Some(Finite(m)), Some(Finite(n))])
  {
  }

  /** A fresh terminal state: outside escapes, control strings and control sequences. */
  predicate Ground(s: Screen)
  {
    !s.inCSI && !s.wasEscape && !s.inString
  }

  /**
   * The text of ArrowUp, echoed into a terminal that has seen no control sequence yet, moves its
   * cursor one row up, and leaves it inside a control sequence for good.
   */
  lemma EchoArrowUp(cf: Config, s: Screen, e: KeyEvent)
    requires Sound(cf) && Ground(s) && s.csiParams == "" && s.row.Finite? && s.row.n <= cf.height
    requires e.key == "ArrowUp"
    ensures KeyText(e) == Some([ESC, '[', 'A'])
    ensures DrawAll(cf, s, KeyText(e).value) == Step(s.(inCSI := true, row := Finite(s.row.n - 1)), Going)
  {
    var t := [ESC, '[', 'A'];
    var s1 := s.(wasEscape := true);
    var s2 := s.(inCSI := true);
    assert Draw(cf, s, ESC) == Step(s1, Going);
    assert Draw(cf, s1, '[') == Step(s2, Going);
    ArgsOfEmpty();
    assert Csi(cf, s2, 'A', [None]) == Step(s2.(row := Finite(s.row.n - 1)), Going);
    assert Draw(cf, s2, 'A') == Step(s2.(row := Finite(s.row.n - 1)), Going);
    assert t[1..] == ['[', 'A'] && t[1..][1..] == ['A'];
    assert DrawAll(cf, s2, ['A']) == Step(s2.(row := Finite(s.row.n - 1)), Going);
    assert DrawAll(cf, s1, t[1..]) == Step(s2.(row := Finite(s.row.n - 1)), Going);
    assert KeyText(e).value == t;
  }

  /** The text of Home, echoed the same way, moves the cursor to the first row and column. */
  lemma EchoHome(cf: Config, s: Screen, e: KeyEvent)
    requires Sound(cf) && Ground(s) && s.csiParams == "" && cf.height >= 1
    requires e.key == "Home"
    ensures KeyText(e) == Some([ESC, '[', 'H'])
    ensures DrawAll(cf, s, KeyText(e).value) == Step(s.(inCSI := true, row := Finite(0), col := Finite(0)), Going)
  {
    var t := [ESC, '[', 'H'];
    var s1 := s.(wasEscape := true);
    var s2 := s.(inCSI := true);
    assert Draw(cf, s, ESC) == Step(s1, Going);
    assert Draw(cf, s1, '[') == Step(s2, Going);
    ArgsOfEmpty();
    assert Csi(cf, s2, 'H', [None]) == Step(s2.(row := Finite(0), col := Finite(0)), Going);
    assert Draw(cf, s2, 'H') == Step(s2.(row := Finite(0), col := Finite(0)), Going);
    assert t[1..] == ['[', 'H'] && t[1..][1..] == ['H'];
    assert DrawAll(cf, s2, ['H']) == Step(s2.(row := Finite(0), col := Finite(0)), Going);
    assert DrawAll(cf, s1, t[1..]) == Step(s2.(row := Finite(0), col := Finite(0)), Going);
    assert KeyText(e).value == t;
  }

  /**
   * A character that is not a control the terminal knows (line feed and carriage return included)
   * goes into the cursor's cell and the cursor stays where it is.
   */
  lemma PrintKeepsCursor(cf: Config, s: Screen, c: char)
    requires Sound(cf) && Ground(s) && !s.style.hidden && RowAt(s.grid, s.row) && AtLeast(s.col, 0)
    requires c != ESC && c as int != 0x08 && c as int != 0x09 && !(0x80 <= c as int < 0xA0)
    ensures var r := Draw(cf, s, c);
      r.status.Going? && r.screen.row == s.row && r.screen.col == s.col &&
      r.screen.grid[s.row.n][s.col.n] == Cell(s.style, c)
  {
  }

  /**
   * ERASE IN PAGE with no parameter empties the cursor's row from the cursor on (cells become
   * empty) but blanks the rows below (cells become a space), and keeps the rows above.
   */
  lemma EraseBelow(cf: Config, s: Screen)
    requires Sound(cf) && RowAt(s.grid, s.row) && s.row.n < cf.height
    requires AtLeast(s.col, 0) && s.col.n <= cf.width <= |s.grid[s.row.n]|
    ensures var r := Csi(cf, s, 'J', [None]);
      var g, g', row := s.grid, r.screen.grid, s.row.n;
      r.status.Going? && |g'| == |g| &&
      (forall k :: 0 <= k < row ==> g'[k] == g[k]) &&
      |g'[row]| == |g[row]| &&
      (forall j :: 0 <= j < |g[row]| ==> g'[row][j] == if s.col.n <= j < cf.width then "" else g[row][j]) &&
      (forall k :: row < k < |g| ==> g'[k] == Blanks(|g[k]|))
  {
    var d := Erase(s.grid, s.row, s.col, Finite(cf.width));
    assert SliceAt(|s.grid|, Plus(s.row, Finite(1))) == s.row.n + 1;
  }

  // ---------------------------------------------------------------- the terminal object

  /** `TerminalOptions`: what is absent takes its default. */
  datatype Options = Options(
    text: Option<string>, height: Option<nat>, width: Option<nat>, tabSize: Option<nat>, colors: Option<Colors>)

  /** A new terminal's grid: `height` rows of `width` blank cells. */
  function BlankGrid(height: nat, width: nat): (r: Grid)
    ensures |r| == height && forall k :: 0 <= k < height ==> r[k] == Blanks(width)
  {
    seq(height, _ => Blanks(width))
  }

  /** The state of a new terminal: blank, the cursor at the origin, plain attributes. */
  function Initial(cf: Config): (r: Screen)
    ensures Ground(r) && r.csiParams == "" && r.style == Plain(cf.colors)
  {
    Screen(BlankGrid(cf.height, cf.width), Finite(0), Finite(0), 0, false, false, None, "", false, "", Plain(cf.colors))
  }

  /**
   * `Terminal`. The grid of `span` elements is an array with a slot per row holding that row's cell
   * texts; the graphic rendition attributes are kept together in `style`.
   */
  class Terminal {
    const height: nat
    const width: nat
    const tabSize: nat
    const colors: Colors
    const csiColor: seq<Arg> -> Option<string>
    const grid: array<seq<string>>
    const stdin: Streams.Stream
    var text: string
    var row: Num
    var col: Num
    var scrollRow: int
    var wasEscape: bool
    var inString: bool
    var stringType: Option<int>
    var stringChars: string
    var inCSI: bool
    var csiParams: string
    var style: Style

    predicate Valid()
    {
      grid.Length == height && Sound(Settings())
    }

    function Settings(): Config
    {
      Config(height, width, tabSize, colors, csiColor)
    }

    function Snapshot(): Screen
      reads this, grid
    {
      Screen(grid[..], row, col, scrollRow, wasEscape, inString, stringType, stringChars, inCSI, csiParams, style)
    }

    /** `new Terminal(stdin, stdout, stderr, options)`, without the write listeners it registers. */
    constructor (stdin: Streams.Stream, options: Options, csiColor: seq<Arg> -> Option<string>)
      requires options.tabSize != Some(0)
      requires options.colors.Some? ==> |options.colors.value.normal| == 8 && |options.colors.value.bright| == 8
      ensures Valid() && fresh(grid) && this.stdin == stdin && this.csiColor == csiColor
      ensures text == OrElse(options.text, "")
      ensures height == (if options.height.Some? then options.height.value else 24)
      ensures width == (if options.width.Some? then options.width.value else 80)
      ensures tabSize == (if options.tabSize.Some? then options.tabSize.value else 8)
      ensures colors == (if options.colors.Some? then options.colors.value else DEFAULT_COLORS)
      ensures Snapshot() == Initial(Settings())
    {
      var h := if options.height.Some? then options.height.value else 24;
      var w := if options.width.Some? then options.width.value else 80;
      var g := new seq<string>[h];
      var i := 0;
      while i < h
        invariant 0 <= i <= h
        invariant forall k :: 0 <= k < i ==> g[k] == Blanks(w)
      {
        var line: seq<string> := [];
        var j := 0;
        while j < w
          invariant 0 <= j <= w && line == Blanks(j)
        {
          line := line + [" "];
          j := j + 1;
        }
        g[i] := line;
        i := i + 1;
      }
      this.stdin := stdin;
      this.csiColor := csiColor;
      text := OrElse(options.text, "");
      height := h;
      width := w;
      var cs := if options.colors.Some? then options.colors.value else DEFAULT_COLORS;
      colors := cs;
      tabSize := if options.tabSize.Some? then options.tabSize.value else 8;
      grid := g;
      row, col, scrollRow := Finite(0), Finite(0), 0;
      wasEscape, inString, stringType, stringChars := false, false, None, "";
      inCSI, csiParams := false, "";
      style := Plain(cs);
      new;
      assert grid[..] == BlankGrid(h, w);
    }

    /** `drawC1`. */
    method DrawC1(code: int)
      modifies this
      ensures Snapshot() == C1(old(Snapshot()), code) && text == old(text)
    {
      if code == 0x90 || code == 0x98 || code == 0x9D || code == 0x9E || code == 0x9F {
        inString := true;
        stringType := Some(code);
        stringChars := "";
      } else if code == 0x9B {
        inCSI := true;
      }
    }

    /** `for (let i = from; i < to; i++) this.charElts[at][i].textContent = ''`. */
    method EraseOn(at: Num, from: Num, to: Num) returns (status: Status)
      modifies grid
      ensures Drawn(grid[..], status) == Erase(old(grid[..]), at, from, to)
    {
      if !(from.Finite? && to.Finite?) {
        return Going;
      }
      ghost var g0 := grid[..];
      var i := from.n;
      while i < to.n
        invariant from.n <= i
        invariant i > from.n ==> RowAt(g0, at) && 0 <= from.n && i <= |g0[at.n]| && i <= to.n
        invariant grid[..] == if i > from.n then g0[at.n := Cleared(g0[at.n], from.n, i)] else g0
      {
        if !RowAt(grid[..], at) {
          return Thrown(ReadError(IntToString(i)));
        }
        var line := grid[at.n];
        if i < 0 {
          return Thrown(SET_TEXT);
        }
        if i == from.n {
          ClearedNone(line, i);
        }
        if i >= |line| {
          ClearedPast(g0[at.n], from.n, i, to.n);
          return Thrown(SET_TEXT);
        }
        grid[at.n] := line[i := ""];
        ClearedNext(g0[at.n], from.n, i);
        i := i + 1;
      }
      return Going;
    }

    /** `for (let elt of this.charElts[k]) elt.textContent = ' '`. */
    method BlankLine(k: nat)
      requires k < grid.Length
      modifies grid
      ensures grid[..] == old(grid[..])[k := Blanks(|old(grid[k])|)]
    {
      var line := grid[k];
      var j := 0;
      while j < |line|
        invariant 0 <= j <= |line| == |old(grid[k])|
        invariant forall m :: 0 <= m < j ==> line[m] == " "
      {
        line := line[j := " "];
        j := j + 1;
      }
      assert line == Blanks(|line|);
      grid[k] := line;
    }

    /** `for (let row of this.charElts.slice(lo, hi)) for (let elt of row) elt.textContent = ' '`, bounds already clamped. */
    method BlankOn(lo: nat, hi: nat)
      requires hi <= grid.Length
      modifies grid
      ensures grid[..] == BlankRows(old(grid[..]), lo, hi)
    {
      ghost var g0 := grid[..];
      var k := lo;
      while k < hi
        invariant lo <= k <= if lo < hi then hi else lo
        invariant grid[..] == BlankRows(g0, lo, k)
      {
        BlankLine(k);
        BlankRowsNext(g0, lo, k);
        k := k + 1;
      }
      if hi <= lo {
        BlankRowsNone(g0, lo, hi);
      } else {
        assert k == hi;
      }
    }

    /** ERASE IN PAGE at the cursor. */
    method EraseDisplayOn(a: Arg) returns (status: Status)
      modifies grid
      ensures Drawn(grid[..], status) == EraseDisplay(width, old(grid[..]), a, row, col)
    {
      var n := grid.Length;
      if a == None || a == Some(Finite(0)) {
        status := EraseOn(row, col, Finite(width));
        if status.Going? {
          BlankOn(SliceAt(n, Plus(row, Finite(1))), n);
        }
      } else if a == Some(Finite(1)) {
        status := EraseOn(row, Finite(0), col);
        if status.Going? {
          BlankOn(0, SliceAt(n, row));
        }
      } else {
        BlankOn(0, n);
        status := Going;
      }
    }

    /** ERASE IN LINE at the cursor. */
    method EraseLineOn(a: Arg) returns (status: Status)
      modifies grid
      ensures Drawn(grid[..], status) == EraseLine(width, old(grid[..]), a, row, col)
    {
      if a == None || a == Some(Finite(0)) {
        status := EraseOn(row, col, Finite(width));
      } else if a == Some(Finite(1)) {
        status := EraseOn(row, Finite(0), col);
      } else if a == Some(Finite(2)) {
        status := EraseOn(row, Finite(0), Finite(width));
      } else {
        status := Going;
      }
    }

    /** The finals other than `m` of `drawCSI`, before the row is clamped. */
    method MoveOn(f: char, a: Arg) returns (status: Status)
      modifies this, grid
      ensures Step(Snapshot(), status) == Motion(width, old(Snapshot()), f, a) && text == old(text)
    {
      status := Going;
      if f == 'A' {
        row := Minus(row, OrOne(a));
      } else if f == 'B' {
        row := Plus(row, OrOne(a));
      } else if f == 'C' {
        col := Plus(col, OrOne(a));
      } else if f == 'D' {
        col := Minus(col, OrOne(a));
      } else if f == 'E' {
        row := Plus(row, OrOne(a));
        col := Finite(0);
      } else if f == 'F' {
        row := Minus(row, OrOne(a));
        col := Finite(0);
      } else if f == 'G' {
        col := Minus(OrOne(a), Finite(1));
      } else if f == 'H' || f == 'f' {
        row := Minus(OrOne(a), Finite(1));
        col := Minus(OrOne(a), Finite(1));
      } else if f == 'J' {
        status := EraseDisplayOn(a);
      } else if f == 'K' {
        status := EraseLineOn(a);
      } else if f == 'S' {
        scrollRow := scrollRow + 1;
      } else if f == 'T' {
        scrollRow := scrollRow - 1;
      }
    }

    /** `drawCSI`. */
    method DrawCSI(f: char) returns (status: Status)
      requires Valid()
      modifies this, grid
      ensures Step(Snapshot(), status) == Csi(Settings(), old(Snapshot()), f, Args(old(csiParams))) && text == old(text)
    {
      var args := Args(csiParams);
      if f == 'm' {
        style := Sgr(Settings(), style, args);
        return Going;
      }
      status := MoveOn(f, args[0]);
      if !status.Going? {
        return;
      }
      ClampRow();
    }

    /** The end of `drawCSI`: a cursor below the last row goes to the last row, scrolling by the difference. */
    method ClampRow()
      modifies this
      ensures Snapshot() == Clamp(height, old(Snapshot())) && text == old(text)
    {
      if AtLeast(row, height) {
        scrollRow := scrollRow + row.n - height + 1;
        row := Finite(height - 1);
      }
    }

    /** The last branch of `drawChar`: the character's text into the cursor's cell. */
    method PutOn(cell: string) returns (status: Status)
      modifies grid
      ensures Drawn(grid[..], status) == Put(old(grid[..]), row, col, cell)
    {
      if !RowAt(grid[..], row) {
        return Thrown(ReadError(NumText(col)));
      }
      if !AtLeast(col, 0) {
        // The source pushes blank cells forever: no push makes this column a cell of the row.
        return Hung;
      }
      var r, c := row.n, col.n;
      ghost var line0 := grid[r];
      while |grid[r]| <= c
        invariant |line0| <= |grid[r]| <= (if c < |line0| then |line0| else c + 1)
        invariant grid[r] == line0 + Blanks(|grid[r]| - |line0|)
        invariant grid[..] == old(grid[..])[r := grid[r]]
        decreases c - |grid[r]|
      {
        grid[r] := grid[r] + [" "];
      }
      assert grid[r] == if c < |line0| then line0 else line0 + Blanks(c + 1 - |line0|);
      grid[r] := grid[r][c := cell];
      return Going;
    }

    /** `drawChar`. */
    method DrawChar(c: char) returns (status: Status)
      requires Valid()
      modifies this, grid
      ensures Step(Snapshot(), status) == Draw(Settings(), old(Snapshot()), c) && text == old(text)
    {
      var code := c as int;
      status := Going;
      if inCSI {
        if 0x30 <= code < 0x40 {
          csiParams := csiParams + [c];
        } else if 0x40 <= code <= 0x7F {
          status := DrawCSI(c);
        }
      } else if wasEscape {
        if 0x40 <= code < 0x60 {
          DrawC1(code + 0x40);
        }
        wasEscape := false;
      } else if c == ESC {
        wasEscape := true;
      } else if inString {
        if c == ST {
          inString := false;
        } else {
          stringChars := stringChars + [c];
        }
      } else if code == 0x08 {
        col := Minus(col, Finite(1));
        if col.Finite? && col.n < 0 {
          col := Finite(width - 1);
          row := Minus(row, Finite(1));
        }
      } else if code == 0x09 {
        col := Tab(tabSize, col);
      } else if 0x80 <= code < 0xA0 {
        DrawC1(code);
      } else if !style.hidden {
        status := PutOn(Cell(style, c));
      }
    }

    /** `write`: the text is kept, then drawn character by character until one throws or hangs. */
    method Write(t: string) returns (status: Status)
      requires Valid()
      modifies this, grid
      ensures text == old(text) + t
      ensures Step(Snapshot(), status) == DrawAll(Settings(), old(Snapshot()), t)
    {
      text := text + t;
      var i := 0;
      while i < |t|
        invariant 0 <= i <= |t| && text == old(text) + t
        invariant DrawAll(Settings(), Snapshot(), t[i..]) == DrawAll(Settings(), old(Snapshot()), t)
      {
        assert t[i..][0] == t[i] && t[i..][1..] == t[i + 1..];
        status := DrawChar(t[i]);
        if !status.Going? {
          return;
        }
        i := i + 1;
      }
      return Going;
    }

    /** `onkey`: the key's text, if it has one, is written to stdin, whose listeners are then due. */
    method Onkey(e: KeyEvent) returns (calls: seq<Streams.Listener>)
      modifies stdin
      ensures KeyText(e).None? ==> calls == [] && unchanged(stdin)
      ensures KeyText(e).Some? ==>
        stdin.data == Streams.Overwrite(old(stdin.data), old(stdin.pos), KeyText(e).value) &&
        stdin.pos == old(stdin.pos) && stdin.listeners == old(stdin.listeners) &&
        calls == Streams.Live(stdin.listeners)
    {
      var out := KeyText(e);
      if out.None? {
        return [];
      }
      calls := stdin.Write(out.value);
    }
  }

  lemma ClearedNext(line: seq<string>, from: int, i: int)
    requires 0 <= from <= i < |line|
    ensures Cleared(line, from, i)[i := ""] == Cleared(line, from, i + 1)
  {
  }

  lemma ClearedNone(line: seq<string>, from: int)
    ensures Cleared(line, from, from) == line
  {
  }

  lemma BlankRowsNext(g: Grid, lo: nat, k: nat)
    requires lo <= k < |g|
    ensures BlankRows(g, lo, k)[k := Blanks(|g[k]|)] == BlankRows(g, lo, k + 1)
  {
  }

  lemma BlankRowsNone(g: Grid, lo: nat, hi: nat)
    requires hi <= lo
    ensures BlankRows(g, lo, lo) == BlankRows(g, lo, hi) == g
  {
  }

  /** Past the end of the row, clearing further changes nothing. */
  lemma ClearedPast(line: seq<string>, from: int, i: int, to: int)
    requires i >= |line| && to >= i
    ensures Cleared(line, from, i) == Cleared(line, from, to)
  {
  }
}
