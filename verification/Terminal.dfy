/**
 The bounded VT screen observer (scripts/m4_terminal_screen.py) as a function from
 one screen and one decoded character to the next screen. Unicode properties are
 a table handed in; the incremental UTF-8 decoder is outside the model.
 */
module Terminal {
  import opened Options

  /** Cells hold a grapheme; the right half of a wide glyph holds the empty string. */
  type Cell = string
  type Row = seq<Cell>
  type Grid = seq<Row>

  /** `east_asian_width` in W or F, `combining` or category Mn/Me, and the decimal digit value (none: negative). */
  datatype Tables = Tables(wide: char -> bool, mark: char -> bool, digit: char -> int)

  datatype Mode = Text | Escape | EscapeIntermediate | Csi | CsiDiscard | Str | StrEscape

  /** What entering the alternate screen puts aside. */
  datatype Primary = Primary(cells: Grid, x: int, y: int, top: int, bottom: int)

  /** The grid in view, its cursor and everything that decides where the next glyph goes. */
  datatype Display = Display(
    width: nat, height: nat, cells: Grid, x: int, y: int, savedX: int, savedY: int,
    top: int, bottom: int, wrap: bool, pendingWrap: bool, origin: bool, insert: bool,
    last: Option<(int, int)>, join: bool)

  /** The display with the screen put aside, if any. */
  datatype Face = Face(d: Display, alternate: Option<Primary>)

  /** With the state of the escape-sequence parser. */
  datatype Screen = Screen(face: Face, mode: Mode, sequence: string)

  const ESC: char := '\U{1B}'
  const ZWJ: char := '\U{200D}'
  const MAX_CELL: nat := 64
  const MAX_SEQUENCE: nat := 256
  const MAX_PARAMETER: nat := 1_000_000

  // ---------------------------------------------------------------------------
  // Geometry every screen keeps

  predicate CellsOk(row: Row) {
    forall c :: 0 <= c < |row| ==> |row[c]| <= MAX_CELL
  }

  predicate RowOk(row: Row, w: nat) {
    |row| == w && CellsOk(row)
  }

  predicate GridOk(g: Grid, w: nat, h: nat) {
    |g| == h && forall r :: 0 <= r < h ==> RowOk(g[r], w)
  }

  predicate Margins(top: int, bottom: int, h: nat) {
    0 <= top <= bottom < h
  }

  predicate At(x: int, y: int, w: nat, h: nat) {
    0 <= x < w && 0 <= y < h
  }

  predicate PrimaryOk(p: Primary, w: nat, h: nat) {
    GridOk(p.cells, w, h) && At(p.x, p.y, w, h) && Margins(p.top, p.bottom, h)
  }

  /** Grid shape, cursor, saved cursor, last glyph and margins. */
  predicate DisplayOk(d: Display) {
    && GridOk(d.cells, d.width, d.height)
    && At(d.x, d.y, d.width, d.height)
    && At(d.savedX, d.savedY, d.width, d.height)
    && Margins(d.top, d.bottom, d.height)
    && (d.last.Some? ==> At(d.last.value.0, d.last.value.1, d.width, d.height))
  }

  predicate FaceOk(f: Face) {
    DisplayOk(f.d) && (f.alternate.Some? ==> PrimaryOk(f.alternate.value, f.d.width, f.d.height))
  }

  /** Everything above, the screen put aside, and the bounded parameter buffer. */
  predicate Valid(s: Screen) {
    FaceOk(s.face) && |s.sequence| <= MAX_SEQUENCE
  }

  /** A drawing step keeps the display in shape and never resizes it. */
  predicate Drawn(d: Display, r: Display) {
    DisplayOk(r) && r.width == d.width && r.height == d.height
  }

  predicate Turned(f: Face, r: Face) {
    FaceOk(r) && r.d.width == f.d.width && r.d.height == f.d.height
  }

  predicate Next(s: Screen, r: Screen) {
    Valid(r) && r.face.d.width == s.face.d.width && r.face.d.height == s.face.d.height
  }

  function Blanks(n: nat): (row: Row)
    ensures |row| == n && forall c :: 0 <= c < n ==> row[c] == " "
  {
    seq(n, _ => " ")
  }

  function BlankGrid(w: nat, h: nat): (g: Grid)
    ensures GridOk(g, w, h) && forall r :: 0 <= r < h ==> g[r] == Blanks(w)
  {
    seq(h, _ => Blanks(w))
  }

  function Fresh(w: nat, h: nat): (s: Screen)
    requires 1 <= w && 1 <= h
    ensures Valid(s)
  {
    Screen(Face(Display(w, h, BlankGrid(w, h), 0, 0, 0, 0, 0, h - 1, true, false, false, false, None, false), None), Text, "")
  }

  function Min(a: int, b: int): (m: int) { if a < b then a else b }

  function Max(a: int, b: int): (m: int) { if a < b then b else a }

  // ---------------------------------------------------------------------------
  // Display operations

  function Move(d: Display, x: int, y: int): (r: Display)
    requires DisplayOk(d)
    ensures Drawn(d, r) && r.cells == d.cells
  {
    d.(x := Max(0, Min(d.width - 1, x)), y := Max(0, Min(d.height - 1, y)), pendingWrap := false, last := None, join := false)
  }

  /** Rows `top..bottom` shift up for a positive count and down otherwise; blank rows fill the gap. */
  function ScrollRows(g: Grid, top: int, bottom: int, count: int, w: nat): (r: Grid)
    requires 0 <= top <= bottom < |g| && GridOk(g, w, |g|)
    ensures GridOk(r, w, |g|)
  {
    var size := bottom + 1 - top;
    var amount := Min(if count < 0 then -count else count, size);
    if count > 0 then g[..top] + g[top + amount..bottom + 1] + BlankGrid(w, amount) + g[bottom + 1..]
    else g[..top] + BlankGrid(w, amount) + g[top..bottom + 1 - amount] + g[bottom + 1..]
  }

  function Scroll(d: Display, count: int): (r: Display)
    requires DisplayOk(d)
    ensures Drawn(d, r)
  {
    d.(cells := ScrollRows(d.cells, d.top, d.bottom, count, d.width))
  }

  function Linefeed(d: Display): (r: Display)
    requires DisplayOk(d)
    ensures Drawn(d, r)
  {
    var moved := if d.y == d.bottom then Scroll(d, 1) else d.(y := Min(d.height - 1, d.y + 1));
    moved.(pendingWrap := false, last := None, join := false)
  }

  /** Blank one cell together with the other half of a wide glyph it belongs to. */
  function ClearCell(row: Row, x: nat): (r: Row)
    requires x < |row|
    ensures |r| == |row| && (CellsOk(row) ==> CellsOk(r))
  {
    if row[x] == "" && x > 0 then row[x - 1 := " "][x := " "]
    else if x + 1 < |row| && row[x + 1] == "" then row[x + 1 := " "][x := " "]
    else row[x := " "]
  }

  function EraseSpan(row: Row, lo: int, hi: int): (r: Row)
    requires 0 <= lo && hi <= |row|
    ensures |r| == |row| && (CellsOk(row) ==> CellsOk(r))
    decreases hi - lo
  {
    if lo >= hi then row else EraseSpan(ClearCell(row, lo), lo + 1, hi)
  }

  function WithRow(d: Display, y: int, row: Row): (r: Display)
    requires DisplayOk(d) && 0 <= y < d.height && RowOk(row, d.width)
    ensures Drawn(d, r)
  {
    d.(cells := d.cells[y := row])
  }

  function Erase(d: Display, y: int, start: int, end: int): (r: Display)
    requires DisplayOk(d) && 0 <= y < d.height
    ensures Drawn(d, r)
  {
    WithRow(d, y, EraseSpan(d.cells[y], Max(0, start), Min(d.width, end)))
  }

  /** Whole rows `from..to` erased. */
  function EraseRows(d: Display, from: int, to: int): (r: Display)
    requires DisplayOk(d) && 0 <= from && to <= d.height
    ensures Drawn(d, r)
  {
    d.(cells := seq(d.height, y requires 0 <= y < d.height =>
      if from <= y < to then EraseSpan(d.cells[y], 0, d.width) else d.cells[y]))
  }

  predicate Combining(t: Tables, c: char) {
    t.mark(c) || c == ZWJ || 0x1f3fb <= c as int <= 0x1f3ff
  }

  function GlyphWidth(t: Tables, c: char): (n: nat)
    ensures n == 1 || n == 2
  {
    if t.wide(c) then 2 else 1
  }

  /** Append to the grapheme placed last, up to the cell bound. */
  function Attach(d: Display, c: char): (r: Display)
    requires DisplayOk(d) && d.last.Some?
    ensures Drawn(d, r)
  {
    var (x, y) := d.last.value;
    var cell := d.cells[y][x];
    var grown := if |cell| < MAX_CELL then WithRow(d, y, d.cells[y][x := cell + [c]]) else d;
    grown.(join := c == ZWJ)
  }

  /** Carry out a deferred wrap, or the wrap a wide glyph needs in the last column. */
  function WrapFor(d: Display, n: nat): (r: Display)
    requires DisplayOk(d)
    ensures Drawn(d, r)
  {
    if d.pendingWrap || (n == 2 && d.x == d.width - 1 && d.wrap) then
      (if d.wrap then Linefeed(d.(x := 0)) else d).(pendingWrap := false)
    else d
  }

  function InsertBlanks(row: Row, x: nat, n: nat): (r: Row)
    requires x + n <= |row|
    ensures |r| == |row| && (CellsOk(row) ==> CellsOk(r))
  {
    row[..x] + Blanks(n) + row[x..|row| - n]
  }

  function DeleteCells(row: Row, x: nat, n: nat): (r: Row)
    requires x + n <= |row|
    ensures |r| == |row| && (CellsOk(row) ==> CellsOk(r))
  {
    row[..x] + row[x + n..] + Blanks(n)
  }

  /** The row after a glyph of `n` columns lands at `x`. */
  function PlaceInRow(row: Row, x: nat, n: nat, c: char, insert: bool): (r: Row)
    requires 1 <= n <= 2 && x + n <= |row|
    ensures |r| == |row| && (CellsOk(row) ==> CellsOk(r))
  {
    var ready := if insert then InsertBlanks(row, x, n) else row;
    var cleared := EraseSpan(ready, x, x + n);
    var placed := cleared[x := [c]];
    if n == 2 then placed[x + 1 := ""] else placed
  }

  function Place(d: Display, n: nat, c: char): (r: Display)
    requires DisplayOk(d) && 1 <= n <= 2
    ensures Drawn(d, r)
  {
    if n > d.width - d.x then d
    else
      var drawn := WithRow(d, d.y, PlaceInRow(d.cells[d.y], d.x, n, c, d.insert)).(last := Some((d.x, d.y)));
      if d.x + n >= d.width then drawn.(x := d.width - 1, pendingWrap := d.wrap) else drawn.(x := d.x + n)
  }

  function Put(d: Display, t: Tables, c: char): (r: Display)
    requires DisplayOk(d)
    ensures Drawn(d, r)
  {
    if (Combining(t, c) || d.join) && d.last.Some? then Attach(d, c)
    else if Combining(t, c) then d
    else
      var n := GlyphWidth(t, c);
      Place(WrapFor(d, n), n, c)
  }

  // ---------------------------------------------------------------------------
  // Control sequences

  function StripPrefixMarks(raw: string): (r: string) {
    if raw != "" && raw[0] in "?<=>" then StripPrefixMarks(raw[1..]) else raw
  }

  function SplitFields(raw: string): (fields: seq<string>)
    ensures |fields| > 0
  {
    if raw == "" then [""]
    else
      var rest := SplitFields(raw[1..]);
      if raw[0] == ';' then [""] + rest else [[raw[0]] + rest[0]] + rest[1..]
  }

  predicate Decimal(t: Tables, field: string) {
    forall i :: 0 <= i < |field| ==> 0 <= t.digit(field[i]) <= 9
  }

  function Number(t: Tables, field: string): (n: nat)
    requires Decimal(t, field)
  {
    if field == "" then 0 else Number(t, field[..|field| - 1]) * 10 + t.digit(field[|field| - 1])
  }

  /** The numeric parameters, or none when some field is not a number. */
  function Parameters(t: Tables, raw: string): (p: Option<seq<nat>>)
    ensures p.Some? ==> |p.value| > 0
  {
    var fields := SplitFields(StripPrefixMarks(raw));
    if forall i :: 0 <= i < |fields| ==> Decimal(t, fields[i]) then
      Some(seq(|fields|, i requires 0 <= i < |fields| => Min(Number(t, fields[i]), MAX_PARAMETER) as nat))
    else None
  }

  function OrOne(n: nat): (r: nat) { if n == 0 then 1 else n }

  function Enter(f: Face): (r: Face)
    requires FaceOk(f)
    ensures Turned(f, r)
  {
    if f.alternate.Some? then f
    else
      var d := f.d;
      Face(Move(d.(cells := BlankGrid(d.width, d.height), top := 0, bottom := d.height - 1), 0, 0),
           Some(Primary(d.cells, d.x, d.y, d.top, d.bottom)))
  }

  function Leave(f: Face): (r: Face)
    requires FaceOk(f)
    ensures Turned(f, r)
  {
    if f.alternate.None? then f
    else
      var p := f.alternate.value;
      Face(Move(f.d.(cells := p.cells, top := p.top, bottom := p.bottom), p.x, p.y), None)
  }

  function SetMode(f: Face, private: bool, enabled: bool, mode: nat): (r: Face)
    requires FaceOk(f)
    ensures Turned(f, r)
  {
    if private && mode == 7 then f.(d := f.d.(wrap := enabled, pendingWrap := false))
    else if private && mode == 6 then f.(d := Move(f.d.(origin := enabled), 0, if enabled then f.d.top else 0))
    else if !private && mode == 4 then f.(d := f.d.(insert := enabled))
    else if private && mode in {47, 1047, 1049} then (if enabled then Enter(f) else Leave(f))
    else f
  }

  function SetModes(f: Face, private: bool, enabled: bool, modes: seq<nat>): (r: Face)
    requires FaceOk(f)
    ensures Turned(f, r)
    decreases |modes|
  {
    if modes == [] then f else SetModes(SetMode(f, private, enabled, modes[0]), private, enabled, modes[1..])
  }

  function CursorMove(d: Display, final: char, n: nat): (r: Display)
    requires DisplayOk(d)
    ensures Drawn(d, r) && r.cells == d.cells
  {
    hide Move, DisplayOk, Min, Max;
    if final == 'A' then Move(d, d.x, Max(if d.origin then d.top else 0, d.y - n))
    else if final in "Be" then Move(d, d.x, Min(if d.origin then d.bottom else d.height - 1, d.y + n))
    else if final in "Ca" then Move(d, d.x + n, d.y)
    else if final == 'D' then Move(d, d.x - n, d.y)
    else if final == 'E' then Move(d, 0, d.y + n)
    else if final == 'F' then Move(d, 0, d.y - n)
    else if final in "G`" then Move(d, n - 1, d.y)
    else Move(d, d.x, n - 1 + if d.origin then d.top else 0)
  }

  function EraseDisplay(d: Display, first: nat): (r: Display)
    requires DisplayOk(d)
    ensures Drawn(d, r)
  {
    if first == 2 then d.(cells := BlankGrid(d.width, d.height))
    else if first == 0 then EraseRows(Erase(d, d.y, d.x, d.width), d.y + 1, d.height)
    else if first == 1 then Erase(EraseRows(d, 0, d.y), d.y, 0, d.x + 1)
    else d
  }

  function ShiftedRow(row: Row, x: nat, final: char, amount: nat): (r: Row)
    requires x < |row| && x + amount <= |row|
    ensures |r| == |row| && (CellsOk(row) ==> CellsOk(r))
  {
    var whole := if row[x] == "" then ClearCell(row, x) else row;
    if final == '@' then InsertBlanks(whole, x, amount) else DeleteCells(whole, x, amount)
  }

  /** Insert or delete characters at the cursor. */
  function ShiftRow(d: Display, final: char, n: nat): (r: Display)
    requires DisplayOk(d)
    ensures Drawn(d, r)
  {
    WithRow(d, d.y, ShiftedRow(d.cells[d.y], d.x, final, Min(n, d.width - d.x)))
  }

  function SetMargins(d: Display, values: seq<nat>): (r: Display)
    requires DisplayOk(d) && |values| > 0
    ensures Drawn(d, r) && r.cells == d.cells
  {
    var n := OrOne(values[0]);
    var bottom := if |values| > 1 && values[1] != 0 then values[1] else d.height;
    if 1 <= n < bottom <= d.height then Move(d.(top := n - 1, bottom := bottom - 1), 0, if d.origin then n - 1 else 0) else d
  }

  /** Cursor movement, margins and cursor save: no cell changes. */
  function Position(d: Display, final: char, private: bool, values: seq<nat>): (r: Display)
    requires DisplayOk(d) && |values| > 0
    ensures Drawn(d, r) && r.cells == d.cells
  {
    hide Move, CursorMove, SetMargins, Min;
    var n := OrOne(values[0]);
    if final in "Hf" then
      var column := if |values| > 1 then OrOne(values[1]) else 1;
      Move(d, column - 1, if d.origin then Min(d.bottom, d.top + n - 1) else n - 1)
    else if final in "ABCDEFG`ade" then CursorMove(d, final, n)
    else if final == 'r' && !private then SetMargins(d, values)
    else if final == 's' then d.(savedX := d.x, savedY := d.y)
    else if final == 'u' then Move(d, d.savedX, d.savedY)
    else d
  }

  /** Erasing, shifting and scrolling. */
  function Edit(d: Display, final: char, first: nat): (r: Display)
    requires DisplayOk(d)
    ensures Drawn(d, r)
  {
    var n: int := OrOne(first);
    if final == 'J' then EraseDisplay(d, first)
    else if final == 'K' then
      (if first <= 2 then Erase(d, d.y, if first != 0 then 0 else d.x, if first == 1 then d.x + 1 else d.width) else d)
    else if final == 'X' then Erase(d, d.y, d.x, d.x + n)
    else if final == '@' || final == 'P' then ShiftRow(d, final, n)
    else if final == 'L' || final == 'M' then
      (if d.top <= d.y <= d.bottom then
         d.(cells := ScrollRows(d.cells, d.y, d.bottom, if final == 'L' then 0 - n else n, d.width))
       else d)
    else if final == 'S' then Scroll(d, n)
    else if final == 'T' then Scroll(d, 0 - n)
    else d
  }

  function Control(f: Face, t: Tables, final: char, raw: string): (r: Face)
    requires FaceOk(f)
    ensures Turned(f, r)
  {
    var private := raw != "" && raw[0] == '?';
    match Parameters(t, raw)
    case None => f
    case Some(values) =>
      if final in "hl" then SetModes(f, private, final == 'h', values)
      else if final in "JKX@PLMST" then f.(d := Edit(f.d, final, values[0]))
      else f.(d := Position(f.d, final, private, values))
  }

  // ---------------------------------------------------------------------------
  // The character automaton

  /** RIS: a blank screen with default modes; the saved cursor survives. */
  function Reset(d: Display): (r: Display)
    requires DisplayOk(d)
    ensures Drawn(d, r)
  {
    Move(d.(cells := BlankGrid(d.width, d.height), top := 0, bottom := d.height - 1,
            origin := false, insert := false, wrap := true), 0, 0)
  }

  /** The screen commands that follow ESC directly. */
  function EscapeCommand(d: Display, c: char): (r: Display)
    requires DisplayOk(d)
    ensures Drawn(d, r)
  {
    if c == '7' then d.(savedX := d.x, savedY := d.y)
    else if c == '8' then Move(d, d.savedX, d.savedY)
    else if c == 'D' then Linefeed(d)
    else if c == 'E' then Linefeed(d.(x := 0))
    else if c == 'M' then (if d.y == d.top then Scroll(d, -1) else Move(d, d.x, d.y - 1))
    else if c == 'c' then Reset(d)
    else d
  }

  function EscapeFinal(s: Screen, c: char): (r: Screen)
    requires Valid(s)
    ensures Next(s, r)
  {
    if c == '[' then s.(mode := Csi, sequence := "")
    else if c in "]P^_X" then s.(mode := Str)
    else if c in "()*+-%#" then s.(mode := EscapeIntermediate)
    else s.(face := Face(EscapeCommand(s.face.d, c), if c == 'c' then None else s.face.alternate), mode := Text)
  }

  function ControlByte(s: Screen, t: Tables, c: char): (r: Screen)
    requires Valid(s)
    ensures Next(s, r)
  {
    if '@' <= c <= '~' then
      Screen(if s.mode == Csi then Control(s.face, t, c, s.sequence) else s.face, Text, "")
    else if s.mode == Csi then
      (if |s.sequence| + 1 > MAX_SEQUENCE then s.(mode := CsiDiscard, sequence := "") else s.(sequence := s.sequence + [c]))
    else s
  }

  /** C0 controls and printable characters. */
  function Show(d: Display, t: Tables, c: char): (r: Display)
    requires DisplayOk(d)
    ensures Drawn(d, r)
  {
    var code := c as int;
    if code == 13 then Move(d, 0, d.y)
    else if code in {10, 11, 12} then Linefeed(d)
    else if code == 8 then Move(d, d.x - 1, d.y)
    else if code == 9 then Move(d, Min(d.width - 1, (d.x / 8 + 1) * 8), d.y)
    else if code >= 32 && !(0x7f <= code <= 0x9f) then Put(d, t, c)
    else d
  }

  function TextChar(s: Screen, t: Tables, c: char): (r: Screen)
    requires Valid(s)
    ensures Next(s, r)
  {
    if c as int == 0x9b then s.(mode := Csi, sequence := "")
    else if c as int in {0x90, 0x9d, 0x9e, 0x9f} then s.(mode := Str)
    else s.(face := s.face.(d := Show(s.face.d, t, c)))
  }

  /** Inside OSC, DCS and similar strings nothing is displayed. */
  function StringMode(m: Mode, c: char): (r: Mode)
    requires m == Str || m == StrEscape
    ensures r == Text || r == Str || r == StrEscape
  {
    if c as int == 7 || c as int == 0x9c || (m == StrEscape && c == '\\') then Text
    else if c == ESC then StrEscape else Str
  }

  /** One decoded character. Every reachable screen satisfies `Valid`. */
  function Consume(s: Screen, t: Tables, c: char): (r: Screen)
    requires Valid(s)
    ensures Next(s, r)
  {
    if s.mode == Str || s.mode == StrEscape then s.(mode := StringMode(s.mode, c))
    else if c as int == 0x18 || c as int == 0x1a then s.(mode := Text, sequence := "")
    else if c == ESC then s.(mode := Escape)
    else if s.mode == Escape then EscapeFinal(s, c)
    else if s.mode == EscapeIntermediate then (if '0' <= c <= '~' then s.(mode := Text) else s)
    else if s.mode == Csi || s.mode == CsiDiscard then ControlByte(s, t, c)
    else TextChar(s, t, c)
  }

  function Run(s: Screen, t: Tables, input: string): (r: Screen)
    requires Valid(s)
    ensures Next(s, r)
    decreases |input|
  {
    if input == "" then s else Run(Consume(s, t, input[0]), t, input[1..])
  }

  lemma RunNone(s: Screen, t: Tables)
    requires Valid(s)
    ensures Run(s, t, "") == s
  {
  }

  lemma RunOne(s: Screen, t: Tables, c: char)
    requires Valid(s)
    ensures Run(s, t, [c]) == Consume(s, t, c)
  {
  }

  lemma {:induction false} RunAppend(s: Screen, t: Tables, a: string, b: string)
    requires Valid(s)
    ensures Run(s, t, a + b) == Run(Run(s, t, a), t, b)
    decreases |a|
  {
    if a == "" {
      assert a + b == b;
    } else {
      assert (a + b)[1..] == a[1..] + b;
      RunAppend(Consume(s, t, a[0]), t, a[1..], b);
    }
  }
}
