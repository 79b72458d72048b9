/**
 What the remaining characters do to the screen observer (scripts/m4_terminal_screen.py):
 the control characters, the commands behind an escape, the modes, and glyphs.
 */
module TerminalGlyphs {
  import opened Options
  import opened Texts
  import opened Terminal
  import opened TerminalAlternate
  import opened TerminalControl
  import opened TerminalEdits
  import opened TerminalPairing

  // ---------------------------------------------------------------------------
  // Line feeds, control characters and commands

  /** One row down, or the margins scrolled up by one if the cursor is in their last row. */
  predicate LineFed(d: Display, r: Display)
    requires DisplayOk(d)
  {
    && r == d.(cells := r.cells, y := if d.y == d.bottom then d.y else Least(d.y + 1, d.height - 1),
               pendingWrap := false, last := None, join := false)
    && if d.y == d.bottom then Scrolled(d.cells, r.cells, d.width, d.top, d.bottom, 1) else r.cells == d.cells
  }

  /** The margins scrolled down by one, and nothing else. */
  predicate ScrolledDown(d: Display, r: Display)
    requires DisplayOk(d)
  {
    r == d.(cells := r.cells) && Scrolled(d.cells, r.cells, d.width, d.top, d.bottom, -1)
  }

  lemma FeedsLine(d: Display)
    requires DisplayOk(d)
    ensures LineFed(d, Linefeed(d))
  {
    hide ScrollRows, Scrolled, RowOk;
    RowsScroll(d.cells, d.top, d.bottom, 1, d.width);
  }

  const CR: char := '\r'
  const LF: char := '\n'
  const BACKSPACE: char := '\U{8}'
  const TAB: char := '\t'

  /** In text, the control characters: carriage return, backspace, tab to the next multiple of eight, and line feeds. */
  lemma ControlCharacters(s: Screen, t: Tables, c: char)
    requires Valid(s) && s.mode == Text
    ensures var d, r := s.face.d, Run(s, t, [c]);
            && (c as int in {8, 9, 10, 11, 12, 13} ==> r == s.(face := s.face.(d := r.face.d)))
            && (c == CR ==> r.face.d == Moved(d, 0, d.y))
            && (c == BACKSPACE ==> r.face.d == Moved(d, Most(d.x - 1, 0), d.y))
            && (c == TAB ==> r.face.d == Moved(d, Least(8 * (d.x / 8) + 8, d.width - 1), d.y))
            && (c as int in {10, 11, 12} ==> LineFed(d, r.face.d))
  {
    hide Put, Linefeed, LineFed, GridOk;
    RunOne(s, t, c);
    FeedsLine(s.face.d);
  }

  predicate BlankPage(d: Display, g: Grid) {
    |g| == d.height && forall y :: 0 <= y < d.height ==> |g[y]| == d.width && AllBlank(g[y])
  }

  /** A blank screen with a full scrolling region and default modes, the cursor at home. */
  predicate StartedOver(d: Display, r: Display) {
    && r == Moved(d, 0, 0).(cells := r.cells, top := 0, bottom := d.height - 1, origin := false, insert := false, wrap := true)
    && BlankPage(d, r.cells)
  }

  lemma Resets(d: Display)
    requires DisplayOk(d)
    ensures StartedOver(d, Reset(d))
  {
    hide GridOk;
  }

  /** What the command `c` behind an escape makes of a display. */
  predicate Commanded(d: Display, c: char, r: Display)
    requires DisplayOk(d)
  {
    && (c == '7' ==> r == d.(savedX := d.x, savedY := d.y))
    && (c == '8' ==> r == Moved(d, d.savedX, d.savedY))
    && (c == 'D' ==> LineFed(d, r))
    && (c == 'E' ==> LineFed(d.(x := 0), r))
    && (c == 'M' && d.y != d.top ==> r == Moved(d, d.x, Most(d.y - 1, 0)))
    && (c == 'M' && d.y == d.top ==> ScrolledDown(d, r))
    && (c == 'c' ==> StartedOver(d, r))
  }

  /** The commands behind an escape, from any state outside strings. */
  lemma EscapeCommands(s: Screen, t: Tables, c: char)
    requires Valid(s) && Parked(s) && c in "78DEMc"
    ensures var r := Run(s, t, [ESC, c]);
            && r == Screen(Face(r.face.d, if c == 'c' then None else s.face.alternate), Text, s.sequence)
            && Commanded(s.face.d, c, r.face.d)
  {
    hide Run, EscapeCommand, Commanded, DisplayOk;
    assert [ESC, c] == [ESC] + [c];
    RunAppend(s, t, [ESC], [c]);
    RunOne(s, t, ESC);
    RunOne(s.(mode := Escape), t, c);
    CommandDoes(s.face.d, c);
  }

  lemma CommandDoes(d: Display, c: char)
    requires DisplayOk(d) && c in "78DEMc"
    ensures Commanded(d, c, EscapeCommand(d, c))
  {
    hide Linefeed, LineFed, Scrolled, StartedOver, Reset, ScrollRows, RowOk;
    match c
    case 'D' => FeedsLine(d);
    case 'E' => FeedsLine(d.(x := 0));
    case 'M' => RowsScroll(d.cells, d.top, d.bottom, -1, d.width);
    case 'c' => Resets(d);
    case _ =>
  }

  // ---------------------------------------------------------------------------
  // Modes

  /** A sequence that sets (`h`) or resets (`l`) one mode. */
  function ModeBytes(private: bool, p: string, final: char): (s: string) {
    Sequence((if private then "?" else "") + p, final)
  }

  lemma RunModes(s: Screen, t: Tables, private: bool, ps: seq<string>, final: char)
    requires Takes(s, t, ps) && (final == 'h' || final == 'l')
    ensures Run(s, t, ModeBytes(private, Joined(ps), final)) == Screen(SetModes(s.face, private, final == 'h', Values(ps)), Text, "")
  {
    hide Run, SetModes, Parameters, Param, Joined;
    var raw := (if private then "?" else "") + Joined(ps);
    JoinedBytes(ps);
    RunSequence(s, t, raw, final);
    ParametersAre(t, ps, private);
    assert raw != "" && raw[0] == '?' <==> private;
  }

  lemma RunMode(s: Screen, t: Tables, private: bool, p: string, final: char)
    requires Takes(s, t, [p]) && (final == 'h' || final == 'l')
    ensures Run(s, t, ModeBytes(private, p, final)) == Screen(SetMode(s.face, private, final == 'h', Param(p)), Text, "")
  {
    hide Run, SetMode, Param, ModeBytes;
    assert Joined([p]) == p;
    assert [p][0] == p;
    RunModes(s, t, private, [p], final);
    assert Values([p])[1..] == [];
    assert SetModes(s.face, private, final == 'h', Values([p])) == SetMode(s.face, private, final == 'h', Param(p));
  }

  /** The same modes, each in a sequence of its own. */
  function ModesApart(private: bool, ps: seq<string>, final: char): (s: string) {
    if ps == [] then "" else ModeBytes(private, ps[0], final) + ModesApart(private, ps[1..], final)
  }

  /** A list of modes is set one by one, in the order they are given. */
  lemma {:induction false} ModesInOrder(s: Screen, t: Tables, private: bool, ps: seq<string>, final: char)
    requires Takes(s, t, ps) && (final == 'h' || final == 'l')
    ensures Run(s, t, ModeBytes(private, Joined(ps), final)) == Run(s, t, ModesApart(private, ps, final))
    decreases |ps|
  {
    hide Run, SetMode, ModeBytes, Param;
    FirstTaken(s, t, ps);
    RunMode(s, t, private, ps[0], final);
    var on := final == 'h';
    var s1 := Screen(SetMode(s.face, private, on, Param(ps[0])), Text, "");
    RunAppend(s, t, ModeBytes(private, ps[0], final), ModesApart(private, ps[1..], final));
    if |ps| == 1 {
      RunNone(s1, t);
      assert ps == [ps[0]] && ps[1..] == [];
    } else {
      RestTaken(s, s1, t, ps);
      RunModes(s, t, private, ps, final);
      RunModes(s1, t, private, ps[1..], final);
      ModesInOrder(s1, t, private, ps[1..], final);
      assert Values(ps)[1..] == Values(ps[1..]);
      assert Values(ps)[0] == Param(ps[0]);
    }
  }

  lemma FirstTaken(s: Screen, t: Tables, ps: seq<string>)
    requires Takes(s, t, ps)
    ensures Takes(s, t, [ps[0]])
  {
    assert Joined([ps[0]]) == ps[0];
    assert |Joined(ps)| >= |ps[0]|;
  }

  lemma RestTaken(s: Screen, s1: Screen, t: Tables, ps: seq<string>)
    requires Takes(s, t, ps) && |ps| > 1 && Valid(s1) && s1.mode == Text
    ensures Takes(s1, t, ps[1..])
  {
    assert |Joined(ps)| >= |Joined(ps[1..])|;
  }

  /** What switching the mode `n` on or off makes of a face. */
  predicate Switched(f: Face, private: bool, n: nat, on: bool, r: Face) {
    && (private && n == 7 ==> r == f.(d := f.d.(wrap := on, pendingWrap := false)))
    && (private && n == 6 ==> r == f.(d := Moved(f.d.(origin := on), 0, if on then f.d.top else 0)))
    && (!private && n == 4 ==> r == f.(d := f.d.(insert := on)))
    && (private && n in {47, 1047, 1049} && on && f.alternate.None? ==>
          && r.alternate == Some(Primary(f.d.cells, f.d.x, f.d.y, f.d.top, f.d.bottom))
          && r.d == Moved(f.d.(cells := r.d.cells, top := 0, bottom := f.d.height - 1), 0, 0)
          && BlankPage(f.d, r.d.cells))
    && (private && n in {47, 1047, 1049} && !on && f.alternate.Some? ==>
          && r.alternate == None
          && var p := f.alternate.value;
             r.d == Moved(f.d.(cells := p.cells, top := p.top, bottom := p.bottom), p.x, p.y))
    && (private && n in {47, 1047, 1049} && on == f.alternate.Some? ==> r == f)
    && ((if private then n !in {6, 7, 47, 1047, 1049} else n != 4) ==> r == f)
  }

  /**
   Wrap, origin and insert mode; entering the alternate screen shows a blank one and leaving
   it brings back the one put aside; all other numbers do nothing.
   */
  lemma ModeSet(s: Screen, t: Tables, private: bool, p: string, final: char)
    requires Takes(s, t, [p]) && (final == 'h' || final == 'l')
    ensures var r := Run(s, t, ModeBytes(private, p, final));
            && r == Screen(r.face, Text, "")
            && Switched(s.face, private, Param(p), final == 'h', r.face)
  {
    hide Run, Param, ModeBytes, Switched, SetMode;
    RunMode(s, t, private, p, final);
    ModeSwitches(s.face, private, Param(p), final == 'h');
  }

  lemma ModeSwitches(f: Face, private: bool, n: nat, on: bool)
    requires FaceOk(f)
    ensures Switched(f, private, n, on, SetMode(f, private, on, n))
  {
    hide GridOk;
  }

  // ---------------------------------------------------------------------------
  // Glyphs

  predicate Printable(c: char) {
    c as int >= 32 && !(0x7f <= c as int <= 0x9f)
  }

  /** A mark, a joiner or a skin tone: it joins the glyph before it. */
  predicate Joining(t: Tables, c: char) {
    t.mark(c) || c == '\U{200D}' || 0x1f3fb <= c as int <= 0x1f3ff
  }

  function Columns(t: Tables, c: char): (n: nat)
    ensures n == 1 || n == 2
  {
    if t.wide(c) then 2 else 1
  }

  lemma RunGlyph(s: Screen, t: Tables, c: char)
    requires Valid(s) && s.mode == Text && Printable(c)
    ensures Run(s, t, [c]) == s.(face := s.face.(d := Put(s.face.d, t, c)))
  {
    hide Put;
    RunOne(s, t, c);
  }

  /** What joins the glyph before it is added to its cell, up to sixty-four characters; without such a glyph it is dropped. */
  lemma GlyphJoined(s: Screen, t: Tables, c: char)
    requires Valid(s) && s.mode == Text && Printable(c) && (Joining(t, c) || (s.face.d.join && s.face.d.last.Some?))
    ensures var d, r := s.face.d, Run(s, t, [c]);
            if d.last.None? then r == s
            else
              var (x, y) := d.last.value; var cell := d.cells[y][x];
              r == s.(face := s.face.(d := d.(
                join := c == '\U{200D}', cells := if |cell| < 64 then d.cells[y := d.cells[y][x := cell + [c]]] else d.cells)))
  {
    RunGlyph(s, t, c);
    hide Run;
    if s.face.d.last.Some? {
      var (x, y) := s.face.d.last.value;
      assert RowOk(s.face.d.cells[y], s.face.d.width);
    }
  }

  /** A glyph of its own, that does not join the one before it. */
  predicate Separate(d: Display, t: Tables, c: char) {
    Printable(c) && !Joining(t, c) && !(d.join && d.last.Some?)
  }

  lemma PrintsOwn(d: Display, t: Tables, c: char)
    requires Separate(d, t, c)
    ensures Printable(c)
  {
  }

  /** Whether a glyph goes to the next line: the margin was reached before, or two columns do not fit. */
  predicate Wraps(d: Display, t: Tables, c: char) {
    d.wrap && (d.pendingWrap || (Columns(t, c) == 2 && d.x == d.width - 1))
  }

  /** A glyph that wraps is one on a new line: as if a carriage return and a line feed came first. */
  lemma GlyphWraps(s: Screen, t: Tables, c: char)
    requires Valid(s) && s.mode == Text && Separate(s.face.d, t, c) && Wraps(s.face.d, t, c)
    ensures Run(s, t, [c]) == Run(s, t, if Columns(t, c) <= s.face.d.width then [CR, LF, c] else [CR, LF])
  {
    hide Run, Put, Linefeed, DisplayOk, Move, Wraps, Separate;
    var d := s.face.d;
    assert Printable(c) by { PrintsOwn(d, t, c); }
    RunGlyph(s, t, c);
    var s1 := s.(face := s.face.(d := Move(d, 0, d.y)));
    var s2 := s1.(face := s1.face.(d := Linefeed(s1.face.d)));
    ControlIs(s, t, CR);
    ControlIs(s1, t, LF);
    assert [CR, LF] == [CR] + [LF];
    RunAppend(s, t, [CR], [LF]);
    assert Run(s, t, [CR, LF]) == s2;
    WrapsLike(d, t, c);
    if Columns(t, c) <= d.width {
      assert [CR, LF, c] == [CR, LF] + [c];
      RunAppend(s, t, [CR, LF], [c]);
      RunGlyph(s2, t, c);
    }
  }

  lemma ControlIs(s: Screen, t: Tables, c: char)
    requires Valid(s) && s.mode == Text && (c == CR || c == LF)
    ensures Run(s, t, [c])
            == s.(face := s.face.(d := if c == CR then Move(s.face.d, 0, s.face.d.y) else Linefeed(s.face.d)))
  {
    hide Put, Linefeed, Move;
    RunOne(s, t, c);
  }

  lemma WrapsLike(d: Display, t: Tables, c: char)
    requires DisplayOk(d) && Separate(d, t, c) && Wraps(d, t, c)
    ensures var e := Linefeed(Move(d, 0, d.y));
            Put(d, t, c) == if Columns(t, c) <= d.width then Put(e, t, c) else e
  {
    hide Place, Scroll, RowOk;
    var e := Linefeed(Move(d, 0, d.y));
    FedFromStart(d);
    assert !Combining(t, c);
    assert Put(d, t, c) == Place(e, GlyphWidth(t, c), c);
    if Columns(t, c) <= d.width {
      assert WrapFor(e, GlyphWidth(t, c)) == e;
    } else {
      TooNarrow(e, c);
    }
  }

  lemma FedFromStart(d: Display)
    requires DisplayOk(d)
    ensures var e := Linefeed(Move(d, 0, d.y));
            && Linefeed(d.(x := 0)) == e && e.x == 0 && e.width == d.width
            && !e.pendingWrap && !e.join && e.last.None?
  {
    hide RowOk;
  }

  lemma TooNarrow(e: Display, c: char)
    requires DisplayOk(e) && e.x == 0 && e.width < 2
    ensures Place(e, 2, c) == e
  {
  }

  /** The cells of a row after a glyph of `n` columns has overwritten it at `x`. */
  predicate Overwritten(was: Row, now: Row, x: nat, n: nat, c: char) {
    && |now| == |was| && x + n <= |was| && 1 <= n <= 2
    && forall i :: 0 <= i < |was| ==>
         now[i] == if i == x then [c] else if i == x + 1 && n == 2 then ""
                   else if i == x - 1 && was[x] == "" then " "
                   else if i == x + n && was[x + n] == "" && !(x > 0 && Halves(was, x, x + n)) then " " else was[i]
  }

  /** The same in insert mode, where the rest of the row has moved to the right. */
  predicate Inserted(was: Row, now: Row, x: nat, n: nat, c: char) {
    && |now| == |was| && x + n <= |was| && 1 <= n <= 2
    && forall i :: 0 <= i < |was| ==>
         now[i] == if i < x then was[i] else if i == x then [c] else if i == x + 1 && n == 2 then ""
                   else if i == x + n && was[x] == "" then " " else was[i - n]
  }

  /**
   A glyph that need not wrap is put at the cursor: halves of the glyphs it cuts are
   blanked, nothing else changes, and the cursor goes on, or waits at the margin.
   */
  lemma GlyphPlaced(s: Screen, t: Tables, c: char)
    requires Valid(s) && s.mode == Text && Separate(s.face.d, t, c) && !Wraps(s.face.d, t, c)
    requires s.face.d.x + Columns(t, c) <= s.face.d.width
    ensures var d, r, n := s.face.d, Run(s, t, [c]).face.d, Columns(t, c);
            && Run(s, t, [c]) == s.(face := s.face.(d := r))
            && r == d.(cells := r.cells, last := Some((d.x, d.y)), x := Least(d.x + n, d.width - 1),
                       pendingWrap := d.x + n == d.width && d.wrap)
            && |r.cells| == |d.cells| && (forall y :: 0 <= y < d.height && y != d.y ==> r.cells[y] == d.cells[y])
            && (!d.insert ==> Overwritten(d.cells[d.y], r.cells[d.y], d.x, n, c))
            && (d.insert ==> Inserted(d.cells[d.y], r.cells[d.y], d.x, n, c))
  {
    hide Run, PlaceInRow, Overwritten, Inserted;
    var d, n := s.face.d, Columns(t, c);
    RunGlyph(s, t, c);
    assert RowOk(d.cells[d.y], d.width);
    hide GridOk;
    if d.insert {
      RowInserts(d.cells[d.y], d.x, n, c);
    } else {
      RowOverwrites(d.cells[d.y], d.x, n, c);
    }
  }

  lemma RowOverwrites(row: Row, x: nat, n: nat, c: char)
    requires 1 <= n <= 2 && x + n <= |row|
    ensures Overwritten(row, PlaceInRow(row, x, n, c, false), x, n, c)
  {
    hide EraseSpan;
    SpanErased(row, x, x + n);
  }

  lemma RowInserts(row: Row, x: nat, n: nat, c: char)
    requires 1 <= n <= 2 && x + n <= |row|
    ensures Inserted(row, PlaceInRow(row, x, n, c, true), x, n, c)
  {
    hide PlaceInRow;
    InsertedRow(row, x, n, c);
  }

  /** Where a wide glyph has no room and may not wrap, nothing happens. */
  lemma GlyphDropped(s: Screen, t: Tables, c: char)
    requires Valid(s) && s.mode == Text && Separate(s.face.d, t, c) && !Wraps(s.face.d, t, c)
    requires s.face.d.x + Columns(t, c) > s.face.d.width
    ensures Run(s, t, [c]) == s.(face := s.face.(d := s.face.d.(pendingWrap := false)))
  {
    hide Run, PlaceInRow, GridOk;
    RunGlyph(s, t, c);
  }
}
