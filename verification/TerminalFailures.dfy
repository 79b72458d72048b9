/** Streams from a fresh screen on which the observer falls short: each condition in the theorems is needed. */
module TerminalFailures {
  import opened Options
  import opened Terminal
  import opened TerminalAlternate
  import opened TerminalPairing
  import opened TerminalControl

  /** A printable wide character that takes no part in graphemes. */
  predicate WideGlyph(t: Tables, c: char) {
    t.wide(c) && !Combining(t, c) && c as int >= 32 && !(0x7f <= c as int <= 0x9f)
  }

  predicate Narrow(t: Tables, a: char) {
    !t.wide(a) && !Combining(t, a) && a as int >= 32 && !(0x7f <= a as int <= 0x9f)
  }

  lemma NoParameters(t: Tables)
    ensures Parameters(t, "") == Some([0])
  {
    assert SplitFields("") == [""];
    assert Number(t, "") == 0;
    assert Parameters(t, "").value == [0];
  }

  lemma ParameterFour(t: Tables)
    requires AsciiDigits(t)
    ensures Parameters(t, "4") == Some([4])
  {
    var raw := "4";
    assert raw[1..] == "" && raw[..0] == "";
    OneField(raw);
    assert Number(t, raw) == 4;
    assert Parameters(t, raw).value == [4];
  }

  function Plainly(d: Display): (s: Screen) {
    Screen(Face(d, None), Text, "")
  }

  lemma TextStep(t: Tables, d: Display, c: char)
    requires DisplayOk(d) && (c == '\n' || (c as int >= 32 && !(0x7f <= c as int <= 0x9f)))
    ensures Consume(Plainly(d), t, c) == Plainly(Show(d, t, c))
  {
    hide Show;
  }

  /** A character shown in text, at the end of a run. */
  lemma ThenShow(s: Screen, t: Tables, past: string, d: Display, c: char)
    requires Valid(s) && DisplayOk(d) && Run(s, t, past) == Plainly(d)
    requires c == '\n' || (c as int >= 32 && !(0x7f <= c as int <= 0x9f))
    ensures Run(s, t, past + [c]) == Plainly(Show(d, t, c))
  {
    hide Run, Show, Consume, DisplayOk;
    RunAppend(s, t, past, [c]);
    RunOne(Plainly(d), t, c);
    TextStep(t, d, c);
  }

  lemma NakedControl(t: Tables, d: Display, final: char)
    requires DisplayOk(d) && !d.origin && final in "HCS"
    ensures Control(Face(d, None), t, final, "").alternate.None?
    ensures Control(Face(d, None), t, final, "").d
            == if final == 'S' then Scroll(d, 1) else if final == 'H' then Move(d, 0, 0) else Move(d, d.x + 1, d.y)
  {
    NoParameters(t);
    hide Parameters, Move, Scroll;
  }

  /** A control sequence without parameters, at the end of a run. */
  lemma ThenControl(s: Screen, t: Tables, past: string, d: Display, final: char)
    requires Valid(s) && DisplayOk(d) && Run(s, t, past) == Plainly(d) && !d.origin && final in "HCS"
    ensures Run(s, t, past + Sequence("", final))
            == Plainly(if final == 'S' then Scroll(d, 1) else if final == 'H' then Move(d, 0, 0) else Move(d, d.x + 1, d.y))
  {
    hide Run, Move, Scroll, Control, DisplayOk;
    RunAppend(s, t, past, Sequence("", final));
    RunSequence(Plainly(d), t, "", final);
    NakedControl(t, d, final);
  }

  // ---------------------------------------------------------------------------
  // Wide glyphs

  const CR: char := '\r'

  /** A wide glyph fills the only row of a screen of two columns. */
  function Full(c: char): (d: Display)
    ensures DisplayOk(d)
  {
    Fresh(2, 1).face.d.(cells := [[[c], ""]])
  }

  lemma DrawFull(t: Tables, c: char)
    requires WideGlyph(t, c)
    ensures Run(Fresh(2, 1), t, [c, CR]) == Screen(Face(Full(c), None), Text, "")
  {
    var s := Fresh(2, 1);
    var row := Blanks(2);
    assert [c, CR][1..] == [CR];
    assert PlaceInRow(row, 0, 2, c, false) == [[c], ""] by {
      EraseTwo(row, 0);
    }
    var d := s.face.d.(cells := [[[c], ""]], x := 1, pendingWrap := true, last := Some((0, 0)));
    assert Consume(s, t, c) == s.(face := Face(d, None));
    RunOne(s.(face := Face(d, None)), t, CR);
  }

  lemma FullPaired(t: Tables, c: char)
    requires WideGlyph(t, c)
    ensures Paired(t, Face(Full(c), None))
  {
    var row: Row := [[c], ""];
    assert PairedAt(t, row, 0) && PairedAt(t, row, 1);
    assert PairedRow(t, row);
  }

  /** Inserting a character pushes half of the glyph off the row; deleting one leaves the other half. */
  lemma ShiftSplits(t: Tables, c: char, final: char)
    requires !t.wide(' ') && WideGlyph(t, c) && final in "@P"
    ensures !Paired(t, Run(Fresh(2, 1), t, [c, CR] + Sequence("", final)).face)
  {
    var f := Face(Full(c), None);
    RunAppend(Fresh(2, 1), t, [c, CR], Sequence("", final));
    DrawFull(t, c);
    FullPaired(t, c);
    RunSequence(Screen(f, Text, ""), t, "", final);
    NoParameters(t);
    ControlPairs(t, f, final, "");
  }

  lemma InsertOn(f: Face, t: Tables)
    requires FaceOk(f) && AsciiDigits(t)
    ensures Control(f, t, 'h', "4") == f.(d := f.d.(insert := true))
  {
    ParameterFour(t);
    assert [4][1..] == [];
    assert SetModes(f, false, true, [4]) == SetMode(f, false, true, 4);
  }

  lemma NoRoom(t: Tables, d: Display, a: char)
    requires DisplayOk(d) && Narrow(t, a) && d.insert && !d.join && !d.pendingWrap && d.x == 0 && d.width == 2 && d.cells[d.y][1] == ""
    ensures !PutKeeps(d, t, a)
  {
  }

  /** In insert mode a narrow glyph pushes half of the wide one off the row. */
  lemma InsertSplits(t: Tables, c: char, a: char)
    requires !t.wide(' ') && WideGlyph(t, c) && AsciiDigits(t)
    requires Narrow(t, a)
    ensures !Paired(t, Run(Fresh(2, 1), t, [c, CR] + Sequence("4", 'h') + [a]).face)
  {
    var f := Face(Full(c), None);
    var g := f.(d := f.d.(insert := true));
    RunAppend(Fresh(2, 1), t, [c, CR], Sequence("4", 'h'));
    DrawFull(t, c);
    FullPaired(t, c);
    RunSequence(Screen(f, Text, ""), t, "4", 'h');
    InsertOn(f, t);
    assert PairedGrid(t, g.d.cells);
    hide Run, Control, Consume, Parameters, Show;
    ThenShow(Fresh(2, 1), t, [c, CR] + Sequence("4", 'h'), g.d, a);
    ShowPairs(t, g.d, a);
    NoRoom(t, g.d, a);
  }

  /** The wide glyph on the second row of a screen of three columns, and a narrow one above its second half. */
  function Stacked(c: char, a: char): (d: Display)
    ensures DisplayOk(d)
  {
    Fresh(3, 2).face.d.(cells := [[" ", [a], " "], [[c], "", " "]], x := 2, last := Some((1, 0)))
  }

  lemma PlaceWide(t: Tables, d: Display, c: char)
    requires DisplayOk(d) && WideGlyph(t, c) && Calm(d) && !d.pendingWrap && d.x == 0 && d.width == 3 && d.cells[d.y] == Blanks(3)
    ensures Show(d, t, c) == d.(cells := d.cells[d.y := [[c], "", " "]], x := 2, last := Some((0, d.y)))
  {
    EraseTwo(Blanks(3), 0);
    assert PlaceInRow(Blanks(3), 0, 2, c, false) == [[c], "", " "];
  }

  lemma PlaceNarrow(t: Tables, d: Display, a: char)
    requires DisplayOk(d) && Narrow(t, a) && Calm(d) && !d.pendingWrap && d.x == 1 && d.width == 3 && d.cells[d.y] == Blanks(3)
    ensures Show(d, t, a) == d.(cells := d.cells[d.y := [" ", [a], " "]], x := 2, last := Some((1, d.y)))
  {
    EraseOne(Blanks(3), 1);
    assert PlaceInRow(Blanks(3), 1, 1, a, false) == [" ", [a], " "];
  }

  /** Drawn on both rows, with the narrow glyph last. */
  lemma DrawStacked(t: Tables, c: char, a: char)
    requires WideGlyph(t, c) && Narrow(t, a)
    ensures Run(Fresh(3, 2), t, "\n" + [c] + Sequence("", 'H') + Sequence("", 'C') + [a]) == Plainly(Stacked(c, a))
  {
    var s, blank := Fresh(3, 2), Blanks(3);
    var d0 := s.face.d;
    var d1 := d0.(y := 1);
    assert Run(s, t, "") == Plainly(d0) && "" + ['\n'] == "\n";
    ThenShow(s, t, "", d0, '\n');
    assert Show(d0, t, '\n') == d1;
    ThenShow(s, t, "\n", d1, c);
    PlaceWide(t, d1, c);
    hide Run, Show, PlaceInRow;
    var d2 := d1.(cells := [blank, [[c], "", " "]], x := 2, last := Some((0, 1)));
    assert d1.cells[1 := [[c], "", " "]] == d2.cells;
    ThenControl(s, t, "\n" + [c], d2, 'H');
    var d3 := d2.(x := 0, y := 0, last := None);
    assert Move(d2, 0, 0) == d3;
    ThenControl(s, t, "\n" + [c] + Sequence("", 'H'), d3, 'C');
    var d4 := d3.(x := 1);
    assert Move(d3, 1, 0) == d4;
    ThenShow(s, t, "\n" + [c] + Sequence("", 'H') + Sequence("", 'C'), d4, a);
    PlaceNarrow(t, d4, a);
    assert d4.cells[0 := [" ", [a], " "]] == Stacked(c, a).cells;
  }

  /** After a scroll the glyph drawn last is elsewhere, and a mark lands on half of another one. */
  lemma MarkSplits(t: Tables, c: char, a: char, m: char)
    requires !t.wide(' ') && WideGlyph(t, c) && Narrow(t, a) && Combining(t, m) && m as int >= 32 && !(0x7f <= m as int <= 0x9f)
    ensures !Paired(t, Run(Fresh(3, 2), t,
              "\n" + [c] + Sequence("", 'H') + Sequence("", 'C') + [a] + Sequence("", 'S') + [m]).face)
  {
    var past := "\n" + [c] + Sequence("", 'H') + Sequence("", 'C') + [a];
    DrawStacked(t, c, a);
    ThenControl(Fresh(3, 2), t, past, Stacked(c, a), 'S');
    var d := Stacked(c, a).(cells := [[[c], "", " "], Blanks(3)]);
    ScrollStacked(c, a);
    ScrolledPaired(t, c, d);
    hide Run, Consume, Paired, Scroll, Sequence, PutKeeps;
    RunAppend(Fresh(3, 2), t, past + Sequence("", 'S'), [m]);
    RunOne(Plainly(d), t, m);
    StepPairs(t, Plainly(d), m);
    MarkOnHalf(t, d, m);
  }

  lemma ScrollStacked(c: char, a: char)
    ensures Scroll(Stacked(c, a), 1) == Stacked(c, a).(cells := [[[c], "", " "], Blanks(3)])
  {
    var g := Stacked(c, a).cells;
    assert ScrollRows(g, 0, 1, 1, 3) == g[..0] + g[1..2] + BlankGrid(3, 1) + g[2..];
    assert ScrollRows(g, 0, 1, 1, 3) == [[[c], "", " "], Blanks(3)];
  }

  lemma ScrolledPaired(t: Tables, c: char, d: Display)
    requires !t.wide(' ') && t.wide(c) && d.cells == [[[c], "", " "], Blanks(3)]
    ensures Paired(t, Face(d, None))
  {
    var row := d.cells[0];
    assert PairedAt(t, row, 0) && PairedAt(t, row, 1) && PairedAt(t, row, 2);
    assert PairedRow(t, row);
    BlankPairs(t, 3, 1);
    assert BlankGrid(3, 1)[0] == d.cells[1];
  }

  lemma MarkOnHalf(t: Tables, d: Display, m: char)
    requires DisplayOk(d) && Combining(t, m) && d.last.Some? && d.cells[d.last.value.1][d.last.value.0] == ""
    ensures !PutKeeps(d, t, m)
  {
  }

  // ---------------------------------------------------------------------------
  // The alternate screen

  /** An operating system command that never ends swallows the sequence that would leave. */
  lemma OpenStringStays(t: Tables, w: nat, h: nat, mode: string)
    requires 1 <= w && 1 <= h && AsciiDigits(t) && SwitchMode(mode)
    ensures Run(Fresh(w, h), t, Switch(mode, 'h') + [ESC, ']'] + Switch(mode, 'l')).face.alternate.Some?
  {
    var s, input := Fresh(w, h), [ESC, ']'];
    var e := Run(s, t, Switch(mode, 'h'));
    RunSwitch(s, t, mode, 'h');
    OpenString(e, t);
    RunAppend(s, t, Switch(mode, 'h'), input);
    AlternateRoundTrip(s, t, mode, input, mode);
  }

  lemma OpenString(e: Screen, t: Tables)
    requires Valid(e) && e.mode == Text && e.face.alternate.Some?
    ensures StaysAlternate(e, t, [ESC, ']']) && !Parked(Run(e, t, [ESC, ']']))
  {
    var input := [ESC, ']'];
    assert input[1..] == "]" && input[1..][1..] == "";
    var e1, e2 := e.(mode := Escape), e.(mode := Str);
    assert Consume(e, t, ESC) == e1 && Consume(e1, t, ']') == e2;
    assert StaysAlternate(e2, t, "");
    assert StaysAlternate(e1, t, "]");
    RunOne(e1, t, ']');
  }
}
