/**
 What the control sequences of the screen observer (scripts/m4_terminal_screen.py) do, from
 the bytes of the sequence to the position of the cursor and every cell of the grid.
 */
module TerminalControl {
  import opened Options
  import opened Texts
  import opened Terminal
  import opened TerminalAlternate

  // ---------------------------------------------------------------------------
  // The bytes of a sequence

  function Sequence(raw: string, final: char): (s: string) {
    [ESC] + "[" + (raw + [final])
  }

  /** Parameters in decimal, with semicolons between them. */
  function Joined(ps: seq<string>): (raw: string)
    requires ps != []
  {
    if |ps| == 1 then ps[0] else ps[0] + ";" + Joined(ps[1..])
  }

  predicate AllDecimal(ps: seq<string>) {
    ps != [] && forall i :: 0 <= i < |ps| ==> AllDigits(ps[i])
  }

  /** A parameter counts up to a million. */
  function Param(p: string): (n: nat)
    requires AllDigits(p)
  {
    DigitsCount(p);
    if Numeral(p) < 1_000_000 then Numeral(p) else 1_000_000
  }

  /** An absent or zero parameter counts as one. */
  function Count(p: string): (n: nat)
    requires AllDigits(p)
    ensures n >= 1
  {
    if Param(p) == 0 then 1 else Param(p)
  }

  lemma {:induction false} DigitsCount(p: string)
    requires AllDigits(p)
    ensures Numeral(p) >= 0
  {
    if p != "" {
      DigitsCount(p[..|p| - 1]);
    }
  }

  lemma {:induction false} NumberIs(t: Tables, p: string)
    requires AsciiDigits(t) && AllDigits(p)
    ensures Decimal(t, p) && Number(t, p) == Numeral(p)
  {
    if p != "" {
      NumberIs(t, p[..|p| - 1]);
    }
  }

  lemma {:induction false} SplitFirst(p: string, rest: string)
    requires ';' !in p
    ensures SplitFields(p + ";" + rest) == [p] + SplitFields(rest)
  {
    var raw := p + ";" + rest;
    if p == "" {
      assert raw[0] == ';' && raw[1..] == rest;
    } else {
      SplitFirst(p[1..], rest);
      assert raw[0] == p[0] && raw[1..] == p[1..] + ";" + rest;
      assert [p[0]] + p[1..] == p;
    }
  }

  lemma {:induction false} SplitJoined(ps: seq<string>)
    requires AllDecimal(ps)
    ensures SplitFields(Joined(ps)) == ps
    decreases |ps|
  {
    assert AllDigits(ps[0]) && ';' !in ps[0];
    if |ps| == 1 {
      OneField(ps[0]);
    } else {
      SplitJoined(ps[1..]);
      SplitFirst(ps[0], Joined(ps[1..]));
    }
  }

  lemma {:induction false} JoinedBytes(ps: seq<string>)
    requires AllDecimal(ps)
    ensures forall i :: 0 <= i < |Joined(ps)| ==> '0' <= Joined(ps)[i] <= ';'
    decreases |ps|
  {
    assert AllDigits(ps[0]);
    if |ps| > 1 {
      JoinedBytes(ps[1..]);
    }
  }

  lemma NoMarks(raw: string)
    requires raw == "" || raw[0] <= ';'
    ensures StripPrefixMarks(raw) == raw
  {
  }

  /** The numbers a sequence hands over, private or not. */
  function Values(ps: seq<string>): (values: seq<nat>)
    requires AllDecimal(ps)
    ensures |values| == |ps| && forall i :: 0 <= i < |ps| ==> values[i] == Param(ps[i])
  {
    seq(|ps|, i requires 0 <= i < |ps| => Param(ps[i]))
  }

  lemma ParametersAre(t: Tables, ps: seq<string>, private: bool)
    requires AsciiDigits(t) && AllDecimal(ps)
    ensures Parameters(t, (if private then "?" else "") + Joined(ps)) == Some(Values(ps))
  {
    hide Numeral, SplitFields, Joined;
    var raw := Joined(ps);
    JoinedBytes(ps);
    SplitJoined(ps);
    NoMarks(raw);
    if private {
      assert ("?" + raw)[1..] == raw;
      assert StripPrefixMarks("?" + raw) == raw;
    } else {
      assert "" + raw == raw;
    }
    forall i | 0 <= i < |ps| ensures Decimal(t, ps[i]) && Number(t, ps[i]) == Numeral(ps[i]) {
      NumberIs(t, ps[i]);
    }
    hide Number, Decimal;
    var p := Parameters(t, (if private then "?" else "") + raw);
    assert p.value == Values(ps);
  }

  /** From any state outside strings the bytes of a sequence perform its control function. */
  lemma RunSequence(s: Screen, t: Tables, raw: string, final: char)
    requires Valid(s) && Parked(s) && |raw| <= MAX_SEQUENCE && '@' <= final <= '~'
    requires forall i :: 0 <= i < |raw| ==> '0' <= raw[i] <= '?'
    ensures Run(s, t, Sequence(raw, final)) == Screen(Control(s.face, t, final, raw), Text, "")
  {
    hide Run, Consume, Control;
    var s2 := s.(mode := Csi, sequence := "");
    RunAppend(s, t, [ESC] + "[", raw + [final]);
    RunIntro(s, t);
    RunAppend(s2, t, raw, [final]);
    Collects(s2, t, raw);
    assert "" + raw == raw;
    RunOne(s.(mode := Csi, sequence := raw), t, final);
    FinalByte(s.(mode := Csi, sequence := raw), t, final);
  }

  lemma FinalByte(s: Screen, t: Tables, final: char)
    requires Valid(s) && s.mode == Csi && '@' <= final <= '~'
    ensures Consume(s, t, final) == Screen(Control(s.face, t, final, s.sequence), Text, "")
  {
    hide Control;
  }

  /** The screen can take a sequence with these parameters. */
  ghost predicate Takes(s: Screen, t: Tables, ps: seq<string>) {
    Valid(s) && Parked(s) && AsciiDigits(t) && AllDecimal(ps) && |Joined(ps)| <= 255
  }

  /** The bytes of a sequence with these parameters. */
  function Command(ps: seq<string>, final: char): (s: string)
    requires ps != []
  {
    Sequence(Joined(ps), final)
  }

  lemma RunControl(s: Screen, t: Tables, ps: seq<string>, final: char)
    requires Takes(s, t, ps) && '@' <= final <= '~'
    ensures Run(s, t, Command(ps, final)) == Screen(Control(s.face, t, final, Joined(ps)), Text, "")
    ensures Parameters(t, Joined(ps)) == Some(Values(ps)) && (Joined(ps) == "" || Joined(ps)[0] != '?')
  {
    hide Run, Control, Parameters, Sequence, Joined;
    JoinedBytes(ps);
    RunSequence(s, t, Joined(ps), final);
    ParametersAre(t, ps, false);
    assert "" + Joined(ps) == Joined(ps);
  }

  // ---------------------------------------------------------------------------
  // The cursor

  /** Nothing but the cursor has moved, and no glyph is joined to the last one. */
  predicate CursorAt(s: Screen, r: Screen, x: int, y: int) {
    && r.mode == Text && r.sequence == "" && r.face.alternate == s.face.alternate
    && r.face.d == s.face.d.(x := x, y := y, pendingWrap := false, last := None, join := false)
  }

  function Least(a: int, b: int): (m: int) { if a < b then a else b }

  function Most(a: int, b: int): (m: int) { if a < b then b else a }

  lemma RunPosition(s: Screen, t: Tables, ps: seq<string>, final: char)
    requires Takes(s, t, ps) && '@' <= final <= '~' && final !in "hlJKX@PLMST"
    ensures Run(s, t, Command(ps, final)) == Screen(s.face.(d := Position(s.face.d, final, false, Values(ps))), Text, "")
  {
    hide Run, Position, Parameters, Joined, Values;
    RunControl(s, t, ps, final);
  }

  /**
   The cursor address: row and column count from one, a missing or zero one counts as one,
   both stop at the edges; in origin mode rows count within the margins.
   */
  lemma CursorAddress(s: Screen, t: Tables, ps: seq<string>, final: char)
    requires Takes(s, t, ps) && (final == 'H' || final == 'f')
    ensures var d := s.face.d; var row, column := Count(ps[0]), if |ps| > 1 then Count(ps[1]) else 1;
            CursorAt(s, Run(s, t, Command(ps, final)), Least(column, d.width) - 1,
                     if d.origin then Least(d.top + row - 1, d.bottom) else Least(row, d.height) - 1)
  {
    hide Run, Param, Command, GridOk;
    RunPosition(s, t, ps, final);
    hide CursorMove, SetMargins;
  }

  /** The row a vertical movement ends in: at the margins in origin mode, otherwise at the edges. */
  function RowAfter(d: Display, final: char, n: nat): (y: int) {
    if final == 'A' then Most(d.y - n, if d.origin then d.top else 0)
    else if final == 'B' || final == 'e' then Least(d.y + n, if d.origin then d.bottom else d.height - 1)
    else if final == 'E' then Least(d.y + n, d.height - 1)
    else if final == 'F' then Most(d.y - n, 0)
    else Least(n + (if d.origin then d.top else 0), d.height) - 1
  }

  /** Up and down; `E` and `F` go to the first column, `d` to a row by its number. */
  lemma CursorUpDown(s: Screen, t: Tables, ps: seq<string>, final: char)
    requires Takes(s, t, ps) && final in "ABeEFd"
    ensures var d := s.face.d;
            CursorAt(s, Run(s, t, Command(ps, final)), if final == 'E' || final == 'F' then 0 else d.x, RowAfter(d, final, Count(ps[0])))
  {
    hide Run, Param, Command, Position, DisplayOk;
    RunPosition(s, t, ps, final);
    PositionUpDown(s.face.d, final, Values(ps));
  }

  /** The display with the cursor elsewhere. */
  function Moved(d: Display, x: int, y: int): (r: Display) {
    d.(x := x, y := y, pendingWrap := false, last := None, join := false)
  }

  lemma PositionUpDown(d: Display, final: char, values: seq<nat>)
    requires DisplayOk(d) && |values| > 0 && final in "ABeEFd"
    ensures var n := if values[0] == 0 then 1 else values[0];
            Position(d, final, false, values) == Moved(d, if final == 'E' || final == 'F' then 0 else d.x, RowAfter(d, final, n))
  {
    hide Position, CursorMove, Move, DisplayOk;
    var n := if values[0] == 0 then 1 else values[0];
    PositionMoves(d, final, values);
    CursorMoves(d, final, n);
  }

  lemma PositionMoves(d: Display, final: char, values: seq<nat>)
    requires DisplayOk(d) && |values| > 0 && final in "ABCDEFG`ade"
    ensures Position(d, final, false, values) == CursorMove(d, final, if values[0] == 0 then 1 else values[0])
  {
    hide CursorMove, Move, SetMargins, GridOk;
  }

  lemma CursorMoves(d: Display, final: char, n: nat)
    requires DisplayOk(d) && final in "ABeEFd" && n > 0
    ensures CursorMove(d, final, n) == Moved(d, if final == 'E' || final == 'F' then 0 else d.x, RowAfter(d, final, n))
  {
    hide CursorMove, RowAfter, DisplayOk;
    if final == 'A' {
      MovesUp(d, n);
    } else if final == 'B' || final == 'e' {
      MovesDown(d, final, n);
    } else if final == 'd' {
      MovesToRow(d, n);
    } else {
      MovesLines(d, final, n);
    }
  }

  lemma MovesUp(d: Display, n: nat)
    requires DisplayOk(d)
    ensures CursorMove(d, 'A', n) == Moved(d, d.x, RowAfter(d, 'A', n))
  {
    hide GridOk;
  }

  lemma MovesDown(d: Display, final: char, n: nat)
    requires DisplayOk(d) && (final == 'B' || final == 'e')
    ensures CursorMove(d, final, n) == Moved(d, d.x, RowAfter(d, final, n))
  {
    hide GridOk;
  }

  lemma MovesToRow(d: Display, n: nat)
    requires DisplayOk(d) && n > 0
    ensures CursorMove(d, 'd', n) == Moved(d, d.x, RowAfter(d, 'd', n))
  {
    hide GridOk;
  }

  lemma MovesLines(d: Display, final: char, n: nat)
    requires DisplayOk(d) && (final == 'E' || final == 'F')
    ensures CursorMove(d, final, n) == Moved(d, 0, RowAfter(d, final, n))
  {
    hide GridOk;
  }

  /** Left and right, to the edges. */
  lemma CursorAcross(s: Screen, t: Tables, ps: seq<string>, final: char)
    requires Takes(s, t, ps) && final in "CaDG`"
    ensures var d, n := s.face.d, Count(ps[0]); var r := Run(s, t, Command(ps, final));
            && (final == 'C' || final == 'a' ==> CursorAt(s, r, Least(d.x + n, d.width - 1), d.y))
            && (final == 'D' ==> CursorAt(s, r, Most(d.x - n, 0), d.y))
            && (final == 'G' || final == '`' ==> CursorAt(s, r, Least(n, d.width) - 1, d.y))
  {
    hide Run, Param, Command, GridOk;
    RunPosition(s, t, ps, final);
    hide SetMargins;
  }

  /** The scrolling margins: taken if they are in order and on the screen, and then the cursor goes home. */
  lemma MarginsSet(s: Screen, t: Tables, ps: seq<string>)
    requires Takes(s, t, ps)
    ensures var d := s.face.d; var top, bottom := Count(ps[0]), if |ps| > 1 && Param(ps[1]) != 0 then Param(ps[1]) else d.height;
            var r := Run(s, t, Command(ps, 'r'));
            if top < bottom <= d.height then
              r == Screen(s.face.(d := d.(top := top - 1, bottom := bottom - 1, x := 0, y := if d.origin then top - 1 else 0,
                                          pendingWrap := false, last := None, join := false)), Text, "")
            else r == Screen(s.face, Text, "")
  {
    hide Run, Param, Command, Position, DisplayOk;
    RunPosition(s, t, ps, 'r');
    PositionMargins(s.face.d, Values(ps));
  }

  lemma PositionMargins(d: Display, values: seq<nat>)
    requires DisplayOk(d) && |values| > 0
    ensures var top := if values[0] == 0 then 1 else values[0];
            var bottom := if |values| > 1 && values[1] != 0 then values[1] else d.height;
            Position(d, 'r', false, values)
            == if top < bottom <= d.height then
                 Moved(d.(top := top - 1, bottom := bottom - 1), 0, if d.origin then top - 1 else 0)
               else d
  {
    hide GridOk;
  }

  /** Saving the cursor, and going back to where it was saved. */
  lemma CursorSaved(s: Screen, t: Tables, ps: seq<string>)
    requires Takes(s, t, ps)
    ensures var d := s.face.d; Run(s, t, Command(ps, 's')) == Screen(s.face.(d := d.(savedX := d.x, savedY := d.y)), Text, "")
    ensures CursorAt(s, Run(s, t, Command(ps, 'u')), s.face.d.savedX, s.face.d.savedY)
  {
    hide Run, Param, Command, Position, DisplayOk;
    RunPosition(s, t, ps, 's');
    RunPosition(s, t, ps, 'u');
    PositionSaved(s.face.d, Values(ps));
  }

  lemma PositionSaved(d: Display, values: seq<nat>)
    requires DisplayOk(d) && |values| > 0
    ensures Position(d, 's', false, values) == d.(savedX := d.x, savedY := d.y)
    ensures Position(d, 'u', false, values) == Moved(d, d.savedX, d.savedY)
  {
    hide GridOk, CursorMove, SetMargins;
  }
}
