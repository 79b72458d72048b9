/** Entering the alternate screen puts the primary one aside unchanged until it is left or reset. */
module TerminalAlternate {
  import opened Options
  import opened Terminal

  ghost predicate AsciiDigits(t: Tables) {
    forall c: char :: '0' <= c <= '9' ==> t.digit(c) == c as int - '0' as int
  }

  /** One of the three private modes that switch screens. */
  predicate SwitchMode(mode: string) {
    mode == "47" || mode == "1047" || mode == "1049"
  }

  function Switch(mode: string, final: char): (r: string) {
    ([ESC] + "[") + (("?" + mode) + [final])
  }

  predicate Parked(s: Screen) {
    s.mode != Str && s.mode != StrEscape
  }

  lemma SwitchParameters(t: Tables, mode: string)
    requires AsciiDigits(t) && SwitchMode(mode)
    ensures Parameters(t, "?" + mode).Some?
    ensures |Parameters(t, "?" + mode).value| == 1 && Parameters(t, "?" + mode).value[0] in {47, 1047, 1049}
  {
    hide Number;
    assert ("?" + mode)[1..] == mode;
    assert StripPrefixMarks("?" + mode) == mode;
    OneField(mode);
    SwitchNumber(t, mode);
  }

  lemma SwitchNumber(t: Tables, mode: string)
    requires AsciiDigits(t) && SwitchMode(mode)
    ensures Decimal(t, mode) && Number(t, mode) in {47, 1047, 1049}
  {
    var n := |mode|;
    assert mode[..n - 1][..n - 2] == mode[..n - 2];
    if n == 4 {
      assert mode[..3][..2] == mode[..2] && mode[..2][..1] == mode[..1] && mode[..1][..0] == "";
      assert Number(t, mode[..1]) == 1;
      assert Number(t, mode[..2]) == 10;
      assert Number(t, mode[..3]) == 104;
    } else {
      assert mode[..1][..0] == "";
      assert Number(t, mode[..1]) == 4;
    }
  }

  lemma {:induction false} OneField(mode: string)
    requires ';' !in mode
    ensures SplitFields(mode) == [mode]
  {
    if mode != "" {
      OneField(mode[1..]);
      assert [mode[0]] + mode[1..] == mode;
    }
  }

  /** The control sequence with a single private mode. */
  lemma SwitchControl(f: Face, t: Tables, mode: string, final: char)
    requires FaceOk(f) && AsciiDigits(t) && SwitchMode(mode) && final in "hl"
    ensures Control(f, t, final, "?" + mode) == if final == 'h' then Enter(f) else Leave(f)
  {
    SwitchParameters(t, mode);
    var values := Parameters(t, "?" + mode).value;
    assert values[1..] == [];
    assert SetModes(f, true, final == 'h', values) == SetMode(f, true, final == 'h', values[0]);
  }

  lemma RunIntro(s: Screen, t: Tables)
    requires Valid(s) && Parked(s)
    ensures Run(s, t, [ESC] + "[") == s.(mode := Csi, sequence := "")
  {
    RunAppend(s, t, [ESC], "[");
    RunOne(s, t, ESC);
    RunOne(s.(mode := Escape), t, '[');
  }

  lemma SwitchFinal(s: Screen, t: Tables, mode: string, final: char)
    requires Valid(s) && s.mode == Csi && s.sequence == "?" + mode
    requires AsciiDigits(t) && SwitchMode(mode) && final in "hl"
    ensures Consume(s, t, final) == Screen(if final == 'h' then Enter(s.face) else Leave(s.face), Text, "")
  {
    SwitchControl(s.face, t, mode, final);
  }

  /** The bytes of a switch, from any state that is not inside a string. */
  lemma RunSwitch(s: Screen, t: Tables, mode: string, final: char)
    requires Valid(s) && Parked(s) && AsciiDigits(t) && SwitchMode(mode) && final in "hl"
    ensures var r := Run(s, t, Switch(mode, final));
            r == Screen(if final == 'h' then Enter(s.face) else Leave(s.face), Text, "")
  {
    hide Run, Consume, Enter, Leave;
    var params := "?" + mode;
    var s2 := s.(mode := Csi, sequence := "");
    var s3 := s.(mode := Csi, sequence := params);
    RunAppend(s, t, [ESC] + "[", params + [final]);
    RunIntro(s, t);
    RunAppend(s2, t, params, [final]);
    Collects(s2, t, params);
    assert "" + params == params;
    RunOne(s3, t, final);
    SwitchFinal(s3, t, mode, final);
  }

  /** Parameter characters pile up in the sequence buffer. */
  lemma {:induction false} Collects(s: Screen, t: Tables, params: string)
    requires Valid(s) && s.mode == Csi && |s.sequence| + |params| <= MAX_SEQUENCE
    requires forall i :: 0 <= i < |params| ==> '0' <= params[i] <= '?'
    ensures Run(s, t, params) == s.(sequence := s.sequence + params)
    decreases |params|
  {
    if params != "" {
      var next := s.(sequence := s.sequence + [params[0]]);
      assert Consume(s, t, params[0]) == next;
      Collects(next, t, params[1..]);
      assert s.sequence + [params[0]] + params[1..] == s.sequence + params;
    } else {
      assert s.sequence + params == s.sequence;
    }
  }

  lemma {:induction false} ModesKeep(f: Face, private: bool, enabled: bool, modes: seq<nat>)
    requires FaceOk(f)
    ensures var r := SetModes(f, private, enabled, modes);
            && (f.alternate.Some? ==> r.alternate == f.alternate || r.alternate.None?)
            && (f.alternate.None? && !enabled ==> r.alternate.None?)
            && (f.alternate.Some? && enabled ==> r.alternate == f.alternate)
    decreases |modes|
  {
    if modes != [] {
      ModesKeep(SetMode(f, private, enabled, modes[0]), private, enabled, modes[1..]);
    }
  }

  lemma ControlKeeps(f: Face, t: Tables, final: char, raw: string)
    requires FaceOk(f) && f.alternate.Some?
    ensures var r := Control(f, t, final, raw); r.alternate == f.alternate || r.alternate.None?
  {
    var p := Parameters(t, raw);
    if p.Some? && final in "hl" {
      ModesKeep(f, raw != "" && raw[0] == '?', final == 'h', p.value);
    }
  }

  /** No single character swaps the saved screen for another one. */
  lemma StepKeeps(s: Screen, t: Tables, c: char)
    requires Valid(s) && s.face.alternate.Some?
    ensures var r := Consume(s, t, c); r.face.alternate == s.face.alternate || r.face.alternate.None?
  {
    if s.mode == Csi {
      ControlKeeps(s.face, t, c, s.sequence);
    }
  }

  /** The alternate screen is showing before and after every character. */
  ghost predicate StaysAlternate(s: Screen, t: Tables, input: string)
    requires Valid(s)
    decreases |input|
  {
    s.face.alternate.Some? && (input == "" || StaysAlternate(Consume(s, t, input[0]), t, input[1..]))
  }

  lemma {:induction false} RunKeeps(s: Screen, t: Tables, input: string)
    requires Valid(s) && StaysAlternate(s, t, input)
    ensures Run(s, t, input).face.alternate == s.face.alternate
    decreases |input|
  {
    if input != "" {
      StepKeeps(s, t, input[0]);
      RunKeeps(Consume(s, t, input[0]), t, input[1..]);
    }
  }

  /** Inside an open string a switch is swallowed like any other text. */
  lemma {:induction false} Swallowed(s: Screen, t: Tables, input: string)
    requires Valid(s) && !Parked(s)
    requires forall i :: 0 <= i < |input| ==> input[i] as int !in {7, 0x9c} && input[i] != '\\'
    ensures Run(s, t, input).face == s.face && !Parked(Run(s, t, input))
    decreases |input|
  {
    if input != "" {
      Swallowed(Consume(s, t, input[0]), t, input[1..]);
    }
  }

  /** Leaving after any drawing: back to what was put aside, or nothing at all inside a string. */
  lemma Exit(e: Screen, t: Tables, input: string, leave: string)
    requires Valid(e) && StaysAlternate(e, t, input) && AsciiDigits(t) && SwitchMode(leave)
    ensures var m := Run(e, t, input);
            var r := Run(m, t, Switch(leave, 'l'));
            && (Parked(m) ==> r == Screen(Leave(Face(m.face.d, e.face.alternate)), Text, ""))
            && (!Parked(m) ==> r.face == m.face && r.face.alternate == e.face.alternate)
  {
    var m := Run(e, t, input);
    RunKeeps(e, t, input);
    if Parked(m) {
      RunSwitch(m, t, leave, 'l');
    } else {
      Swallowed(m, t, Switch(leave, 'l'));
    }
  }

  /**
   Enter, draw anything that neither leaves nor resets, leave: the primary grid,
   cursor and margins come back exactly, unless the drawing stops inside an open
   string, which swallows the exit and keeps the alternate screen. The saved
   cursor and the modes of the alternate session are not undone.
   */
  lemma AlternateRoundTrip(s: Screen, t: Tables, enter: string, input: string, leave: string)
    requires Valid(s) && Parked(s) && s.face.alternate.None? && AsciiDigits(t)
    requires SwitchMode(enter) && SwitchMode(leave)
    requires StaysAlternate(Run(s, t, Switch(enter, 'h')), t, input)
    ensures var m := Run(s, t, Switch(enter, 'h') + input);
            var r := Run(s, t, Switch(enter, 'h') + input + Switch(leave, 'l'));
            var d, d' := s.face.d, r.face.d;
            && (r.face.alternate.None? <==> Parked(m))
            && (Parked(m) ==> d'.cells == d.cells && d'.x == d.x && d'.y == d.y && d'.top == d.top && d'.bottom == d.bottom
                              && r.mode == Text && !d'.pendingWrap)
            && (!Parked(m) ==> r.face == m.face)
  {
    var e := Run(s, t, Switch(enter, 'h'));
    RunAppend(s, t, Switch(enter, 'h') + input, Switch(leave, 'l'));
    RunAppend(s, t, Switch(enter, 'h'), input);
    RunSwitch(s, t, enter, 'h');
    Exit(e, t, input, leave);
  }
}
