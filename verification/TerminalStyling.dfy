/** Styling and string sequences never change what the screen shows. */
module TerminalStyling {
  import opened Terminal

  /** The parameter buffer is only read in `Csi`; everywhere else its content is stale. */
  function Norm(s: Screen): (r: Screen)
    requires Valid(s)
    ensures Next(s, r)
  {
    if s.mode == Csi then s else s.(sequence := "")
  }

  predicate ParameterChar(c: char) {
    !('@' <= c <= '~') && c as int != 0x18 && c as int != 0x1a && c != ESC
  }

  predicate CsiIntro(text: string) {
    text == [ESC, '['] || text == ['\U{9B}']
  }

  predicate StringIntro(text: string) {
    || (|text| == 2 && text[0] == ESC && text[1] in "]P^_X")
    || (|text| == 1 && text[0] as int in {0x90, 0x9d, 0x9e, 0x9f})
  }

  /** `rest` runs through the string and ends it with its last character, not before. */
  predicate Terminates(m: Mode, rest: string)
    requires m == Str || m == StrEscape
    decreases |rest|
  {
    rest != "" &&
    var m' := StringMode(m, rest[0]);
    if m' == Text then |rest| == 1 else Terminates(m', rest[1..])
  }

  /** A complete SGR sequence, its parameters of any length and content. */
  ghost predicate Sgr(text: string) {
    exists intro: string, params: string :: CsiIntro(intro) && text == intro + params + "m"
      && forall i :: 0 <= i < |params| ==> ParameterChar(params[i])
  }

  /** A terminated OSC, DCS, SOS, PM or APC string. */
  ghost predicate TerminatedString(text: string) {
    exists intro: string, rest: string :: StringIntro(intro) && text == intro + rest && Terminates(Str, rest)
  }

  ghost predicate Styling(text: string) {
    Sgr(text) || TerminatedString(text)
  }

  // ---------------------------------------------------------------------------
  // The stale buffer is irrelevant

  lemma StaleStep(s: Screen, t: Tables, c: char)
    requires Valid(s) && s.mode != Csi
    ensures Norm(Consume(s.(sequence := ""), t, c)) == Norm(Consume(s, t, c))
  {
  }

  /** Screens that differ only in a stale buffer stay that way. */
  lemma NormStep(a: Screen, b: Screen, t: Tables, c: char)
    requires Valid(a) && Valid(b) && Norm(a) == Norm(b)
    ensures Norm(Consume(a, t, c)) == Norm(Consume(b, t, c))
  {
    if a.mode != Csi {
      StaleStep(a, t, c);
      StaleStep(b, t, c);
    }
  }

  lemma {:induction false} NormRun(a: Screen, b: Screen, t: Tables, input: string)
    requires Valid(a) && Valid(b) && Norm(a) == Norm(b)
    ensures Norm(Run(a, t, input)) == Norm(Run(b, t, input))
    decreases |input|
  {
    if input != "" {
      NormStep(a, b, t, input[0]);
      NormRun(Consume(a, t, input[0]), Consume(b, t, input[0]), t, input[1..]);
    }
  }

  // ---------------------------------------------------------------------------
  // Each complete sequence is invisible

  /** Parameters are collected or discarded; nothing else moves. */
  lemma {:induction false} ParametersInvisible(s: Screen, t: Tables, params: string)
    requires Valid(s) && (s.mode == Csi || s.mode == CsiDiscard)
    requires forall i :: 0 <= i < |params| ==> ParameterChar(params[i])
    ensures var r := Run(s, t, params);
            (r.mode == Csi || r.mode == CsiDiscard) && r == s.(mode := r.mode, sequence := r.sequence)
    decreases |params|
  {
    if params != "" {
      ParametersInvisible(Consume(s, t, params[0]), t, params[1..]);
    }
  }

  lemma SgrFinal(s: Screen, t: Tables)
    requires Valid(s) && (s.mode == Csi || s.mode == CsiDiscard)
    ensures Consume(s, t, 'm') == s.(mode := Text, sequence := "")
  {
    assert Control(s.face, t, 'm', s.sequence) == s.face;
  }

  lemma IntroRun(s: Screen, t: Tables, intro: string)
    requires Valid(s) && s.mode == Text
    requires CsiIntro(intro) || StringIntro(intro)
    ensures CsiIntro(intro) ==> Run(s, t, intro) == s.(mode := Csi, sequence := "")
    ensures StringIntro(intro) ==> Run(s, t, intro) == s.(mode := Str)
  {
    if |intro| == 2 {
      assert intro == [ESC] + [intro[1]];
      RunAppend(s, t, [ESC], [intro[1]]);
      RunOne(s, t, ESC);
      RunOne(s.(mode := Escape), t, intro[1]);
    } else {
      assert intro == [intro[0]];
      RunOne(s, t, intro[0]);
    }
  }

  lemma SgrInvisible(s: Screen, t: Tables, text: string)
    requires Valid(s) && s.mode == Text && Sgr(text)
    ensures Norm(Run(s, t, text)) == Norm(s)
  {
    var intro: string, params: string :| CsiIntro(intro) && text == intro + params + "m"
      && forall i :: 0 <= i < |params| ==> ParameterChar(params[i]);
    RunAppend(s, t, intro + params, "m");
    RunAppend(s, t, intro, params);
    IntroRun(s, t, intro);
    var c := Run(s, t, intro);
    ParametersInvisible(c, t, params);
    var d := Run(c, t, params);
    SgrFinal(d, t);
    RunOne(d, t, 'm');
  }

  lemma {:induction false} StringInvisible(s: Screen, t: Tables, rest: string)
    requires Valid(s) && (s.mode == Str || s.mode == StrEscape) && Terminates(s.mode, rest)
    ensures Run(s, t, rest) == s.(mode := Text)
    decreases |rest|
  {
    var next := Consume(s, t, rest[0]);
    assert next == s.(mode := StringMode(s.mode, rest[0]));
    if next.mode != Text {
      StringInvisible(next, t, rest[1..]);
    } else {
      assert rest[1..] == "";
    }
  }

  /** A complete styling sequence that starts in text changes nothing on the screen. */
  lemma StylingInvisible(s: Screen, t: Tables, text: string)
    requires Valid(s) && s.mode == Text && Styling(text)
    ensures Norm(Run(s, t, text)) == Norm(s)
  {
    if Sgr(text) {
      SgrInvisible(s, t, text);
    } else {
      var intro: string, rest: string :| StringIntro(intro) && text == intro + rest && Terminates(Str, rest);
      RunAppend(s, t, intro, rest);
      IntroRun(s, t, intro);
      StringInvisible(s.(mode := Str), t, rest);
    }
  }

  // ---------------------------------------------------------------------------
  // Erasing all of them

  datatype Piece = Keep(text: string) | Style(text: string)

  function Full(pieces: seq<Piece>): (r: string) {
    if pieces == [] then "" else pieces[0].text + Full(pieces[1..])
  }

  function Kept(pieces: seq<Piece>): (r: string) {
    if pieces == [] then "" else (if pieces[0].Keep? then pieces[0].text else "") + Kept(pieces[1..])
  }

  /** Every style piece is complete and starts while the parser is in text. */
  ghost predicate WellPlaced(s: Screen, t: Tables, pieces: seq<Piece>)
    requires Valid(s)
    decreases |pieces|
  {
    pieces == [] ||
    (&& (pieces[0].Style? ==> s.mode == Text && Styling(pieces[0].text))
     && WellPlaced(Run(s, t, pieces[0].text), t, pieces[1..]))
  }

  lemma {:induction false} ErasureFrom(a: Screen, b: Screen, t: Tables, pieces: seq<Piece>)
    requires Valid(a) && Valid(b) && Norm(a) == Norm(b) && WellPlaced(a, t, pieces)
    ensures Norm(Run(a, t, Full(pieces))) == Norm(Run(b, t, Kept(pieces)))
    decreases |pieces|
  {
    if pieces != [] {
      var p := pieces[0];
      var a' := Run(a, t, p.text);
      RunAppend(a, t, p.text, Full(pieces[1..]));
      if p.Keep? {
        NormRun(a, b, t, p.text);
        RunAppend(b, t, p.text, Kept(pieces[1..]));
        ErasureFrom(a', Run(b, t, p.text), t, pieces[1..]);
      } else {
        StylingInvisible(a, t, p.text);
        assert "" + Kept(pieces[1..]) == Kept(pieces[1..]);
        ErasureFrom(a', b, t, pieces[1..]);
      }
    }
  }

  /**
   Deleting any choice of complete styling sequences from a stream leaves the same
   grid, cursor, margins, modes, pending wrap, join state and parser state.
   */
  lemma StylingErasure(s: Screen, t: Tables, pieces: seq<Piece>)
    requires Valid(s) && WellPlaced(s, t, pieces)
    ensures Norm(Run(s, t, Full(pieces))) == Norm(Run(s, t, Kept(pieces)))
  {
    ErasureFrom(s, s, t, pieces);
  }
}
