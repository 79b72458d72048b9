/**
 What the parser of the screen observer (scripts/m4_terminal_screen.py) passes over:
 sequences that are too long, not in numbers or unknown, designations, cancelled
 sequences and lone control characters; and the eight-bit forms of the introducers.
 */
module TerminalParsing {
  import opened Options
  import opened Texts
  import opened Terminal
  import opened TerminalAlternate
  import opened TerminalControl

  const CANCEL: char := 0x18 as char
  const SUBSTITUTE: char := 0x1a as char

  /** Neither the end of a control sequence nor one of the characters that break it off. */
  predicate Within(c: char) {
    !('@' <= c <= '~') && c != ESC && c != CANCEL && c != SUBSTITUTE
  }

  predicate AllWithin(raw: string) {
    forall i :: 0 <= i < |raw| ==> Within(raw[i])
  }

  lemma GathersOne(s: Screen, t: Tables, c: char)
    requires Valid(s) && Within(c) && (s.mode == Csi || s.mode == CsiDiscard)
    ensures Run(s, t, [c]) == if s.mode == CsiDiscard then s
                              else if |s.sequence| == 256 then s.(mode := CsiDiscard, sequence := "")
                              else s.(sequence := s.sequence + [c])
  {
    hide Control;
    RunOne(s, t, c);
  }

  lemma {:induction false} Gathers(s: Screen, t: Tables, raw: string)
    requires Valid(s) && AllWithin(raw) && (s.mode == Csi || (s.mode == CsiDiscard && s.sequence == ""))
    ensures Run(s, t, raw) == if s.mode == Csi && |s.sequence| + |raw| <= 256 then s.(sequence := s.sequence + raw)
                              else s.(mode := CsiDiscard, sequence := "")
    decreases |raw|
  {
    hide Run;
    if raw == "" {
      RunNone(s, t);
      assert s.sequence + raw == s.sequence;
    } else {
      assert raw == [raw[0]] + raw[1..];
      RunAppend(s, t, [raw[0]], raw[1..]);
      GathersOne(s, t, raw[0]);
      Gathers(Run(s, t, [raw[0]]), t, raw[1..]);
    }
  }

  lemma Ends(s: Screen, t: Tables, final: char)
    requires Valid(s) && (s.mode == Csi || s.mode == CsiDiscard) && '@' <= final <= '~'
    ensures Run(s, t, [final]) == Screen(if s.mode == Csi then Control(s.face, t, final, s.sequence) else s.face, Text, "")
  {
    hide Control;
    RunOne(s, t, final);
  }

  lemma RunAny(s: Screen, t: Tables, raw: string, final: char)
    requires Valid(s) && Parked(s) && AllWithin(raw) && '@' <= final <= '~'
    ensures Run(s, t, Sequence(raw, final)) == Screen(if |raw| <= 256 then Control(s.face, t, final, raw) else s.face, Text, "")
  {
    hide Run, Control;
    var s2 := s.(mode := Csi, sequence := "");
    RunAppend(s, t, [ESC] + "[", raw + [final]);
    RunIntro(s, t);
    RunAppend(s2, t, raw, [final]);
    Gathers(s2, t, raw);
    assert "" + raw == raw;
    Ends(Run(s2, t, raw), t, final);
  }

  /** The sequences that do something. */
  const KNOWN: string := "hlJKX@PLMSTHfABCDEFG`adersu"

  /** A character that is no digit, no separator and no prefix. */
  predicate Odd(t: Tables, c: char) {
    c != ';' && c !in "?<=>" && !(0 <= t.digit(c) <= 9)
  }

  lemma {:induction false} FieldOf(raw: string, c: char) returns (i: nat)
    requires c in raw && c != ';'
    ensures i < |SplitFields(raw)| && c in SplitFields(raw)[i]
  {
    var rest := SplitFields(raw[1..]);
    if raw[0] == c {
      i := 0;
      assert SplitFields(raw)[0][0] == c;
    } else {
      var j := FieldOf(raw[1..], c);
      if raw[0] == ';' {
        i := j + 1;
      } else {
        i := j;
        assert j == 0 ==> SplitFields(raw)[0] == [raw[0]] + rest[0];
      }
    }
  }

  lemma {:induction false} StripKeeps(raw: string, c: char)
    requires c in raw && c !in "?<=>"
    ensures c in StripPrefixMarks(raw)
  {
    if raw[0] in "?<=>" {
      StripKeeps(raw[1..], c);
    }
  }

  lemma OddRefused(t: Tables, raw: string, c: char)
    requires c in raw && Odd(t, c)
    ensures Parameters(t, raw) == None
  {
    StripKeeps(raw, c);
    var fields := SplitFields(StripPrefixMarks(raw));
    var i := FieldOf(StripPrefixMarks(raw), c);
    var j :| 0 <= j < |fields[i]| && fields[i][j] == c;
    assert !Decimal(t, fields[i]);
  }

  lemma UnknownDoes(f: Face, t: Tables, final: char, raw: string)
    requires FaceOk(f) && final !in KNOWN
    ensures Control(f, t, final, raw) == f
  {
    hide Parameters, SetModes, Edit;
    assert final != 'h' && final != 'l' && forall c :: c in "JKX@PLMST" ==> c in KNOWN;
    assert forall c :: c in "ABCDEFG`ade" ==> c in KNOWN;
  }

  /**
   A control sequence changes nothing on the screen if its parameters are over 256
   characters or not numbers, or if its final character is not a known one.
   */
  lemma SequenceIgnored(s: Screen, t: Tables, raw: string, final: char)
    requires Valid(s) && Parked(s) && AllWithin(raw) && '@' <= final <= '~'
    requires |raw| > 256 || final !in KNOWN || exists c :: c in raw && Odd(t, c)
    ensures Run(s, t, Sequence(raw, final)) == Screen(s.face, Text, "")
  {
    hide Run, Odd, Parameters;
    RunAny(s, t, raw, final);
    if final !in KNOWN {
      hide Control;
      UnknownDoes(s.face, t, final, raw);
    } else if |raw| <= 256 {
      var c :| c in raw && Odd(t, c);
      OddRefused(t, raw, c);
    }
  }

  /** Cancel and substitute break off any sequence but a string, and nothing of it is left. */
  lemma Cancelled(s: Screen, t: Tables, c: char)
    requires Valid(s) && Parked(s) && (c == CANCEL || c == SUBSTITUTE)
    ensures Run(s, t, [c]) == Screen(s.face, Text, "")
  {
    RunOne(s, t, c);
  }

  /** A designation takes one character more, which is not shown; other characters behind an escape do nothing. */
  lemma EscapesIgnored(s: Screen, t: Tables, c: char, x: char)
    requires Valid(s) && Parked(s)
    ensures c in "()*+-%#" && '0' <= x <= '~' ==> Run(s, t, [ESC, c, x]) == s.(mode := Text)
    ensures c !in "[]P^_X()*+-%#78DEMc" && c != ESC && c != CANCEL && c != SUBSTITUTE ==> Run(s, t, [ESC, c]) == s.(mode := Text)
  {
    hide Run, Linefeed, Scroll, Reset, Move;
    RunOne(s, t, ESC);
    var s1 := s.(mode := Escape);
    assert [ESC, c] == [ESC] + [c] && [ESC, c, x] == [ESC] + ([c] + [x]);
    RunAppend(s, t, [ESC], [c]);
    RunOne(s1, t, c);
    RunAppend(s, t, [ESC], [c] + [x]);
    RunAppend(s1, t, [c], [x]);
    if c in "()*+-%#" {
      RunOne(s.(mode := EscapeIntermediate), t, x);
    }
  }

  /** Eight-bit introducers are their seven-bit forms. */
  lemma EightBit(s: Screen, t: Tables, rest: string)
    requires Valid(s) && s.mode == Text
    ensures Run(s, t, [0x9b as char] + rest) == Run(s, t, [ESC, '['] + rest)
    ensures Run(s, t, [0x90 as char] + rest) == Run(s, t, [ESC, 'P'] + rest)
    ensures Run(s, t, [0x9d as char] + rest) == Run(s, t, [ESC, ']'] + rest)
    ensures Run(s, t, [0x9e as char] + rest) == Run(s, t, [ESC, '^'] + rest)
    ensures Run(s, t, [0x9f as char] + rest) == Run(s, t, [ESC, '_'] + rest)
  {
    hide Run;
    Introduces(s, t, 0x9b as char, '[', rest);
    Introduces(s, t, 0x90 as char, 'P', rest);
    Introduces(s, t, 0x9d as char, ']', rest);
    Introduces(s, t, 0x9e as char, '^', rest);
    Introduces(s, t, 0x9f as char, '_', rest);
  }

  lemma Introduces(s: Screen, t: Tables, eight: char, seven: char, rest: string)
    requires Valid(s) && s.mode == Text && seven in "[]P^_"
    requires eight as int == if seven == '[' then 0x9b else if seven == 'P' then 0x90 else if seven == ']' then 0x9d
                             else if seven == '^' then 0x9e else 0x9f
    ensures Run(s, t, [eight] + rest) == Run(s, t, [ESC, seven] + rest)
  {
    hide Run, Put;
    RunAppend(s, t, [eight], rest);
    RunOne(s, t, eight);
    assert [ESC, seven] + rest == [ESC] + ([seven] + rest);
    RunAppend(s, t, [ESC], [seven] + rest);
    RunOne(s, t, ESC);
    RunAppend(s.(mode := Escape), t, [seven], rest);
    RunOne(s.(mode := Escape), t, seven);
  }

  /** Other control characters are not shown. */
  lemma ControlsIgnored(s: Screen, t: Tables, c: char)
    requires Valid(s) && s.mode == Text && (c as int < 32 || 0x7f <= c as int <= 0x9f)
    requires c as int !in {8, 9, 10, 11, 12, 13, 0x18, 0x1a, 0x1b, 0x90, 0x9b, 0x9d, 0x9e, 0x9f}
    ensures Run(s, t, [c]) == s
  {
    hide Put, Linefeed, Move;
    RunOne(s, t, c);
  }
}
