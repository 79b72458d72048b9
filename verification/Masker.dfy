/**
 The Rust source masker of the network boundary check (scripts/check-network-boundaries.py):
 a token-level meaning of the text, the state machine that computes it, and the end of a
 test-only item.
 */
module Masker {
  import opened Texts

  // ---------------------------------------------------------------------------
  // Tokens

  /** Every character but a newline becomes a space. */
  function Blank(t: string): (r: string)
    ensures |r| == |t| && forall i :: 0 <= i < |t| ==> r[i] == if t[i] == '\n' then '\n' else ' '
  {
    seq(|t|, i requires 0 <= i < |t| => if t[i] == '\n' then '\n' else ' ')
  }

  predicate Two(s: string, i: nat, a: char, b: char) {
    i + 1 < |s| && s[i] == a && s[i + 1] == b
  }

  /** End of a line comment: the newline is not part of it. */
  function LineEnd(s: string, i: nat): (e: nat)
    requires i <= |s|
    ensures i <= e <= |s|
    decreases |s| - i
  {
    if i == |s| || s[i] == '\n' then i else LineEnd(s, i + 1)
  }

  /** End of a block comment in which `depth` comments are open; comments nest. */
  function BlockEnd(s: string, i: nat, depth: nat): (e: nat)
    requires i <= |s|
    ensures i <= e <= |s|
    decreases |s| - i
  {
    if depth == 0 || i == |s| then i
    else if Two(s, i, '/', '*') then BlockEnd(s, i + 2, depth + 1)
    else if Two(s, i, '*', '/') then BlockEnd(s, i + 2, depth - 1)
    else BlockEnd(s, i + 1, depth)
  }

  /** End of a literal closed by `quote`; a backslash hides the character after it. */
  function QuoteEnd(s: string, i: nat, quote: char): (e: nat)
    requires i <= |s|
    ensures i <= e <= |s| && (i < |s| ==> i < e)
    decreases |s| - i
  {
    if i == |s| then i
    else if s[i] == '\\' then (if i + 1 < |s| then QuoteEnd(s, i + 2, quote) else i + 1)
    else if s[i] == quote then i + 1
    else QuoteEnd(s, i + 1, quote)
  }

  function Hashes(s: string, i: nat): (e: nat)
    requires i <= |s|
    ensures i <= e <= |s|
    decreases |s| - i
  {
    if i < |s| && s[i] == '#' then Hashes(s, i + 1) else i
  }

  /** A quote and `n` hashes at `i`. */
  predicate Closes(s: string, i: nat, n: nat) {
    i + 1 + n <= |s| && s[i] == '"' && forall j :: i < j <= i + n ==> s[j] == '#'
  }

  function RawEnd(s: string, i: nat, n: nat): (e: nat)
    requires i <= |s|
    ensures i <= e <= |s|
    decreases |s| - i
  {
    if i == |s| then i else if Closes(s, i, n) then i + 1 + n else RawEnd(s, i + 1, n)
  }

  /** `r`, any number of hashes, and a quote. */
  predicate RawOpens(s: string, i: nat) {
    i < |s| && s[i] == 'r' && var q := Hashes(s, i + 1); q < |s| && s[q] == '"'
  }

  predicate Hex(c: char) {
    '0' <= c <= '9' || 'A' <= c <= 'F' || 'a' <= c <= 'f'
  }

  function HexRun(s: string, i: nat): (e: nat)
    requires i <= |s|
    ensures i <= e <= |s|
    decreases |s| - i
  {
    if i < |s| && (Hex(s[i]) || s[i] == '_') then HexRun(s, i + 1) else i
  }

  lemma {:induction false} HexRunChars(s: string, i: nat)
    requires i <= |s|
    ensures forall j :: i <= j < HexRun(s, i) ==> Hex(s[j]) || s[j] == '_'
    decreases |s| - i
  {
    if i < |s| && (Hex(s[i]) || s[i] == '_') {
      HexRunChars(s, i + 1);
    }
  }

  /** Where an escape that starts with the backslash at `i` may end, by its spelling. */
  predicate EscapeTo(s: string, i: nat, e: nat) {
    && i + 1 < e < |s| && s[i] == '\\'
    && (|| (s[i + 1] == 'u' && Two(s, i + 1, 'u', '{') && i + 4 < e && s[e - 1] == '}' && HexRun(s, i + 3) == e - 1)
        || (s[i + 1] == 'x' && e == i + 4 && Hex(s[i + 2]) && Hex(s[i + 3]))
        || (e == i + 2 && s[i + 1] != '\n'))
  }

  /** The character literal at `i` ends before `e`. */
  predicate CharTo(s: string, i: nat, e: nat) {
    && i + 3 <= e <= |s| && s[i] == '\'' && s[e - 1] == '\''
    && (EscapeTo(s, i + 1, e - 1) || (e == i + 3 && s[i + 1] !in {'\\', '\'', '\r', '\n'}))
  }

  /** The `CHAR_LITERAL` expression matches at `i`. */
  predicate CharOpens(s: string, i: nat) {
    || CharTo(s, i, i + 3) || CharTo(s, i, i + 4) || CharTo(s, i, i + 6)
    || (i + 4 <= |s| && CharTo(s, i, HexRun(s, i + 4) + 2))
  }

  datatype Kind = Code | Line | Block | Text | Character | Raw

  function KindAt(s: string, i: nat): (k: Kind)
    requires i < |s|
  {
    if Two(s, i, '/', '/') then Line
    else if Two(s, i, '/', '*') then Block
    else if s[i] == '"' then Text
    else if s[i] == '\'' && CharOpens(s, i) then Character
    else if RawOpens(s, i) then Raw
    else Code
  }

  function TokenEnd(s: string, i: nat): (e: nat)
    requires i < |s|
    ensures i < e <= |s|
  {
    match KindAt(s, i)
    case Code => i + 1
    case Line => LineEnd(s, i + 2)
    case Block => BlockEnd(s, i + 2, 1)
    case Text => QuoteEnd(s, i + 1, '"')
    case Character => QuoteEnd(s, i + 1, '\'')
    case Raw => RawEnd(s, Hashes(s, i + 1) + 1, Hashes(s, i + 1) - i - 1)
  }

  /** Code stays, every other token is blanked. */
  function MaskFrom(s: string, i: nat): (m: string)
    requires i <= |s|
    ensures |m| == |s| - i
    decreases |s| - i
  {
    if i == |s| then ""
    else
      Head(s, i) + MaskFrom(s, TokenEnd(s, i))
  }

  /** The masked token at `i`. */
  function Head(s: string, i: nat): (h: string)
    requires i < |s|
    ensures |h| == TokenEnd(s, i) - i
  {
    if KindAt(s, i) == Code then [s[i]] else Blank(s[i..TokenEnd(s, i)])
  }

  function Mask(s: string): (m: string)
    ensures |m| == |s|
  {
    MaskFrom(s, 0)
  }

  // ---------------------------------------------------------------------------
  // What masking keeps

  /** Each position keeps its character or, unless it is a newline, becomes a space. */
  predicate KeptOrBlank(c: char, m: char) {
    m == c || (m == ' ' && c != '\n')
  }

  /** Masking preserves length and newlines and otherwise only blanks, and no double quote survives. */
  lemma {:induction false} MaskShape(s: string, i: nat)
    requires i <= |s|
    ensures forall j :: i <= j < |s| ==> KeptOrBlank(s[j], MaskFrom(s, i)[j - i]) && MaskFrom(s, i)[j - i] != '"'
    decreases |s| - i
  {
    if i < |s| {
      var e, head := TokenEnd(s, i), Head(s, i);
      assert MaskFrom(s, i) == head + MaskFrom(s, e);
      hide MaskFrom, Head, TokenEnd, KeptOrBlank;
      MaskShape(s, e);
      HeadShape(s, i);
      forall j | i <= j < |s| ensures KeptOrBlank(s[j], MaskFrom(s, i)[j - i]) && MaskFrom(s, i)[j - i] != '"' {
        if j < e {
          assert MaskFrom(s, i)[j - i] == head[j - i];
        } else {
          assert MaskFrom(s, i)[j - i] == MaskFrom(s, e)[j - e];
        }
      }
    }
  }

  lemma HeadShape(s: string, i: nat)
    requires i < |s|
    ensures forall j :: i <= j < TokenEnd(s, i) ==> KeptOrBlank(s[j], Head(s, i)[j - i]) && Head(s, i)[j - i] != '"'
  {
    var e := TokenEnd(s, i);
    assert KindAt(s, i) == Code ==> e == i + 1 && s[i] != '"';
    hide KindAt, TokenEnd;
    forall j | i <= j < e ensures KeptOrBlank(s[j], Head(s, i)[j - i]) && Head(s, i)[j - i] != '"' {
      assert s[i..e][j - i] == s[j];
    }
  }

  /** A character token ends exactly where the literal's expression stops matching. */
  lemma CharScan(s: string, i: nat, e: nat)
    requires CharTo(s, i, e)
    ensures QuoteEnd(s, i + 1, '\'') == e
  {
    if s[i + 1] == '\\' {
      if i + 4 <= |s| {
        HexRunChars(s, i + 4);
      }
      PlainRun(s, i + 3, e - 1);
    } else {
      assert QuoteEnd(s, i + 2, '\'') == e;
    }
  }

  /** Characters that are neither a backslash nor the quote are skipped. */
  lemma {:induction false} PlainRun(s: string, i: nat, e: nat)
    requires i <= e < |s| && s[e] == '\'' && forall j :: i <= j < e ==> s[j] != '\\' && s[j] != '\''
    ensures QuoteEnd(s, i, '\'') == e + 1
    decreases e - i
  {
    if i < e {
      PlainRun(s, i + 1, e);
    }
  }

  lemma TokenAtLeastTwo(s: string, i: nat)
    requires i < |s| && KindAt(s, i) != Code
    ensures TokenEnd(s, i) >= i + 2 || TokenEnd(s, i) == |s|
  {
  }

  // ---------------------------------------------------------------------------
  // Masking is idempotent

  /** `m` is the mask of `s`, and a token of `s` starts at `i`. */
  ghost predicate At(s: string, m: string, i: nat) {
    i <= |s| == |m| && m[i..] == MaskFrom(s, i)
  }

  lemma AtStart(s: string)
    ensures At(s, Mask(s), 0)
  {
  }

  lemma AtNext(s: string, m: string, i: nat)
    requires At(s, m, i) && i < |s|
    ensures At(s, m, TokenEnd(s, i))
    ensures m[i..TokenEnd(s, i)] == Head(s, i)
  {
    var e, head := TokenEnd(s, i), Head(s, i);
    assert m[i..] == head + MaskFrom(s, e);
    assert m[i..e] == m[i..][..e - i] && m[e..] == m[i..][e - i..];
  }

  /** From a token start on, masked characters are kept or blank, and a visible one is unchanged. */
  lemma AtShape(s: string, m: string, i: nat, j: nat)
    requires At(s, m, i) && i <= j < |s|
    ensures KeptOrBlank(s[j], m[j]) && m[j] != '"'
  {
    MaskShape(s, i);
    assert m[j] == m[i..][j - i];
  }

  /** A blanked token never leaves a visible character right behind its first column. */
  lemma BlankedPair(s: string, m: string, i: nat)
    requires At(s, m, i) && i + 1 < |s| && m[i] != s[i]
    ensures m[i + 1] == ' ' || m[i + 1] == '\n'
  {
    var e := TokenEnd(s, i);
    AtNext(s, m, i);
    assert m[i] == m[i..e][0];
    if KindAt(s, i) != Code {
      TokenAtLeastTwo(s, i);
      assert m[i + 1] == m[i..e][1];
    }
  }

  /** If the masked text spells a character literal at a token start, so did the source. */
  lemma NoNewChar(s: string, m: string, i: nat, e: nat)
    requires At(s, m, i) && i < |s| && KindAt(s, i) == Code && m[i] == s[i] == '\''
    requires CharTo(m, i, e)
    ensures CharTo(s, i, e)
  {
    AtNext(s, m, i);
    forall j: nat | i <= j < e ensures KeptOrBlank(s[j], m[j]) {
      AtShape(s, m, i, j);
    }
    if m[i + 1] == '\\' {
      assert s[i + 1] == '\\';
      AtNext(s, m, i + 1);
      if e == i + 4 {
        if m[i + 2] != s[i + 2] {
          BlankedPair(s, m, i + 2);
        }
      } else {
        SameEscape(s, m, i, e);
      }
    } else if m[i + 1] != s[i + 1] {
      BlankedPair(s, m, i + 1);
    }
  }

  /** Long escapes consist of visible characters only, so they are unchanged. */
  lemma SameEscape(s: string, m: string, i: nat, e: nat)
    requires |s| == |m| && CharTo(m, i, e) && m[i + 1] == '\\' && e != i + 4
    requires forall j: nat :: i <= j < e ==> KeptOrBlank(s[j], m[j])
    ensures CharTo(s, i, e)
  {
    if m[i + 2] == 'u' && Two(m, i + 2, 'u', '{') && i + 5 < e - 1 {
      HexRunChars(m, i + 4);
      forall j | i <= j < e ensures s[j] == m[j] {}
      HexRunSame(s, m, i + 4, e - 2);
    }
  }

  lemma {:induction false} HexRunSame(s: string, m: string, i: nat, e: nat)
    requires i <= e < |s| == |m| && HexRun(m, i) == e && forall j :: i <= j <= e ==> s[j] == m[j]
    ensures HexRun(s, i) == e
    decreases e - i
  {
    if i < e {
      HexRunSame(s, m, i + 1, e);
    }
  }

  /** Code in the source is code in the masked text. */
  lemma CodeStaysCode(s: string, m: string, i: nat)
    requires At(s, m, i) && i < |s| && KindAt(s, i) == Code
    ensures m[i] == s[i] && KindAt(m, i) == Code
  {
    AtNext(s, m, i);
    assert m[i] == m[i..i + 1][0];
    forall j: nat | i <= j < |s| ensures KeptOrBlank(s[j], m[j]) && m[j] != '"' {
      AtShape(s, m, i, j);
    }
    if s[i] == '\'' {
      forall e: nat | CharTo(m, i, e) ensures CharTo(s, i, e) {
        NoNewChar(s, m, i, e);
      }
      assert !CharOpens(m, i) by {
        CharAnywhere(s, i);
      }
    }
  }

  /** `CharOpens` looks at every place the literal could end. */
  lemma CharAnywhere(s: string, i: nat)
    ensures CharOpens(s, i) <==> exists e: nat :: CharTo(s, i, e)
  {
    forall e: nat | CharTo(s, i, e) ensures CharOpens(s, i) {
    }
  }

  /** Blanks mask to themselves. */
  lemma {:induction false} BlanksStay(m: string, i: nat, e: nat)
    requires i <= e <= |m| && forall j :: i <= j < e ==> m[j] == ' ' || m[j] == '\n'
    ensures MaskFrom(m, i) == m[i..e] + MaskFrom(m, e)
    decreases e - i
  {
    hide MaskFrom;
    if i < e {
      BlanksStay(m, i + 1, e);
      BlankIsCode(m, i);
      assert m[i..e] == [m[i]] + m[i + 1..e];
      Regroup([m[i]], m[i + 1..e], MaskFrom(m, e));
    } else {
      assert m[i..e] == "";
    }
  }

  lemma BlankIsCode(s: string, i: nat)
    requires i < |s| && (s[i] == ' ' || s[i] == '\n')
    ensures KindAt(s, i) == Code && MaskFrom(s, i) == [s[i]] + MaskFrom(s, i + 1)
  {
  }

  lemma {:induction false} MaskedStays(s: string, m: string, i: nat)
    requires At(s, m, i)
    ensures MaskFrom(m, i) == m[i..]
    decreases |s| - i
  {
    if i < |s| {
      var e := TokenEnd(s, i);
      AtNext(s, m, i);
      MaskedStays(s, m, e);
      if KindAt(s, i) == Code {
        CodeStaysCode(s, m, i);
        assert m[i..] == [m[i]] + m[i + 1..];
      } else {
        forall j | i <= j < e ensures m[j] == ' ' || m[j] == '\n' {
          assert m[j] == m[i..e][j - i];
        }
        BlanksStay(m, i, e);
        assert m[i..] == m[i..e] + m[e..];
      }
    }
  }

  /** A masked text has nothing left to mask. */
  lemma MaskIdempotent(s: string)
    ensures Mask(Mask(s)) == Mask(s)
  {
    AtStart(s);
    MaskedStays(s, Mask(s), 0);
  }

  // ---------------------------------------------------------------------------
  // The state machine

  datatype State = InCode | InLine | InBlock(depth: nat) | InText | InCharacter | InRaw(hashes: nat)

  /** Where the token that `state` is in the middle of ends. */
  function StateEnd(s: string, i: nat, state: State): (e: nat)
    requires i <= |s|
    ensures i <= e <= |s|
  {
    match state
    case InCode => i
    case InLine => LineEnd(s, i)
    case InBlock(depth) => BlockEnd(s, i, depth)
    case InText => QuoteEnd(s, i, '"')
    case InCharacter => QuoteEnd(s, i, '\'')
    case InRaw(hashes) => RawEnd(s, i, hashes)
  }

  /** What the machine still has to write from `i` on. */
  function Remaining(s: string, i: nat, state: State): (m: string)
    requires i <= |s|
    ensures |m| == |s| - i
  {
    var e := StateEnd(s, i, state);
    Blank(s[i..e]) + MaskFrom(s, e)
  }

  /** One step of the machine: how many characters it handles, and the next state. */
  function StepSize(s: string, i: nat, state: State): (n: nat)
    requires i < |s|
    ensures 1 <= n && i + n <= |s|
  {
    match state
    case InCode =>
      if Two(s, i, '/', '/') || Two(s, i, '/', '*') then 2
      else if s[i] == '"' || (s[i] == '\'' && CharOpens(s, i)) then 1
      else if RawOpens(s, i) then Hashes(s, i + 1) + 1 - i
      else 1
    case InLine => 1
    case InBlock(_) => if Two(s, i, '/', '*') || Two(s, i, '*', '/') then 2 else 1
    case InRaw(hashes) => if Closes(s, i, hashes) then 1 + hashes else 1
    case _ => if s[i] == '\\' && i + 1 < |s| then 2 else 1
  }

  function NextState(s: string, i: nat, state: State): (r: State)
    requires i < |s|
  {
    match state
    case InCode =>
      if Two(s, i, '/', '/') then InLine
      else if Two(s, i, '/', '*') then InBlock(1)
      else if s[i] == '"' then InText
      else if s[i] == '\'' && CharOpens(s, i) then InCharacter
      else if RawOpens(s, i) then InRaw(Hashes(s, i + 1) - i - 1)
      else InCode
    case InLine => if s[i] == '\n' then InCode else InLine
    case InBlock(depth) =>
      if Two(s, i, '/', '*') then InBlock(depth + 1)
      else if Two(s, i, '*', '/') then (if depth <= 1 then InCode else InBlock(depth - 1))
      else state
    case InText => if s[i] == '"' then InCode else InText
    case InCharacter => if s[i] == '\'' then InCode else InCharacter
    case InRaw(hashes) => if Closes(s, i, hashes) then InCode else state
  }

  /** The newline that ends a line comment is already code. */
  predicate InToken(s: string, i: nat, state: State)
    requires i < |s|
  {
    !(state == InCode && KindAt(s, i) == Code) && !(state == InLine && s[i] == '\n')
  }

  predicate StateOk(state: State) {
    state.InBlock? ==> state.depth > 0
  }

  lemma BlankSplit(a: string, b: string)
    ensures Blank(a + b) == Blank(a) + Blank(b)
  {
  }

  /** Inside a token a step does not change where the token ends. */
  lemma SameEnd(s: string, i: nat, state: State)
    requires i < |s| && StateOk(state) && state != InCode && !(state == InLine && s[i] == '\n')
    ensures StateEnd(s, i + StepSize(s, i, state), NextState(s, i, state)) == StateEnd(s, i, state)
    ensures i + StepSize(s, i, state) <= StateEnd(s, i, state)
  {
    match state
    case InLine =>
    case InBlock(depth) =>
      assert i + 2 <= |s| ==> BlockEnd(s, i + 2, 0) == i + 2;
    case InText =>
      assert QuoteEnd(s, |s|, '"') == |s|;
    case InCharacter =>
      assert QuoteEnd(s, |s|, '\'') == |s|;
    case InRaw(hashes) =>
  }

  /** A token that starts at `i` ends where its state says after the opening. */
  lemma OpensToken(s: string, i: nat)
    requires i < |s| && KindAt(s, i) != Code
    ensures StateEnd(s, i + StepSize(s, i, InCode), NextState(s, i, InCode)) == TokenEnd(s, i)
    ensures i + StepSize(s, i, InCode) <= TokenEnd(s, i)
  {
  }

  /** Blanking the rest of a token in two pieces. */
  lemma BlankInPieces(s: string, i: nat, k: nat, e: nat)
    requires i <= k <= e <= |s|
    ensures Blank(s[i..e]) + MaskFrom(s, e) == Blank(s[i..k]) + (Blank(s[k..e]) + MaskFrom(s, e))
  {
    assert s[i..e] == s[i..k] + s[k..e];
    BlankSplit(s[i..k], s[k..e]);
    Regroup(Blank(s[i..k]), Blank(s[k..e]), MaskFrom(s, e));
  }

  lemma NothingPending(s: string, i: nat)
    requires i <= |s|
    ensures Remaining(s, i, InCode) == MaskFrom(s, i)
  {
    assert s[i..i] == "" && Blank("") == "";
  }

  /** What a step writes at `i`. */
  function Piece(s: string, i: nat, state: State): (r: string)
    requires i < |s|
    ensures |r| == StepSize(s, i, state)
  {
    var t := s[i..i + StepSize(s, i, state)];
    if InToken(s, i, state) then Blank(t) else t
  }

  lemma CodeStepsOne(s: string, i: nat, state: State)
    requires i < |s| && !InToken(s, i, state)
    ensures StepSize(s, i, state) == 1 && NextState(s, i, state) == InCode
    ensures (state == InCode && KindAt(s, i) == Code) || (state == InLine && s[i] == '\n')
  {
    hide MaskFrom, TokenEnd;
  }

  lemma MaskCode(s: string, i: nat)
    requires i < |s| && KindAt(s, i) == Code
    ensures MaskFrom(s, i) == [s[i]] + MaskFrom(s, i + 1)
  {
  }

  lemma LineEnds(s: string, i: nat)
    requires i < |s| && s[i] == '\n'
    ensures Remaining(s, i, InLine) == MaskFrom(s, i)
  {
    hide MaskFrom, KindAt, TokenEnd;
    assert s[i..i] == "" && Blank("") == "";
  }

  lemma CodeStep(s: string, i: nat, state: State)
    requires i < |s| && !InToken(s, i, state)
    ensures Remaining(s, i, state) == Piece(s, i, state) + Remaining(s, i + 1, InCode)
    ensures StepSize(s, i, state) == 1 && NextState(s, i, state) == InCode
  {
    hide MaskFrom, KindAt, TokenEnd, StepSize, NextState, Remaining, InToken;
    CodeStepsOne(s, i, state);
    NothingPending(s, i);
    NothingPending(s, i + 1);
    assert s[i..i + 1] == [s[i]];
    if state == InLine {
      BlankIsCode(s, i);
      LineEnds(s, i);
    } else {
      MaskCode(s, i);
    }
  }

  lemma MaskToken(s: string, i: nat)
    requires i < |s| && KindAt(s, i) != Code
    ensures MaskFrom(s, i) == Blank(s[i..TokenEnd(s, i)]) + MaskFrom(s, TokenEnd(s, i))
  {
  }

  lemma RestOfToken(s: string, i: nat, k: nat, e: nat, next: State)
    requires i <= k <= e <= |s| && StateEnd(s, k, next) == e
    ensures Blank(s[i..e]) + MaskFrom(s, e) == Blank(s[i..k]) + Remaining(s, k, next)
  {
    BlankInPieces(s, i, k, e);
  }

  lemma TokenStep(s: string, i: nat, state: State)
    requires i < |s| && InToken(s, i, state) && StateOk(state)
    ensures Remaining(s, i, state) == Piece(s, i, state) + Remaining(s, i + StepSize(s, i, state), NextState(s, i, state))
  {
    hide StepSize, NextState, KindAt, TokenEnd, MaskFrom, Blank;
    var k, next := i + StepSize(s, i, state), NextState(s, i, state);
    if state == InCode {
      OpensToken(s, i);
      MaskToken(s, i);
      NothingPending(s, i);
      RestOfToken(s, i, k, TokenEnd(s, i), next);
      assert Piece(s, i, InCode) == Blank(s[i..k]);
    } else {
      SameEnd(s, i, state);
      RestOfToken(s, i, k, StateEnd(s, i, state), next);
    }
  }

  /** Each step writes the next piece of what remains. */
  lemma StepWrites(s: string, i: nat, state: State)
    requires i < |s| && StateOk(state)
    ensures StateOk(NextState(s, i, state))
    ensures Remaining(s, i, state) == Piece(s, i, state) + Remaining(s, i + StepSize(s, i, state), NextState(s, i, state))
  {
    assert StateOk(NextState(s, i, state));
    hide *;
    if InToken(s, i, state) {
      TokenStep(s, i, state);
    } else {
      CodeStep(s, i, state);
    }
  }

  method BlankOut(text: array<char>, lo: nat, hi: nat)
    requires lo <= hi <= text.Length
    modifies text
    ensures text[..] == old(text[..lo]) + Blank(old(text[lo..hi])) + old(text[hi..])
  {
    ghost var was := text[..];
    var j := lo;
    while j < hi
      invariant lo <= j <= hi
      invariant forall k :: 0 <= k < text.Length ==> text[k] == if lo <= k < j && was[k] != '\n' then ' ' else was[k]
    {
      if text[j] != '\n' {
        text[j] := ' ';
      }
      j := j + 1;
    }
  }

  /** One step in place: the text gains `piece`, and `later` is what is left to write after it. */
  method Advance(text: array<char>, source: string, index: nat, state: State, ghost done: string)
    returns (n: nat, next: State, ghost piece: string)
    requires index < |source| == text.Length && StateOk(state) && |done| == index && text[..] == done + source[index..]
    modifies text
    ensures 1 <= n == |piece| && index + n <= |source| && StateOk(next)
    ensures Remaining(source, index, state) == piece + Remaining(source, index + n, next)
    ensures text[..] == done + piece + source[index + n..]
  {
    hide Remaining, StepSize, NextState, InToken;
    StepWrites(source, index, state);
    n, next, piece := StepSize(source, index, state), NextState(source, index, state), Piece(source, index, state);
    WritePiece(text, source, index, n, InToken(source, index, state), done);
  }

  /** Blank or keep `n` characters in place. */
  method WritePiece(text: array<char>, source: string, index: nat, n: nat, blank: bool, ghost done: string)
    requires index + n <= |source| == text.Length && |done| == index && text[..] == done + source[index..]
    modifies text
    ensures text[..] == done + (if blank then Blank(source[index..index + n]) else source[index..index + n]) + source[index + n..]
  {
    var k := index + n;
    assert text[..index] == done && text[index..k] == source[index..k] && text[k..] == source[k..];
    if blank {
      BlankOut(text, index, k);
    } else {
      assert text[..] == text[..index] + text[index..k] + text[k..];
    }
  }

  method Copy(source: string) returns (text: array<char>)
    ensures fresh(text) && text[..] == source
  {
    text := new char[|source|](i requires 0 <= i < |source| => source[i]);
  }

  lemma MaskStarts(source: string)
    ensures "" + Remaining(source, 0, InCode) == Mask(source) && "" + source[0..] == source
  {
    NothingPending(source, 0);
    assert "" + Mask(source) == Mask(source);
  }

  lemma MaskEnds(source: string, state: State, done: string)
    ensures done + Remaining(source, |source|, state) == done && done + source[|source|..] == done
  {
    assert Remaining(source, |source|, state) == "" && source[|source|..] == "";
  }

  /** The masking loop over a mutable copy of the text. */
  method MaskedRust(source: string) returns (masked: string)
    ensures masked == Mask(source)
  {
    hide Remaining, Mask;
    var text := Copy(source);
    var index := 0;
    var state := InCode;
    ghost var done := "";
    MaskStarts(source);
    while index < |source|
      invariant 0 <= index <= |source| == text.Length && |done| == index && StateOk(state)
      invariant text[..] == done + source[index..]
      invariant done + Remaining(source, index, state) == Mask(source)
      decreases |source| - index
    {
      var n, next;
      ghost var piece;
      n, next, piece := Advance(text, source, index, state, done);
      Regroup(done, piece, Remaining(source, index + n, next));
      done := done + piece;
      index, state := index + n, next;
    }
    masked := text[..];
    MaskEnds(source, state, done);
  }

  // ---------------------------------------------------------------------------
  // The end of a test-only item

  /** `find`: the first `c` at or after `i`, or -1. */
  function FindChar(s: string, c: char, i: nat): (r: int)
    requires i <= |s|
    ensures r < 0 ==> forall j :: i <= j < |s| ==> s[j] != c
    ensures r >= 0 ==> i <= r < |s| && s[r] == c && forall j :: i <= j < r ==> s[j] != c
    decreases |s| - i
  {
    if i == |s| then -1 else if s[i] == c then i else FindChar(s, c, i + 1)
  }

  function SkipSpace(s: string, i: nat, space: char -> bool): (r: nat)
    requires i <= |s|
    ensures i <= r <= |s| && (r < |s| ==> !space(s[r])) && forall j :: i <= j < r ==> space(s[j])
    decreases |s| - i
  {
    if i < |s| && space(s[i]) then SkipSpace(s, i + 1, space) else i
  }

  /** From `i` on, space and then `#[` at `p`. */
  predicate AttributeAt(s: string, i: nat, p: nat, space: char -> bool) {
    i <= p && Two(s, p, '#', '[') && forall j :: i <= j < p ==> space(s[j])
  }

  /** `s[i..e]` is space and one attribute, up to its first closing bracket. */
  ghost predicate Attribute(s: string, i: nat, e: nat, space: char -> bool) {
    i < e <= |s| && s[e - 1] == ']' && exists p: nat :: AttributeAt(s, i, p, space) && p + 2 <= e - 1 && ']' !in s[p + 2..e - 1]
  }

  /** One attribute after the other, between the positions in `at`. */
  ghost predicate Attributes(s: string, at: seq<nat>, space: char -> bool) {
    at != [] && at[|at| - 1] <= |s| && forall k :: 0 < k < |at| ==> Attribute(s, at[k - 1], at[k], space)
  }

  /** The item starts behind all of the attributes and space, or the last attribute never closes. */
  ghost predicate ItemStarts(s: string, at: seq<nat>, start: int, space: char -> bool)
    requires Attributes(s, at, space)
  {
    var last := at[|at| - 1];
    if start >= 0 then
      && last <= start <= |s| && (forall j :: last <= j < start ==> space(s[j]))
      && (start < |s| ==> !space(s[start])) && !Two(s, start, '#', '[')
    else exists p: nat :: AttributeAt(s, last, p, space) && ']' !in s[p + 2..]
  }

  /** Opening minus closing braces in `s[lo..hi]`. */
  function Depth(s: string, lo: nat, hi: nat): (d: int)
    requires lo <= hi <= |s|
    decreases hi - lo
  {
    if lo == hi then 0
    else Depth(s, lo, hi - 1) + (if s[hi - 1] == '{' then 1 else if s[hi - 1] == '}' then -1 else 0)
  }

  /** Every brace opened at or after `open` stays unmatched up to `hi`. */
  ghost predicate Unmatched(s: string, open: nat, hi: nat)
    requires open <= hi <= |s|
  {
    forall k :: open < k <= hi ==> Depth(s, open, k) > 0
  }

  /** Skip the attributes between the marker and the item; -1 if one never closes. */
  method SkipAttributes(masked: string, after: nat, space: char -> bool) returns (start: int, at: seq<nat>)
    requires after <= |masked|
    ensures Attributes(masked, at, space) && at[0] == after && ItemStarts(masked, at, start, space)
    ensures start < 0 || after <= start <= |masked|
  {
    var cursor := after;
    var p := SkipSpace(masked, cursor, space);
    at := [after];
    while Two(masked, p, '#', '[')
      invariant after <= cursor <= |masked| && p == SkipSpace(masked, cursor, space)
      invariant Attributes(masked, at, space) && at[0] == after && at[|at| - 1] == cursor
      decreases |masked| - cursor
    {
      assert AttributeAt(masked, cursor, p, space);
      var close := FindChar(masked, ']', p + 2);
      if close < 0 {
        assert ']' !in masked[p + 2..];
        return -1, at;
      }
      assert Attribute(masked, cursor, close + 1, space);
      cursor := close + 1;
      at := at + [cursor];
      p := SkipSpace(masked, cursor, space);
    }
    start := p;
  }

  /** Just past the brace that matches the one at `open`, or the end of the text. */
  ghost predicate Matched(s: string, open: nat, end: nat)
    requires open < end <= |s|
  {
    || (s[end - 1] == '}' && Depth(s, open, end) == 0 && Unmatched(s, open, end - 1))
    || (end == |s| && Unmatched(s, open, end))
  }

  method MatchingBrace(masked: string, open: nat) returns (end: nat)
    requires open < |masked| && masked[open] == '{'
    ensures open < end <= |masked| && Matched(masked, open, end)
  {
    var depth := 1;
    var offset := open + 1;
    assert Depth(masked, open, offset) == 1 + Depth(masked, open, open);
    while offset < |masked|
      invariant open < offset <= |masked| && depth == Depth(masked, open, offset) && Unmatched(masked, open, offset)
    {
      if masked[offset] == '{' {
        depth := depth + 1;
      } else if masked[offset] == '}' {
        depth := depth - 1;
        if depth == 0 {
          return offset + 1;
        }
      }
      offset := offset + 1;
    }
    return |masked|;
  }

  /** Where the item that starts at `start` ends. */
  ghost predicate EndsAt(s: string, start: int, end: nat)
    requires start <= |s| && end <= |s|
  {
    if start < 0 then end == |s|
    else
      var semicolon, open := FindChar(s, ';', start), FindChar(s, '{', start);
      if semicolon >= 0 && (open < 0 || semicolon < open) then end == semicolon + 1
      else if open < 0 then end == |s|
      else open < end && Matched(s, open, end)
  }

  /** The attribute that ends at `after`, further ones and the item behind them end at `end`. */
  ghost predicate ItemSpans(s: string, after: nat, end: nat, space: char -> bool) {
    && after <= end <= |s|
    && exists at, start: int :: Attributes(s, at, space) && at[0] == after && start <= |s| && ItemStarts(s, at, start, space)
                                && EndsAt(s, start, end)
  }

  /**
   The item ends after its first semicolon if that comes before any brace, otherwise just
   past the brace that matches its first one, or with the text if there is no such place.
   */
  method ItemEnd(masked: string, after: nat, space: char -> bool) returns (end: nat)
    requires after <= |masked|
    ensures ItemSpans(masked, after, end, space)
  {
    hide Attributes, ItemStarts, Matched;
    var start, at := SkipAttributes(masked, after, space);
    end := |masked|;
    if start >= 0 {
      var semicolon := FindChar(masked, ';', start);
      var open := FindChar(masked, '{', start);
      if semicolon >= 0 && (open < 0 || semicolon < open) {
        end := semicolon + 1;
      } else if open >= 0 {
        end := MatchingBrace(masked, open);
      }
    }
    assert EndsAt(masked, start, end);
  }

  // ---------------------------------------------------------------------------
  // The production part of a source

  /** Part of a text, from `start` up to `end`. */
  datatype Span = Span(start: nat, end: nat)

  /** What scanning for a pattern gives: nonempty matches, one after the other. */
  ghost predicate Scans(s: string, found: seq<Span>) {
    && (forall i :: 0 <= i < |found| ==> found[i].start < found[i].end <= |s|)
    && (forall i, j :: 0 <= i < j < |found| ==> found[i].end <= found[j].start)
  }

  predicate Within(p: nat, spans: seq<Span>) {
    exists k :: 0 <= k < |spans| && spans[k].start <= p < spans[k].end
  }

  /** The characters of the first `n` that lie in none of the spans, in order. */
  function Outside(s: string, spans: seq<Span>, n: nat): (r: string)
    requires n <= |s|
  {
    if n == 0 then "" else Outside(s, spans, n - 1) + if Within(n - 1, spans) then "" else [s[n - 1]]
  }

  /** A stretch without spans is kept whole. */
  lemma {:induction false} OutsideKeeps(s: string, spans: seq<Span>, a: nat, b: nat)
    requires a <= b <= |s| && forall p :: a <= p < b ==> !Within(p, spans)
    ensures Outside(s, spans, b) == Outside(s, spans, a) + s[a..b]
    decreases b
  {
    hide Within;
    if a < b {
      OutsideKeeps(s, spans, a, b - 1);
      assert s[a..b] == s[a..b - 1] + [s[b - 1]];
    } else {
      assert s[a..b] == "";
    }
  }

  /** A stretch inside spans is dropped whole. */
  lemma {:induction false} OutsideDrops(s: string, spans: seq<Span>, a: nat, b: nat)
    requires a <= b <= |s| && forall p :: a <= p < b ==> Within(p, spans)
    ensures Outside(s, spans, b) == Outside(s, spans, a)
    decreases b
  {
    hide Within;
    if a < b {
      OutsideDrops(s, spans, a, b - 1);
    }
  }

  /** A span further on does not matter. */
  lemma {:induction false} OutsideEarlier(s: string, spans: seq<Span>, t: Span, n: nat)
    requires n <= |s| && n <= t.start
    ensures Outside(s, spans + [t], n) == Outside(s, spans, n)
  {
    if n > 0 {
      OutsideEarlier(s, spans, t, n - 1);
      WithinSnoc(spans, t, n - 1);
    }
  }

  lemma WithinSnoc(spans: seq<Span>, t: Span, p: nat)
    ensures Within(p, spans + [t]) <==> Within(p, spans) || t.start <= p < t.end
  {
    var all := spans + [t];
    if Within(p, spans) {
      var k :| 0 <= k < |spans| && spans[k].start <= p < spans[k].end;
      assert all[k] == spans[k];
    }
    if t.start <= p < t.end {
      assert all[|spans|] == t;
    }
  }

  /** The next item: the text up to it is kept, the item dropped. */
  lemma OutsideNext(s: string, spans: seq<Span>, cursor: nat, t: Span)
    requires cursor <= t.start < t.end <= |s| && forall k :: 0 <= k < |spans| ==> spans[k].end <= cursor
    ensures Outside(s, spans + [t], t.end) == Outside(s, spans, cursor) + s[cursor..t.start]
  {
    hide Outside;
    forall p | cursor <= p < t.end ensures Within(p, spans + [t]) <==> t.start <= p {
      WithinSnoc(spans, t, p);
    }
    hide Within;
    OutsideEarlier(s, spans, t, cursor);
    OutsideKeeps(s, spans + [t], cursor, t.start);
    OutsideDrops(s, spans + [t], t.start, t.end);
  }

  /** The items are test items of the text: each starts with a match and ends where that item does. */
  ghost predicate TestItems(s: string, found: seq<Span>, items: seq<Span>, space: char -> bool) {
    forall k :: 0 <= k < |items| ==> TestItem(s, found, items[k], space)
  }

  ghost predicate TestItem(s: string, found: seq<Span>, item: Span, space: char -> bool) {
    exists m :: m in found && m.start == item.start && m.end <= item.end && ItemSpans(s, m.end, item.end, space)
  }

  /** Every match lies in one of the items, as far as its start goes. */
  ghost predicate AllStartWithin(found: seq<Span>, n: nat, items: seq<Span>)
    requires n <= |found|
  {
    forall i :: 0 <= i < n ==> Within(found[i].start, items)
  }

  lemma OutsideNothing(s: string)
    ensures Outside(s, [], 0) == ""
  {
  }

  /** The first `i` matches are dealt with, by items that end at `cursor` and start before the other matches. */
  ghost predicate Progress(s: string, found: seq<Span>, items: seq<Span>, cursor: nat, i: nat, space: char -> bool) {
    && i <= |found| && Scans(s, items) && TestItems(s, found, items, space) && AllStartWithin(found, i, items)
    && cursor == (if items == [] then 0 else items[|items| - 1].end) <= |s|
    && (items != [] ==> forall j :: i <= j < |found| ==> items[|items| - 1].start <= found[j].start)
  }

  lemma ProgressStarts(s: string, found: seq<Span>, space: char -> bool)
    ensures Progress(s, found, [], 0, 0, space)
  {
  }

  lemma ProgressEnds(s: string, found: seq<Span>, items: seq<Span>, cursor: nat, i: nat, space: char -> bool)
    requires Progress(s, found, items, cursor, i, space)
    ensures forall k :: 0 <= k < |items| ==> items[k].end <= cursor
    ensures forall p :: cursor <= p ==> !Within(p, items)
  {
    forall k | 0 <= k < |items| ensures items[k].end <= cursor {
      if k < |items| - 1 {
        assert items[k].end <= items[|items| - 1].start;
      }
    }
  }

  lemma ProgressAdds(s: string, found: seq<Span>, items: seq<Span>, cursor: nat, i: nat, end: nat, space: char -> bool)
    requires Progress(s, found, items, cursor, i, space) && i < |found| && Scans(s, found)
    requires cursor <= found[i].start && ItemSpans(s, found[i].end, end, space)
    ensures found[i].end <= end <= |s| && Progress(s, found, items + [Span(found[i].start, end)], end, i + 1, space)
  {
    hide ItemSpans, TestItems, AllStartWithin, Within;
    var m := found[i];
    ItemGrows(s, m.end, end, space);
    var t := Span(m.start, end);
    ProgressEnds(s, found, items, cursor, i, space);
    AddItem(s, found, items, t, m, i, space);
    ScansSnoc(s, items, t);
  }

  lemma ScansSnoc(s: string, spans: seq<Span>, t: Span)
    requires Scans(s, spans) && t.start < t.end <= |s| && forall k :: 0 <= k < |spans| ==> spans[k].end <= t.start
    ensures Scans(s, spans + [t])
  {
  }

  lemma ItemGrows(s: string, after: nat, end: nat, space: char -> bool)
    requires ItemSpans(s, after, end, space)
    ensures after <= end <= |s|
  {
  }

  lemma FoundAt(s: string, found: seq<Span>, i: nat)
    requires Scans(s, found) && i < |found|
    ensures found[i].start < found[i].end <= |s|
  {
  }

  lemma ProgressSkips(s: string, found: seq<Span>, items: seq<Span>, cursor: nat, i: nat, space: char -> bool)
    requires Progress(s, found, items, cursor, i, space) && i < |found| && found[i].start < cursor
    ensures Progress(s, found, items, cursor, i + 1, space)
  {
    hide TestItems;
    assert Within(found[i].start, items);
  }

  lemma AddItem(s: string, found: seq<Span>, items: seq<Span>, t: Span, m: Span, i: nat, space: char -> bool)
    requires TestItems(s, found, items, space) && i < |found| && found[i] == m && AllStartWithin(found, i, items)
    requires t.start == m.start < m.end <= t.end && ItemSpans(s, m.end, t.end, space)
    ensures TestItems(s, found, items + [t], space) && AllStartWithin(found, i + 1, items + [t])
  {
    hide ItemSpans, Within;
    assert m in found;
    assert TestItem(s, found, t, space);
    forall j | 0 <= j < i + 1 ensures Within(found[j].start, items + [t]) {
      WithinSnoc(items, t, found[j].start);
    }
  }

  /**
   The masked source without its test items: these are disjoint and in order, each is a
   whole item behind a test attribute, every test attribute starts in one of them, and
   everything else is kept in order.
   */
  method ProductionSource(source: string, fileTest: bool, found: seq<Span>, space: char -> bool)
    returns (retained: string, items: seq<Span>)
    requires Scans(Mask(source), found)
    ensures fileTest ==> retained == ""
    ensures !fileTest ==>
              && retained == Outside(Mask(source), items, |Mask(source)|)
              && Scans(Mask(source), items) && TestItems(Mask(source), found, items, space) && AllStartWithin(found, |found|, items)
  {
    hide ItemSpans, Outside, Mask, Progress, Within, Scans, TestItems, AllStartWithin;
    var masked := MaskedRust(source);
    retained, items := "", [];
    if fileTest {
      return;
    }
    var cursor: nat, i := 0, 0;
    OutsideNothing(masked);
    ProgressStarts(masked, found, space);
    while i < |found|
      invariant 0 <= i <= |found| && cursor <= |masked| && retained == Outside(masked, items, cursor)
      invariant Progress(masked, found, items, cursor, i, space)
    {
      var m := found[i];
      FoundAt(masked, found, i);
      if m.start >= cursor {
        var end := ItemEnd(masked, m.end, space);
        ProgressEnds(masked, found, items, cursor, i, space);
        ProgressAdds(masked, found, items, cursor, i, end, space);
        OutsideNext(masked, items, cursor, Span(m.start, end));
        retained := retained + masked[cursor..m.start];
        items := items + [Span(m.start, end)];
        cursor := end;
      } else {
        ProgressSkips(masked, found, items, cursor, i, space);
      }
      i := i + 1;
    }
    ProgressEnds(masked, found, items, cursor, i, space);
    OutsideKeeps(masked, items, cursor, |masked|);
    ProgressDone(masked, found, items, cursor, space);
    retained := retained + masked[cursor..];
  }

  lemma ProgressDone(s: string, found: seq<Span>, items: seq<Span>, cursor: nat, space: char -> bool)
    requires Progress(s, found, items, cursor, |found|, space)
    ensures Scans(s, items) && TestItems(s, found, items, space) && AllStartWithin(found, |found|, items)
  {
  }
}
