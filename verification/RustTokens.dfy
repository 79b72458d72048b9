/**
 What the Rust masker (scripts/check-network-boundaries.py) blanks, by the spelling of Rust's
 comments and literals: nested comments, strings with escapes, raw strings, characters.
 */
module RustTokens {
  import opened Texts
  import opened Masker

  // ---------------------------------------------------------------------------
  // Spelling

  /** The inside of a block comment: single characters and whole comments. */
  datatype Part = Plain(c: char) | Nested(parts: seq<Part>)

  /** A character of a string, or one behind a backslash. */
  datatype Item = Literal(c: char) | Escaped(c: char)

  datatype Glyph = Simple(c: char) | Escape(c: char) | HexEscape(a: char, b: char) | Unicode(digits: string)

  datatype Token =
    | CodeChar(c: char) | LineComment(text: string) | BlockComment(parts: seq<Part>) | StringText(items: seq<Item>)
    | RawString(hashes: nat, body: string) | CharLiteral(glyph: Glyph)

  function Comment(parts: seq<Part>): (s: string) {
    "/*" + Inside(parts) + "*/"
  }

  function Inside(parts: seq<Part>): (s: string) {
    if parts == [] then ""
    else (match parts[0] case Plain(c) => [c] case Nested(inner) => "/*" + Inside(inner) + "*/") + Inside(parts[1..])
  }

  function Items(items: seq<Item>): (s: string) {
    if items == [] then "" else SpellItem(items[0]) + Items(items[1..])
  }

  function SpellItem(item: Item): (s: string) {
    match item case Literal(c) => [c] case Escaped(c) => ['\\', c]
  }

  function Repeat(n: nat): (s: string)
    ensures |s| == n && forall i :: 0 <= i < n ==> s[i] == '#'
  {
    seq(n, _ => '#')
  }

  function SpellGlyph(g: Glyph): (s: string) {
    match g
    case Simple(c) => [c]
    case Escape(c) => ['\\', c]
    case HexEscape(a, b) => ['\\', 'x', a, b]
    case Unicode(digits) => "\\u{" + digits + "}"
  }

  function Spell(t: Token): (s: string) {
    match t
    case CodeChar(c) => [c]
    case LineComment(text) => "//" + text
    case BlockComment(parts) => Comment(parts)
    case StringText(items) => "\"" + Items(items) + "\""
    case RawString(n, body) => "r" + Repeat(n) + "\"" + body + "\"" + Repeat(n)
    case CharLiteral(g) => "'" + SpellGlyph(g) + "'"
  }

  // ---------------------------------------------------------------------------
  // Which spellings are tokens

  /** No two characters of the inside are read as the start or the end of a comment. */
  predicate PartsOk(parts: seq<Part>) {
    parts == [] ||
    (&& PartsOk(parts[1..])
     && match parts[0]
        case Plain(c) =>
          var next := (Inside(parts[1..]) + "*/")[0];
          !(c == '/' && next == '*') && !(c == '*' && next == '/')
        case Nested(inner) => PartsOk(inner))
  }

  predicate ItemsOk(items: seq<Item>) {
    forall i :: 0 <= i < |items| && items[i].Literal? ==> items[i].c != '"' && items[i].c != '\\'
  }

  predicate GlyphOk(g: Glyph) {
    match g
    case Simple(c) => c !in {'\\', '\'', '\r', '\n'}
    case Escape(c) => c != '\n'
    case HexEscape(a, b) => Hex(a) && Hex(b)
    case Unicode(digits) => digits != "" && forall i :: 0 <= i < |digits| ==> Hex(digits[i]) || digits[i] == '_'
  }

  /** Some token other than code starts the text. */
  ghost predicate Opens(text: string) {
    || "//" <= text || "/*" <= text || "\"" <= text
    || (exists n: nat :: "r" + Repeat(n) + "\"" <= text)
    || (exists g :: GlyphOk(g) && "'" + SpellGlyph(g) + "'" <= text)
  }

  ghost predicate Fits(t: Token, rest: string) {
    match t
    case CodeChar(c) => !Opens([c] + rest)
    case LineComment(text) => '\n' !in text && (rest == "" || rest[0] == '\n')
    case BlockComment(parts) => PartsOk(parts)
    case StringText(items) => ItemsOk(items)
    case RawString(n, body) => Find(body + "\"" + Repeat(n), "\"" + Repeat(n)) == |body|
    case CharLiteral(g) => GlyphOk(g)
  }

  // ---------------------------------------------------------------------------
  // What is masked depends only on the text from there on

  lemma {:induction false} ShiftLine(a: string, b: string, i: nat)
    requires i <= |b|
    ensures LineEnd(a + b, |a| + i) == |a| + LineEnd(b, i)
    decreases |b| - i
  {
    if i < |b| && b[i] != '\n' {
      ShiftLine(a, b, i + 1);
    }
  }

  lemma ShiftTwo(a: string, b: string, i: nat, c: char, d: char)
    ensures Two(a + b, |a| + i, c, d) == Two(b, i, c, d)
  {
  }

  lemma {:induction false} ShiftBlock(a: string, b: string, i: nat, depth: nat)
    requires i <= |b|
    ensures BlockEnd(a + b, |a| + i, depth) == |a| + BlockEnd(b, i, depth)
    decreases |b| - i
  {
    if depth > 0 && i < |b| {
      ShiftTwo(a, b, i, '/', '*');
      ShiftTwo(a, b, i, '*', '/');
      if Two(b, i, '/', '*') {
        ShiftBlock(a, b, i + 2, depth + 1);
      } else if Two(b, i, '*', '/') {
        ShiftBlock(a, b, i + 2, depth - 1);
      } else {
        ShiftBlock(a, b, i + 1, depth);
      }
    }
  }

  lemma {:induction false} ShiftQuote(a: string, b: string, i: nat, quote: char)
    requires i <= |b|
    ensures QuoteEnd(a + b, |a| + i, quote) == |a| + QuoteEnd(b, i, quote)
    decreases |b| - i
  {
    if i < |b| {
      assert (a + b)[|a| + i] == b[i];
      if b[i] == '\\' {
        if i + 1 < |b| {
          ShiftQuote(a, b, i + 2, quote);
        }
      } else if b[i] != quote {
        ShiftQuote(a, b, i + 1, quote);
      }
    }
  }

  lemma {:induction false} ShiftHashes(a: string, b: string, i: nat)
    requires i <= |b|
    ensures Hashes(a + b, |a| + i) == |a| + Hashes(b, i)
    decreases |b| - i
  {
    if i < |b| && b[i] == '#' {
      ShiftHashes(a, b, i + 1);
    }
  }

  lemma ShiftCloses(a: string, b: string, i: nat, n: nat)
    ensures Closes(a + b, |a| + i, n) == Closes(b, i, n)
  {
    var s := a + b;
    if i + 1 + n <= |b| {
      assert s[|a| + i] == b[i];
      if Closes(s, |a| + i, n) {
        forall j | i < j <= i + n ensures b[j] == '#' {
          assert b[j] == s[|a| + j];
        }
      }
      if Closes(b, i, n) {
        forall j | |a| + i < j <= |a| + i + n ensures s[j] == '#' {
          assert s[j] == b[j - |a|];
        }
      }
    }
  }

  lemma {:induction false} ShiftRaw(a: string, b: string, i: nat, n: nat)
    requires i <= |b|
    ensures RawEnd(a + b, |a| + i, n) == |a| + RawEnd(b, i, n)
    decreases |b| - i
  {
    if i < |b| {
      hide Closes;
      ShiftCloses(a, b, i, n);
      if !Closes(b, i, n) {
        ShiftRaw(a, b, i + 1, n);
      }
    }
  }

  lemma {:induction false} ShiftHex(a: string, b: string, i: nat)
    requires i <= |b|
    ensures HexRun(a + b, |a| + i) == |a| + HexRun(b, i)
    decreases |b| - i
  {
    if i < |b| && (Hex(b[i]) || b[i] == '_') {
      ShiftHex(a, b, i + 1);
    }
  }

  lemma ShiftEscape(a: string, b: string, i: nat, e: nat)
    ensures EscapeTo(a + b, |a| + i, |a| + e) == EscapeTo(b, i, e)
  {
    hide HexRun, Hex;
    if i + 3 <= |b| {
      ShiftHex(a, b, i + 3);
    }
  }

  lemma ShiftChar(a: string, b: string, i: nat, e: nat)
    ensures CharTo(a + b, |a| + i, |a| + e) == CharTo(b, i, e)
  {
    hide EscapeTo;
    if e > 0 {
      ShiftEscape(a, b, i + 1, e - 1);
    }
  }

  lemma ShiftCharOpens(a: string, b: string, i: nat)
    ensures CharOpens(a + b, |a| + i) == CharOpens(b, i)
  {
    hide CharTo;
    ShiftChar(a, b, i, i + 3);
    ShiftChar(a, b, i, i + 4);
    ShiftChar(a, b, i, i + 6);
    if i + 4 <= |b| {
      ShiftHex(a, b, i + 4);
      ShiftChar(a, b, i, HexRun(b, i + 4) + 2);
    }
  }

  lemma ShiftKind(a: string, b: string, i: nat)
    requires i < |b|
    ensures KindAt(a + b, |a| + i) == KindAt(b, i)
  {
    hide CharOpens, Hashes;
    ShiftTwo(a, b, i, '/', '/');
    ShiftTwo(a, b, i, '/', '*');
    ShiftCharOpens(a, b, i);
    ShiftHashes(a, b, i + 1);
  }

  lemma ShiftEnd(a: string, b: string, i: nat)
    requires i < |b|
    ensures TokenEnd(a + b, |a| + i) == |a| + TokenEnd(b, i)
  {
    hide KindAt, LineEnd, BlockEnd, QuoteEnd, RawEnd, Hashes;
    ShiftKind(a, b, i);
    KindHasRoom(b, i);
    match KindAt(b, i)
    case Code =>
    case Line => ShiftLine(a, b, i + 2);
    case Block => ShiftBlock(a, b, i + 2, 1);
    case Text => ShiftQuote(a, b, i + 1, '"');
    case Character => ShiftQuote(a, b, i + 1, '\'');
    case Raw =>
      ShiftHashes(a, b, i + 1);
      ShiftRaw(a, b, Hashes(b, i + 1) + 1, Hashes(b, i + 1) - i - 1);
  }

  lemma KindHasRoom(s: string, i: nat)
    requires i < |s|
    ensures KindAt(s, i) == Kind.Line || KindAt(s, i) == Kind.Block ==> i + 2 <= |s|
    ensures KindAt(s, i) == Kind.Raw ==> Hashes(s, i + 1) < |s|
  {
  }

  lemma MaskNext(s: string, i: nat)
    requires i < |s|
    ensures MaskFrom(s, i) == Head(s, i) + MaskFrom(s, TokenEnd(s, i))
  {
    hide KindAt, TokenEnd, Head;
  }

  lemma ShiftHead(a: string, b: string, i: nat)
    requires i < |b|
    ensures Head(a + b, |a| + i) == Head(b, i)
  {
    hide KindAt, TokenEnd;
    ShiftKind(a, b, i);
    ShiftEnd(a, b, i);
    var e := TokenEnd(b, i);
    assert (a + b)[|a| + i..|a| + e] == b[i..e];
  }

  lemma {:induction false} ShiftMask(a: string, b: string, i: nat)
    requires i <= |b|
    ensures MaskFrom(a + b, |a| + i) == MaskFrom(b, i)
    decreases |b| - i
  {
    if i < |b| {
      hide *;
      MaskNext(b, i);
      MaskNext(a + b, |a| + i);
      ShiftHead(a, b, i);
      ShiftEnd(a, b, i);
      ShiftMask(a, b, TokenEnd(b, i));
    } else {
      hide KindAt, TokenEnd, Head;
    }
  }

  /** One token at the beginning of a text. */
  lemma MaskFirst(first: string, rest: string)
    requires first != "" && TokenEnd(first + rest, 0) == |first|
    ensures Mask(first + rest) == (if KindAt(first + rest, 0) == Kind.Code then [first[0]] else Blank(first)) + Mask(rest)
  {
    hide KindAt, TokenEnd, MaskFrom;
    var s := first + rest;
    MaskNext(s, 0);
    ShiftMask(first, rest, 0);
    assert s[0..|first|] == first;
  }

  // ---------------------------------------------------------------------------
  // Token by token

  lemma {:induction false} LineAt(s: string, i: nat, e: nat)
    requires i <= e <= |s| && '\n' !in s[i..e] && (e < |s| ==> s[e] == '\n')
    ensures LineEnd(s, i) == e
    decreases e - i
  {
    if i < e {
      assert s[i] == s[i..e][0];
      assert s[i + 1..e] == s[i..e][1..];
      LineAt(s, i + 1, e);
    }
  }

  lemma LineToken(text: string, rest: string)
    requires Fits(LineComment(text), rest)
    ensures var s := "//" + text + rest; KindAt(s, 0) == Kind.Line && TokenEnd(s, 0) == |text| + 2
  {
    hide LineEnd;
    var s := "//" + text + rest;
    assert s[0] == '/' && s[1] == '/';
    assert s[2..|text| + 2] == text;
    LineAt(s, 2, |text| + 2);
  }

  /** Nodes of a comment. */
  function Size(parts: seq<Part>): (n: nat) {
    if parts == [] then 0 else (match parts[0] case Plain(_) => 1 case Nested(inner) => 1 + Size(inner)) + Size(parts[1..])
  }

  /** The scan passes over the inside of a comment and comes back to the same depth. */
  lemma {:induction false} InsideScans(s: string, i: nat, depth: nat, parts: seq<Part>)
    requires PartsOk(parts) && depth > 0 && i <= |s| && Inside(parts) + "*/" <= s[i..]
    ensures i + |Inside(parts)| <= |s| && BlockEnd(s, i, depth) == BlockEnd(s, i + |Inside(parts)|, depth)
    decreases Size(parts)
  {
    hide BlockEnd, Two, Inside, PartsOk, Size;
    InsideIs(parts);
    if parts != [] {
      var later := Inside(parts[1..]);
      match parts[0]
      case Plain(c) =>
        InsideHead(s, i, [c], later);
        PlainScans(s, i, depth, c, later);
        InsideScans(s, i + 1, depth, parts[1..]);
      case Nested(inner) =>
        var text := Inside(inner);
        NestedHead(s, i, text, later);
        InsideScans(s, i + 2, depth + 1, inner);
        OpenScans(s, i, depth);
        CloseScans(s, i + 2 + |text|, depth + 1);
        InsideScans(s, i + 2 + |text| + 2, depth, parts[1..]);
    }
  }

  lemma InsideIs(parts: seq<Part>)
    requires PartsOk(parts)
    ensures parts == [] ==> Inside(parts) == ""
    ensures parts != [] ==> PartsOk(parts[1..]) && Size(parts[1..]) < Size(parts)
    ensures parts != [] && parts[0].Nested? ==> Size(parts[0].parts) < Size(parts)
    ensures parts != [] && parts[0].Plain? ==>
              && Inside(parts) == [parts[0].c] + Inside(parts[1..])
              && var next := (Inside(parts[1..]) + "*/")[0];
                 !(parts[0].c == '/' && next == '*') && !(parts[0].c == '*' && next == '/')
    ensures parts != [] && parts[0].Nested? ==>
              PartsOk(parts[0].parts) && Inside(parts) == "/*" + Inside(parts[0].parts) + "*/" + Inside(parts[1..])
  {
  }

  lemma InsideHead(s: string, i: nat, first: string, later: string)
    requires i <= |s| && first + later + "*/" <= s[i..]
    ensures i + |first| <= |s| && later + "*/" <= s[i + |first|..] && s[i..i + |first|] == first
  {
    assert s[i + |first|..] == s[i..][|first|..];
    assert (first + later + "*/")[|first|..] == later + "*/";
    assert s[i..i + |first|] == s[i..][..|first|] == first;
  }

  lemma PlainScans(s: string, i: nat, depth: nat, c: char, later: string)
    requires depth > 0 && i < |s| && s[i] == c && later + "*/" <= s[i + 1..]
    requires var next := (later + "*/")[0]; !(c == '/' && next == '*') && !(c == '*' && next == '/')
    ensures BlockEnd(s, i, depth) == BlockEnd(s, i + 1, depth)
  {
    assert s[i + 1] == s[i + 1..][0] == (later + "*/")[0];
  }

  lemma NestedHead(s: string, i: nat, inner: string, later: string)
    requires i <= |s| && "/*" + inner + "*/" + later + "*/" <= s[i..]
    ensures i + 2 <= |s| && Two(s, i, '/', '*') && inner + "*/" <= s[i + 2..]
    ensures i + 2 + |inner| + 2 <= |s| && Two(s, i + 2 + |inner|, '*', '/') && later + "*/" <= s[i + 2 + |inner| + 2..]
  {
    var all := "/*" + inner + "*/" + later + "*/";
    assert s[i + 2..] == s[i..][2..];
    assert all[2..] == inner + "*/" + later + "*/";
    assert s[i] == s[i..][0] == all[0] && s[i + 1] == s[i..][1] == all[1];
    var j := 2 + |inner|;
    assert s[i + j] == s[i..][j] == all[j] && s[i + j + 1] == s[i..][j + 1] == all[j + 1];
    assert s[i + j + 2..] == s[i..][j + 2..] && all[j + 2..] == later + "*/";
  }

  lemma CloseScans(s: string, i: nat, depth: nat)
    requires depth > 0 && Two(s, i, '*', '/')
    ensures BlockEnd(s, i, depth) == BlockEnd(s, i + 2, depth - 1)
  {
  }

  lemma OpenScans(s: string, i: nat, depth: nat)
    requires depth > 0 && Two(s, i, '/', '*')
    ensures BlockEnd(s, i, depth) == BlockEnd(s, i + 2, depth + 1)
  {
  }

  lemma BlockToken(parts: seq<Part>, rest: string)
    requires PartsOk(parts)
    ensures var s := Comment(parts) + rest; KindAt(s, 0) == Kind.Block && TokenEnd(s, 0) == |Comment(parts)|
  {
    hide BlockEnd;
    var s, inside := Comment(parts) + rest, Inside(parts);
    assert s[0] == '/' && s[1] == '*';
    assert s[2..] == inside + "*/" + rest;
    InsideScans(s, 2, 1, parts);
    var j := 2 + |inside|;
    assert s[j] == '*' && s[j + 1] == '/';
    CloseScans(s, j, 1);
    DepthZero(s, j + 2);
  }

  lemma DepthZero(s: string, i: nat)
    requires i <= |s|
    ensures BlockEnd(s, i, 0) == i
  {
  }

  /** The scan of a string passes over its items. */
  lemma {:induction false} ItemsScan(s: string, i: nat, items: seq<Item>)
    requires ItemsOk(items) && i <= |s| && Items(items) + "\"" <= s[i..]
    ensures i + |Items(items)| < |s| && QuoteEnd(s, i, '"') == i + |Items(items)| + 1
    decreases |items|
  {
    hide QuoteEnd;
    if items == [] {
      assert "" + "\"" == "\"";
      PrefixOf(s, i, "\"", "");
      QuoteCloses(s, i);
    } else {
      var first := SpellItem(items[0]);
      var later := Items(items[1..]) + "\"";
      Regroup(first, Items(items[1..]), "\"");
      PrefixOf(s, i, first, later);
      assert items[0] in items;
      ItemScans(s, i, items[0]);
      ItemsScan(s, i + |first|, items[1..]);
    }
  }

  lemma QuoteCloses(s: string, i: nat)
    requires i < |s| && s[i] == '"'
    ensures QuoteEnd(s, i, '"') == i + 1
  {
  }

  lemma ItemScans(s: string, i: nat, item: Item)
    requires i + |SpellItem(item)| < |s| && s[i..i + |SpellItem(item)|] == SpellItem(item)
    requires item.Literal? ==> item.c != '"' && item.c != '\\'
    ensures QuoteEnd(s, i, '"') == QuoteEnd(s, i + |SpellItem(item)|, '"')
  {
    var t := s[i..i + |SpellItem(item)|];
    assert t[0] == s[i] && SpellItem(item)[0] == s[i];
  }

  /** What starts with two texts has them one after the other. */
  lemma PrefixOf(s: string, i: nat, first: string, later: string)
    requires i <= |s| && first + later <= s[i..]
    ensures i + |first| <= |s| && s[i..i + |first|] == first && later <= s[i + |first|..]
    ensures first != "" ==> s[i] == first[0]
  {
    var t := s[i..];
    assert s[i..i + |first|] == t[..|first|] == (first + later)[..|first|] == first;
    assert s[i + |first|..] == t[|first|..];
    assert (first + later)[|first|..] == later;
  }

  lemma TextToken(items: seq<Item>, rest: string)
    requires ItemsOk(items)
    ensures var s := Spell(StringText(items)) + rest; KindAt(s, 0) == Kind.Text && TokenEnd(s, 0) == |Spell(StringText(items))|
  {
    hide QuoteEnd, Items, ItemsOk, CharOpens, RawOpens, LineEnd, BlockEnd, RawEnd, Hashes;
    var inside := Items(items);
    var s := Spell(StringText(items)) + rest;
    assert s[0] == '"' && s[1..] == inside + "\"" + rest;
    ItemsScan(s, 1, items);
  }

  lemma {:induction false} HashesAt(s: string, i: nat, n: nat)
    requires i + n < |s| && s[i + n] != '#' && forall j :: i <= j < i + n ==> s[j] == '#'
    ensures Hashes(s, i) == i + n
    decreases n
  {
    if n > 0 {
      HashesAt(s, i + 1, n - 1);
    }
  }

  lemma {:induction false} RawScans(s: string, i: nat, e: nat, n: nat)
    requires i <= e && Closes(s, e, n) && forall j :: i <= j < e ==> !Closes(s, j, n)
    ensures RawEnd(s, i, n) == e + 1 + n
    decreases e - i
  {
    if i < e {
      hide Closes;
      RawScans(s, i + 1, e, n);
    }
  }

  /** A terminator at a place is that word there. */
  lemma ClosesIs(s: string, i: nat, n: nat)
    ensures Closes(s, i, n) <==> OccursAt(s, "\"" + Repeat(n), i)
  {
    var word := "\"" + Repeat(n);
    if i + 1 + n <= |s| {
      var t := s[i..i + |word|];
      assert t[0] == s[i];
      if t == word {
        forall j | i < j <= i + n ensures s[j] == '#' {
          assert s[j] == t[j - i] == word[j - i];
        }
      }
      if Closes(s, i, n) {
        forall k | 0 <= k < |word| ensures t[k] == word[k] {}
        assert t == word;
      }
    }
  }

  lemma RawToken(n: nat, body: string, rest: string)
    requires Fits(RawString(n, body), rest)
    ensures var s := Spell(RawString(n, body)) + rest; KindAt(s, 0) == Kind.Raw && TokenEnd(s, 0) == |Spell(RawString(n, body))|
  {
    hide Hashes, RawEnd, Find;
    var word := "\"" + Repeat(n);
    var s := Spell(RawString(n, body)) + rest;
    var open := "r" + Repeat(n) + "\"";
    assert s == open + (body + word + rest);
    assert s[0] == 'r' && s[n + 1] == '"';
    assert forall j :: 1 <= j < n + 1 ==> s[j] == '#';
    HashesAt(s, 1, n);
    RawBody(open, body, rest, n);
    RawScans(s, n + 2, n + 2 + |body|, n);
  }

  lemma RawBody(open: string, body: string, rest: string, n: nat)
    requires Find(body + "\"" + Repeat(n), "\"" + Repeat(n)) == |body|
    ensures var s := open + (body + ("\"" + Repeat(n)) + rest);
            Closes(s, |open| + |body|, n) && forall j :: |open| <= j < |open| + |body| ==> !Closes(s, j, n)
  {
    hide Closes, Find;
    var word := "\"" + Repeat(n);
    assert body + "\"" + Repeat(n) == body + word;
    var s := open + (body + word + rest);
    forall j | |open| <= j <= |open| + |body| ensures Closes(s, j, n) <==> j == |open| + |body| {
      ClosesIs(s, j, n);
      OccursRight(open, body + word + rest, word, j);
      OccursLeft(body + word, rest, word, j - |open|);
    }
  }

  lemma {:induction false} HexRunAt(s: string, i: nat, e: nat)
    requires i <= e < |s| && !Hex(s[e]) && s[e] != '_' && forall j :: i <= j < e ==> Hex(s[j]) || s[j] == '_'
    ensures HexRun(s, i) == e
    decreases e - i
  {
    if i < e {
      HexRunAt(s, i + 1, e);
    }
  }

  lemma GlyphOpens(g: Glyph, rest: string)
    requires GlyphOk(g)
    ensures var s := "'" + SpellGlyph(g) + "'" + rest; CharTo(s, 0, |SpellGlyph(g)| + 2) && CharOpens(s, 0)
  {
    hide HexRun;
    var s, e := "'" + SpellGlyph(g) + "'" + rest, |SpellGlyph(g)| + 2;
    assert s[0] == '\'' && s[e - 1] == '\'';
    if g.Unicode? {
      assert s == "'\\u{" + g.digits + "}'" + rest;
      assert s[4 + |g.digits|] == '}';
      forall j | 4 <= j < 4 + |g.digits| ensures Hex(s[j]) || s[j] == '_' {
        assert s[j] == g.digits[j - 4];
      }
      HexRunAt(s, 4, 4 + |g.digits|);
    }
  }

  lemma CharToken(g: Glyph, rest: string)
    requires GlyphOk(g)
    ensures var s := Spell(CharLiteral(g)) + rest; KindAt(s, 0) == Kind.Character && TokenEnd(s, 0) == |Spell(CharLiteral(g))|
  {
    hide CharTo, CharOpens, QuoteEnd, LineEnd, BlockEnd, RawEnd, Hashes;
    var s := Spell(CharLiteral(g)) + rest;
    GlyphOpens(g, rest);
    CharScan(s, 0, |SpellGlyph(g)| + 2);
  }

  lemma {:induction false} HashRun(s: string, i: nat)
    requires i <= |s|
    ensures forall j :: i <= j < Hashes(s, i) ==> s[j] == '#'
    decreases |s| - i
  {
    if i < |s| && s[i] == '#' {
      HashRun(s, i + 1);
    }
  }

  lemma RawIsSpelled(s: string)
    requires RawOpens(s, 0)
    ensures exists n: nat :: "r" + Repeat(n) + "\"" <= s
  {
    hide Hashes;
    var q := Hashes(s, 1);
    HashRun(s, 1);
    var open := "r" + Repeat(q - 1) + "\"";
    assert s[..q + 1] == open;
  }

  lemma GlyphAt(s: string, e: nat) returns (g: Glyph)
    requires CharTo(s, 0, e)
    ensures GlyphOk(g) && "'" + SpellGlyph(g) + "'" <= s
  {
    hide HexRun, Hex;
    if !EscapeTo(s, 1, e - 1) {
      g := Simple(s[1]);
      assert s[..e] == ['\'', s[1], '\''];
    } else if s[2] == 'u' && Two(s, 2, 'u', '{') && 5 < e - 1 && s[e - 2] == '}' && HexRun(s, 4) == e - 2 {
      HexRunChars(s, 4);
      g := Unicode(s[4..e - 2]);
      assert s[..e] == ['\'', '\\', 'u', '{'] + s[4..e - 2] + ['}', '\''];
      assert "'" + SpellGlyph(g) + "'" == ['\'', '\\', 'u', '{'] + s[4..e - 2] + ['}', '\''];
    } else if s[2] == 'x' && e - 1 == 5 && Hex(s[3]) && Hex(s[4]) {
      g := HexEscape(s[3], s[4]);
      assert s[..e] == ['\'', '\\', 'x', s[3], s[4], '\''];
    } else {
      g := Escape(s[2]);
      assert s[..e] == ['\'', '\\', s[2], '\''];
    }
    assert s[..e] == "'" + SpellGlyph(g) + "'";
  }

  lemma CharIsSpelled(s: string)
    requires CharOpens(s, 0)
    ensures exists g :: GlyphOk(g) && "'" + SpellGlyph(g) + "'" <= s
  {
    hide CharTo;
    var e: nat := if CharTo(s, 0, 3) then 3 else if CharTo(s, 0, 4) then 4 else if CharTo(s, 0, 6) then 6 else HexRun(s, 4) + 2;
    var g := GlyphAt(s, e);
  }

  lemma KindOpens(s: string)
    requires s != "" && KindAt(s, 0) != Kind.Code
    ensures Opens(s)
  {
    hide CharOpens, RawOpens;
    if Two(s, 0, '/', '/') {
      assert s[..2] == "//";
    } else if Two(s, 0, '/', '*') {
      assert s[..2] == "/*";
    } else if s[0] == '"' {
      assert s[..1] == "\"";
    } else if CharOpens(s, 0) && s[0] == '\'' {
      CharIsSpelled(s);
    } else {
      RawIsSpelled(s);
    }
  }

  /** Where no token starts there is code. */
  lemma CodeIsPlain(s: string)
    requires s != "" && !Opens(s)
    ensures KindAt(s, 0) == Kind.Code && TokenEnd(s, 0) == 1
  {
    hide KindAt, Opens;
    if KindAt(s, 0) != Kind.Code {
      KindOpens(s);
    }
  }

  /** The token at the beginning of a text is the one that is spelled there. */
  lemma TokenSpans(t: Token, rest: string)
    requires Fits(t, rest)
    ensures var s := Spell(t) + rest;
            && Spell(t) != "" && TokenEnd(s, 0) == |Spell(t)| && (KindAt(s, 0) == Kind.Code <==> t.CodeChar?)
            && (t.CodeChar? ==> Spell(t)[0] == t.c)
  {
    hide KindAt, TokenEnd, Opens, PartsOk, ItemsOk, GlyphOk, Find, Inside, Items, SpellGlyph;
    match t
    case CodeChar(c) => CodeIsPlain([c] + rest);
    case LineComment(text) => LineToken(text, rest);
    case BlockComment(parts) => BlockToken(parts, rest);
    case StringText(items) => TextToken(items, rest);
    case RawString(n, body) => RawToken(n, body, rest);
    case CharLiteral(g) => CharToken(g, rest);
  }

  /**
   A token is blanked, newlines apart, and a character of code kept, and what follows is
   masked as if it stood alone.
   */
  lemma MaskToken(t: Token, rest: string)
    requires Fits(t, rest)
    ensures Mask(Spell(t) + rest) == (if t.CodeChar? then [t.c] else Blank(Spell(t))) + Mask(rest)
  {
    hide *;
    TokenSpans(t, rest);
    MaskFirst(Spell(t), rest);
  }

  // ---------------------------------------------------------------------------
  // Whole sources

  function SpellAll(ts: seq<Token>): (s: string) {
    if ts == [] then "" else Spell(ts[0]) + SpellAll(ts[1..])
  }

  /** Code stays, everything else is blanked. */
  function Masked(ts: seq<Token>): (s: string) {
    if ts == [] then "" else (if ts[0].CodeChar? then [ts[0].c] else Blank(Spell(ts[0]))) + Masked(ts[1..])
  }

  ghost predicate AllFit(ts: seq<Token>) {
    ts == [] || (Fits(ts[0], SpellAll(ts[1..])) && AllFit(ts[1..]))
  }

  lemma {:induction false} MaskOfTokens(ts: seq<Token>)
    requires AllFit(ts)
    ensures Mask(SpellAll(ts)) == Masked(ts)
  {
    hide Fits, Spell, Blank, MaskFrom;
    if ts == [] {
      MaskNothing();
    } else {
      hide Mask;
      MaskToken(ts[0], SpellAll(ts[1..]));
      MaskOfTokens(ts[1..]);
    }
  }

  lemma MaskNothing()
    ensures Mask("") == ""
  {
  }

  // ---------------------------------------------------------------------------
  // Tokens that never end

  /** The whole text is one token that runs to its end. */
  lemma MaskAllBlank(s: string)
    requires s != "" && KindAt(s, 0) != Kind.Code && TokenEnd(s, 0) == |s|
    ensures Mask(s) == Blank(s)
  {
    hide KindAt, TokenEnd, Blank;
    assert s + "" == s;
    MaskFirst(s, "");
    MaskNothing();
  }

  /** Either the inside of a comment ends here, or the scan runs to the end of the text. */
  lemma {:induction false} ParseInside(s: string, i: nat) returns (closed: bool, parts: seq<Part>)
    requires i <= |s|
    ensures closed ==> PartsOk(parts) && Inside(parts) + "*/" <= s[i..]
    ensures !closed ==> forall depth: nat :: depth > 0 ==> BlockEnd(s, i, depth) == |s|
    decreases |s| - i
  {
    if i == |s| {
      closed, parts := false, [];
    } else if Two(s, i, '/', '*') {
      var c1, p1 := ParseInside(s, i + 2);
      if c1 {
        var j := i + 2 + |Inside(p1)| + 2;
        closed, parts := ParseNested(s, i, p1, j);
      } else {
        closed, parts := false, [];
      }
    } else if Two(s, i, '*', '/') {
      closed, parts := true, [];
      assert s[i..][..2] == "*/";
    } else {
      var c, p := ParseInside(s, i + 1);
      closed, parts := c, [Plain(s[i])] + p;
      if c {
        PlainParsed(s, i, p);
      }
    }
  }

  lemma PlainParsed(s: string, i: nat, p: seq<Part>)
    requires i < |s| && !Two(s, i, '/', '*') && !Two(s, i, '*', '/') && PartsOk(p) && Inside(p) + "*/" <= s[i + 1..]
    ensures var parts := [Plain(s[i])] + p; PartsOk(parts) && Inside(parts) + "*/" <= s[i..]
  {
    var parts := [Plain(s[i])] + p;
    var inside := Inside(p);
    assert parts[1..] == p;
    assert s[i + 1] == s[i + 1..][0] == (inside + "*/")[0];
    assert s[i..] == [s[i]] + s[i + 1..];
    assert Inside(parts) == [s[i]] + inside;
    Regroup([s[i]], inside, "*/");
  }

  lemma ParseNested(s: string, i: nat, p1: seq<Part>, j: nat) returns (closed: bool, parts: seq<Part>)
    requires i + 2 <= |s| && Two(s, i, '/', '*') && PartsOk(p1) && Inside(p1) + "*/" <= s[i + 2..]
    requires j == i + 2 + |Inside(p1)| + 2
    ensures closed ==> PartsOk(parts) && Inside(parts) + "*/" <= s[i..]
    ensures !closed ==> forall depth: nat :: depth > 0 ==> BlockEnd(s, i, depth) == |s|
    decreases |s| - i, 0
  {
    hide BlockEnd, PartsOk, Inside;
    var inside := Inside(p1);
    PrefixOf(s, i + 2, inside, "*/");
    assert s[j - 2] == s[j - 2..][0] && s[j - 1] == s[j - 2..][1];
    var c2, p2 := ParseInside(s, j);
    closed, parts := c2, [Nested(p1)] + p2;
    if c2 {
      NestedParsed(s, i, p1, p2, j);
    } else {
      forall depth: nat | depth > 0 ensures BlockEnd(s, i, depth) == |s| {
        OpenScans(s, i, depth);
        InsideScans(s, i + 2, depth + 1, p1);
        CloseScans(s, j - 2, depth + 1);
      }
    }
  }

  lemma NestedParsed(s: string, i: nat, p1: seq<Part>, p2: seq<Part>, j: nat)
    requires PartsOk(p1) && PartsOk(p2) && j == i + 2 + |Inside(p1)| + 2 <= |s| && Two(s, i, '/', '*')
    requires Inside(p1) + "*/" <= s[i + 2..] && Inside(p2) + "*/" <= s[j..]
    ensures var parts := [Nested(p1)] + p2; PartsOk(parts) && Inside(parts) + "*/" <= s[i..]
  {
    var parts := [Nested(p1)] + p2;
    assert parts[1..] == p2;
    assert PartsOk(parts);
    assert Inside(parts) == "/*" + Inside(p1) + "*/" + Inside(p2);
    hide PartsOk, Inside;
    NestedText(s, i, Inside(p1), Inside(p2), j);
  }

  lemma NestedText(s: string, i: nat, a: string, b: string, j: nat)
    requires j == i + 2 + |a| + 2 <= |s| && Two(s, i, '/', '*') && a + "*/" <= s[i + 2..] && b + "*/" <= s[j..]
    ensures "/*" + a + "*/" + b + "*/" <= s[i..]
  {
    var t := a + "*/";
    assert s[i + 2..j] == s[i + 2..][..|t|] == t;
    assert s[i..i + 2] == "/*";
    assert s[i..] == s[i..i + 2] + s[i + 2..j] + s[j..];
    assert "/*" + a + "*/" + b + "*/" == "/*" + t + (b + "*/");
  }

  /** A comment of which no beginning is complete is blanked to the end of the text. */
  lemma OpenComment(s: string)
    requires "/*" <= s && forall parts :: PartsOk(parts) ==> !(Comment(parts) <= s)
    ensures Mask(s) == Blank(s)
  {
    hide BlockEnd, PartsOk, Comment, CharOpens, RawOpens;
    var closed, parts := ParseComment(s);
    assert s[0] == '/' && s[1] == '*';
    MaskAllBlank(s);
  }

  lemma ParseComment(s: string) returns (closed: bool, parts: seq<Part>)
    requires "/*" <= s
    ensures if closed then PartsOk(parts) && Comment(parts) <= s else BlockEnd(s, 2, 1) == |s|
  {
    hide BlockEnd, PartsOk, Inside;
    closed, parts := ParseInside(s, 2);
    if closed {
      assert s == "/*" + s[2..];
      Regroup("/*", Inside(parts), "*/");
    }
  }

  lemma {:induction false} ItemsRunOut(s: string, i: nat, items: seq<Item>, tail: string)
    requires ItemsOk(items) && i <= |s| && (tail == "" || tail == "\\") && s[i..] == Items(items) + tail
    ensures QuoteEnd(s, i, '"') == |s|
    decreases |items|
  {
    hide QuoteEnd;
    if items == [] {
      assert Items(items) + tail == tail;
      TailRunsOut(s, i, tail);
    } else {
      var first, later := SpellItem(items[0]), Items(items[1..]) + tail;
      Regroup(first, Items(items[1..]), tail);
      TailIs(s, i, first, later);
      assert items[0] in items;
      ItemsRunOut(s, i + |first|, items[1..], tail);
      ItemPasses(s, i, items[0]);
    }
  }

  lemma TailRunsOut(s: string, i: nat, tail: string)
    requires i <= |s| && (tail == "" || tail == "\\") && s[i..] == tail
    ensures QuoteEnd(s, i, '"') == |s|
  {
    assert tail != "" ==> s[i] == tail[0];
  }

  lemma TailIs(s: string, i: nat, first: string, later: string)
    requires i <= |s| && s[i..] == first + later
    ensures i + |first| <= |s| && s[i..i + |first|] == first && s[i + |first|..] == later
  {
    PrefixOf(s, i, first, later);
    assert s[i..][|first|..] == s[i + |first|..];
    assert (first + later)[|first|..] == later;
  }

  lemma ItemPasses(s: string, i: nat, item: Item)
    requires i + |SpellItem(item)| <= |s| && s[i..i + |SpellItem(item)|] == SpellItem(item)
    requires item.Literal? ==> item.c != '"' && item.c != '\\'
    ensures QuoteEnd(s, i, '"') == QuoteEnd(s, i + |SpellItem(item)|, '"')
  {
    var t := s[i..i + |SpellItem(item)|];
    assert t[0] == s[i] && SpellItem(item)[0] == s[i];
  }

  /** A string without its closing quote, perhaps with a last backslash, is blanked to the end of the text. */
  lemma OpenString(items: seq<Item>, tail: string)
    requires ItemsOk(items) && (tail == "" || tail == "\\")
    ensures var s := "\"" + Items(items) + tail; Mask(s) == Blank(s)
  {
    hide QuoteEnd, Items, ItemsOk, CharOpens, RawOpens;
    var inside := Items(items);
    var s := "\"" + inside + tail;
    assert s[0] == '"' && s[1..] == inside + tail;
    ItemsRunOut(s, 1, items, tail);
    MaskAllBlank(s);
  }

  lemma {:induction false} RawRunsOut(s: string, i: nat, n: nat)
    requires i <= |s| && forall j :: i <= j < |s| ==> !Closes(s, j, n)
    ensures RawEnd(s, i, n) == |s|
    decreases |s| - i
  {
    if i < |s| {
      hide Closes;
      RawRunsOut(s, i + 1, n);
    }
  }

  /** A raw string without its terminator is blanked to the end of the text. */
  lemma OpenRaw(n: nat, body: string)
    requires !Contains(body, "\"" + Repeat(n))
    ensures var s := "r" + Repeat(n) + "\"" + body; Mask(s) == Blank(s)
  {
    hide Hashes, RawEnd;
    var word, open := "\"" + Repeat(n), "r" + Repeat(n) + "\"";
    var s := open + body;
    assert s[0] == 'r' && s[n + 1] == '"';
    assert forall j :: 1 <= j < n + 1 ==> s[j] == '#';
    HashesAt(s, 1, n);
    forall j | n + 2 <= j < |s| ensures !Closes(s, j, n) {
      ClosesIs(s, j, n);
      OccursRight(open, body, word, j);
    }
    RawRunsOut(s, n + 2, n);
    MaskAllBlank(s);
  }
}
