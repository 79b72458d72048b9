/**
 What the encodings of the presentation validator's size counters spell: reading them back,
 by section 3 of RFC 3629 and by RFC 8259, gives the value that was counted.
 */
module JsonReading {
  import opened Options
  import opened Texts
  import opened JsonSize

  // ---------------------------------------------------------------------------
  // Reading UTF-8

  /** What was read, and the bytes behind it. */
  type Found<T> = Option<(T, seq<Byte>)>

  predicate Continued(b: seq<Byte>, n: nat) {
    |b| > n && forall i :: 1 <= i <= n ==> 0x80 <= b[i] < 0xC0
  }

  /** The two code units of a code point beyond the first plane. */
  function Surrogates(p: int): (s: seq<Unit>)
    requires 0x10000 <= p < 0x110000
  {
    [0xD800 + (p - 0x10000) / 0x400, 0xDC00 + p % 0x400]
  }

  function One(u: Unit, rest: seq<Byte>): (r: Found<seq<Unit>>) {
    Some(([u], rest))
  }

  /** One character of one to four bytes, as code units. */
  function ReadChar(b: seq<Byte>): (r: Found<seq<Unit>>)
    ensures r.Some? ==> |r.value.1| < |b|
  {
    if b == [] then None
    else if b[0] < 0x80 then One(b[0], b[1..])
    else if 0xC0 <= b[0] < 0xE0 && Continued(b, 1) then
      One((b[0] as int - 0xC0) * 0x40 + (b[1] - 0x80), b[2..])
    else if 0xE0 <= b[0] < 0xF0 && Continued(b, 2) then
      One((b[0] as int - 0xE0) * 0x1000 + (b[1] as int - 0x80) * 0x40 + (b[2] - 0x80), b[3..])
    else if 0xF0 <= b[0] && Continued(b, 3) then
      var p := (b[0] as int - 0xF0) * 0x40000 + (b[1] as int - 0x80) * 0x1000 + (b[2] as int - 0x80) * 0x40 + (b[3] - 0x80);
      if 0x10000 <= p < 0x110000 then Some((Surrogates(p), b[4..])) else None
    else None
  }

  function ReadText(b: seq<Byte>): (r: Option<seq<Unit>>)
    decreases |b|
  {
    if b == [] then Some([])
    else
      match ReadChar(b)
      case None => None
      case Some((us, rest)) =>
        match ReadText(rest)
        case None => None
        case Some(more) => Some(us + more)
  }

  lemma UnitReads(u: Unit, rest: seq<Byte>)
    ensures ReadChar(Utf8Unit(u) + rest) == Some(([u], rest)) && |Utf8Unit(u)| > 0
  {
    var e := Utf8Unit(u);
    var b := e + rest;
    assert b[|e|..] == rest;
    assert forall i :: 0 <= i < |e| ==> b[i] == e[i];
  }

  lemma PairReads(h: Unit, l: Unit, rest: seq<Byte>)
    requires High(h) && Low(l)
    ensures ReadChar(Utf8Pair(h, l) + rest) == Some(([h, l], rest))
  {
    var e := Utf8Pair(h, l);
    var b := e + rest;
    assert b[4..] == rest;
    assert forall i :: 0 <= i < 4 ==> b[i] == e[i];
    var p := 0x10000 + (h - 0xD800) * 0x400 + (l - 0xDC00);
    PointBytes(p);
    assert Surrogates(p) == [h, l];
  }

  lemma PointBytes(p: int)
    requires 0x10000 <= p < 0x110000
    ensures p == p / 0x40000 * 0x40000 + p / 0x1000 % 0x40 * 0x1000 + p / 0x40 % 0x40 * 0x40 + p % 0x40
    ensures 0 <= p / 0x40000 <= 4
  {
  }

  /** UTF-8 text reads back as the code units it was made of. */
  lemma {:induction false} TextReads(s: seq<Unit>, i: nat)
    requires i <= |s|
    ensures ReadText(Utf8(s, i)) == Some(s[i..])
    decreases |s| - i
  {
    hide ReadChar, Utf8Unit, Utf8Pair;
    if i == |s| {
      assert s[i..] == [];
    } else {
      if PairAt(s, i) {
        TextReads(s, i + 2);
        PairReads(s[i], s[i + 1], Utf8(s, i + 2));
        TextMore(Utf8(s, i), [s[i], s[i + 1]], Utf8(s, i + 2), s[i + 2..]);
        assert s[i..] == [s[i], s[i + 1]] + s[i + 2..];
      } else {
        TextReads(s, i + 1);
        UnitReads(s[i], Utf8(s, i + 1));
        TextMore(Utf8(s, i), [s[i]], Utf8(s, i + 1), s[i + 1..]);
        assert s[i..] == [s[i]] + s[i + 1..];
      }
    }
  }

  lemma TextMore(b: seq<Byte>, us: seq<Unit>, rest: seq<Byte>, more: seq<Unit>)
    requires ReadChar(b) == Some((us, rest)) && ReadText(rest) == Some(more)
    ensures ReadText(b) == Some(us + more)
  {
    hide ReadChar;
  }

  // ---------------------------------------------------------------------------
  // Reading strings

  function HexValue(b: Byte): (n: int) {
    if 48 <= b <= 57 then b - 48 else if 97 <= b <= 102 then b - 87 else if 65 <= b <= 70 then b - 55 else -1
  }

  /** The code unit behind a backslash, with the bytes it takes. */
  function Escape(b: seq<Byte>): (r: Found<seq<Unit>>)
    ensures r.Some? ==> |r.value.1| < |b|
  {
    if b == [] then None
    else if b[0] == 34 || b[0] == 92 || b[0] == 47 then One(b[0], b[1..])
    else if b[0] == 98 then One(8, b[1..])
    else if b[0] == 116 then One(9, b[1..])
    else if b[0] == 110 then One(10, b[1..])
    else if b[0] == 102 then One(12, b[1..])
    else if b[0] == 114 then One(13, b[1..])
    else if b[0] == 117 && |b| >= 5 && forall i :: 1 <= i <= 4 ==> HexValue(b[i]) >= 0 then
      One(HexValue(b[1]) * 0x1000 + HexValue(b[2]) * 0x100 + HexValue(b[3]) * 16 + HexValue(b[4]), b[5..])
    else None
  }

  /** The characters up to the closing quote; controls have to be escaped. */
  function ReadChars(b: seq<Byte>): (r: Found<seq<Unit>>)
    ensures r.Some? ==> |r.value.1| < |b|
    decreases |b|
  {
    if b == [] || b[0] < 32 then None
    else if b[0] == 34 then Some(([], b[1..]))
    else
      match if b[0] == 92 then Escape(b[1..]) else ReadChar(b)
      case None => None
      case Some((us, rest)) =>
        match ReadChars(rest)
        case None => None
        case Some((more, end)) => Some((us + more, end))
  }

  lemma HexReads(n: int)
    requires 0 <= n < 16
    ensures HexValue(HexDigit(n)) == n
  {
  }

  lemma HexSum(u: Unit)
    ensures u == u / 0x1000 * 0x1000 + u / 0x100 % 16 * 0x100 + u / 16 % 16 * 16 + u % 16
    ensures u / 0x1000 < 16
  {
  }

  lemma DigitsRead(i: nat, j: nat, k: nat, l: nat, rest: seq<Byte>)
    requires i < 16 && j < 16 && k < 16 && l < 16
    ensures var u: Unit := i * 0x1000 + j * 0x100 + k * 16 + l;
            Escape([117, HexDigit(i), HexDigit(j), HexDigit(k), HexDigit(l)] + rest) == Some(([u], rest))
  {
    hide HexDigit, HexValue;
    var b := [117, HexDigit(i), HexDigit(j), HexDigit(k), HexDigit(l)] + rest;
    assert b[0] == 117 && b[1] == HexDigit(i) && b[2] == HexDigit(j) && b[3] == HexDigit(k) && b[4] == HexDigit(l);
    assert b[5..] == rest;
    HexReads(i);
    HexReads(j);
    HexReads(k);
    HexReads(l);
  }

  lemma LongReads(u: Unit, rest: seq<Byte>)
    ensures Escape((LongEscape(u) + rest)[1..]) == Some(([u], rest))
  {
    hide HexDigit, HexValue, Escape;
    var e := LongEscape(u);
    assert (e + rest)[1..] == [117, e[2], e[3], e[4], e[5]] + rest;
    HexSum(u);
    DigitsRead(u / 0x1000, u / 0x100 % 16, u / 16 % 16, u % 16, rest);
  }

  lemma ShortReads(u: Unit, rest: seq<Byte>)
    requires ShortEscape(u) != []
    ensures Escape((ShortEscape(u) + rest)[1..]) == Some(([u], rest))
  {
    var e := ShortEscape(u);
    var b := (e + rest)[1..];
    assert b == [e[1]] + rest;
    assert b[1..] == rest;
  }

  /** One code unit of a string reads back, in whatever form it is written. */
  lemma CharReads(u: Unit, rest: seq<Byte>)
    ensures var b := JsonUnit(u) + rest;
            && |JsonUnit(u)| > 0 && b[0] >= 32 && b[0] != 34
            && (if b[0] == 92 then Escape(b[1..]) else ReadChar(b)) == Some(([u], rest))
  {
    hide Escape, ReadChar;
    if ShortEscape(u) != [] {
      ShortReads(u, rest);
    } else if u < 32 || High(u) || Low(u) {
      LongReads(u, rest);
    } else {
      UnitReads(u, rest);
    }
  }

  lemma {:induction false} CharsRead(s: seq<Unit>, i: nat, rest: seq<Byte>)
    requires i <= |s|
    ensures ReadChars(JsonChars(s, i) + ([34] + rest)) == Some((s[i..], rest))
    decreases |s| - i
  {
    hide Escape, ReadChar, JsonUnit, Utf8Pair;
    var b := JsonChars(s, i) + ([34] + rest);
    if i == |s| {
      assert b == [34] + rest && b[1..] == rest && s[i..] == [];
    } else if PairAt(s, i) {
      CharsRead(s, i + 2, rest);
      var after := JsonChars(s, i + 2) + ([34] + rest);
      assert b == Utf8Pair(s[i], s[i + 1]) + after;
      PairReads(s[i], s[i + 1], after);
      PairStarts(s[i], s[i + 1], after);
      assert s[i..] == [s[i], s[i + 1]] + s[i + 2..];
    } else {
      CharsRead(s, i + 1, rest);
      var after := JsonChars(s, i + 1) + ([34] + rest);
      assert b == JsonUnit(s[i]) + after;
      CharReads(s[i], after);
      assert s[i..] == [s[i]] + s[i + 1..];
    }
  }

  lemma PairStarts(h: Unit, l: Unit, rest: seq<Byte>)
    requires High(h) && Low(l)
    ensures (Utf8Pair(h, l) + rest)[0] >= 0xF0
  {
  }

  /** A string behind its opening quote. */
  lemma StringReads(s: seq<Unit>, rest: seq<Byte>)
    ensures var b := JsonString(s) + rest;
            b[0] == 34 && ReadChars(b[1..]) == Some((s, rest))
  {
    hide ReadChars, JsonChars;
    CharsRead(s, 0, rest);
    assert s[0..] == s;
    assert (JsonString(s) + rest)[1..] == JsonChars(s, 0) + ([34] + rest);
  }

  // ---------------------------------------------------------------------------
  // Reading values

  /** Digits, signs, the point and the exponent. */
  predicate NumberByte(b: Byte) {
    48 <= b <= 57 || b == 45 || b == 43 || b == 46 || b == 101 || b == 69
  }

  function NumberEnd(b: seq<Byte>): (n: nat)
    ensures n <= |b|
  {
    if b != [] && NumberByte(b[0]) then 1 + NumberEnd(b[1..]) else 0
  }

  /** A value in front of a text, by the grammar of RFC 8259 without white space. */
  function ReadValue(b: seq<Byte>): (r: Found<Json>)
    ensures r.Some? ==> |r.value.1| < |b|
    decreases |b|, 0
  {
    if NULL <= b then Some((Null, b[4..]))
    else if TRUE <= b then Some((Flag(true), b[4..]))
    else if FALSE <= b then Some((Flag(false), b[5..]))
    else if b == [] then None
    else if b[0] == 34 then
      match ReadChars(b[1..])
      case None => None
      case Some((s, rest)) => Some((Str(s), rest))
    else if b[0] == 91 then
      if |b| > 1 && b[1] == 93 then Some((Arr([]), b[2..]))
      else
        match ReadItems(b[1..])
        case None => None
        case Some((items, rest)) => Some((Arr(items), rest))
    else if b[0] == 123 then
      if |b| > 1 && b[1] == 125 then Some((Obj([]), b[2..]))
      else
        match ReadMembers(b[1..])
        case None => None
        case Some((members, rest)) => Some((Obj(members), rest))
    else
      var n := NumberEnd(b);
      if n == 0 then None else Some((Number(b[..n]), b[n..]))
  }

  /** Values with commas between them, up to the closing bracket. */
  function ReadItems(b: seq<Byte>): (r: Found<seq<Json>>)
    ensures r.Some? ==> |r.value.1| < |b|
    decreases |b|, 1
  {
    match ReadValue(b)
    case None => None
    case Some((v, rest)) =>
      if rest != [] && rest[0] == 93 then Some(([v], rest[1..]))
      else if rest != [] && rest[0] == 44 then
        match ReadItems(rest[1..])
        case None => None
        case Some((more, end)) => Some(([v] + more, end))
      else None
  }

  /** A key, a colon and a value. */
  function ReadMember(b: seq<Byte>): (r: Found<Member>)
    ensures r.Some? ==> |r.value.1| < |b|
    decreases |b|, 1
  {
    if b == [] || b[0] != 34 then None
    else
      match ReadChars(b[1..])
      case None => None
      case Some((key, rest)) =>
        if rest == [] || rest[0] != 58 then None
        else
          match ReadValue(rest[1..])
          case None => None
          case Some((v, end)) => Some((Member(key, v), end))
  }

  /** Members with commas between them, up to the closing brace. */
  function ReadMembers(b: seq<Byte>): (r: Found<seq<Member>>)
    ensures r.Some? ==> |r.value.1| < |b|
    decreases |b|, 2
  {
    match ReadMember(b)
    case None => None
    case Some((m, rest)) =>
      if rest != [] && rest[0] == 125 then Some(([m], rest[1..]))
      else if rest != [] && rest[0] == 44 then
        match ReadMembers(rest[1..])
        case None => None
        case Some((more, end)) => Some(([m] + more, end))
      else None
  }

  // ---------------------------------------------------------------------------
  // What is spelled

  /** The value as JSON holds it: undefined members are gone, what has no spelling is null. */
  function Normal(v: Json): (r: Json)
    decreases v, 0
  {
    match v
    case Arr(items) => Arr(NormalItems(items, 0))
    case Obj(members) => Obj(NormalMembers(members, 0))
    case Undefined => Null
    case NotFinite => Null
    case Alien => Null
    case _ => v
  }

  function NormalItems(items: seq<Json>, i: nat): (r: seq<Json>)
    requires i <= |items|
    ensures |r| == |items| - i
    decreases items, |items| - i
  {
    if i == |items| then [] else [Normal(items[i])] + NormalItems(items, i + 1)
  }

  function NormalMembers(members: seq<Member>, i: nat): (r: seq<Member>)
    requires i <= |members|
    decreases members, |members| - i
  {
    if i == |members| then []
    else if members[i].value == Undefined then NormalMembers(members, i + 1)
    else [Member(members[i].key, Normal(members[i].value))] + NormalMembers(members, i + 1)
  }

  /** Every number in the value is written in the characters of numbers. */
  predicate Numeric(v: Json)
    decreases v, 0
  {
    && (v.Number? ==> v.text != [] && forall i :: 0 <= i < |v.text| ==> NumberByte(v.text[i]))
    && (v.Arr? ==> forall i :: 0 <= i < |v.items| ==> Numeric(v.items[i]))
    && (v.Obj? ==> forall i :: 0 <= i < |v.members| ==> Numeric(v.members[i].value))
  }

  /** What may stand behind a value: no further digit. */
  predicate Apart(rest: seq<Byte>) {
    rest == [] || !NumberByte(rest[0])
  }

  lemma {:induction false} NumberEnds(text: seq<Byte>, rest: seq<Byte>)
    requires Apart(rest) && forall i :: 0 <= i < |text| ==> NumberByte(text[i])
    ensures NumberEnd(text + rest) == |text|
  {
    if text == [] {
      assert text + rest == rest;
    } else {
      NumberEnds(text[1..], rest);
      assert (text + rest)[1..] == text[1..] + rest;
    }
  }

  lemma Starts(v: Json)
    requires Numeric(v)
    ensures Encode(v) != [] && Encode(v)[0] != 93
  {
    hide JsonChars, EncodeItems, EncodeMembers;
  }

  /** A comma comes before the members that are left, if any are. */
  lemma {:induction false} CommaBefore(members: seq<Member>, i: nat)
    requires i <= |members|
    ensures EncodeMembers(members, i, false)
            == if NormalMembers(members, i) == [] then [] else [44] + EncodeMembers(members, i, true)
    ensures NormalMembers(members, i) == [] ==> EncodeMembers(members, i, true) == []
    decreases |members| - i
  {
    hide JsonString, Encode;
    if i < |members| && members[i].value == Undefined {
      CommaBefore(members, i + 1);
    }
  }

  lemma ItemsLast(b: seq<Byte>, v: Json, rest: seq<Byte>)
    requires ReadValue(b) == Some((v, [93] + rest))
    ensures ReadItems(b) == Some(([v], rest))
  {
    hide ReadValue;
    assert ([93] + rest)[1..] == rest;
  }

  lemma ItemsMore(b: seq<Byte>, v: Json, next: seq<Byte>, more: seq<Json>, rest: seq<Byte>)
    requires ReadValue(b) == Some((v, [44] + next)) && ReadItems(next) == Some((more, rest))
    ensures ReadItems(b) == Some(([v] + more, rest))
  {
    hide ReadValue;
    assert ([44] + next)[1..] == next;
  }

  lemma MemberReads(m: Member, v: Json, tail: seq<Byte>)
    requires ReadValue(Encode(m.value) + tail) == Some((v, tail))
    ensures ReadMember(JsonString(m.key) + ([58] + (Encode(m.value) + tail))) == Some((Member(m.key, v), tail))
  {
    hide ReadChars, ReadValue, Encode, JsonString;
    StringReads(m.key, [58] + (Encode(m.value) + tail));
    assert ([58] + (Encode(m.value) + tail))[1..] == Encode(m.value) + tail;
  }

  lemma WordsRead(rest: seq<Byte>)
    ensures ReadValue(NULL + rest) == Some((Null, rest))
    ensures ReadValue(TRUE + rest) == Some((Flag(true), rest))
    ensures ReadValue(FALSE + rest) == Some((Flag(false), rest))
  {
    assert (NULL + rest)[4..] == rest;
    assert (TRUE + rest)[4..] == rest && (TRUE + rest)[0] == 116;
    assert (FALSE + rest)[5..] == rest && (FALSE + rest)[0] == 102;
  }

  lemma NumberReads(text: seq<Byte>, rest: seq<Byte>)
    requires Numeric(Number(text)) && Apart(rest)
    ensures ReadValue(text + rest) == Some((Number(text), rest))
  {
    var b := text + rest;
    NumberEnds(text, rest);
    assert b[..|text|] == text && b[|text|..] == rest;
    assert NumberByte(b[0]);
    hide NumberEnd;
  }

  lemma ArrayReads(inner: seq<Byte>, items: seq<Json>, rest: seq<Byte>)
    requires if items == [] then inner == [93] + rest else inner != [] && inner[0] != 93 && ReadItems(inner) == Some((items, rest))
    ensures ReadValue([91] + inner) == Some((Arr(items), rest))
  {
    hide ReadItems, ReadMembers, ReadChars;
    var b := [91] + inner;
    assert b[0] == 91 && b[1..] == inner;
    assert items == [] ==> b[2..] == rest;
  }

  lemma ObjectReads(inner: seq<Byte>, members: seq<Member>, rest: seq<Byte>)
    requires if members == [] then inner == [125] + rest else inner != [] && inner[0] == 34 && ReadMembers(inner) == Some((members, rest))
    ensures ReadValue([123] + inner) == Some((Obj(members), rest))
  {
    hide ReadItems, ReadMembers, ReadChars;
    var b := [123] + inner;
    assert b[0] == 123 && b[1..] == inner;
    assert members == [] ==> b[2..] == rest;
  }

  lemma TextStringReads(t: seq<Unit>, rest: seq<Byte>)
    ensures ReadValue(JsonString(t) + rest) == Some((Str(t), rest))
  {
    hide ReadItems, ReadMembers, ReadChars, JsonString;
    StringReads(t, rest);
  }

  /**
   The encoding of a value reads back as that value, with undefined members dropped and
   null for numbers that are not finite and for undefined elements.
   */
  lemma {:induction false} ReadsBack(v: Json, rest: seq<Byte>)
    requires Numeric(v) && Apart(rest)
    ensures ReadValue(Encode(v) + rest) == Some((Normal(v), rest))
    decreases v, 0
  {
    hide ReadValue, JsonString;
    match v
    case Str(t) => TextStringReads(t, rest);
    case Number(text) => NumberReads(text, rest);
    case Arr(items) => ArrayBack(items, rest);
    case Obj(members) => ObjectBack(members, rest);
    case _ => WordsRead(rest);
  }

  lemma ArrayBack(items: seq<Json>, rest: seq<Byte>)
    requires forall j :: 0 <= j < |items| ==> Numeric(items[j])
    ensures ReadValue(Encode(Arr(items)) + rest) == Some((Arr(NormalItems(items, 0)), rest))
    decreases items, |items| + 1
  {
    hide ReadValue, ReadItems, Numeric, Normal;
    var inner := EncodeItems(items, 0) + ([93] + rest);
    assert Encode(Arr(items)) + rest == [91] + inner;
    if items != [] {
      ItemsRead(items, 0, rest);
      Starts(items[0]);
      hide Encode;
      assert inner == Encode(items[0]) + (EncodeItems(items, 1) + ([93] + rest));
    }
    ArrayReads(inner, NormalItems(items, 0), rest);
  }

  lemma ObjectBack(members: seq<Member>, rest: seq<Byte>)
    requires forall j :: 0 <= j < |members| ==> Numeric(members[j].value)
    ensures ReadValue(Encode(Obj(members)) + rest) == Some((Obj(NormalMembers(members, 0)), rest))
    decreases members, |members| + 1
  {
    hide ReadValue, ReadMembers, Numeric, NormalMembers, EncodeMembers;
    var inner := EncodeMembers(members, 0, true) + ([125] + rest);
    assert Encode(Obj(members)) + rest == [123] + inner;
    MembersRead(members, 0, rest);
    ObjectReads(inner, NormalMembers(members, 0), rest);
  }

  lemma {:induction false} ItemsRead(items: seq<Json>, i: nat, rest: seq<Byte>)
    requires i < |items| && forall j :: 0 <= j < |items| ==> Numeric(items[j])
    ensures ReadItems(Encode(items[i]) + (EncodeItems(items, i + 1) + ([93] + rest))) == Some((NormalItems(items, i), rest))
    decreases items, |items| - i
  {
    hide ReadItems, ReadValue, Encode, Normal, Numeric;
    var tail := EncodeItems(items, i + 1) + ([93] + rest);
    var b := Encode(items[i]) + tail;
    if i + 1 == |items| {
      assert tail == [93] + rest;
      ReadsBack(items[i], tail);
      ItemsLast(b, Normal(items[i]), rest);
      assert NormalItems(items, i) == [Normal(items[i])];
    } else {
      ItemsRead(items, i + 1, rest);
      var next := Encode(items[i + 1]) + (EncodeItems(items, i + 2) + ([93] + rest));
      assert tail == [44] + next;
      ReadsBack(items[i], tail);
      ItemsMore(b, Normal(items[i]), next, NormalItems(items, i + 1), rest);
    }
  }

  lemma {:induction false} MembersRead(members: seq<Member>, i: nat, rest: seq<Byte>)
    requires i <= |members| && forall j :: 0 <= j < |members| ==> Numeric(members[j].value)
    ensures var inner := EncodeMembers(members, i, true) + ([125] + rest);
            if NormalMembers(members, i) == [] then inner == [125] + rest
            else inner[0] == 34 && ReadMembers(inner) == Some((NormalMembers(members, i), rest))
    decreases members, |members| - i
  {
    hide ReadMembers, ReadMember, ReadValue, Encode, Normal, Numeric, JsonString;
    if i == |members| {
      assert EncodeMembers(members, i, true) + ([125] + rest) == [125] + rest;
    } else {
      MembersRead(members, i + 1, rest);
      if members[i].value != Undefined {
        OneMember(members, i, rest);
      }
    }
  }

  lemma OneMember(members: seq<Member>, i: nat, rest: seq<Byte>)
    requires i < |members| && members[i].value != Undefined && Numeric(members[i].value)
    requires NormalMembers(members, i + 1) != [] ==>
               ReadMembers(EncodeMembers(members, i + 1, true) + ([125] + rest)) == Some((NormalMembers(members, i + 1), rest))
    ensures var inner := EncodeMembers(members, i, true) + ([125] + rest);
            inner[0] == 34 && ReadMembers(inner) == Some((NormalMembers(members, i), rest))
    decreases members, |members| - i, 0
  {
    hide ReadMembers, ReadMember, ReadValue, Encode, Normal, Numeric, JsonString;
    var m := members[i];
    var was := Member(m.key, Normal(m.value));
    var tail := EncodeMembers(members, i + 1, false) + ([125] + rest);
    var b := EncodeMembers(members, i, true) + ([125] + rest);
    var more := NormalMembers(members, i + 1);
    FirstMember(members, i, rest);
    StringStarts(m.key, [58] + (Encode(m.value) + tail));
    CommaBefore(members, i + 1);
    var next := EncodeMembers(members, i + 1, true) + ([125] + rest);
    hide EncodeMembers, NormalMembers;
    Behind(tail, next, rest, EncodeMembers(members, i + 1, false), EncodeMembers(members, i + 1, true), more == []);
    ReadsBack(m.value, tail);
    MemberReads(m, Normal(m.value), tail);
    MembersGoOn(b, was, tail, next, more, rest);
  }

  /** The bytes behind a member: the closing brace, or a comma and the next one. */
  lemma Behind(tail: seq<Byte>, next: seq<Byte>, rest: seq<Byte>, with: seq<Byte>, without: seq<Byte>, last: bool)
    requires tail == with + ([125] + rest) && next == without + ([125] + rest) && with == if last then [] else [44] + without
    ensures tail == (if last then [125] + rest else [44] + next) && Apart(tail)
  {
  }

  lemma MembersGoOn(b: seq<Byte>, m: Member, tail: seq<Byte>, next: seq<Byte>, more: seq<Member>, rest: seq<Byte>)
    requires ReadMember(b) == Some((m, tail)) && tail == if more == [] then [125] + rest else [44] + next
    requires more != [] ==> ReadMembers(next) == Some((more, rest))
    ensures ReadMembers(b) == Some(([m] + more, rest))
  {
    hide ReadMember;
    assert more == [] ==> tail[1..] == rest && [m] + more == [m];
    assert more != [] ==> tail[1..] == next;
  }

  lemma FirstMember(members: seq<Member>, i: nat, rest: seq<Byte>)
    requires i < |members| && members[i].value != Undefined
    ensures var m := members[i];
            && EncodeMembers(members, i, true) + ([125] + rest)
               == JsonString(m.key) + ([58] + (Encode(m.value) + (EncodeMembers(members, i + 1, false) + ([125] + rest))))
            && NormalMembers(members, i) == [Member(m.key, Normal(m.value))] + NormalMembers(members, i + 1)
  {
    hide Encode, JsonString, Normal;
  }

  lemma StringStarts(t: seq<Unit>, rest: seq<Byte>)
    ensures (JsonString(t) + rest)[0] == 34
  {
  }

  // ---------------------------------------------------------------------------
  // What JSON can hold

  function Higher(a: nat, b: nat): (m: nat) {
    if a < b then b else a
  }

  /** How many brackets and braces lie around the innermost value. */
  function Height(v: Json): (n: nat)
    decreases v, 0
  {
    match v
    case Arr(items) => ItemsHeight(items, 0)
    case Obj(members) => MembersHeight(members, 0)
    case _ => 0
  }

  function ItemsHeight(items: seq<Json>, i: nat): (n: nat)
    requires i <= |items|
    decreases items, |items| - i
  {
    if i == |items| then 0 else Higher(1 + Height(items[i]), ItemsHeight(items, i + 1))
  }

  function MembersHeight(members: seq<Member>, i: nat): (n: nat)
    requires i <= |members|
    decreases members, |members| - i
  {
    if i == |members| then 0
    else if members[i].value == Undefined then MembersHeight(members, i + 1)
    else Higher(1 + Height(members[i].value), MembersHeight(members, i + 1))
  }

  /** Nothing undefined but elements and members, and nothing that JSON does not know. */
  predicate Known(v: Json)
    decreases v
  {
    && v != Alien && v != Undefined
    && (v.Arr? ==> forall i :: 0 <= i < |v.items| ==> v.items[i] == Undefined || Known(v.items[i]))
    && (v.Obj? ==> forall i :: 0 <= i < |v.members| ==> v.members[i].value == Undefined || Known(v.members[i].value))
  }

  /** A value is counted exactly if JSON knows all of it and it nests within the limit. */
  lemma {:induction false} HoldsExactly(v: Json, depth: nat)
    ensures Holds(v, depth) <==> Known(v) && depth + Height(v) <= MAX_DEPTH
    decreases v, 0
  {
    if v.Arr? && depth <= MAX_DEPTH {
      ItemsHold(v.items, 0, depth);
    } else if v.Obj? && depth <= MAX_DEPTH {
      MembersHold(v.members, 0, depth);
    }
  }

  lemma {:induction false} ItemsHold(items: seq<Json>, i: nat, depth: nat)
    requires i <= |items| && depth <= MAX_DEPTH
    ensures HoldsItems(items, i, depth + 1)
            <==> (forall j :: i <= j < |items| ==> items[j] == Undefined || Known(items[j])) && depth + ItemsHeight(items, i) <= MAX_DEPTH
    decreases items, |items| - i
  {
    hide Holds, Known, Height;
    if i < |items| {
      HoldsExactly(items[i], depth + 1);
      ItemsHold(items, i + 1, depth);
      if items[i] == Undefined {
        FlatElement();
      }
    }
  }

  lemma FlatElement()
    ensures Height(Undefined) == 0
  {
  }

  lemma {:induction false} MembersHold(members: seq<Member>, i: nat, depth: nat)
    requires i <= |members| && depth <= MAX_DEPTH
    ensures HoldsMembers(members, i, depth + 1)
            <==> (forall j :: i <= j < |members| ==> members[j].value == Undefined || Known(members[j].value))
                 && depth + MembersHeight(members, i) <= MAX_DEPTH
    decreases members, |members| - i
  {
    hide Holds, Known, Height;
    if i < |members| {
      HoldsExactly(members[i].value, depth + 1);
      MembersHold(members, i + 1, depth);
    }
  }
}
