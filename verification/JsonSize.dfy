/**
 The bounded size counters of the presentation validator
 (protocol/ui-presentation-validator.js): saturating JSON size, UTF-8 size and code
 point count, against the encodings they stand for.
 */
module JsonSize {
  import opened Texts

  /** A UTF-16 code unit. */
  type Unit = u: int | 0 <= u < 0x10000

  predicate High(u: Unit) { 0xD800 <= u <= 0xDBFF }

  predicate Low(u: Unit) { 0xDC00 <= u <= 0xDFFF }

  /** A surrogate pair starts at `i`. */
  predicate PairAt(s: seq<Unit>, i: nat) {
    i + 1 < |s| && High(s[i]) && Low(s[i + 1])
  }

  // ---------------------------------------------------------------------------
  // UTF-8

  /** One, two or three bytes for a code unit outside a surrogate pair. */
  function Utf8Unit(u: Unit): (b: seq<Byte>) {
    if u < 0x80 then [u]
    else if u < 0x800 then [0xC0 + u / 0x40, 0x80 + u % 0x40]
    else [0xE0 + u / 0x1000, 0x80 + u / 0x40 % 0x40, 0x80 + u % 0x40]
  }

  /** Four bytes for the code point of a surrogate pair. */
  function Utf8Pair(h: Unit, l: Unit): (b: seq<Byte>)
    requires High(h) && Low(l)
  {
    var p := 0x10000 + (h - 0xD800) * 0x400 + (l - 0xDC00);
    [0xF0 + p / 0x40000, 0x80 + p / 0x1000 % 0x40, 0x80 + p / 0x40 % 0x40, 0x80 + p % 0x40]
  }

  /** The text from `i` on; a lone surrogate takes the three bytes of its code unit. */
  function Utf8(s: seq<Unit>, i: nat): (b: seq<Byte>)
    requires i <= |s|
    decreases |s| - i
  {
    if i == |s| then []
    else if PairAt(s, i) then Utf8Pair(s[i], s[i + 1]) + Utf8(s, i + 2)
    else Utf8Unit(s[i]) + Utf8(s, i + 1)
  }

  /** Code points from `i` on; a lone surrogate counts as one. */
  function CodePoints(s: seq<Unit>, i: nat): (n: nat)
    requires i <= |s|
    decreases |s| - i
  {
    if i == |s| then 0 else if PairAt(s, i) then 1 + CodePoints(s, i + 2) else 1 + CodePoints(s, i + 1)
  }

  // ---------------------------------------------------------------------------
  // Compact JSON (section 7 of RFC 8259, lone surrogates escaped)

  /** Quote, backslash and the five controls with short escapes. */
  function ShortEscape(u: Unit): (b: seq<Byte>)
  {
    if u == 34 then [92, 34] else if u == 92 then [92, 92] else if u == 8 then [92, 98] else if u == 9 then [92, 116]
    else if u == 10 then [92, 110] else if u == 12 then [92, 102] else if u == 13 then [92, 114] else []
  }

  function LongEscape(u: Unit): (b: seq<Byte>) {
    [92, 117, HexDigit(u / 0x1000), HexDigit(u / 0x100 % 16), HexDigit(u / 16 % 16), HexDigit(u % 16)]
  }

  function JsonUnit(u: Unit): (b: seq<Byte>) {
    if ShortEscape(u) != [] then ShortEscape(u)
    else if u < 32 || High(u) || Low(u) then LongEscape(u)
    else Utf8Unit(u)
  }

  function JsonChars(s: seq<Unit>, i: nat): (b: seq<Byte>)
    requires i <= |s|
    decreases |s| - i
  {
    if i == |s| then []
    else if PairAt(s, i) then Utf8Pair(s[i], s[i + 1]) + JsonChars(s, i + 2)
    else JsonUnit(s[i]) + JsonChars(s, i + 1)
  }

  function JsonString(s: seq<Unit>): (b: seq<Byte>)
    ensures |b| >= 2
  {
    [34] + JsonChars(s, 0) + [34]
  }

  /**
   A value as the counter sees it. A number is its text; `Undefined` may stand for an
   array element or a member; `Alien` is anything JSON cannot hold.
   */
  datatype Json =
    | Null | Flag(b: bool) | Number(text: seq<Byte>) | NotFinite | Str(s: seq<Unit>)
    | Arr(items: seq<Json>) | Obj(members: seq<Member>) | Undefined | Alien
  datatype Member = Member(key: seq<Unit>, value: Json)

  const NULL: seq<Byte> := [110, 117, 108, 108]
  const TRUE: seq<Byte> := [116, 114, 117, 101]
  const FALSE: seq<Byte> := [102, 97, 108, 115, 101]

  function Encode(v: Json): (b: seq<Byte>)
    decreases v, 0
  {
    match v
    case Flag(b) => if b then TRUE else FALSE
    case Number(text) => text
    case Str(s) => JsonString(s)
    case Arr(items) => [91] + EncodeItems(items, 0) + [93]
    case Obj(members) => [123] + EncodeMembers(members, 0, true) + [125]
    case _ => NULL // an undefined element included
  }

  /** Elements from `i` on, each but the first behind a comma; an undefined element is null. */
  function EncodeItems(items: seq<Json>, i: nat): (b: seq<Byte>)
    requires i <= |items|
    decreases items, |items| - i
  {
    if i == |items| then []
    else (if i > 0 then [44] else []) + Encode(items[i]) + EncodeItems(items, i + 1)
  }

  /** Defined members from `i` on, each but the first behind a comma. */
  function EncodeMembers(members: seq<Member>, i: nat, first: bool): (b: seq<Byte>)
    requires i <= |members|
    decreases members, |members| - i
  {
    if i == |members| then []
    else if members[i].value == Undefined then EncodeMembers(members, i + 1, first)
    else
      (if first then [] else [44]) + JsonString(members[i].key) + [58] + Encode(members[i].value)
      + EncodeMembers(members, i + 1, false)
  }

  const MAX_DEPTH: nat := 64

  /** JSON can hold it, and it nests at most to the limit. */
  predicate Holds(v: Json, depth: nat)
    decreases v, 0
  {
    && depth <= MAX_DEPTH && v != Alien && v != Undefined
    && (v.Arr? ==> HoldsItems(v.items, 0, depth + 1))
    && (v.Obj? ==> HoldsMembers(v.members, 0, depth + 1))
  }

  predicate HoldsAs(v: Json, element: bool, depth: nat)
    decreases v, 1
  {
    if element && v == Undefined then depth <= MAX_DEPTH else Holds(v, depth)
  }

  predicate HoldsItems(items: seq<Json>, i: nat, depth: nat)
    requires i <= |items|
    decreases items, |items| - i
  {
    i == |items|
    || (HoldsAs(items[i], true, depth) && HoldsItems(items, i + 1, depth))
  }

  predicate HoldsMembers(members: seq<Member>, i: nat, depth: nat)
    requires i <= |members|
    decreases members, |members| - i
  {
    i == |members|
    || ((members[i].value == Undefined || Holds(members[i].value, depth)) && HoldsMembers(members, i + 1, depth))
  }

  /** The bytes that the text from `i` takes before the text from `Beyond(s, i)`. */
  function Cost(s: seq<Unit>, i: nat): (n: nat)
    requires i < |s|
  {
    var u := s[i];
    if u == 34 || u == 92 || u == 8 || u == 9 || u == 10 || u == 12 || u == 13 then 2
    else if u < 32 then 6 else if u < 128 then 1 else if u < 2048 then 2
    else if PairAt(s, i) then 4 else if High(u) || Low(u) then 6 else 3
  }

  function Beyond(s: seq<Unit>, i: nat): (n: nat)
    requires i < |s|
    ensures i < n <= |s|
  {
    if PairAt(s, i) then i + 2 else i + 1
  }

  lemma UnitCost(u: Unit)
    requires !High(u) && !Low(u)
    ensures |JsonUnit(u)| == Cost([u], 0)
  {
    assert [u][0] == u;
  }

  lemma StringLength(s: seq<Unit>)
    ensures |JsonString(s)| == 2 + |JsonChars(s, 0)| && |JsonChars(s, |s|)| == 0
  {
  }

  lemma CharsCost(s: seq<Unit>, i: nat)
    requires i < |s|
    ensures |JsonChars(s, i)| == Cost(s, i) + |JsonChars(s, Beyond(s, i))|
  {
    if !High(s[i]) && !Low(s[i]) {
      UnitCost(s[i]);
    }
  }

  // ---------------------------------------------------------------------------
  // Counting with early exit

  /** Counting `length` more bytes from `start`: exact within the limit, otherwise just over it. */
  predicate Tallied(start: nat, length: nat, bytes: nat, maximum: nat) {
    (bytes > maximum <==> start + length > maximum) && (bytes <= maximum ==> bytes == start + length)
  }

  /** The `bytes` variable that the nested counting functions share. */
  class Counter {
    const maximum: nat
    var bytes: nat

    constructor (maximum: nat)
      ensures this.maximum == maximum && bytes == 0
    {
      this.maximum := maximum;
      bytes := 0;
    }

    method AddString(s: seq<Unit>)
      modifies this
      ensures Tallied(old(bytes), |JsonString(s)|, bytes, maximum)
    {
      StringLength(s);
      hide JsonChars, JsonString;
      bytes := bytes + 2;
      var index := 0;
      while index < |s| && bytes <= maximum
        invariant 0 <= index <= |s|
        invariant bytes + |JsonChars(s, index)| == old(bytes) + |JsonString(s)|
        decreases |s| - index
      {
        CharsCost(s, index);
        var unit := s[index];
        if unit == 34 || unit == 92 || unit == 8 || unit == 9 || unit == 10 || unit == 12 || unit == 13 {
          bytes := bytes + 2;
        } else if unit < 32 {
          bytes := bytes + 6;
        } else if unit < 128 {
          bytes := bytes + 1;
        } else if unit < 2048 {
          bytes := bytes + 2;
        } else if High(unit) {
          if index + 1 < |s| && Low(s[index + 1]) {
            bytes := bytes + 4;
            index := index + 1;
          } else {
            bytes := bytes + 6;
          }
        } else {
          bytes := bytes + if Low(unit) then 6 else 3;
        }
        index := index + 1;
      }
    }

    method VisitItems(items: seq<Json>, depth: nat)
      modifies this
      ensures HoldsItems(items, 0, depth) ==> Tallied(old(bytes), |EncodeItems(items, 0)|, bytes, maximum)
      ensures !HoldsItems(items, 0, depth) ==> bytes > maximum
      decreases items, 0
    {
      var index := 0;
      while index < |items| && bytes <= maximum
        invariant 0 <= index <= |items|
        invariant bytes <= maximum ==> bytes + |EncodeItems(items, index)| == old(bytes) + |EncodeItems(items, 0)|
        invariant bytes <= maximum ==> HoldsItems(items, 0, depth) == HoldsItems(items, index, depth)
        invariant bytes > maximum && HoldsItems(items, 0, depth) ==> old(bytes) + |EncodeItems(items, 0)| > maximum
      {
        if index > 0 {
          bytes := bytes + 1;
        }
        Visit(items[index], true, depth);
        index := index + 1;
      }
    }

    method VisitMembers(members: seq<Member>, depth: nat)
      modifies this
      ensures HoldsMembers(members, 0, depth) ==> Tallied(old(bytes), |EncodeMembers(members, 0, true)|, bytes, maximum)
      ensures !HoldsMembers(members, 0, depth) ==> bytes > maximum
      decreases members, 0
    {
      var count := 0;
      var i := 0;
      while i < |members| && bytes <= maximum
        invariant 0 <= i <= |members| && 0 <= count
        invariant bytes <= maximum ==> bytes + |EncodeMembers(members, i, count == 0)| == old(bytes) + |EncodeMembers(members, 0, true)|
        invariant bytes <= maximum ==> HoldsMembers(members, 0, depth) == HoldsMembers(members, i, depth)
        invariant bytes > maximum && HoldsMembers(members, 0, depth) ==> old(bytes) + |EncodeMembers(members, 0, true)| > maximum
      {
        var child := members[i].value;
        if child != Undefined {
          if count > 0 {
            bytes := bytes + 1;
          }
          count := count + 1;
          AddString(members[i].key);
          bytes := bytes + 1;
          Visit(child, false, depth);
        }
        i := i + 1;
      }
    }

    /** Visits `v`, or null in its place if it is an undefined element. */
    method Visit(v: Json, element: bool, depth: nat)
      modifies this
      ensures HoldsAs(v, element, depth) ==> Tallied(old(bytes), |Encode(v)|, bytes, maximum)
      ensures !HoldsAs(v, element, depth) ==> bytes > maximum
      decreases v, 0
    {
      ghost var plain := Holds(v, depth);
      assert HoldsAs(v, element, depth) == if element && v == Undefined then depth <= MAX_DEPTH else plain;
      if bytes > maximum {
        return;
      }
      if depth > MAX_DEPTH {
        bytes := maximum + 1;
        return;
      }
      match v
      case Str(s) => AddString(s);
      case Null => bytes := bytes + 4;
      case Undefined => bytes := if element then bytes + 4 else maximum + 1;
      case NotFinite => bytes := bytes + 4;
      case Flag(b) => bytes := bytes + if b then 4 else 5;
      case Number(text) => bytes := bytes + |text|;
      case Arr(items) =>
        bytes := bytes + 2;
        VisitItems(items, depth + 1);
      case Obj(members) =>
        bytes := bytes + 2;
        VisitMembers(members, depth + 1);
      case Alien => bytes := maximum + 1;
    }
  }

  /** The bounded JSON size: the encoded length if the value fits JSON, the depth and the limit, else one past the limit. */
  method JsonByteLength(v: Json, maximum: nat) returns (size: nat)
    ensures size == if Holds(v, 0) && |Encode(v)| <= maximum then |Encode(v)| else maximum + 1
  {
    var counter := new Counter(maximum);
    counter.Visit(v, false, 0);
    size := if counter.bytes <= maximum then counter.bytes else maximum + 1;
  }

  /** The bounded UTF-8 size: exact within the limit, and over it exactly when the text is. */
  method Utf8ByteLength(s: seq<Unit>, limit: nat) returns (bytes: nat)
    ensures Tallied(0, |Utf8(s, 0)|, bytes, limit)
  {
    bytes := 0;
    var i := 0;
    while i < |s|
      invariant 0 <= i <= |s| && bytes <= limit && bytes + |Utf8(s, i)| == |Utf8(s, 0)|
      decreases |s| - i
    {
      var code := s[i];
      if code < 128 {
        bytes := bytes + 1;
      } else if code < 2048 {
        bytes := bytes + 2;
      } else if High(code) && i + 1 < |s| && Low(s[i + 1]) {
        bytes := bytes + 4;
        i := i + 1;
      } else {
        bytes := bytes + 3;
      }
      i := i + 1;
      if bytes > limit {
        return;
      }
    }
  }

  /** The code point count, pair by pair. */
  method Ucs2Length(s: seq<Unit>) returns (length: nat)
    ensures length == CodePoints(s, 0)
    ensures length <= |Utf8(s, 0)|
  {
    length := 0;
    var pos := 0;
    while pos < |s|
      invariant 0 <= pos <= |s| && length + CodePoints(s, pos) == CodePoints(s, 0)
      decreases |s| - pos
    {
      length := length + 1;
      var value := s[pos];
      pos := pos + 1;
      if High(value) && pos < |s| {
        if Low(s[pos]) {
          pos := pos + 1;
        }
      }
    }
    CountedWithinBytes(s, 0);
  }

  /** A text never has more code points than UTF-8 bytes, and at most a quarter of them are saved. */
  lemma {:induction false} CountedWithinBytes(s: seq<Unit>, i: nat)
    requires i <= |s|
    ensures CodePoints(s, i) <= |Utf8(s, i)| <= 4 * CodePoints(s, i)
    decreases |s| - i
  {
    if i < |s| {
      CountedWithinBytes(s, if PairAt(s, i) then i + 2 else i + 1);
    }
  }
}
