/**
 The settlement pipe between a wrapper and its supervisor
 (scripts/perf_process_scope.py): the records a `ProcessScope` writes, and the
 `ScopeReader` that replays them byte by byte. The JSON library is a parameter.
 */
module Scope {
  import opened Options
  import opened Texts

  const MAX_ACTIVE: nat := 128
  const MAX_RECORD: nat := 512
  const MAX_TOKEN: nat := 64
  const NEWLINE: Byte := 10
  const BRACE: Byte := 123

  // ---------------------------------------------------------------------------
  // Records

  datatype Message = Starting(token: string) | Started(token: string, pid: int) | Settled(token: string) | Closed

  /** Decoded JSON, as far as the reader looks at it. */
  datatype Value = Null | Flag(b: bool) | Number(n: int) | Fraction | Text(s: string) | List | Object(fields: map<string, Value>)

  function Digits(n: nat): (s: string)
    ensures |s| > 0 && forall i :: 0 <= i < |s| ==> '0' <= s[i] <= '9'
  {
    var d := ['0' + (n % 10) as char];
    if n < 10 then d else Digits(n / 10) + d
  }

  function Token(pid: nat, counter: nat): (t: string)
    ensures |t| > 0 && Plain(t)
  {
    Digits(pid) + ":" + Digits(counter)
  }

  /** The characters a token is made of. */
  predicate Plain(t: string) {
    forall i :: 0 <= i < |t| ==> '0' <= t[i] <= ':'
  }

  /** The object a record stands for. */
  function Meaning(m: Message): (v: Value) {
    match m
    case Starting(t) => Object(map["kind" := Text("starting"), "token" := Text(t)])
    case Started(t, pid) => Object(map["kind" := Text("started"), "token" := Text(t), "pid" := Number(pid)])
    case Settled(t) => Object(map["kind" := Text("settled"), "token" := Text(t)])
    case Closed => Object(map["kind" := Text("closed")])
  }

  predicate PlainMessage(m: Message) {
    m.Closed? || Plain(m.token)
  }

  /** `json.dumps` with compact separators, encoded, and `json.loads`. */
  datatype Codec = Codec(dumps: Message -> seq<Byte>, loads: seq<Byte> -> Option<Value>)

  /** A record is one line that opens an object, and decodes to that object. */
  ghost predicate Decodes(c: Codec, m: Message) {
    var line := c.dumps(m);
    line != [] && line[0] == BRACE && NEWLINE !in line && c.loads(line) == Some(Meaning(m))
  }

  ghost predicate Rejects(c: Codec, p: seq<Byte>, m: Message) {
    c.loads(p + c.dumps(m)) == None
  }

  /**
   What the protocol needs from the JSON library: records survive it, and text that
   opens an object and then repeats a whole record is not JSON.
   */
  ghost predicate Json(c: Codec) {
    && (forall m {:trigger Decodes(c, m)} :: PlainMessage(m) ==> Decodes(c, m))
    && (forall p: seq<Byte>, m {:trigger Rejects(c, p, m)} ::
          p != [] && p[0] == BRACE && PlainMessage(m) ==> Rejects(c, p, m))
  }

  function Frame(c: Codec, m: Message): (b: seq<Byte>) {
    c.dumps(m) + [NEWLINE]
  }

  // ---------------------------------------------------------------------------
  // Token names are distinct

  lemma {:induction false} DigitsDenote(n: nat)
    ensures Numeral(Digits(n)) == n
  {
    var d := '0' + (n % 10) as char;
    assert d as int == 48 + n % 10;
    if n < 10 {
      assert Digits(n) == [d] && [d][..0] == "";
      assert Numeral([d]) == n;
    } else {
      DigitsDenote(n / 10);
      assert Digits(n)[..|Digits(n)| - 1] == Digits(n / 10);
    }
  }

  lemma TokensDiffer(pid: nat, i: nat, j: nat)
    requires Token(pid, i) == Token(pid, j)
    ensures i == j
  {
    var k := |Digits(pid) + ":"|;
    assert Token(pid, i)[k..] == Digits(i) && Token(pid, j)[k..] == Digits(j);
    DigitsDenote(i);
    DigitsDenote(j);
  }

  // ---------------------------------------------------------------------------
  // The reader

  datatype Failure = Oversized | Invalid

  datatype Reader = Reader(pending: seq<Byte>, active: map<string, Option<int>>, closed: bool, failure: Option<Failure>)

  const IDLE: Reader := Reader([], map[], false, None)

  function Fail(r: Reader): (s: Reader) {
    r.(failure := Some(Invalid))
  }

  predicate ValidToken(v: Value) {
    v.Text? && 1 <= |v.s| <= MAX_TOKEN
  }

  /** One decoded line, checked in the order of the source. */
  function RecordValue(r: Reader, v: Option<Value>): (s: Reader) {
    if r.failure.Some? then r
    else if v.None? || !v.value.Object? || "kind" !in v.value.fields then Fail(r)
    else
      var fields := v.value.fields;
      var kind := fields["kind"];
      if r.closed then Fail(r)
      else if kind == Text("closed") then
        (if fields.Keys != {"kind"} || r.active != map[] then Fail(r) else r.(closed := true))
      else if "token" !in fields || !ValidToken(fields["token"]) then Fail(r)
      else
        var token := fields["token"].s;
        if kind == Text("starting") then
          (if fields.Keys != {"kind", "token"} || token in r.active || |r.active| == MAX_ACTIVE then Fail(r)
           else r.(active := r.active[token := None]))
        else if kind == Text("started") then
          (if "pid" !in fields then Fail(r)
           else if fields.Keys != {"kind", "token", "pid"} || token !in r.active || r.active[token].Some?
                   || !fields["pid"].Number? || fields["pid"].n <= 0 then Fail(r)
           else r.(active := r.active[token := Some(fields["pid"].n)]))
        else if kind == Text("settled") then
          (if fields.Keys != {"kind", "token"} || token !in r.active then Fail(r) else r.(active := r.active - {token}))
        else Fail(r)
  }

  /** One byte of the pipe. */
  function Take(r: Reader, c: Codec, b: Byte): (s: Reader) {
    if b == NEWLINE then RecordValue(r, c.loads(r.pending)).(pending := [])
    else if |r.pending| < MAX_RECORD then r.(pending := r.pending + [b])
    else r.(failure := Some(Oversized))
  }

  function Feed(r: Reader, c: Codec, bytes: seq<Byte>): (s: Reader)
    decreases |bytes|
  {
    if bytes == [] then r else Feed(Take(r, c, bytes[0]), c, bytes[1..])
  }

  /** What `require_closed` demands after its last drain. */
  predicate RequireClosed(r: Reader) {
    r.failure.None? && r.pending == [] && r.closed && r.active == map[]
  }

  /** However the pipe is cut into reads, the reader ends in the same state. */
  lemma {:induction false} FeedAppend(r: Reader, c: Codec, a: seq<Byte>, b: seq<Byte>)
    ensures Feed(r, c, a + b) == Feed(Feed(r, c, a), c, b)
    decreases |a|
  {
    if a == [] {
      assert a + b == b;
    } else {
      assert (a + b)[1..] == a[1..] + b;
      FeedAppend(Take(r, c, a[0]), c, a[1..], b);
    }
  }

  /** Closure and failure are never taken back. */
  lemma {:induction false} FeedMonotone(r: Reader, c: Codec, bytes: seq<Byte>)
    ensures var s := Feed(r, c, bytes);
            (r.closed ==> s.closed) && (r.failure.Some? ==> s.failure.Some? && s.closed == r.closed && s.active == r.active)
    decreases |bytes|
  {
    if bytes != [] {
      FeedMonotone(Take(r, c, bytes[0]), c, bytes[1..]);
    }
  }

  // ---------------------------------------------------------------------------
  // The protocol, record by record

  /** The record a value spells, if it spells one exactly. */
  function Parse(v: Value): (m: Option<Message>) {
    if !v.Object? || "kind" !in v.fields then None
    else
      var f := v.fields;
      if f["kind"] == Text("closed") then (if f.Keys == {"kind"} then Some(Closed) else None)
      else if "token" !in f || !f["token"].Text? then None
      else if f["kind"] == Text("starting") && f.Keys == {"kind", "token"} then Some(Starting(f["token"].s))
      else if f["kind"] == Text("settled") && f.Keys == {"kind", "token"} then Some(Settled(f["token"].s))
      else if f["kind"] == Text("started") && f.Keys == {"kind", "token", "pid"} && f["pid"].Number? then
        Some(Started(f["token"].s, f["pid"].n))
      else None
  }

  /** Which records are allowed when, and what they do. */
  predicate Allowed(active: map<string, Option<int>>, closed: bool, m: Message) {
    && !closed
    && match m
       case Closed => active == map[]
       case Starting(t) => 1 <= |t| <= MAX_TOKEN && t !in active && |active| != MAX_ACTIVE
       case Started(t, pid) => 1 <= |t| <= MAX_TOKEN && t in active && active[t].None? && pid > 0
       case Settled(t) => 1 <= |t| <= MAX_TOKEN && t in active
  }

  function Replay(r: Reader, m: Message): (s: Reader) {
    if r.failure.Some? then r
    else if !Allowed(r.active, r.closed, m) then Fail(r)
    else match m
      case Closed => r.(closed := true)
      case Starting(t) => r.(active := r.active[t := None])
      case Started(t, pid) => r.(active := r.active[t := Some(pid)])
      case Settled(t) => r.(active := r.active - {t})
  }

  /** The reader's nested checks are exactly: spell a record, then obey the protocol. */
  lemma RecordIsReplay(r: Reader, v: Option<Value>)
    requires r.failure.None?
    ensures RecordValue(r, v) == if v.Some? && Parse(v.value).Some? then Replay(r, Parse(v.value).value) else Fail(r)
  {
  }

  lemma ParseMeaning(m: Message)
    ensures Parse(Meaning(m)) == Some(m)
  {
  }

  /** Bytes of a line that has not ended only fill the buffer. */
  lemma {:induction false} FeedBody(r: Reader, c: Codec, body: seq<Byte>)
    requires NEWLINE !in body && |r.pending| <= MAX_RECORD
    ensures var s := Feed(r, c, body);
            if |r.pending + body| <= MAX_RECORD then s == r.(pending := r.pending + body)
            else s.failure.Some? && s == r.(pending := (r.pending + body)[..MAX_RECORD], failure := s.failure)
    decreases |body|
  {
    if body == [] {
      assert r.pending + body == r.pending;
    } else {
      var s := Take(r, c, body[0]);
      FeedBody(s, c, body[1..]);
      assert r.pending + [body[0]] + body[1..] == r.pending + body;
      assert (r.pending + body)[..|r.pending|] == r.pending;
    }
  }

  /** The newline after a record on an empty buffer performs its protocol step. */
  lemma LineEnds(r: Reader, c: Codec, m: Message)
    requires Json(c) && PlainMessage(m) && r.pending == []
    ensures Take(r.(pending := c.dumps(m)), c, NEWLINE) == Replay(r, m)
  {
    var full := r.(pending := c.dumps(m));
    assert Decodes(c, m);
    if r.failure.None? {
      RecordIsReplay(full, Some(Meaning(m)));
      ParseMeaning(m);
    }
  }

  /** A whole record on an empty buffer is one protocol step. */
  lemma FeedFrame(r: Reader, c: Codec, m: Message)
    requires Json(c) && PlainMessage(m) && r.pending == [] && |Frame(c, m)| <= MAX_RECORD
    ensures Feed(r, c, Frame(c, m)) == Replay(r, m)
  {
    assert Decodes(c, m);
    FeedAppend(r, c, c.dumps(m), [NEWLINE]);
    FeedBody(r, c, c.dumps(m));
    assert r.pending + c.dumps(m) == c.dumps(m);
    FeedOne(r.(pending := c.dumps(m)), c, NEWLINE);
    LineEnds(r, c, m);
  }

  lemma FeedOne(r: Reader, c: Codec, b: Byte)
    ensures Feed(r, c, [b]) == Take(r, c, b)
  {
    assert [b][1..] == [];
  }

  /** A record behind the remains of an interrupted one is never accepted. */
  lemma FeedGarbled(r: Reader, c: Codec, m: Message)
    requires Json(c) && PlainMessage(m) && |r.pending| <= MAX_RECORD
    requires r.pending != [] && r.pending[0] == BRACE
    ensures var s := Feed(r, c, Frame(c, m));
            s.failure.Some? && s.closed == r.closed && s.active == r.active && s.pending == []
  {
    assert Rejects(c, r.pending, m);
    assert Decodes(c, m);
    FeedAppend(r, c, c.dumps(m), [NEWLINE]);
    FeedBody(r, c, c.dumps(m));
    FeedOne(Feed(r, c, c.dumps(m)), c, NEWLINE);
  }
}
