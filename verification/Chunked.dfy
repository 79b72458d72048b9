/**
 Incremental HTTP chunk decoding and SSE framing (scripts/m4_gate_support.py). What a
 socket delivers is a list of nonempty segments; the hexadecimal parser is a parameter.
 */
module Chunked {
  import opened Options
  import opened Texts

  const CRLF: seq<Byte> := [13, 10]
  const BLANK_LINE: seq<Byte> := [10, 10]
  const SEMICOLON: Byte := 59

  /** `int(text, 16)`; signs and negative sizes are not modelled. */
  type HexParser = seq<Byte> -> Option<nat>

  /** `split(b";", 1)[0]` */
  function BeforeSemicolon(line: seq<Byte>): (r: seq<Byte>)
    ensures r <= line && SEMICOLON !in r
    ensures r == line || line[|r|] == SEMICOLON
  {
    if line == [] || line[0] == SEMICOLON then [] else [line[0]] + BeforeSemicolon(line[1..])
  }

  function Size(parse: HexParser, line: seq<Byte>): (n: Option<nat>) {
    parse(BeforeSemicolon(line))
  }

  // ---------------------------------------------------------------------------
  // The meaning of a whole byte stream

  /** The next piece of a chunked stream, as far as the bytes at hand decide it. */
  datatype Piece = Short | Bad | Last(rest: seq<Byte>) | Data(payload: seq<Byte>, rest: seq<Byte>)

  /** The chunk whose size line has been consumed. */
  function ChunkBody(stream: seq<Byte>, size: nat): (p: Piece)
    ensures p.Data? ==> |p.rest| < |stream|
  {
    if size == 0 then
      var end := Find(stream, CRLF);
      if end < 0 then Short else Last(stream[end + 2..])
    else if |stream| < size + 2 then Short
    else if stream[size..size + 2] != CRLF then Bad
    else Data(stream[..size], stream[size + 2..])
  }

  function NextPiece(parse: HexParser, stream: seq<Byte>): (p: Piece)
    ensures p.Data? ==> |p.rest| < |stream|
  {
    var end := Find(stream, CRLF);
    if end < 0 then Short
    else
      var size := Size(parse, stream[..end]);
      if size.None? then Bad else ChunkBody(stream[end + 2..], size.value)
  }

  datatype Decoded = Incomplete | Malformed | Complete(body: seq<Byte>, rest: seq<Byte>)

  /** A chunked body, ahead of which `body` has been decoded already. */
  function Decode(parse: HexParser, stream: seq<Byte>, body: seq<Byte>): (d: Decoded)
    decreases |stream|
  {
    match NextPiece(parse, stream)
    case Short => Incomplete
    case Bad => Malformed
    case Last(rest) => Complete(body, rest)
    case Data(payload, rest) => Decode(parse, rest, body + payload)
  }

  // ---------------------------------------------------------------------------
  // Encoding (section 7.1 of RFC 9112, without trailers)

  function Hex(n: nat): (r: seq<Byte>)
    ensures |r| > 0 && SEMICOLON !in r && 13 !in r
  {
    if n < 16 then [HexDigit(n)] else Hex(n / 16) + [HexDigit(n % 16)]
  }

  ghost predicate ReadsHex(parse: HexParser) {
    forall n: nat :: parse(Hex(n)) == Some(n)
  }

  /** A payload with its chunk extension: empty, or a semicolon and text without a carriage return. */
  datatype Chunk = Chunk(payload: seq<Byte>, extension: seq<Byte>)

  predicate ChunkOk(c: Chunk) {
    |c.payload| > 0 && 13 !in c.extension && (c.extension == [] || c.extension[0] == SEMICOLON)
  }

  function SizeLine(c: Chunk): (r: seq<Byte>) {
    Hex(|c.payload|) + c.extension
  }

  function EncodeChunk(c: Chunk): (r: seq<Byte>) {
    SizeLine(c) + CRLF + (c.payload + CRLF)
  }

  function EncodeChunks(cs: seq<Chunk>): (r: seq<Byte>) {
    if cs == [] then [] else EncodeChunk(cs[0]) + EncodeChunks(cs[1..])
  }

  function EncodeBody(cs: seq<Chunk>): (r: seq<Byte>) {
    EncodeChunks(cs) + (Hex(0) + CRLF + CRLF)
  }

  function Payloads(cs: seq<Chunk>): (r: seq<Byte>) {
    if cs == [] then [] else cs[0].payload + Payloads(cs[1..])
  }

  lemma FindFirst(a: seq<Byte>, t: seq<Byte>)
    requires 13 !in a
    ensures Find(a + CRLF + t, CRLF) == |a|
  {
    var s := a + CRLF + t;
    assert s[|a|..|a| + 2] == CRLF;
    assert OccursAt(s, CRLF, |a|);
    forall i | 0 <= i < |a| ensures !OccursAt(s, CRLF, i) {
      assert s[i] == a[i] && a[i] in a;
      assert i + 2 <= |s| ==> s[i..i + 2][0] == s[i] && CRLF[0] == 13;
    }
  }

  lemma {:induction false} SemicolonFirst(a: seq<Byte>, ext: seq<Byte>)
    requires SEMICOLON !in a && (ext == [] || ext[0] == SEMICOLON)
    ensures BeforeSemicolon(a + ext) == a
  {
    if a == [] {
      assert a + ext == ext;
    } else {
      SemicolonFirst(a[1..], ext);
      assert (a + ext)[1..] == a[1..] + ext;
      assert (a + ext)[0] == a[0] && a[0] in a;
    }
  }

  lemma ChunkDecodes(parse: HexParser, c: Chunk, t: seq<Byte>)
    requires ReadsHex(parse) && ChunkOk(c)
    ensures NextPiece(parse, EncodeChunk(c) + t) == Data(c.payload, t)
  {
    hide Find, Hex, BeforeSemicolon;
    var line := SizeLine(c);
    var tail := c.payload + CRLF + t;
    assert EncodeChunk(c) + t == line + CRLF + tail;
    assert 13 !in line;
    FindFirst(line, tail);
    var s := line + CRLF + tail;
    assert s[..|line|] == line && s[|line| + 2..] == tail;
    SemicolonFirst(Hex(|c.payload|), c.extension);
    assert Size(parse, line) == Some(|c.payload|);
    assert tail[..|c.payload|] == c.payload && tail[|c.payload|..|c.payload| + 2] == CRLF && tail[|c.payload| + 2..] == t;
  }

  lemma EndDecodes(parse: HexParser, t: seq<Byte>)
    requires ReadsHex(parse)
    ensures NextPiece(parse, Hex(0) + CRLF + CRLF + t) == Last(t)
  {
    var zero := Hex(0);
    var tail := CRLF + t;
    assert zero + CRLF + CRLF + t == zero + CRLF + tail;
    FindFirst(zero, tail);
    var s := zero + CRLF + tail;
    assert s[..|zero|] == zero && s[|zero| + 2..] == tail;
    SemicolonFirst(zero, []);
    assert zero + [] == zero;
    assert Size(parse, zero) == Some(0);
    FindFirst([], t);
    assert [] + CRLF + t == tail;
    assert tail[2..] == t;
  }

  /** Decoding undoes encoding and leaves exactly the bytes that follow. */
  lemma {:induction false} DecodeUndoesEncode(parse: HexParser, cs: seq<Chunk>, body: seq<Byte>, t: seq<Byte>)
    requires ReadsHex(parse) && forall i :: 0 <= i < |cs| ==> ChunkOk(cs[i])
    ensures Decode(parse, EncodeBody(cs) + t, body) == Complete(body + Payloads(cs), t)
    decreases |cs|
  {
    hide NextPiece, Hex, EncodeChunk, EncodeBody, ReadsHex, ChunkOk;
    BodyShape(cs, t);
    if cs == [] {
      EndDecodes(parse, t);
      assert body + [] == body;
    } else {
      var after := EncodeBody(cs[1..]) + t;
      ChunkDecodes(parse, cs[0], after);
      DecodeUndoesEncode(parse, cs[1..], body + cs[0].payload, t);
      Regroup(body, cs[0].payload, Payloads(cs[1..]));
    }
  }

  lemma BodyShape(cs: seq<Chunk>, t: seq<Byte>)
    ensures EncodeBody(cs) + t == if cs == [] then Hex(0) + CRLF + CRLF + t else EncodeChunk(cs[0]) + (EncodeBody(cs[1..]) + t)
  {
    hide Hex, EncodeChunk;
    var end := Hex(0) + CRLF + CRLF;
    if cs == [] {
      assert [] + end == end;
    } else {
      Regroup(EncodeChunk(cs[0]), EncodeChunks(cs[1..]), end);
      Regroup(EncodeChunk(cs[0]), EncodeBody(cs[1..]), t);
    }
  }

  // ---------------------------------------------------------------------------
  // Streams that are refused or not complete yet

  /** A size line in front of anything. */
  lemma LineDecodes(parse: HexParser, n: nat, extension: seq<Byte>, tail: seq<Byte>)
    requires ReadsHex(parse) && 13 !in extension && (extension == [] || extension[0] == SEMICOLON)
    ensures NextPiece(parse, Hex(n) + extension + CRLF + tail) == ChunkBody(tail, n)
  {
    hide Find, Hex, BeforeSemicolon, ChunkBody;
    var line := Hex(n) + extension;
    var s := line + CRLF + tail;
    FindFirst(line, tail);
    assert s[..|line|] == line && s[|line| + 2..] == tail;
    SemicolonFirst(Hex(n), extension);
    assert Size(parse, line) == Some(n);
  }

  /** Whole chunks in front of a stream only add their payload. */
  lemma {:induction false} DecodeAfter(parse: HexParser, cs: seq<Chunk>, body: seq<Byte>, t: seq<Byte>)
    requires ReadsHex(parse) && forall i :: 0 <= i < |cs| ==> ChunkOk(cs[i])
    ensures Decode(parse, EncodeChunks(cs) + t, body) == Decode(parse, t, body + Payloads(cs))
    decreases |cs|
  {
    hide NextPiece, Hex, EncodeChunk, ReadsHex, ChunkOk;
    if cs == [] {
      assert EncodeChunks(cs) + t == t && body + Payloads(cs) == body;
    } else {
      var after := EncodeChunks(cs[1..]) + t;
      Regroup(EncodeChunk(cs[0]), EncodeChunks(cs[1..]), t);
      ChunkDecodes(parse, cs[0], after);
      DecodeAfter(parse, cs[1..], body + cs[0].payload, t);
      Regroup(body, cs[0].payload, Payloads(cs[1..]));
    }
  }

  /** After any whole chunks, a payload that is not followed by its terminator is refused. */
  lemma MissingTerminator(parse: HexParser, cs: seq<Chunk>, c: Chunk, end: seq<Byte>, t: seq<Byte>)
    requires ReadsHex(parse) && (forall i :: 0 <= i < |cs| ==> ChunkOk(cs[i])) && ChunkOk(c) && |end| == 2 && end != CRLF
    ensures Decode(parse, EncodeChunks(cs) + (SizeLine(c) + CRLF + (c.payload + end + t)), []) == Malformed
  {
    hide NextPiece, Hex, ReadsHex, EncodeChunks;
    var tail := c.payload + end + t;
    DecodeAfter(parse, cs, [], SizeLine(c) + CRLF + tail);
    LineDecodes(parse, |c.payload|, c.extension, tail);
    assert tail[|c.payload|..|c.payload| + 2] == end;
  }

  /** And so is a line that is no size. */
  lemma BadSize(parse: HexParser, cs: seq<Chunk>, line: seq<Byte>, t: seq<Byte>)
    requires ReadsHex(parse) && (forall i :: 0 <= i < |cs| ==> ChunkOk(cs[i])) && 13 !in line && Size(parse, line).None?
    ensures Decode(parse, EncodeChunks(cs) + (line + CRLF + t), []) == Malformed
  {
    hide Hex, ReadsHex, EncodeChunks, Find;
    DecodeAfter(parse, cs, [], line + CRLF + t);
    FindFirst(line, t);
    assert (line + CRLF + t)[..|line|] == line;
  }

  /** A text without a carriage return, or with one only at its end, has no line end. */
  lemma NoLineEnd(a: seq<Byte>, k: nat)
    requires 13 !in a && k <= |a| + 1
    ensures Find((a + CRLF)[..k], CRLF) < 0
  {
    var s := (a + CRLF)[..k];
    forall i ensures !OccursAt(s, CRLF, i) {
      if 0 <= i && i + 2 <= |s| {
        assert s[i..i + 2][0] == s[i] == a[i];
        assert a[i] in a;
      }
    }
  }

  /** A chunk that has not arrived whole is waited for. */
  lemma ChunkWaits(parse: HexParser, c: Chunk, k: nat)
    requires ReadsHex(parse) && ChunkOk(c) && k < |EncodeChunk(c)|
    ensures NextPiece(parse, EncodeChunk(c)[..k]) == Short
  {
    hide Find, Hex, BeforeSemicolon;
    var line, rest := SizeLine(c), c.payload + CRLF;
    assert 13 !in line;
    if k < |line| + 2 {
      assert EncodeChunk(c)[..k] == (line + CRLF)[..k];
      NoLineEnd(line, k);
    } else {
      var m := k - |line| - 2;
      assert EncodeChunk(c)[..k] == line + CRLF + rest[..m];
      LineDecodes(parse, |c.payload|, c.extension, rest[..m]);
    }
  }

  lemma EndWaits(parse: HexParser, k: nat)
    requires ReadsHex(parse) && k < |Hex(0) + CRLF + CRLF|
    ensures NextPiece(parse, (Hex(0) + CRLF + CRLF)[..k]) == Short
  {
    hide Find, BeforeSemicolon;
    var line := Hex(0);
    if k < |line| + 2 {
      assert (line + CRLF + CRLF)[..k] == (line + CRLF)[..k];
      NoLineEnd(line, k);
    } else {
      var m := k - |line| - 2;
      assert (line + CRLF + CRLF)[..k] == line + [] + CRLF + CRLF[..m];
      LineDecodes(parse, 0, [], CRLF[..m]);
      assert ([] + CRLF)[..m] == CRLF[..m];
      NoLineEnd([], m);
    }
  }

  /** A body that has not arrived whole, wherever it is cut, is neither complete nor refused. */
  lemma {:induction false} PrefixIsIncomplete(parse: HexParser, cs: seq<Chunk>, body: seq<Byte>, k: nat)
    requires ReadsHex(parse) && (forall i :: 0 <= i < |cs| ==> ChunkOk(cs[i])) && k < |EncodeBody(cs)|
    ensures Decode(parse, EncodeBody(cs)[..k], body) == Incomplete
    decreases |cs|
  {
    hide NextPiece, Hex, EncodeChunk, EncodeBody, ReadsHex, ChunkOk;
    BodyShape(cs, []);
    assert EncodeBody(cs) + [] == EncodeBody(cs);
    if cs == [] {
      assert Hex(0) + CRLF + CRLF + [] == Hex(0) + CRLF + CRLF;
      EndWaits(parse, k);
    } else {
      var first, later := EncodeChunk(cs[0]), EncodeBody(cs[1..]);
      assert later + [] == later;
      if k < |first| {
        assert (first + later)[..k] == first[..k];
        ChunkWaits(parse, cs[0], k);
      } else {
        var m := k - |first|;
        assert (first + later)[..k] == first + later[..m];
        ChunkDecodes(parse, cs[0], later[..m]);
        PrefixIsIncomplete(parse, cs[1..], body + cs[0].payload, m);
      }
    }
  }

  // ---------------------------------------------------------------------------
  // Bytes that arrive later do not change what has been decided

  lemma FindInPrefix(s: seq<Byte>, t: seq<Byte>, word: seq<Byte>)
    requires Find(s, word) >= 0
    ensures Find(s + t, word) == Find(s, word)
  {
    var i := Find(s, word);
    OccursLeft(s, t, word, i);
    forall j | 0 <= j < i ensures !OccursAt(s + t, word, j) {
      OccursLeft(s, t, word, j);
    }
  }

  /** All data of the complete chunks up to the first thing that is not a data chunk. */
  function Payload(parse: HexParser, stream: seq<Byte>): (r: seq<Byte>)
    decreases |stream|
  {
    var p := NextPiece(parse, stream);
    if p.Data? then p.payload + Payload(parse, p.rest) else []
  }

  /** The same when a size line has been consumed already. */
  function PayloadIn(parse: HexParser, stream: seq<Byte>, remaining: Option<nat>): (r: seq<Byte>) {
    if remaining.None? then Payload(parse, stream)
    else
      var p := ChunkBody(stream, remaining.value);
      if p.Data? then p.payload + Payload(parse, p.rest) else []
  }

  /** The payload of an encoded stream is the concatenation of its chunks, wherever they were cut. */
  lemma {:induction false} PayloadOfEncoding(parse: HexParser, cs: seq<Chunk>, t: seq<Byte>)
    requires ReadsHex(parse) && forall i :: 0 <= i < |cs| ==> ChunkOk(cs[i])
    ensures Payload(parse, EncodeChunks(cs) + t) == Payloads(cs) + Payload(parse, t)
    decreases |cs|
  {
    if cs == [] {
      assert EncodeChunks(cs) + t == t && Payloads(cs) + Payload(parse, t) == Payload(parse, t);
    } else {
      var after := EncodeChunks(cs[1..]) + t;
      assert EncodeChunks(cs) + t == EncodeChunk(cs[0]) + after;
      ChunkDecodes(parse, cs[0], after);
      PayloadOfEncoding(parse, cs[1..], t);
      Regroup(cs[0].payload, Payloads(cs[1..]), Payload(parse, t));
    }
  }

  function Flatten(incoming: seq<seq<Byte>>): (r: seq<Byte>) {
    if incoming == [] then [] else incoming[0] + Flatten(incoming[1..])
  }

  /** How reading one piece went. */
  datatype Verdict = Got | Ended | Broken | Starved

  ghost predicate Agrees(v: Verdict, data: seq<Byte>, after: seq<Byte>, p: Piece) {
    match p
    case Short => v == Starved
    case Bad => v == Broken
    case Last(rest) => v == Ended && after == rest
    case Data(payload, rest) => v == Got && data == payload && after == rest
  }

  datatype Outcome = Body(bytes: seq<Byte>) | Closed | BadChunk

  /** The receive buffer of a connection; `incoming` is what the peer will still send. */
  class Receiver {
    var buffer: seq<Byte>
    var incoming: seq<seq<Byte>>

    ghost function All(): seq<Byte>
      reads this
    {
      buffer + Flatten(incoming)
    }

    constructor (incoming: seq<seq<Byte>>)
      ensures buffer == [] && this.incoming == incoming
    {
      buffer := [];
      this.incoming := incoming;
    }

    method ReceiveMore() returns (ok: bool)
      modifies this
      ensures All() == old(All())
      ensures ok <==> old(incoming) != []
      ensures ok ==> incoming == old(incoming)[1..] && buffer == old(buffer) + old(incoming)[0]
      ensures !ok ==> incoming == [] && buffer == old(buffer)
    {
      if incoming == [] {
        return false;
      }
      Regroup(buffer, incoming[0], Flatten(incoming[1..]));
      buffer := buffer + incoming[0];
      incoming := incoming[1..];
      return true;
    }

    method ReceiveUntil(marker: seq<Byte>) returns (found: int)
      requires |marker| > 0
      modifies this
      ensures All() == old(All()) && found == Find(All(), marker)
      ensures found >= 0 ==> found + |marker| <= |buffer|
    {
      while true
        invariant All() == old(All())
        decreases |incoming|
      {
        found := Find(buffer, marker);
        if found >= 0 {
          FindInPrefix(buffer, Flatten(incoming), marker);
          return;
        }
        var ok := ReceiveMore();
        if !ok {
          assert buffer + [] == buffer;
          return;
        }
      }
    }

    method ReceiveBytes(length: nat) returns (ok: bool)
      modifies this
      ensures All() == old(All()) && (ok <==> |All()| >= length) && (ok ==> |buffer| >= length)
    {
      while |buffer| < length
        invariant All() == old(All())
        decreases |incoming|
      {
        ok := ReceiveMore();
        if !ok {
          return;
        }
      }
      ok := true;
    }

    /** `del buffer[:n]` */
    method Drop(n: nat)
      requires n <= |buffer|
      modifies `buffer
      ensures All() == old(All())[n..] && buffer == old(buffer)[n..]
    {
      assert (buffer + Flatten(incoming))[n..] == buffer[n..] + Flatten(incoming);
      buffer := buffer[n..];
    }

    /** The part of a chunk behind its size line. */
    method ReadChunkData(size: nat) returns (v: Verdict, data: seq<Byte>)
      modifies this
      ensures Agrees(v, data, All(), ChunkBody(old(All()), size))
    {
      ghost var stream := All();
      data := [];
      if size == 0 {
        var trailer := ReceiveUntil(CRLF);
        if trailer < 0 {
          return Starved, data;
        }
        Drop(trailer + 2);
        return Ended, data;
      }
      var ok := ReceiveBytes(size + 2);
      if !ok {
        return Starved, data;
      }
      data := buffer[..size];
      var mark := buffer[size..size + 2];
      assert stream[..size] == data && stream[size..size + 2] == mark;
      if mark != CRLF {
        return Broken, data;
      }
      Drop(size + 2);
      v := Got;
    }

    /** One chunk with its size line. */
    method ReadPiece(parse: HexParser) returns (v: Verdict, data: seq<Byte>)
      modifies this
      ensures Agrees(v, data, All(), NextPiece(parse, old(All())))
    {
      ghost var stream := All();
      var end := ReceiveUntil(CRLF);
      if end < 0 {
        return Starved, [];
      }
      var line := buffer[..end];
      assert stream[..end] == line;
      Drop(end + 2);
      var size := Size(parse, line);
      if size.None? {
        return Broken, [];
      }
      v, data := ReadChunkData(size.value);
    }

    /**
     A chunked body, in whatever segments it arrives: exactly the decoding of the whole
     stream, leaving exactly the bytes after it for the next response.
     */
    method ReadChunkedBody(parse: HexParser) returns (r: Outcome)
      modifies this
      ensures match Decode(parse, old(All()), [])
              case Complete(body, rest) => r == Body(body) && All() == rest
              case Incomplete => r == Closed
              case Malformed => r == BadChunk
    {
      var body := [];
      while true
        invariant Decode(parse, All(), body) == Decode(parse, old(All()), [])
        decreases |All()|
      {
        var v, data := ReadPiece(parse);
        match v
        case Starved => return Closed;
        case Broken => return BadChunk;
        case Ended => return Body(body);
        case Got => body := body + data;
      }
    }
  }

  /** Where no chunk follows there is no payload. */
  lemma NoPiece(parse: HexParser, stream: seq<Byte>)
    ensures var end := Find(stream, CRLF);
            && (end < 0 || Size(parse, stream[..end]).None? || Size(parse, stream[..end]) == Some(0) ==> Payload(parse, stream) == [])
            && (end >= 0 && Size(parse, stream[..end]).Some? ==>
                  Payload(parse, stream) == PayloadIn(parse, stream[end + 2..], Size(parse, stream[..end])))
  {
    hide Find, Size;
  }

  /** The SSE reader in chunked mode: `decoded` holds payload not yet framed. */
  class SseStream {
    const wire: Receiver
    const parse: HexParser
    var decoded: seq<Byte>
    var chunkRemaining: Option<nat>

    constructor (wire: Receiver, parse: HexParser)
      ensures this.wire == wire && this.parse == parse && decoded == [] && chunkRemaining == None
    {
      this.wire, this.parse := wire, parse;
      decoded, chunkRemaining := [], None;
    }

    /** All event data that is still to be framed, decoded or not. */
    ghost function Stream(): seq<Byte>
      reads this, wire
    {
      decoded + PayloadIn(parse, wire.All(), chunkRemaining)
    }

    /** The size line of the next chunk; fails when there is none, it is malformed, or it ends the body. */
    method TakeSize() returns (ok: bool)
      requires chunkRemaining.None?
      modifies `chunkRemaining, wire
      ensures ok ==> chunkRemaining.Some? && Stream() == old(Stream()) && |wire.All()| <= |old(wire.All())|
      ensures !ok ==> old(Stream()) == old(decoded)
    {
      hide Find, Size, ChunkBody;
      ghost var stream := wire.All();
      NoPiece(parse, stream);
      assert decoded + [] == decoded;
      var end := wire.ReceiveUntil(CRLF);
      if end < 0 {
        return false;
      }
      var line := wire.buffer[..end];
      assert stream[..end] == line;
      wire.Drop(end + 2);
      var size := Size(parse, line);
      if size.None? || size.value == 0 {
        return false;
      }
      chunkRemaining := size;
      ok := true;
    }

    /** Decode one more chunk; fails when the peer closes, ends the body or breaks the framing. */
    method DecodeMore() returns (ok: bool)
      modifies this, wire
      ensures ok ==> Stream() == old(Stream()) && |wire.All()| < |old(wire.All())|
      ensures !ok ==> old(Stream()) == old(decoded)
    {
      hide Find, Size, NextPiece, Payload;
      if chunkRemaining.None? {
        ok := TakeSize();
        if !ok {
          return;
        }
      }
      var v, data := wire.ReadChunkData(chunkRemaining.value);
      if v != Got {
        assert decoded + [] == decoded;
        return false;
      }
      Regroup(decoded, data, Payload(parse, wire.All()));
      decoded := decoded + data;
      chunkRemaining := None;
      return true;
    }

    /**
     The next event frame: everything before the first blank line of the payload stream,
     independent of where chunks and segments were cut.
     */
    method NextFrame() returns (ok: bool, frame: seq<Byte>)
      modifies this, wire
      ensures var end := Find(old(Stream()), BLANK_LINE);
              && (ok <==> end >= 0)
              && (ok ==> frame == old(Stream())[..end] && Stream() == old(Stream())[end + 2..])
    {
      hide PayloadIn, Find;
      frame := [];
      while true
        invariant Stream() == old(Stream())
        decreases |wire.All()|
      {
        var end := Find(decoded, BLANK_LINE);
        if end >= 0 {
          ghost var later := PayloadIn(parse, wire.All(), chunkRemaining);
          FindInPrefix(decoded, later, BLANK_LINE);
          frame := decoded[..end];
          assert (decoded + later)[..end] == frame && (decoded + later)[end + 2..] == decoded[end + 2..] + later;
          decoded := decoded[end + 2..];
          return true, frame;
        }
        ok := DecodeMore();
        if !ok {
          return;
        }
      }
    }
  }

  // ---------------------------------------------------------------------------
  // Whole connections

  function EncodeBodies(bodies: seq<seq<Chunk>>): (r: seq<Byte>) {
    if bodies == [] then [] else EncodeBody(bodies[0]) + EncodeBodies(bodies[1..])
  }

  ghost predicate BodiesOk(bodies: seq<seq<Chunk>>) {
    forall i, k :: 0 <= i < |bodies| && 0 <= k < |bodies[i]| ==> ChunkOk(bodies[i][k])
  }

  /**
   Bodies that follow each other on one connection come out one by one, each as it was
   encoded, however the stream is cut into segments; what follows them is left.
   */
  method ReadBodies(wire: Receiver, parse: HexParser, ghost bodies: seq<seq<Chunk>>, n: nat, ghost t: seq<Byte>)
    returns (read: seq<seq<Byte>>)
    requires ReadsHex(parse) && BodiesOk(bodies) && n == |bodies| && wire.All() == EncodeBodies(bodies) + t
    modifies wire
    ensures |read| == n && (forall i :: 0 <= i < n ==> read[i] == Payloads(bodies[i])) && wire.All() == t
  {
    hide ReadsHex, EncodeBody, Decode, Payloads;
    read := [];
    assert bodies[0..] == bodies;
    while |read| < n
      invariant |read| <= n && forall i :: 0 <= i < |read| ==> read[i] == Payloads(bodies[i])
      invariant wire.All() == EncodeBodies(bodies[|read|..]) + t
    {
      ghost var cs, later := bodies[|read|], bodies[|read| + 1..];
      assert bodies[|read|..][1..] == later;
      Regroup(EncodeBody(cs), EncodeBodies(later), t);
      DecodeUndoesEncode(parse, cs, [], EncodeBodies(later) + t);
      assert [] + Payloads(cs) == Payloads(cs);
      var r := wire.ReadChunkedBody(parse);
      read := read + [r.bytes];
    }
    assert [] + t == t;
  }

  /** The stream cut at its blank lines: the frames, and what no blank line ends. */
  function Frames(stream: seq<Byte>): (r: (seq<seq<Byte>>, seq<Byte>))
    decreases |stream|
  {
    var end := Find(stream, BLANK_LINE);
    if end < 0 then ([], stream)
    else
      var later := Frames(stream[end + 2..]);
      ([stream[..end]] + later.0, later.1)
  }

  function Terminated(frames: seq<seq<Byte>>): (r: seq<Byte>) {
    if frames == [] then [] else frames[0] + BLANK_LINE + Terminated(frames[1..])
  }

  /** Nothing is lost, and no frame could have ended earlier. */
  lemma {:induction false} FramesAreExact(stream: seq<Byte>)
    ensures var r := Frames(stream);
            && Terminated(r.0) + r.1 == stream && !Contains(r.1, BLANK_LINE)
            && forall i :: 0 <= i < |r.0| ==> Find(r.0[i] + BLANK_LINE, BLANK_LINE) == |r.0[i]|
    decreases |stream|
  {
    hide Find, Frames, Terminated;
    FramesNext(stream);
    var end := Find(stream, BLANK_LINE);
    if end >= 0 {
      var frame, rest := stream[..end], stream[end + 2..];
      assert stream == frame + BLANK_LINE + rest;
      FramesAreExact(rest);
      FirstBlank(frame, rest);
      var later := Frames(rest);
      TerminatedNext(frame, later.0);
      Regroup(frame + BLANK_LINE, Terminated(later.0), later.1);
    }
  }

  lemma FramesNext(stream: seq<Byte>)
    ensures var end := Find(stream, BLANK_LINE);
            if end < 0 then Frames(stream) == ([], stream) && Terminated([]) + stream == stream
            else var later := Frames(stream[end + 2..]); Frames(stream) == ([stream[..end]] + later.0, later.1)
  {
    hide Find;
    assert Terminated([]) == [] && [] + stream == stream;
  }

  lemma TerminatedNext(frame: seq<Byte>, frames: seq<seq<Byte>>)
    ensures Terminated([frame] + frames) == frame + BLANK_LINE + Terminated(frames)
  {
    assert ([frame] + frames)[1..] == frames;
  }

  lemma FirstBlank(frame: seq<Byte>, rest: seq<Byte>)
    requires Find(frame + BLANK_LINE + rest, BLANK_LINE) == |frame|
    ensures Find(frame + BLANK_LINE, BLANK_LINE) == |frame|
  {
    OccursLeft(frame + BLANK_LINE, rest, BLANK_LINE, |frame|);
    forall i | i < |frame| ensures !OccursAt(frame + BLANK_LINE, BLANK_LINE, i) {
      OccursLeft(frame + BLANK_LINE, rest, BLANK_LINE, i);
    }
  }

  /** Reading on until it fails gives exactly the frames of the whole payload stream. */
  method ReadFrames(sse: SseStream) returns (frames: seq<seq<Byte>>)
    modifies sse, sse.wire
    ensures frames == Frames(old(sse.Stream())).0
  {
    hide Find, PayloadIn;
    frames := [];
    ghost var whole := sse.Stream();
    while true
      invariant frames + Frames(sse.Stream()).0 == Frames(whole).0
      decreases |sse.Stream()|
    {
      ghost var stream := sse.Stream();
      var ok, frame := sse.NextFrame();
      if !ok {
        assert frames + [] == frames;
        return;
      }
      Regroup(frames, [frame], Frames(sse.Stream()).0);
      frames := frames + [frame];
    }
  }
}
