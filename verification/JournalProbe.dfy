/**
 The probe object (scripts/soak_journal.py): budgeted polls over append-only journal
 files, one observation per record. File contents, directory listings and JSON decoding
 are inputs; a raised exception leaves the probe dead.
 */
module JournalProbe {
  import opened Options
  import opened Texts
  import opened JournalLines
  import opened JournalStep

  const READ_CHUNK: nat := 64 * 1024
  const MAX_RECORD: nat := 1024 * 1024
  const MAX_POLL_BYTES: nat := 4 * 1024 * 1024
  const MAX_FILES: nat := 4096
  const MAX_KINDS: nat := 256

  /** A decoded record whose envelope, event and meta are objects; anything else decodes to nothing. */
  datatype Envelope = Envelope(session: Value, sequence: Value, kind: Value, f: map<string, Value>, cause: Value)

  type Decoder = seq<Byte> -> Option<Envelope>

  predicate IdentityText(s: string) {
    1 <= |s| <= 160 && forall i :: 0 <= i < |s| ==>
      'A' <= s[i] <= 'Z' || 'a' <= s[i] <= 'z' || '0' <= s[i] <= '9' || s[i] in "_.:-"
  }

  predicate KindText(s: string) {
    1 <= |s| <= 100 && forall i :: 0 <= i < |s| ==> 'a' <= s[i] <= 'z' || s[i] == '_'
  }

  /** Everything `_observe` checks before it looks at the pending step. */
  predicate Genuine(v: Envelope, session: string, number: int) {
    && v.session == Str(session) && IdentityText(session)
    && v.sequence.Str? && DecimalText(v.sequence.s) && Numeral(v.sequence.s) == number
    && v.kind.Str? && KindText(v.kind.s)
  }

  function EventOf(v: Envelope): (e: Event)
    requires v.kind.Str? && v.sequence.Str?
  {
    Event(KindOf(v.kind.s), v.f, v.cause, v.sequence.s)
  }

  /** What the automaton is shown of a record; records that do not decode are never observed. */
  function SeenIn(decode: Decoder, r: Record): (x: Seen) {
    var v := decode(r.bytes);
    Seen(if v.Some? && v.value.kind.Str? && v.value.sequence.Str? then EventOf(v.value) else Event(Other, map[], Null, ""), r)
  }

  function EventsOf(decode: Decoder, rs: seq<Record>): (tr: seq<Seen>)
    ensures |tr| == |rs|
  {
    if rs == [] then [] else EventsOf(decode, rs[..|rs| - 1]) + [SeenIn(decode, rs[|rs| - 1])]
  }

  lemma EventsSnoc(decode: Decoder, rs: seq<Record>, from: nat, r: Record)
    requires from <= |rs|
    ensures EventsOf(decode, (rs + [r])[from..]) == EventsOf(decode, rs[from..]) + [SeenIn(decode, r)]
  {
    hide SeenIn;
    var more := (rs + [r])[from..];
    assert more[..|more| - 1] == rs[from..];
  }

  lemma {:induction false} EventsAt(decode: Decoder, rs: seq<Record>, i: nat)
    requires i < |rs|
    ensures EventsOf(decode, rs)[i] == SeenIn(decode, rs[i])
    decreases |rs|
  {
    hide SeenIn;
    if i < |rs| - 1 {
      EventsAt(decode, rs[..|rs| - 1], i);
    }
  }

  /** What holds of a stretch of events holds of it in the whole sequence. */
  lemma UncalledLater(turn: Value, tr: seq<Seen>, all: seq<Seen>, b: nat, i: int, j: int)
    requires b + |tr| == |all| && (forall m :: 0 <= m < |tr| ==> tr[m] == all[b + m]) && 0 <= i < j <= |tr|
    ensures Uncalled(turn, tr, i, j) <==> Uncalled(turn, all, b + i, b + j)
  {
    hide Called;
    if Uncalled(turn, tr, i, j) {
      forall m, id | b + i < m < b + j ensures !Called(all[m].e, turn, id) {
        assert all[m] == tr[m - b];
      }
    } else {
      var m, id :| i < m < j && Called(tr[m].e, turn, id);
      assert Called(all[b + m].e, turn, id);
    }
  }

  lemma OvertakenLater(turn: Value, tr: seq<Seen>, all: seq<Seen>, b: nat, done: int, result: int, invocation: Value)
    requires b + |tr| == |all| && (forall m :: 0 <= m < |tr| ==> tr[m] == all[b + m]) && 0 <= done < result <= |tr|
    ensures Overtaken(turn, tr, done, result, invocation) <==> Overtaken(turn, all, b + done, b + result, invocation)
  {
    hide Called, Uncalled;
    if Overtaken(turn, tr, done, result, invocation) {
      var j, id :| 0 <= done < j < result <= |tr| && Called(tr[j].e, turn, id) && id != invocation && Uncalled(turn, tr, j, result);
      UncalledLater(turn, tr, all, b, j, result);
      assert Called(all[b + j].e, turn, id);
    }
    if Overtaken(turn, all, b + done, b + result, invocation) {
      var j, id :| 0 <= b + done < j < b + result <= |all| && Called(all[j].e, turn, id) && id != invocation
                   && Uncalled(turn, all, j, b + result);
      UncalledLater(turn, tr, all, b, j - b, result);
      assert Called(tr[j - b].e, turn, id);
    }
  }

  /** The observed records of one file, in order. */
  function OfFile(rs: seq<Record>, file: int): (r: seq<Record>) {
    if rs == [] then []
    else OfFile(rs[..|rs| - 1], file) + if rs[|rs| - 1].file == file then [rs[|rs| - 1]] else []
  }

  lemma OfFileSnoc(rs: seq<Record>, r: Record, file: int)
    ensures OfFile(rs + [r], file) == if r.file == file then OfFile(rs, file) + [r] else OfFile(rs, file)
  {
    assert (rs + [r])[..|rs|] == rs;
  }

  lemma {:induction false} OfFileAppend(rs: seq<Record>, more: seq<Record>, file: int)
    requires forall i :: 0 <= i < |more| ==> more[i].file == more[0].file
    ensures OfFile(rs + more, file) == if more != [] && more[0].file == file then OfFile(rs, file) + more else OfFile(rs, file)
    decreases |more|
  {
    hide OfFile;
    if more == [] {
      assert rs + more == rs;
    } else {
      var n := |more| - 1;
      OfFileAppend(rs, more[..n], file);
      OfFileSnoc(rs + more[..n], more[n], file);
      assert rs + more == (rs + more[..n]) + [more[n]];
    }
  }

  /** Where among those of its file a record is found. */
  lemma {:induction false} OfFileAt(rs: seq<Record>, i: nat)
    requires i < |rs|
    ensures var k := |OfFile(rs[..i], rs[i].file)|; k < |OfFile(rs, rs[i].file)| && OfFile(rs, rs[i].file)[k] == rs[i]
    decreases |rs|
  {
    if i == |rs| - 1 {
      assert rs[..i] == rs[..|rs| - 1];
    } else {
      OfFileAt(rs[..|rs| - 1], i);
      assert rs[..|rs| - 1][..i] == rs[..i];
    }
  }

  lemma {:induction false} OfFileGrows(rs: seq<Record>, i: nat, file: int)
    requires i <= |rs|
    ensures |OfFile(rs[..i], file)| <= |OfFile(rs, file)|
    decreases |rs|
  {
    if i == |rs| {
      assert rs[..i] == rs;
    } else {
      OfFileGrows(rs[..|rs| - 1], i, file);
      assert rs[..|rs| - 1][..i] == rs[..i];
    }
  }

  /** The earlier of two records of a file is the earlier one in its list. */
  lemma OfFileOrder(rs: seq<Record>, i: nat, j: nat)
    requires i < j < |rs| && rs[i].file == rs[j].file
    ensures |OfFile(rs[..i], rs[i].file)| < |OfFile(rs[..j], rs[i].file)|
  {
    hide OfFile;
    OfFileSnoc(rs[..i], rs[i], rs[i].file);
    assert rs[..i] + [rs[i]] == rs[..i + 1];
    OfFileGrows(rs[..j], i + 1, rs[i].file);
    assert rs[..j][..i + 1] == rs[..i + 1];
  }

  /** The state of an extraction: `records` taken since `begin`, `pend` from `start` on. */
  ghost predicate Extracted(id: int, content: seq<Byte>, begin: nat, start: nat, offset: nat, records: seq<Record>, pend: seq<Byte>)
    requires begin <= |content| && start <= |content|
  {
    && start <= offset <= |content| && pend == content[start..offset]
    && (forall i :: 0 <= i < |records| ==> records[i].file == id)
    && Scan(id, content, start) == Scanned(Scan(id, content, begin).records + records, [])
  }

  lemma ExtractStart(id: int, content: seq<Byte>, begin: nat, offset: nat)
    requires begin <= offset <= |content| && Scan(id, content, begin).rest == []
    ensures Extracted(id, content, begin, begin, offset, [], content[begin..offset])
  {
    hide Scan;
    assert Scan(id, content, begin).records + [] == Scan(id, content, begin).records;
  }

  lemma ExtractEnd(id: int, content: seq<Byte>, begin: nat, start: nat, offset: nat, records: seq<Record>, pend: seq<Byte>)
    requires begin <= |content| && start <= |content| && Extracted(id, content, begin, start, offset, records, pend) && NEWLINE !in pend
    ensures offset <= |content| && forall i :: 0 <= i < |records| ==> records[i].file == id
    ensures Scan(id, content, offset) == Scanned(Scan(id, content, begin).records + records, pend)
  {
    hide Scan;
    ScanOn(id, content, start, offset);
  }

  lemma ExtractOne(id: int, content: seq<Byte>, begin: nat, start: nat, offset: nat, records: seq<Record>, pend: seq<Byte>, n: nat)
    requires begin <= |content| && start <= |content| && Extracted(id, content, begin, start, offset, records, pend)
    requires n < |pend| && pend[n] == NEWLINE && NEWLINE !in pend[..n]
    ensures start + n + 1 <= offset <= |content|
    ensures Extracted(id, content, begin, start + n + 1, offset, records + [Record(id, start, pend[..n + 1])], pend[n + 1..])
  {
    assert content[start..start + n] == pend[..n] && content[start..start + n + 1] == pend[..n + 1];
    ScanLine(id, content, start, start + n);
    Regroup(Scan(id, content, begin).records, records, [Record(id, start, pend[..n + 1])]);
    assert pend[n + 1..] == content[start + n + 1..offset];
  }

  /** No record in the list is over the bound. */
  predicate Short(rs: seq<Record>) {
    forall i :: 0 <= i < |rs| ==> |rs[i].bytes| <= MAX_RECORD
  }

  /** The records between two offsets and the rest after them are within the record bound. */
  ghost predicate Bounded(id: int, content: seq<Byte>, k: nat, m: nat)
    requires k <= m <= |content|
  {
    |Scan(id, content, m).rest| <= MAX_RECORD && Short(New(id, content, k, m))
  }

  /** Where a stretch is cut does not matter to the bound. */
  lemma BoundedSplit(id: int, content: seq<Byte>, k: nat, m: nat, n: nat)
    requires k <= m <= n <= |content|
    ensures Bounded(id, content, k, n) <==> Bounded(id, content, k, m) && Bounded(id, content, m, n)
  {
    hide Scan, New;
    NewSplit(id, content, k, m, n);
    RestGoesOn(id, content, m, n);
    var a, b := New(id, content, k, m), New(id, content, m, n);
    ShortSplit(a, b);
    assert Short(b) && b != [] ==> |b[0].bytes| <= MAX_RECORD;
  }

  lemma ShortSplit(a: seq<Record>, b: seq<Record>)
    ensures Short(a + b) <==> Short(a) && Short(b)
  {
    if Short(a + b) {
      forall i | 0 <= i < |a| ensures |a[i].bytes| <= MAX_RECORD {
        assert (a + b)[i] == a[i];
      }
      forall i | 0 <= i < |b| ensures |b[i].bytes| <= MAX_RECORD {
        assert (a + b)[|a| + i] == b[i];
      }
    }
  }

  /** Every complete record between a record boundary and `offset`, and what is left over. */
  method Extract(id: int, content: seq<Byte>, begin: nat, offset: nat) returns (ok: bool, records: seq<Record>, pend: seq<Byte>)
    requires begin <= offset <= |content| && Scan(id, content, begin).rest == []
    ensures ok <==> Bounded(id, content, begin, offset)
    ensures ok ==> |pend| <= MAX_RECORD && forall i :: 0 <= i < |records| ==> records[i].file == id
    ensures ok ==> Scan(id, content, offset) == Scanned(Scan(id, content, begin).records + records, pend)
  {
    var start := begin;
    pend, records := content[start..offset], [];
    var n := FirstNewline(pend);
    ExtractStart(id, content, begin, offset);
    hide Extracted, Scan, FirstNewline;
    while n >= 0
      invariant begin <= start <= offset && Extracted(id, content, begin, start, offset, records, pend) && n == FirstNewline(pend)
      invariant Short(records)
      decreases offset - start
    {
      if n + 1 > MAX_RECORD {
        TooLong(id, content, begin, start, offset, records, pend, n);
        return false, records, pend;
      }
      ExtractOne(id, content, begin, start, offset, records, pend, n);
      records := records + [Record(id, start, pend[..n + 1])];
      start := start + n + 1;
      pend := pend[n + 1..];
      n := FirstNewline(pend);
    }
    ExtractEnd(id, content, begin, start, offset, records, pend);
    NewIs(id, content, begin, offset, records);
    ok := |pend| <= MAX_RECORD;
  }

  lemma NewIs(id: int, content: seq<Byte>, k: nat, m: nat, records: seq<Record>)
    requires k <= m <= |content| && Scan(id, content, m).records == Scan(id, content, k).records + records
    ensures New(id, content, k, m) == records
  {
    hide Scan, New;
    var a := Scan(id, content, k).records;
    assert (a + records)[|a|..] == records && (a + New(id, content, k, m))[|a|..] == New(id, content, k, m);
  }

  /** A record over the bound is among those of the whole stretch. */
  lemma TooLong(id: int, content: seq<Byte>, begin: nat, start: nat, offset: nat, records: seq<Record>, pend: seq<Byte>, n: nat)
    requires begin <= start <= offset <= |content| && Extracted(id, content, begin, start, offset, records, pend)
    requires n < |pend| && pend[n] == NEWLINE && NEWLINE !in pend[..n] && n + 1 > MAX_RECORD
    ensures !Bounded(id, content, begin, offset)
  {
    ExtractOne(id, content, begin, start, offset, records, pend, n);
    var m := start + n + 1;
    var last := Record(id, start, pend[..n + 1]);
    NewIs(id, content, begin, m, records + [last]);
    assert (records + [last])[|records|] == last;
    BoundedSplit(id, content, begin, m, offset);
    hide Scan, New;
  }

  type Files = map<int, seq<Byte>>

  /** One file: every record of what was read is observed once and in order, and the rest is pending. */
  ghost predicate FileOk(fs: Files, offsets: map<int, nat>, pending: map<int, seq<Byte>>, observed: seq<Record>, id: int) {
    if id in offsets then
      && id in fs && offsets[id] <= |fs[id]| && id in pending
      && Scan(id, fs[id], offsets[id]) == Scanned(OfFile(observed, id), pending[id]) && |pending[id]| <= MAX_RECORD
    else OfFile(observed, id) == [] && (id in pending ==> pending[id] == [])
  }

  ghost predicate FilesOk(fs: Files, offsets: map<int, nat>, pending: map<int, seq<Byte>>, observed: seq<Record>) {
    forall id :: FileOk(fs, offsets, pending, observed, id)
  }

  /** Reading on in one file leaves the others alone. */
  lemma FilesAdvance(fs: Files, offsets: map<int, nat>, pending: map<int, seq<Byte>>, observed: seq<Record>,
                     id: int, k: nat, records: seq<Record>, rest: seq<Byte>)
    requires FilesOk(fs, offsets, pending, observed) && id in fs && k <= |fs[id]|
    requires forall i :: 0 <= i < |records| ==> records[i].file == id
    requires Scan(id, fs[id], k) == Scanned(OfFile(observed, id) + records, rest) && |rest| <= MAX_RECORD
    ensures FilesOk(fs, offsets[id := k], pending[id := rest], observed + records)
    ensures OfFile(observed + records, id) == OfFile(observed, id) + records
  {
    var offsets', pending', observed' := offsets[id := k], pending[id := rest], observed + records;
    forall other ensures FileOk(fs, offsets', pending', observed', other) {
      OfFileAppend(observed, records, other);
      assert FileOk(fs, offsets, pending, observed, other);
    }
    OfFileAppend(observed, records, id);
  }

  /**
   Exactly once: the records observed from a file are the lines of everything read from
   it but the pending rest, in order, without gap, each at the offset its proof names.
   */
  lemma ExactlyOnce(fs: Files, offsets: map<int, nat>, pending: map<int, seq<Byte>>, observed: seq<Record>, id: int)
    requires FilesOk(fs, offsets, pending, observed) && id in offsets
    ensures id in fs && offsets[id] <= |fs[id]| && id in pending && |pending[id]| <= offsets[id]
    ensures Tiles(OfFile(observed, id), offsets[id] - |pending[id]|) && AllLocated(id, fs[id], OfFile(observed, id))
    ensures pending[id] == fs[id][offsets[id] - |pending[id]|..offsets[id]] && NEWLINE !in pending[id]
  {
    assert FileOk(fs, offsets, pending, observed, id);
    ScanIsExact(id, fs[id], offsets[id]);
    RestIsTail(id, fs[id], offsets[id]);
  }

  /** Every observed record lies in its file, one line at the offset its proof names. */
  ghost predicate AllFound(fs: Files, observed: seq<Record>) {
    forall i :: 0 <= i < |observed| ==> observed[i].file in fs && Located(fs[observed[i].file], observed[i])
  }

  /** Of two records of a file, the one observed first ends before the other begins. */
  ghost predicate InFileOrder(observed: seq<Record>) {
    forall i, j :: 0 <= i < j < |observed| && observed[i].file == observed[j].file ==>
      observed[i].offset + |observed[i].bytes| <= observed[j].offset
  }

  lemma EachFound(fs: Files, offsets: map<int, nat>, pending: map<int, seq<Byte>>, observed: seq<Record>)
    requires FilesOk(fs, offsets, pending, observed)
    ensures AllFound(fs, observed) && InFileOrder(observed)
  {
    hide FilesOk, OfFile, Located;
    forall i | 0 <= i < |observed| ensures observed[i].file in fs && Located(fs[observed[i].file], observed[i]) {
      OneFound(fs, offsets, pending, observed, i);
    }
    forall i, j | 0 <= i < j < |observed| && observed[i].file == observed[j].file
      ensures observed[i].offset + |observed[i].bytes| <= observed[j].offset
    {
      OneFound(fs, offsets, pending, observed, i);
      OfFileAt(observed, i);
      OfFileAt(observed, j);
      OfFileOrder(observed, i, j);
      var id := observed[i].file;
      TilesOrder(OfFile(observed, id), offsets[id] - |pending[id]|, |OfFile(observed[..i], id)|, |OfFile(observed[..j], id)|);
    }
  }

  lemma OneFound(fs: Files, offsets: map<int, nat>, pending: map<int, seq<Byte>>, observed: seq<Record>, i: nat)
    requires FilesOk(fs, offsets, pending, observed) && i < |observed|
    ensures var id := observed[i].file;
            && id in fs && Located(fs[id], observed[i])
            && id in offsets && id in pending && |pending[id]| <= offsets[id] && Tiles(OfFile(observed, id), offsets[id] - |pending[id]|)
  {
    hide OfFile, Located, Tiles, Scan;
    OfFileAt(observed, i);
    var id := observed[i].file;
    assert FileOk(fs, offsets, pending, observed, id);
    ExactlyOnce(fs, offsets, pending, observed, id);
  }

  lemma {:induction false} TilesOrder(rs: seq<Record>, end: nat, k: nat, m: nat)
    requires Tiles(rs, end) && k < m < |rs|
    ensures rs[k].offset + |rs[k].bytes| <= rs[m].offset
    decreases m
  {
    if k < m - 1 {
      TilesOrder(rs, end, k, m - 1);
    }
  }

  /** Bytes read in all files together. */
  ghost function Total(offsets: map<int, nat>): (n: nat) {
    if id :| id in offsets then offsets[id] + Total(offsets - {id}) else 0
  }

  lemma {:induction false} TotalPick(offsets: map<int, nat>, id: int)
    requires id in offsets
    ensures Total(offsets) == offsets[id] + Total(offsets - {id})
    decreases |offsets|
  {
    var first :| first in offsets && Total(offsets) == offsets[first] + Total(offsets - {first});
    if first != id {
      TotalPick(offsets - {first}, id);
      TotalPick(offsets - {id}, first);
      assert offsets - {first} - {id} == offsets - {id} - {first};
    }
  }

  lemma TotalGrows(offsets: map<int, nat>, id: int, k: nat)
    requires k >= (if id in offsets then offsets[id] else 0)
    ensures Total(offsets[id := k]) == Total(offsets) + k - (if id in offsets then offsets[id] else 0)
  {
    TotalPick(offsets[id := k], id);
    assert offsets[id := k] - {id} == offsets - {id};
    if id in offsets {
      TotalPick(offsets, id);
    } else {
      assert offsets - {id} == offsets;
    }
  }

  /** Where reading goes on in a file, and what is pending there. */
  lemma FileStarts(fs: Files, offsets: map<int, nat>, pending: map<int, seq<Byte>>, observed: seq<Record>, id: int)
    requires FilesOk(fs, offsets, pending, observed) && id in fs
    ensures var k := if id in offsets then offsets[id] else 0; var rest := if id in pending then pending[id] else [];
            k <= |fs[id]| && Scan(id, fs[id], k) == Scanned(OfFile(observed, id), rest) && |rest| <= MAX_RECORD
  {
    assert FileOk(fs, offsets, pending, observed, id);
  }

  /** Files only grow, so nothing already read changes its meaning. */
  lemma FilesGrow(fs: Files, later: Files, offsets: map<int, nat>, pending: map<int, seq<Byte>>, observed: seq<Record>)
    requires FilesOk(fs, offsets, pending, observed) && Grown(fs, later)
    ensures FilesOk(later, offsets, pending, observed)
  {
    forall id ensures FileOk(later, offsets, pending, observed, id) {
      assert FileOk(fs, offsets, pending, observed, id);
      if id in offsets {
        ScanPrefix(id, fs[id], later[id], offsets[id]);
      }
    }
  }

  /** Append-only: every earlier content is a prefix of the later one. */
  ghost predicate Grown(fs: Files, later: Files) {
    forall id :: id in fs ==> id in later && fs[id] <= later[id]
  }

  /** Opening one path of the listing: it is gone, or it is a file with an identity. */
  datatype Opened = Gone | File(id: int, active: bool, session: string)

  function FirstNewline(text: seq<Byte>): (n: int)
    ensures n < 0 ==> NEWLINE !in text
    ensures n >= 0 ==> n < |text| && text[n] == NEWLINE && NEWLINE !in text[..n]
  {
    if text == [] then -1
    else if text[0] == NEWLINE then 0
    else
      var n := FirstNewline(text[1..]);
      assert n >= 0 ==> text[..n + 1] == [text[0]] + text[1..][..n];
      if n < 0 then -1 else n + 1
  }

  /** What the probe knows of the session, and the step it follows. */
  datatype Watch = Watch(session: Option<string>, sequence: int, kinds: set<string>, step: Option<Step>)

  /** Everything that has to hold for one more record to be observed. */
  predicate Acceptable(w: Watch, decode: Decoder, r: Record, name: string) {
    && decode(r.bytes).Some?
    && var v := decode(r.bytes).value;
    && Genuine(v, name, w.sequence + 1) && (w.session.None? || w.session == Some(name))
    && (v.kind.s in w.kinds || |w.kinds| != MAX_KINDS)
    && (w.step.Some? ==> Advance(w.step.value, EventOf(v), r).Ok?)
  }

  /** The probe after one more record. */
  function Watched(w: Watch, decode: Decoder, r: Record, name: string): (n: Watch)
    requires Acceptable(w, decode, r, name)
  {
    var v := decode(r.bytes).value;
    Watch(Some(name), w.sequence + 1, w.kinds + {v.kind.s},
          if w.step.Some? then Some(Advance(w.step.value, EventOf(v), r).value) else None)
  }

  /** The probe after all the records, unless one of them is not acceptable. */
  function WatchedAll(w: Watch, decode: Decoder, rs: seq<Record>, name: string): (n: Option<Watch>) {
    if rs == [] then Some(w)
    else
      var past := WatchedAll(w, decode, rs[..|rs| - 1], name);
      if past.Some? && Acceptable(past.value, decode, rs[|rs| - 1], name)
      then Some(Watched(past.value, decode, rs[|rs| - 1], name)) else None
  }

  lemma WatchedNext(w: Watch, decode: Decoder, rs: seq<Record>, i: nat, name: string)
    requires i < |rs|
    ensures var past := WatchedAll(w, decode, rs[..i], name);
            WatchedAll(w, decode, rs[..i + 1], name)
            == if past.Some? && Acceptable(past.value, decode, rs[i], name) then Some(Watched(past.value, decode, rs[i], name)) else None
  {
    hide Acceptable, Watched;
    assert rs[..i + 1][..i] == rs[..i];
  }

  /** One record that is not acceptable spoils everything after it. */
  lemma {:induction false} NeverWatched(w: Watch, decode: Decoder, rs: seq<Record>, i: nat, name: string)
    requires i <= |rs| && WatchedAll(w, decode, rs[..i], name).None?
    ensures WatchedAll(w, decode, rs, name).None?
    decreases |rs|
  {
    hide Acceptable, Watched;
    if i == |rs| {
      assert rs[..i] == rs;
    } else {
      assert rs[..|rs| - 1][..i] == rs[..i];
      NeverWatched(w, decode, rs[..|rs| - 1], i, name);
    }
  }

  lemma {:induction false} WatchedAppend(w: Watch, decode: Decoder, a: seq<Record>, b: seq<Record>, name: string)
    ensures var past := WatchedAll(w, decode, a, name);
            WatchedAll(w, decode, a + b, name) == if past.Some? then WatchedAll(past.value, decode, b, name) else None
    decreases |b|
  {
    hide Acceptable, Watched;
    if b == [] {
      assert a + b == a;
    } else {
      assert (a + b)[..|a + b| - 1] == a + b[..|b| - 1];
      WatchedAppend(w, decode, a, b[..|b| - 1], name);
    }
  }

  /** The stretch of the file from `k` to `m` reads without a fault. */
  ghost predicate Readable(w: Watch, decode: Decoder, file: Opened, content: seq<Byte>, k: nat, m: nat)
    requires file.File? && k <= m <= |content|
  {
    Bounded(file.id, content, k, m) && WatchedAll(w, decode, New(file.id, content, k, m), file.session).Some?
  }

  /** Reading is independent of where the reads are cut. */
  lemma ReadableSplit(w: Watch, decode: Decoder, file: Opened, content: seq<Byte>, k: nat, m: nat, n: nat)
    requires file.File? && k <= m <= n <= |content|
    ensures var past := WatchedAll(w, decode, New(file.id, content, k, m), file.session);
            && (Readable(w, decode, file, content, k, n)
                <==> Readable(w, decode, file, content, k, m) && Readable(past.value, decode, file, content, m, n))
            && (past.Some? ==> WatchedAll(past.value, decode, New(file.id, content, m, n), file.session)
                               == WatchedAll(w, decode, New(file.id, content, k, n), file.session))
  {
    hide New, WatchedAll, Bounded;
    BoundedSplit(file.id, content, k, m, n);
    NewSplit(file.id, content, k, m, n);
    WatchedAppend(w, decode, New(file.id, content, k, m), New(file.id, content, m, n), file.session);
  }

  lemma NothingRead(w: Watch, decode: Decoder, file: Opened, content: seq<Byte>, k: nat)
    requires file.File? && k <= |content| && |Scan(file.id, content, k).rest| <= MAX_RECORD
    ensures Readable(w, decode, file, content, k, k)
    ensures New(file.id, content, k, k) == [] && WatchedAll(w, decode, [], file.session) == Some(w)
  {
    assert New(file.id, content, k, k) == [];
  }

  lemma NothingSeen(decode: Decoder, p: Step)
    ensures RunAll(p, EventsOf(decode, [])) == Ok(p)
  {
  }

  lemma BeginIs(marker: string, kind: Kind)
    ensures Begin(marker, kind).marker == marker && Begin(marker, kind).kind == kind
  {
  }

  /** The proof kept of the last completed step: its committed body and its finish. */
  datatype Kept = Kept(marker: string, body: Record, finish: Record)

  /** The event ends a step of the turn. */
  predicate Closing(e: Event, turn: Value) {
    Finished(e, turn) || CompactDone(e, turn, e.cause)
  }

  /** An event that completes a step closes its turn, and the step has a body. */
  lemma Completes(p: Step, e: Event, r: Record)
    requires !p.completed && Advance(p, e, r).Ok? && Advance(p, e, r).value.completed
    ensures var q := Advance(p, e, r).value;
            q.body.Some? && q.turn == p.turn && q.marker == p.marker && q.kind == p.kind && Closing(e, q.turn)
  {
    hide OnAccepted, OnDelta, OnResults, OnCommitted, Get, TurnId, ReadCall;
    DecideHolds(p, Seen(e, r));
  }

  /** And the body is the proof of a committed body among the events of the step. */
  lemma BodyAmong(marker: string, kind: Kind, tr: seq<Seen>) returns (b: nat)
    requires RunAll(Begin(marker, kind), tr).Ok? && RunAll(Begin(marker, kind), tr).value.completed
    ensures var p := RunAll(Begin(marker, kind), tr).value;
            b < |tr| - 1 && p.body == Some(tr[b].proof) && Body(tr[b].e, marker, p.turn)
  {
    hide RunAll, Body;
    if kind == Compact {
      var start, body, finish := CompletedCompaction(marker, tr);
      b := body;
    } else {
      var start, accept, delta, body, finish := CompletedTurn(marker, kind, tr);
      b := body;
    }
  }

  /** The path still leads to the file. */
  predicate Reopens(reopen: int -> Opened, file: int) {
    reopen(file).File? && reopen(file).id == file
  }

  /** `seek` and `read`: whatever is there of the bytes asked for. */
  function ReadAt(content: seq<Byte>, offset: nat, size: nat): (r: seq<Byte>) {
    if offset + size <= |content| then content[offset..offset + size] else if offset <= |content| then content[offset..] else []
  }

  /** The digest of what is now at a record's place is that of the record. */
  predicate Checks(reopen: int -> Opened, now: Files, sha: seq<Byte> -> seq<Byte>, r: Record) {
    Reopens(reopen, r.file) && r.file in now && sha(ReadAt(now[r.file], r.offset, |r.bytes|)) == sha(r.bytes)
  }

  /** The record is still in its file, at its offset. */
  predicate StillAt(reopen: int -> Opened, now: Files, r: Record) {
    && Reopens(reopen, r.file) && r.file in now && r.offset + |r.bytes| <= |now[r.file]|
    && now[r.file][r.offset..r.offset + |r.bytes|] == r.bytes
  }

  ghost predicate Injective(sha: seq<Byte> -> seq<Byte>) {
    forall a, b :: sha(a) == sha(b) ==> a == b
  }

  lemma CheckIsExact(fs: Files, reopen: int -> Opened, now: Files, sha: seq<Byte> -> seq<Byte>, r: Record)
    requires Injective(sha) && r.file in fs && Located(fs[r.file], r)
    ensures Checks(reopen, now, sha, r) <==> StillAt(reopen, now, r)
    ensures Grown(fs, now) && Reopens(reopen, r.file) ==> StillAt(reopen, now, r)
  {
    if r.file in now {
      var read := ReadAt(now[r.file], r.offset, |r.bytes|);
      assert sha(read) == sha(r.bytes) <==> read == r.bytes;
    }
    if Grown(fs, now) {
      var a, b := fs[r.file], now[r.file];
      assert b[r.offset..r.offset + |r.bytes|] == b[..|a|][r.offset..r.offset + |r.bytes|];
    }
  }

  class EventLogProbe {
    const decode: Decoder
    var dead: bool
    var paths: set<int>
    var offsets: map<int, nat>
    var pendingRecords: map<int, seq<Byte>>
    var kinds: set<string>
    var session: Option<string>
    var sequence: int
    var step: Option<Step>
    var last: Option<Kept>
    ghost var observed: seq<Record>
    ghost var begun: nat
    ghost var lastBody: nat
    ghost var lastFinish: nat
    ghost var lastTurn: Value

    /** The observed records are events 0, 1, 2, ... of one session. */
    ghost predicate Contiguous()
      reads `sequence, `session, `observed
    {
      && sequence == |observed| - 1 && (observed != [] ==> session.Some?)
      && forall i :: 0 <= i < |observed| ==>
           decode(observed[i].bytes).Some? && Genuine(decode(observed[i].bytes).value, session.value, i)
    }

    /** The last proof is that of a committed body with its marker and of a later end of its turn, both observed. */
    ghost predicate LastOk()
      reads `last, `lastBody, `lastFinish, `lastTurn, `observed
    {
      last.Some? ==>
        && lastBody < lastFinish < |observed| && last.value.body == observed[lastBody] && last.value.finish == observed[lastFinish]
        && Body(SeenIn(decode, observed[lastBody]).e, last.value.marker, lastTurn)
        && Closing(SeenIn(decode, observed[lastFinish]).e, lastTurn)
    }

    /** The pending step is what the automaton makes of the records observed since it began. */
    ghost predicate StepOk()
      reads `step, `begun, `observed, `last, `lastBody, `lastFinish, `lastTurn
    {
      && LastOk()
      && (step.Some? ==>
            begun <= |observed|
            && RunAll(Begin(step.value.marker, step.value.kind), EventsOf(decode, observed[begun..])) == Ok(step.value))
    }

    ghost function Now(): Watch
      reads `session, `sequence, `kinds, `step
    {
      Watch(session, sequence, kinds, step)
    }

    ghost predicate Valid(fs: Files)
      reads this
    {
      !dead ==> FilesOk(fs, offsets, pendingRecords, observed) && Contiguous() && StepOk()
    }

    constructor (decode: Decoder)
      ensures Valid(map[]) && !dead && observed == [] && this.decode == decode && step.None?
    {
      this.decode := decode;
      dead, paths, offsets, pendingRecords, kinds := false, {}, map[], map[], {};
      session, sequence, step, last := None, -1, None, None;
      observed, begun := [], 0;
    }

    /** Between polls the files may only grow. */
    lemma StaysValid(fs: Files, later: Files)
      requires Valid(fs) && Grown(fs, later)
      ensures Valid(later)
    {
      if !dead {
        FilesGrow(fs, later, offsets, pendingRecords, observed);
      }
    }

    method BeginStep(marker: string, kind: Kind, ghost fs: Files) returns (ok: bool)
      requires Valid(fs) && !dead
      modifies `step, `begun
      ensures Valid(fs) && !dead
      ensures ok <==> ValidMarker(marker) && (old(step).Some? ==> old(step).value.completed)
      ensures ok ==> step == Some(Begin(marker, kind)) && begun == |observed|
      ensures !ok ==> step == old(step) && begun == old(begun)
    {
      hide RunAll, EventsOf, FilesOk, Contiguous, Begin, LastOk, ValidMarker;
      if !ValidMarker(marker) || (step.Some? && !step.value.completed) {
        return false;
      }
      step := Some(Begin(marker, kind));
      begun := |observed|;
      assert observed[begun..] == [];
      NothingSeen(decode, Begin(marker, kind));
      BeginIs(marker, kind);
      return true;
    }

    /** `_observe` for one record. */
    method Observe(record: Record, name: string) returns (ok: bool)
      requires !dead && Contiguous() && StepOk()
      modifies `kinds, `session, `sequence, `step, `last, `observed, `lastBody, `lastFinish, `lastTurn
      ensures ok <==> Acceptable(old(Now()), decode, record, name)
      ensures ok ==> Now() == Watched(old(Now()), decode, record, name)
      ensures ok ==> Contiguous() && StepOk() && observed == old(observed) + [record]
      ensures old(last).Some? ==> last.Some?
    {
      hide StepOk, Numeral, IdentityText, KindText, DecimalText, KindOf;
      var decoded := decode(record.bytes);
      if decoded.None? {
        return false;
      }
      var v := decoded.value;
      if !v.session.Str? || !IdentityText(v.session.s) || v.session.s != name {
        return false;
      }
      if !v.sequence.Str? || !DecimalText(v.sequence.s) {
        return false;
      }
      if session.None? {
        session := Some(name);
      }
      if session != Some(name) || Numeral(v.sequence.s) != sequence + 1 {
        return false;
      }
      sequence := Numeral(v.sequence.s);
      if !v.kind.Str? || !KindText(v.kind.s) || (v.kind.s !in kinds && |kinds| == MAX_KINDS) {
        return false;
      }
      kinds := kinds + {v.kind.s};
      ok := Follow(EventOf(v), record);
    }

    /** The pending step, if any, sees the event; if that completes it, its proof is kept. */
    method Follow(e: Event, record: Record) returns (ok: bool)
      requires StepOk() && SeenIn(decode, record) == Seen(e, record)
      modifies `step, `last, `observed, `lastBody, `lastFinish, `lastTurn
      ensures ok <==> (old(step).Some? ==> Advance(old(step).value, e, record).Ok?)
      ensures ok ==> step == if old(step).Some? then Some(Advance(old(step).value, e, record).value) else None
      ensures ok ==> StepOk()
      ensures observed == old(observed) + [record]
      ensures old(last).Some? ==> last.Some?
    {
      hide RunAll, Advance, SeenIn, EventsOf, Body, Closing;
      if step.Some? {
        ghost var x := Seen(e, record);
        RunSnoc(Begin(step.value.marker, step.value.kind), EventsOf(decode, observed[begun..]), step.value, x);
        EventsSnoc(decode, observed, begun, record);
        observed := observed + [record];
        var next := Advance(step.value, e, record);
        if next.Raised? {
          return false;
        }
        SameStep(step.value, x);
        var was := step.value;
        step := Some(next.value);
        if !was.completed && next.value.completed {
          Completes(was, e, record);
          Keep(e, record);
        }
      } else {
        observed := observed + [record];
      }
      ok := true;
    }

    /** `_finish` */
    method Keep(e: Event, record: Record)
      requires step.Some? && step.value.completed && step.value.body.Some? && Closing(e, step.value.turn)
      requires begun < |observed| && observed[|observed| - 1] == record && SeenIn(decode, record) == Seen(e, record)
      requires RunAll(Begin(step.value.marker, step.value.kind), EventsOf(decode, observed[begun..])) == Ok(step.value)
      modifies `last, `lastBody, `lastFinish, `lastTurn
      ensures LastOk() && last == Some(Kept(step.value.marker, step.value.body.value, record))
    {
      hide RunAll, SeenIn, EventsOf, Body, Closing;
      ghost var rs := observed[begun..];
      ghost var b := BodyAmong(step.value.marker, step.value.kind, EventsOf(decode, rs));
      EventsAt(decode, rs, b);
      ProofOf(rs[b]);
      last := Some(Kept(step.value.marker, step.value.body.value, record));
      lastBody, lastFinish, lastTurn := begun + b, |observed| - 1, step.value.turn;
    }

    method ObserveAll(records: seq<Record>, name: string) returns (ok: bool)
      requires !dead && Contiguous() && StepOk()
      modifies `kinds, `session, `sequence, `step, `last, `observed, `lastBody, `lastFinish, `lastTurn
      ensures ok <==> WatchedAll(old(Now()), decode, records, name).Some?
      ensures ok ==> Some(Now()) == WatchedAll(old(Now()), decode, records, name)
      ensures ok ==> Contiguous() && StepOk() && observed == old(observed) + records
      ensures old(last).Some? ==> last.Some?
    {
      hide Contiguous, StepOk, Acceptable, Watched;
      ghost var w := Now();
      var i := 0;
      while i < |records|
        invariant 0 <= i <= |records| && Contiguous() && StepOk() && (old(last).Some? ==> last.Some?)
        invariant observed == old(observed) + records[..i]
        invariant WatchedAll(w, decode, records[..i], name) == Some(Now())
      {
        WatchedNext(w, decode, records, i, name);
        ok := Observe(records[i], name);
        if !ok {
          NeverWatched(w, decode, records, i + 1, name);
          return;
        }
        assert records[..i + 1] == records[..i] + [records[i]];
        i := i + 1;
      }
      assert records[..i] == records;
      ok := true;
    }

    /** Read `size` more bytes of one file. */
    method ReadOn(file: Opened, fs: Files, offset: nat, pend: seq<Byte>, size: nat) returns (ok: bool)
      requires file.File? && file.id in fs && offset + size <= |fs[file.id]| && !dead
      requires FilesOk(fs, offsets, pendingRecords, observed) && Contiguous() && StepOk()
      requires Scan(file.id, fs[file.id], offset) == Scanned(OfFile(observed, file.id), pend)
      modifies `offsets, `pendingRecords, `kinds, `session, `sequence, `step, `last, `observed, `lastBody, `lastFinish, `lastTurn
      ensures ok ==> FilesOk(fs, offsets, pendingRecords, observed) && Contiguous() && StepOk()
      ensures ok ==> offsets == old(offsets)[file.id := offset + size] && file.id in pendingRecords
      ensures ok ==> Scan(file.id, fs[file.id], offset + size) == Scanned(OfFile(observed, file.id), pendingRecords[file.id])
      ensures ok <==> Readable(old(Now()), decode, file, fs[file.id], offset, offset + size)
      ensures ok ==> WatchedAll(old(Now()), decode, New(file.id, fs[file.id], offset, offset + size), file.session) == Some(Now())
      ensures ok ==> observed == old(observed) + New(file.id, fs[file.id], offset, offset + size)
      ensures old(last).Some? ==> last.Some?
    {
      hide Contiguous, StepOk, FilesOk, OfFile, WatchedAll, New, Scan;
      var id, content := file.id, fs[file.id];
      RestIsTail(id, content, offset);
      NewIs(id, content, offset - |pend|, offset + size, New(id, content, offset, offset + size));
      var records: seq<Record>, rest: seq<Byte>;
      ok, records, rest := Extract(id, content, offset - |pend|, offset + size);
      if ok {
        NewIs(id, content, offset, offset + size, records);
        FilesAdvance(fs, offsets, pendingRecords, observed, id, offset + size, records, rest);
        ok := ObserveAll(records, file.session);
        offsets := offsets[id := offset + size];
        pendingRecords := pendingRecords[id := rest];
      }
    }

    /** Where a read with this budget ends. */
    ghost function End(content: seq<Byte>, start: nat, budget: nat): (e: nat)
      requires start <= |content|
      ensures start <= e <= |content|
    {
      if start + budget < |content| then start + budget else |content|
    }

    /** A file that is read to its end must not end in a partial record, unless it is still being written. */
    ghost predicate EndsWell(file: Opened, content: seq<Byte>, start: nat, budget: nat)
      requires file.File?
    {
      start + budget > |content| ==> Scan(file.id, content, |content|).rest == [] || file.active
    }

    /**
     Reads one file from `start` on, in chunks, until it ends or the budget does: as if
     in one read, whatever the chunk size.
     */
    method Drain(file: Opened, budget: nat, fs: Files, start: nat, rest: seq<Byte>) returns (ok: bool, remaining: nat)
      requires file.File? && file.id in fs && start <= |fs[file.id]| && !dead
      requires FilesOk(fs, offsets, pendingRecords, observed) && Contiguous() && StepOk()
      requires Scan(file.id, fs[file.id], start) == Scanned(OfFile(observed, file.id), rest) && |rest| <= MAX_RECORD
      requires if file.id in offsets then offsets[file.id] == start else start == 0
      modifies `offsets, `pendingRecords, `kinds, `session, `sequence, `step, `last, `observed, `lastBody, `lastFinish, `lastTurn
      ensures var content := fs[file.id]; var e := End(content, start, budget);
              && (ok <==> Readable(old(Now()), decode, file, content, start, e) && EndsWell(file, content, start, budget))
              && (ok ==> WatchedAll(old(Now()), decode, New(file.id, content, start, e), file.session) == Some(Now()))
              && (ok ==> observed == old(observed) + New(file.id, content, start, e))
              && (ok ==> remaining == budget - (e - start) && offsets == if e > start then old(offsets)[file.id := e] else old(offsets))
      ensures remaining <= budget
      ensures ok ==> FilesOk(fs, offsets, pendingRecords, observed) && Contiguous() && StepOk()
      ensures old(last).Some? ==> last.Some?
    {
      hide FilesOk, OfFile, Scan, Contiguous, StepOk, Readable, WatchedAll, New;
      var length, offset, pend := |fs[file.id]|, start, rest;
      ghost var w, content, e := Now(), fs[file.id], End(fs[file.id], start, budget);
      ok, remaining := true, budget;
      NothingRead(w, decode, file, content, start);
      while remaining > 0
        invariant start <= offset <= e && remaining == budget - (offset - start) && ok && (old(last).Some? ==> last.Some?)
        invariant FilesOk(fs, offsets, pendingRecords, observed) && Contiguous() && StepOk()
        invariant Scan(file.id, content, offset) == Scanned(OfFile(observed, file.id), pend)
        invariant offsets == if offset > start then old(offsets)[file.id := offset] else old(offsets)
        invariant Readable(w, decode, file, content, start, offset)
        invariant WatchedAll(w, decode, New(file.id, content, start, offset), file.session) == Some(Now())
        invariant observed == old(observed) + New(file.id, content, start, offset)
        decreases remaining
      {
        var size := if length - offset < READ_CHUNK then length - offset else READ_CHUNK;
        size := if size < remaining then size else remaining;
        if size == 0 {
          ok := pend == [] || file.active;
          return;
        }
        remaining := remaining - size;
        ReadableSplit(w, decode, file, content, start, offset, offset + size);
        ReadableSplit(w, decode, file, content, start, offset + size, e);
        NewSplit(file.id, content, start, offset, offset + size);
        ok := ReadOn(file, fs, offset, pend, size);
        if !ok {
          return;
        }
        offset, pend := offset + size, pendingRecords[file.id];
      }
    }

    /** One opened file, within what is left of the budget. */
    method PollFile(file: Opened, budget: nat, fs: Files) returns (ok: bool, remaining: nat)
      requires file.File? && file.id in fs && Valid(fs) && !dead
      modifies this
      ensures Valid(fs) && dead == !ok && remaining <= budget
      ensures ok ==> Total(offsets) == Total(old(offsets)) + budget - remaining
      ensures var content := fs[file.id]; var start := if file.id in old(offsets) then old(offsets)[file.id] else 0;
              && start <= |content|
              && var e := End(content, start, budget);
              && (ok <==> (file.id in old(paths) || |old(paths)| != MAX_FILES)
                          && Readable(old(Now()), decode, file, content, start, e) && EndsWell(file, content, start, budget))
              && (ok ==> WatchedAll(old(Now()), decode, New(file.id, content, start, e), file.session) == Some(Now()))
              && (ok ==> observed == old(observed) + New(file.id, content, start, e))
              && (ok ==> remaining == budget - (e - start) && offsets == if e > start then old(offsets)[file.id := e] else old(offsets))
      ensures old(last).Some? ==> last.Some?
    {
      hide FilesOk, OfFile, Contiguous, StepOk, Readable, WatchedAll, New, Scan, EndsWell, End;
      var id := file.id;
      remaining := budget;
      FileStarts(fs, offsets, pendingRecords, observed, id);
      if id !in paths && |paths| == MAX_FILES {
        dead := true;
        return false, remaining;
      }
      paths := paths + {id};
      var offset := if id in offsets then offsets[id] else 0;
      var pend := if id in pendingRecords then pendingRecords[id] else [];
      ok, remaining := Drain(file, budget, fs, offset, pend);
      TotalGrows(old(offsets), id, offset + (budget - remaining));
      dead := !ok;
    }

    /** The file is read to its end. */
    predicate ReadUp(fs: Files, id: int)
      requires id in fs
      reads `offsets
    {
      fs[id] == [] || (id in offsets && offsets[id] == |fs[id]|)
    }

    /**
     One poll over a listing. Whatever the files and the budget, afterwards every record
     of the bytes read so far has been observed exactly once, at its offset, in order;
     and unless the budget ran out, every listed file has been read to its end.
     */
    method PollAll(listing: seq<Opened>, fs: Files) returns (ok: bool, remaining: nat)
      requires Valid(fs) && !dead && forall i :: 0 <= i < |listing| && listing[i].File? ==> listing[i].id in fs
      modifies this
      ensures Valid(fs) && dead == !ok
      ensures ok && remaining > 0 ==> forall i :: 0 <= i < |listing| && listing[i].File? ==> ReadUp(fs, listing[i].id)
      ensures ok ==> forall id :: id in old(offsets) ==> id in offsets && offsets[id] >= old(offsets)[id]
      ensures remaining <= MAX_POLL_BYTES && (ok ==> Total(offsets) == Total(old(offsets)) + MAX_POLL_BYTES - remaining)
      ensures ok ==> old(observed) <= observed
      ensures old(last).Some? ==> last.Some?
    {
      hide Readable, WatchedAll, New, EndsWell, FilesOk, Contiguous, StepOk;
      remaining := MAX_POLL_BYTES;
      var i := 0;
      ok := true;
      while i < |listing| && remaining > 0 && ok
        invariant 0 <= i <= |listing| && Valid(fs) && dead == !ok
        invariant ok && remaining > 0 ==> forall j :: 0 <= j < i && listing[j].File? ==> ReadUp(fs, listing[j].id)
        invariant ok ==> forall id :: id in old(offsets) ==> id in offsets && offsets[id] >= old(offsets)[id]
        invariant remaining <= MAX_POLL_BYTES && (ok ==> Total(offsets) == Total(old(offsets)) + MAX_POLL_BYTES - remaining)
        invariant ok ==> old(observed) <= observed
        invariant old(last).Some? ==> last.Some?
      {
        if listing[i].File? {
          ok, remaining := PollFile(listing[i], remaining, fs);
        }
        i := i + 1;
      }
    }

    /** The event of an observed record. */
    ghost function EventAt(i: nat): (e: Event)
      requires i < |observed|
      reads `observed
    {
      SeenIn(decode, observed[i]).e
    }

    /** The session's events 0, 1, 2, ... up to the last one observed, all found in the files, in order. */
    ghost predicate Proved(fs: Files)
      reads this
    {
      AllFound(fs, observed) && InFileOrder(observed) && Contiguous()
    }

    /** What the pending step saw is the observed records from `begun` on. */
    lemma StepSaw(fs: Files) returns (tr: seq<Seen>)
      requires Valid(fs) && !dead && step.Some?
      ensures Proved(fs) && begun + |tr| == |observed| && RunAll(Begin(step.value.marker, step.value.kind), tr) == Ok(step.value)
      ensures forall i :: 0 <= i < |tr| ==> tr[i] == Seen(EventAt(begun + i), observed[begun + i])
    {
      hide RunAll, SeenIn, FilesOk, Contiguous;
      EachFound(fs, offsets, pendingRecords, observed);
      var rs := observed[begun..];
      tr := EventsOf(decode, rs);
      forall i | 0 <= i < |tr| ensures tr[i] == Seen(EventAt(begun + i), observed[begun + i]) {
        EventsAt(decode, rs, i);
        ProofOf(rs[i]);
      }
    }

    lemma ProofOf(r: Record)
      ensures SeenIn(decode, r).proof == r
    {
    }

    /**
     End to end: a turn that is reported complete lies in the journal files. Its start,
     its input, a delta, its body and its finish are observed records, in that order,
     each a line of its file at the offset named, numbered within one session; and the
     body proof is the record of the committed body.
     */
    lemma TurnProved(fs: Files) returns (start: int, accept: int, delta: int, body: int, finish: int)
      requires Valid(fs) && !dead && step.Some? && step.value.completed && step.value.kind != Compact
      ensures Proved(fs) && begun <= start < accept < body < finish < |observed| && start < delta < finish
      ensures var p := step.value;
              && Started(EventAt(start), p.turn) && Accepted(EventAt(accept), p.marker, p.turn) && Delta(EventAt(delta), p.turn)
              && Body(EventAt(body), p.marker, p.turn) && p.body == Some(observed[body]) && Finished(EventAt(finish), p.turn)
    {
      hide *;
      var tr := StepSaw(fs);
      start, accept, delta, body, finish := CompletedTurn(step.value.marker, step.value.kind, tr);
      start, accept, delta, body, finish := begun + start, begun + accept, begun + delta, begun + body, begun + finish;
    }

    /** The tool part of a tool turn that is reported complete. */
    lemma ToolProved(fs: Files) returns (call: int, done: int, latest: int, result: int, invocation: Value, named: Value)
      requires Valid(fs) && !dead && step.Some? && step.value.completed && step.value.kind == Tool
      ensures Proved(fs) && begun <= call < done < result < |observed| && begun <= latest < result
      ensures var turn := step.value.turn;
              && Called(EventAt(call), turn, invocation) && Done(EventAt(done), turn, invocation)
              && Called(EventAt(latest), turn, named) && Reported(EventAt(result), turn, named, EventAt(done).sequence)
      ensures var turn, all := step.value.turn, EventsOf(decode, observed);
              && Uncalled(turn, all, call, done) && Uncalled(turn, all, latest, result)
              && (named == invocation <==> !Overtaken(turn, all, done, result, invocation))
    {
      hide *;
      var tr := StepSaw(fs);
      var p, all := step.value, EventsOf(decode, observed);
      call, done, latest, result, invocation, named := CompletedTool(p.marker, tr);
      forall i | 0 <= i < |tr| ensures tr[i] == all[begun + i] {
        EventsAt(decode, observed, begun + i);
        ProofOf(observed[begun + i]);
        EventIs(begun + i);
      }
      UncalledLater(p.turn, tr, all, begun, call, done);
      UncalledLater(p.turn, tr, all, begun, latest, result);
      OvertakenLater(p.turn, tr, all, begun, done, result, invocation);
      call, done, latest, result := begun + call, begun + done, begun + latest, begun + result;
    }

    lemma EventIs(i: nat)
      requires i < |observed|
      ensures EventAt(i) == SeenIn(decode, observed[i]).e
    {
    }

    /** A compaction that is reported complete. */
    lemma CompactionProved(fs: Files) returns (start: int, body: int, finish: int)
      requires Valid(fs) && !dead && step.Some? && step.value.completed && step.value.kind == Compact
      ensures Proved(fs) && begun <= start < body < finish < |observed|
      ensures var p := step.value;
              && ManualStart(EventAt(start), p.cause) && Summary(EventAt(body), p.marker, p.turn) && p.body == Some(observed[body])
              && CompactDone(EventAt(finish), p.turn, p.cause)
    {
      hide *;
      var tr := StepSaw(fs);
      start, body, finish := CompletedCompaction(step.value.marker, tr);
      start, body, finish := begun + start, begun + body, begun + finish;
    }

    /**
     Whether the body and the end of the last completed step are still in the files, after
     one more poll. `reopen` is what opening the path of a file gives, `now` what is then
     read from it: anything at all, if the files were tampered with after the poll.
     */
    method MarkerPersisted(marker: string, listing: seq<Opened>, fs: Files, reopen: int -> Opened, now: Files, sha: seq<Byte> -> seq<Byte>)
      returns (answer: bool)
      requires Valid(fs) && !dead && forall i :: 0 <= i < |listing| && listing[i].File? ==> listing[i].id in fs
      modifies this
      ensures Valid(fs)
      ensures old(last).None? || old(last).value.marker != marker ==> !answer && observed == old(observed) && !dead
      ensures old(last).Some? && old(last).value.marker == marker && !dead ==>
                last.Some? && (answer <==> Checks(reopen, now, sha, last.value.body) && Checks(reopen, now, sha, last.value.finish))
      ensures answer ==> !dead && old(last).Some? && old(last).value.marker == marker
    {
      hide FilesOk, Contiguous, StepOk, Checks;
      if last.None? || last.value.marker != marker {
        return false;
      }
      var ok, remaining := PollAll(listing, fs);
      if !ok {
        return false;
      }
      answer := Checks(reopen, now, sha, last.value.body) && Checks(reopen, now, sha, last.value.finish);
    }

    /**
     With a digest without collisions the answer is exact: yes if and only if both paths
     still lead to the same files, and these hold the very bytes of the committed body
     and of the later end of its turn, at their offsets.
     */
    lemma PersistedIsThere(fs: Files, reopen: int -> Opened, now: Files, sha: seq<Byte> -> seq<Byte>)
      requires Valid(fs) && !dead && last.Some? && Injective(sha)
      ensures lastBody < lastFinish < |observed| && last.value.body == observed[lastBody] && last.value.finish == observed[lastFinish]
      ensures Body(EventAt(lastBody), last.value.marker, lastTurn) && Closing(EventAt(lastFinish), lastTurn)
      ensures Checks(reopen, now, sha, last.value.body) && Checks(reopen, now, sha, last.value.finish)
              <==> StillAt(reopen, now, last.value.body) && StillAt(reopen, now, last.value.finish)
      ensures Grown(fs, now) && Reopens(reopen, last.value.body.file) && Reopens(reopen, last.value.finish.file) ==>
                StillAt(reopen, now, last.value.body) && StillAt(reopen, now, last.value.finish)
    {
      hide Checks, StillAt, RunAll, Body, Closing, FilesOk, Contiguous;
      EachFound(fs, offsets, pendingRecords, observed);
      CheckIsExact(fs, reopen, now, sha, observed[lastBody]);
      CheckIsExact(fs, reopen, now, sha, observed[lastFinish]);
    }
  }
}
