/** The writing end of the settlement pipe, and what the reading end can conclude from it. */
module ScopeWriter {
  import opened Options
  import opened Texts
  import opened Scope

  /** `os.write`: how many bytes were taken, or an exception. */
  datatype WriteResult = Wrote(n: nat) | Raised

  /**
   A wrapper's scope. `piped` is false without a descriptor. `ended` is set by the exit
   hook; `wire` is everything the pipe took and `log` the records it took whole.
   */
  datatype Writer = Writer(
    codec: Codec, pid: nat, piped: bool, counter: nat, active: set<string>, failed: bool, cancelled: int,
    ended: bool, closedSent: bool, wire: seq<Byte>, log: seq<Message>)

  function Open(c: Codec, pid: nat, piped: bool): (w: Writer) {
    Writer(c, pid, piped, 0, {}, false, 0, false, false, [], [])
  }

  predicate SendOk(w: Writer, m: Message, result: WriteResult) {
    !w.piped || (|Frame(w.codec, m)| <= MAX_RECORD && result.Wrote? && result.n >= |Frame(w.codec, m)|)
  }

  /** A short, oversized or failed write marks the scope for good. */
  function Send(w: Writer, m: Message, result: WriteResult): (r: Writer) {
    if !w.piped then w
    else if |Frame(w.codec, m)| > MAX_RECORD || result.Raised? then w.(failed := true)
    else if result.n >= |Frame(w.codec, m)| then w.(wire := w.wire + Frame(w.codec, m), log := w.log + [m])
    else w.(wire := w.wire + Frame(w.codec, m)[..result.n], failed := true)
  }

  function NextToken(w: Writer): (t: string)
    ensures Plain(t) && |t| > 0
  {
    Token(w.pid, w.counter + 1)
  }

  /** Why `starting` refuses before it registers anything. */
  predicate Refused(w: Writer, cleanup: Option<string>) {
    || (cleanup.None? && w.cancelled != 0)
    || (cleanup.Some? && cleanup.value !in w.active)
    || |w.active| == MAX_ACTIVE
  }

  function Register(w: Writer): (r: Writer) {
    w.(counter := w.counter + 1, active := w.active + {NextToken(w)})
  }

  function Start(w: Writer, cleanup: Option<string>, result: WriteResult): (r: Writer) {
    if Refused(w, cleanup) then w else Send(Register(w), Starting(NextToken(w)), result)
  }

  function Finish(w: Writer, token: string, result: WriteResult): (r: Writer) {
    if token !in w.active then w else Send(w.(active := w.active - {token}), Settled(token), result)
  }

  /** The exit hook: announce closure only when nothing failed and nothing is active. */
  function Close(w: Writer, result: WriteResult): (r: Writer) {
    if !w.failed && w.active == {} then
      Send(w, Closed, result).(ended := true, closedSent := w.piped && SendOk(w, Closed, result))
    else w.(ended := true)
  }

  /** The calls a wrapper makes on its scope, in any order. */
  datatype Op =
    | OpStart(cleanup: Option<string>, result: WriteResult)
    | OpStarted(token: string, pid: int, result: WriteResult)
    | OpSettled(token: string, result: WriteResult)
    | OpCancel(number: int)
    | OpClose(result: WriteResult)

  predicate OpOk(op: Op) {
    op.OpStarted? ==> Plain(op.token)
  }

  function Apply(w: Writer, op: Op): (r: Writer) {
    if w.ended then w
    else match op
      case OpStart(cleanup, result) => Start(w, cleanup, result)
      case OpStarted(token, pid, result) => Send(w, Started(token, pid), result)
      case OpSettled(token, result) => Finish(w, token, result)
      case OpCancel(number) => w.(cancelled := number)
      case OpClose(result) => Close(w, result)
  }

  function ApplyAll(w: Writer, ops: seq<Op>): (r: Writer)
  {
    if ops == [] then w else Apply(ApplyAll(w, ops[..|ops| - 1]), ops[|ops| - 1])
  }

  function Frames(c: Codec, log: seq<Message>): (b: seq<Byte>) {
    if log == [] then [] else Frames(c, log[..|log| - 1]) + Frame(c, log[|log| - 1])
  }

  function ReplayAll(log: seq<Message>): (r: Reader) {
    if log == [] then IDLE else Replay(ReplayAll(log[..|log| - 1]), log[|log| - 1])
  }

  // ---------------------------------------------------------------------------
  // What every operation keeps

  ghost predicate Named(w: Writer, t: string) {
    exists i: nat :: i <= w.counter && t == Token(w.pid, i)
  }

  predicate Deliverable(c: Codec, m: Message) {
    PlainMessage(m) && |Frame(c, m)| <= MAX_RECORD
  }

  /** Registered tokens are the scope's own and bounded; closure means nothing is left. */
  ghost predicate Tidy(w: Writer) {
    && (forall t :: t in w.active ==> Named(w, t))
    && |w.active| <= MAX_ACTIVE
    && (w.closedSent ==> w.ended && !w.failed && w.active == {})
    && forall i :: 0 <= i < |w.log| ==> Deliverable(w.codec, w.log[i])
  }

  /** What a reader of everything written so far has seen. */
  ghost predicate Seen(w: Writer) {
    var r := Feed(IDLE, w.codec, w.wire);
    && |r.pending| <= MAX_RECORD
    && (r.pending == [] || r.pending[0] == BRACE)
    && (!w.failed ==> r.pending == [] && w.wire == Frames(w.codec, w.log))
    && (r.closed ==> w.closedSent)
  }

  lemma NextIsNew(w: Writer)
    requires Tidy(w)
    ensures NextToken(w) !in w.active && Named(Register(w), NextToken(w))
    ensures forall t :: t in w.active ==> Named(Register(w), t)
  {
    if NextToken(w) in w.active {
      var i: nat :| i <= w.counter && NextToken(w) == Token(w.pid, i);
      TokensDiffer(w.pid, i, w.counter + 1);
    }
    forall t | t in w.active ensures Named(Register(w), t) {
      var i: nat :| i <= w.counter && t == Token(w.pid, i);
      assert i <= Register(w).counter;
    }
  }

  lemma NamedIsPlain(w: Writer, t: string)
    requires Named(w, t)
    ensures Plain(t) && |t| > 0
  {
    var i: nat :| i <= w.counter && t == Token(w.pid, i);
  }

  /** The start of a record, cut short. */
  lemma PartSeen(w: Writer, part: seq<Byte>)
    requires Seen(w) && NEWLINE !in part && (part == [] || part[0] == BRACE)
    ensures Seen(w.(wire := w.wire + part, failed := true))
  {
    var r := Feed(IDLE, w.codec, w.wire);
    FeedAppend(IDLE, w.codec, w.wire, part);
    FeedBody(r, w.codec, part);
  }

  lemma FramesSnoc(c: Codec, log: seq<Message>, m: Message)
    ensures Frames(c, log + [m]) == Frames(c, log) + Frame(c, m) && ReplayAll(log + [m]) == Replay(ReplayAll(log), m)
  {
    assert (log + [m])[..|log|] == log;
  }

  lemma WholeSeen(w: Writer, m: Message)
    requires Json(w.codec) && Seen(w) && PlainMessage(m) && |Frame(w.codec, m)| <= MAX_RECORD && !w.closedSent
    requires m.Closed? ==> !w.failed
    ensures Seen(w.(wire := w.wire + Frame(w.codec, m), log := w.log + [m], closedSent := m.Closed?))
  {
    var r := Feed(IDLE, w.codec, w.wire);
    FeedAppend(IDLE, w.codec, w.wire, Frame(w.codec, m));
    FramesSnoc(w.codec, w.log, m);
    if r.pending == [] {
      FeedFrame(r, w.codec, m);
    } else {
      FeedGarbled(r, w.codec, m);
    }
  }

  lemma FramePart(c: Codec, m: Message, n: nat)
    requires Json(c) && PlainMessage(m) && n < |Frame(c, m)|
    ensures var part := Frame(c, m)[..n]; NEWLINE !in part && (part == [] || part[0] == BRACE)
  {
    assert Decodes(c, m);
    assert Frame(c, m)[..n] == c.dumps(m)[..n];
  }

  /** Sending any record but the closing one keeps what readers can have seen. */
  lemma SendSeen(w: Writer, m: Message, result: WriteResult)
    requires Json(w.codec) && Seen(w) && PlainMessage(m) && !m.Closed? && !w.closedSent
    ensures Seen(Send(w, m, result))
  {
    if w.piped && |Frame(w.codec, m)| <= MAX_RECORD && result.Wrote? {
      if result.n >= |Frame(w.codec, m)| {
        WholeSeen(w, m);
      } else {
        FramePart(w.codec, m, result.n);
        PartSeen(w, Frame(w.codec, m)[..result.n]);
      }
    }
  }

  lemma CloseSeen(w: Writer, result: WriteResult)
    requires Json(w.codec) && Seen(w) && !w.closedSent
    ensures Seen(Close(w, result))
  {
    var m := Closed;
    if !w.failed && w.active == {} && w.piped && |Frame(w.codec, m)| <= MAX_RECORD && result.Wrote? {
      if result.n >= |Frame(w.codec, m)| {
        WholeSeen(w, m);
      } else {
        FramePart(w.codec, m, result.n);
        PartSeen(w, Frame(w.codec, m)[..result.n]);
      }
    }
  }

  lemma SendTidy(w: Writer, m: Message, result: WriteResult)
    requires Tidy(w) && PlainMessage(m) && !w.closedSent
    ensures Tidy(Send(w, m, result))
  {
  }

  lemma CloseTidy(w: Writer, result: WriteResult)
    requires Tidy(w) && !w.closedSent
    ensures Tidy(Close(w, result))
  {
    SendTidy(w, Closed, result);
  }

  lemma ApplyTidy(w: Writer, op: Op)
    requires Tidy(w) && OpOk(op)
    ensures Tidy(Apply(w, op))
  {
    hide Send, Close, Token;
    if !w.ended {
      match op
      case OpStart(cleanup, result) =>
        if !Refused(w, cleanup) {
          NextIsNew(w);
          SendTidy(Register(w), Starting(NextToken(w)), result);
        }
      case OpStarted(token, pid, result) => SendTidy(w, Started(token, pid), result);
      case OpSettled(token, result) =>
        if token in w.active {
          NamedIsPlain(w, token);
          SendTidy(w.(active := w.active - {token}), Settled(token), result);
        }
      case OpCancel(_) =>
      case OpClose(result) => CloseTidy(w, result);
    }
  }

  lemma ApplySeen(w: Writer, op: Op)
    requires Json(w.codec) && Tidy(w) && Seen(w) && OpOk(op)
    ensures Seen(Apply(w, op))
  {
    if !w.ended {
      match op
      case OpStart(cleanup, result) =>
        if !Refused(w, cleanup) {
          SendSeen(Register(w), Starting(NextToken(w)), result);
        }
      case OpStarted(token, pid, result) => SendSeen(w, Started(token, pid), result);
      case OpSettled(token, result) =>
        if token in w.active {
          NamedIsPlain(w, token);
          SendSeen(w.(active := w.active - {token}), Settled(token), result);
        }
      case OpCancel(_) =>
      case OpClose(result) => CloseSeen(w, result);
    }
  }

  lemma {:induction false} ApplyAllKeeps(c: Codec, pid: nat, piped: bool, ops: seq<Op>)
    requires Json(c) && forall i :: 0 <= i < |ops| ==> OpOk(ops[i])
    ensures var w := ApplyAll(Open(c, pid, piped), ops); w.codec == c && Tidy(w) && Seen(w)
  {
    hide Apply, Tidy, Seen, Json, OpOk;
    if ops == [] {
      OpenKeeps(c, pid, piped);
    } else {
      var w := ApplyAll(Open(c, pid, piped), ops[..|ops| - 1]);
      ApplyAllKeeps(c, pid, piped, ops[..|ops| - 1]);
      SameCodec(w, ops[|ops| - 1]);
      ApplyTidy(w, ops[|ops| - 1]);
      ApplySeen(w, ops[|ops| - 1]);
    }
  }

  lemma OpenKeeps(c: Codec, pid: nat, piped: bool)
    ensures Tidy(Open(c, pid, piped)) && Seen(Open(c, pid, piped))
  {
  }

  lemma SameCodec(w: Writer, op: Op)
    ensures Apply(w, op).codec == w.codec
  {
  }

  /**
   Fail closed: whatever writes fail, and whatever part of the pipe the supervisor has
   read, it never sees closure unless the wrapper ended with nothing active and every
   record delivered.
   */
  lemma ClosureIsProof(c: Codec, pid: nat, piped: bool, ops: seq<Op>, read: seq<Byte>)
    requires Json(c) && forall i :: 0 <= i < |ops| ==> OpOk(ops[i])
    requires read <= ApplyAll(Open(c, pid, piped), ops).wire
    requires Feed(IDLE, c, read).closed
    ensures var w := ApplyAll(Open(c, pid, piped), ops); w.closedSent && w.ended && !w.failed && w.active == {}
  {
    var w := ApplyAll(Open(c, pid, piped), ops);
    ApplyAllKeeps(c, pid, piped, ops);
    assert w.wire == read + w.wire[|read|..];
    FeedAppend(IDLE, c, read, w.wire[|read|..]);
    FeedMonotone(Feed(IDLE, c, read), c, w.wire[|read|..]);
  }

  // ---------------------------------------------------------------------------
  // Reader and writer agree

  /** The latest record about a token. */
  function LastAbout(log: seq<Message>, t: string): (m: Option<Message>) {
    if log == [] then None
    else
      var last := log[|log| - 1];
      if !last.Closed? && last.token == t then Some(last) else LastAbout(log[..|log| - 1], t)
  }

  /** A start acknowledgement for a real process, right after the announcement of its token. */
  predicate InOrder(before: seq<Message>, m: Message) {
    m.Started? ==> m.pid > 0 && LastAbout(before, m.token) == Some(Starting(m.token))
  }

  ghost predicate Ordered(log: seq<Message>) {
    forall i :: 0 <= i < |log| ==> InOrder(log[..i], log[i])
  }

  ghost predicate ShortTokens(log: seq<Message>) {
    forall i :: 0 <= i < |log| && !log[i].Closed? ==> 1 <= |log[i].token| <= MAX_TOKEN
  }

  lemma OrderedSnoc(log: seq<Message>, m: Message)
    ensures Ordered(log + [m]) <==> Ordered(log) && InOrder(log, m)
  {
    var all := log + [m];
    assert forall i :: 0 <= i < |log| ==> all[..i] == log[..i] && all[i] == log[i];
    assert all[..|log|] == log && all[|log|] == m;
  }

  /** The reader's table says, for each token, what its latest record was. */
  lemma {:induction false} TableFollowsLog(log: seq<Message>, t: string)
    requires ReplayAll(log).failure.None?
    ensures var r := ReplayAll(log); var last := LastAbout(log, t);
            && (t in r.active <==> last.Some? && (last.value.Starting? || last.value.Started?))
            && (t in r.active ==> (r.active[t].None? <==> last.value.Starting?))
            && (last.Some? ==> !last.value.Closed? && last.value.token == t)
  {
    if log != [] {
      var n := |log| - 1;
      TableFollowsLog(log[..n], t);
    }
  }

  ghost predicate Agrees(w: Writer) {
    var r := ReplayAll(w.log);
    && (r.failure.None? <==> Ordered(w.log))
    && (r.failure.None? ==> r.active.Keys == w.active && r.closed == w.closedSent)
  }

  /** A delivered record that the writer has accounted for. */
  lemma DeliverAgrees(w: Writer, v: Writer, m: Message)
    requires Agrees(w) && v.log == w.log + [m]
    requires var r := ReplayAll(w.log);
             r.failure.None? ==> (Allowed(r.active, r.closed, m) <==> InOrder(w.log, m))
    requires m.Starting? ==> v.active == w.active + {m.token}
    requires m.Settled? ==> v.active == w.active - {m.token}
    requires m.Started? || m.Closed? ==> v.active == w.active
    requires v.closedSent == (w.closedSent || m.Closed?)
    ensures Agrees(v)
  {
    FramesSnoc(w.codec, w.log, m);
    OrderedSnoc(w.log, m);
  }

  lemma StartedAllowed(w: Writer, m: Message)
    requires Agrees(w) && m.Started? && 1 <= |m.token| <= MAX_TOKEN && !w.closedSent && ReplayAll(w.log).failure.None?
    ensures var r := ReplayAll(w.log); Allowed(r.active, r.closed, m) <==> InOrder(w.log, m)
  {
    TableFollowsLog(w.log, m.token);
  }

  lemma SameSize(m: map<string, Option<int>>, s: set<string>)
    requires m.Keys == s
    ensures |m| == |s|
  {
  }

  lemma SendIs(w: Writer, m: Message, result: WriteResult)
    requires w.piped && !Send(w, m, result).failed
    ensures !w.failed && SendOk(w, m, result)
    ensures Send(w, m, result) == w.(wire := w.wire + Frame(w.codec, m), log := w.log + [m])
  {
  }

  lemma LastIsShort(log: seq<Message>, m: Message)
    requires ShortTokens(log + [m])
    ensures ShortTokens(log) && (!m.Closed? ==> 1 <= |m.token| <= MAX_TOKEN)
  {
    assert (log + [m])[|log|] == m;
    assert forall i :: 0 <= i < |log| ==> (log + [m])[i] == log[i];
  }

  lemma StartAgrees(w: Writer, result: WriteResult)
    requires Tidy(w) && w.piped && Agrees(w) && !w.closedSent && |w.active| != MAX_ACTIVE
    requires var v := Send(Register(w), Starting(NextToken(w)), result); !v.failed && ShortTokens(v.log)
    ensures Agrees(Send(Register(w), Starting(NextToken(w)), result))
  {
    var m := Starting(NextToken(w));
    SendIs(Register(w), m, result);
    LastIsShort(w.log, m);
    NextIsNew(w);
    var r := ReplayAll(w.log);
    if r.failure.None? {
      SameSize(r.active, w.active);
    }
    DeliverAgrees(w, Send(Register(w), m, result), m);
  }

  lemma OtherAgrees(w: Writer, m: Message, result: WriteResult)
    requires Tidy(w) && w.piped && Agrees(w) && !w.closedSent && (m.Started? || m.Settled?)
    requires m.Settled? ==> m.token in w.active
    requires var v := Send(w, m, result); !v.failed && ShortTokens(v.log)
    ensures var u := if m.Settled? then w.(active := w.active - {m.token}) else w; Agrees(Send(u, m, result))
  {
    SendIs(w, m, result);
    LastIsShort(w.log, m);
    if m.Started? && ReplayAll(w.log).failure.None? {
      StartedAllowed(w, m);
    }
    var u := if m.Settled? then w.(active := w.active - {m.token}) else w;
    DeliverAgrees(w, Send(u, m, result), m);
  }

  lemma CloseAgrees(w: Writer, result: WriteResult)
    requires Tidy(w) && w.piped && Agrees(w) && !w.closedSent && !w.failed && !Close(w, result).failed
    ensures Agrees(Close(w, result))
  {
    if w.active == {} {
      SendIs(w, Closed, result);
      var r := ReplayAll(w.log);
      assert r.failure.None? ==> r.active == map[];
      DeliverAgrees(w, Close(w, result), Closed);
    }
  }

  lemma ApplyAgrees(w: Writer, op: Op)
    requires Tidy(w) && w.piped && OpOk(op) && Agrees(w) && !w.failed
    requires var v := Apply(w, op); !v.failed && ShortTokens(v.log)
    ensures Agrees(Apply(w, op))
  {
    if !w.ended {
      match op
      case OpStart(cleanup, result) =>
        if !Refused(w, cleanup) {
          StartAgrees(w, result);
        }
      case OpStarted(token, pid, result) => OtherAgrees(w, Started(token, pid), result);
      case OpSettled(token, result) =>
        if token in w.active {
          OtherAgrees(w, Settled(token), result);
        }
      case OpCancel(_) =>
      case OpClose(result) => CloseAgrees(w, result);
    }
  }

  lemma SendGrows(w: Writer, m: Message, result: WriteResult)
    ensures var v := Send(w, m, result);
            w.log <= v.log && (w.failed ==> v.failed) && v.piped == w.piped && v.active == w.active
            && v.codec == w.codec && v.pid == w.pid && v.counter == w.counter
  {
  }

  lemma ApplyGrows(w: Writer, op: Op)
    ensures var v := Apply(w, op);
            && w.log <= v.log && (w.failed ==> v.failed) && v.piped == w.piped && v.codec == w.codec
            && v.pid == w.pid && w.counter <= v.counter
            && (forall t :: t in w.active && !(op.OpSettled? && op.token == t) ==> t in v.active)
  {
    if !w.ended {
      match op
      case OpStart(cleanup, result) => SendGrows(Register(w), Starting(NextToken(w)), result);
      case OpStarted(token, pid, result) => SendGrows(w, Started(token, pid), result);
      case OpSettled(token, result) => SendGrows(w.(active := w.active - {token}), Settled(token), result);
      case OpCancel(_) =>
      case OpClose(result) => SendGrows(w, Closed, result);
    }
  }

  lemma {:induction false} ApplyAllAgrees(c: Codec, pid: nat, ops: seq<Op>)
    requires forall i :: 0 <= i < |ops| ==> OpOk(ops[i])
    requires var w := ApplyAll(Open(c, pid, true), ops); !w.failed && ShortTokens(w.log)
    ensures var w := ApplyAll(Open(c, pid, true), ops); w.piped && Tidy(w) && Agrees(w)
  {
    if ops != [] {
      var n := |ops| - 1;
      var w := ApplyAll(Open(c, pid, true), ops[..n]);
      ApplyGrows(w, ops[n]);
      ApplyAllAgrees(c, pid, ops[..n]);
      ApplyTidy(w, ops[n]);
      ApplyAgrees(w, ops[n]);
    }
  }

  /** Reading the pipe in any pieces. */
  function FeedChunks(r: Reader, c: Codec, chunks: seq<seq<Byte>>): (s: Reader) {
    if chunks == [] then r else Feed(FeedChunks(r, c, chunks[..|chunks| - 1]), c, chunks[|chunks| - 1])
  }

  lemma {:induction false} ChunksDoNotMatter(r: Reader, c: Codec, chunks: seq<seq<Byte>>)
    ensures FeedChunks(r, c, chunks) == Feed(r, c, Concat(chunks))
  {
    if chunks != [] {
      var n := |chunks| - 1;
      ChunksDoNotMatter(r, c, chunks[..n]);
      FeedAppend(r, c, Concat(chunks[..n]), chunks[n]);
    }
  }

  lemma OneMore(c: Codec, wire: seq<Byte>, r: Reader, m: Message)
    requires Json(c) && Deliverable(c, m) && Feed(IDLE, c, wire) == r && r.pending == []
    ensures Feed(IDLE, c, wire + Frame(c, m)) == Replay(r, m) && Replay(r, m).pending == []
  {
    FeedAppend(IDLE, c, wire, Frame(c, m));
    FeedFrame(r, c, m);
  }

  lemma FramesReplayNext(c: Codec, before: seq<Message>, m: Message)
    requires Json(c) && Deliverable(c, m)
    requires Feed(IDLE, c, Frames(c, before)) == ReplayAll(before) && ReplayAll(before).pending == []
    ensures Feed(IDLE, c, Frames(c, before + [m])) == ReplayAll(before + [m]) && ReplayAll(before + [m]).pending == []
  {
    FramesSnoc(c, before, m);
    OneMore(c, Frames(c, before), ReplayAll(before), m);
  }

  lemma {:induction false} FramesReplay(c: Codec, log: seq<Message>)
    requires Json(c) && forall i :: 0 <= i < |log| ==> Deliverable(c, log[i])
    ensures Feed(IDLE, c, Frames(c, log)) == ReplayAll(log) && ReplayAll(log).pending == []
  {
    if log != [] {
      var before, m := log[..|log| - 1], log[|log| - 1];
      FramesReplay(c, before);
      assert log == before + [m];
      FramesReplayNext(c, before, m);
    }
  }

  /**
   Simulation: with every record delivered and tokens within the bound, a reader of the
   whole pipe, in any pieces, fails exactly when some start acknowledgement was out of
   order; otherwise its table holds the writer's active tokens and `require_closed`
   succeeds exactly when the writer has announced closure.
   */
  lemma ReaderFollowsWriter(c: Codec, pid: nat, ops: seq<Op>, chunks: seq<seq<Byte>>)
    requires Json(c) && forall i :: 0 <= i < |ops| ==> OpOk(ops[i])
    requires var w := ApplyAll(Open(c, pid, true), ops);
             !w.failed && ShortTokens(w.log) && Concat(chunks) == w.wire
    ensures var w := ApplyAll(Open(c, pid, true), ops); var r := FeedChunks(IDLE, c, chunks);
            && (r.failure.None? <==> Ordered(w.log))
            && r.pending == []
            && (r.failure.None? ==> r.active.Keys == w.active && (RequireClosed(r) <==> w.closedSent))
  {
    var w := ApplyAll(Open(c, pid, true), ops);
    ApplyAllKeeps(c, pid, true, ops);
    ApplyAllAgrees(c, pid, ops);
    ChunksDoNotMatter(IDLE, c, chunks);
    FramesReplay(c, w.log);
  }
}
