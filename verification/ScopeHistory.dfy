/**
 The settlement protocol by its history (scripts/perf_process_scope.py): which logs of
 records a reader accepts, what each call of a wrapper announces, and that a wrapper which
 has settled everything can prove it.
 */
module ScopeHistory {
  import opened Options
  import opened Texts
  import opened Scope
  import opened ScopeWriter

  // ---------------------------------------------------------------------------
  // The logs a reader accepts

  /** The latest record about the token leaves it open. */
  predicate Unsettled(log: seq<Message>, t: string) {
    LastAbout(log, t).Some? && !LastAbout(log, t).value.Settled?
  }

  /** Fewer than the bound are open: no list of different open tokens is as long. */
  ghost predicate RoomFor(log: seq<Message>) {
    forall ts: set<string> :: (forall t :: t in ts ==> Unsettled(log, t)) ==> |ts| < MAX_ACTIVE
  }

  /**
   Nothing after the closing record; that one only when nothing is open; a token is started
   once, acknowledged once and with a real process, and settled while open; and at most 128
   are open at a time.
   */
  ghost predicate Legal(before: seq<Message>, m: Message) {
    && Closed !in before && (!m.Closed? ==> 1 <= |m.token| <= MAX_TOKEN)
    && match m
       case Closed => forall t :: !Unsettled(before, t)
       case Starting(t) => !Unsettled(before, t) && RoomFor(before)
       case Started(t, pid) => LastAbout(before, t) == Some(Starting(t)) && pid > 0
       case Settled(t) => Unsettled(before, t)
  }

  ghost predicate LegalLog(log: seq<Message>) {
    forall i :: 0 <= i < |log| ==> Legal(log[..i], log[i])
  }

  lemma LegalSnoc(log: seq<Message>, m: Message)
    ensures LegalLog(log + [m]) <==> LegalLog(log) && Legal(log, m)
  {
    hide Legal;
    var all := log + [m];
    assert forall i :: 0 <= i < |log| ==> all[..i] == log[..i] && all[i] == log[i];
    assert all[..|log|] == log && all[|log|] == m;
  }

  lemma SubsetSize(a: set<string>, b: set<string>)
    requires a <= b
    ensures |a| <= |b|
  {
    if a != {} {
      var x :| x in a;
      SubsetSize(a - {x}, b - {x});
    }
  }

  /** The reader's table is the open tokens. */
  lemma TableIsOpen(log: seq<Message>)
    requires ReplayAll(log).failure.None?
    ensures forall t :: t in ReplayAll(log).active <==> Unsettled(log, t)
  {
    forall t ensures t in ReplayAll(log).active <==> Unsettled(log, t) {
      TableFollowsLog(log, t);
    }
  }

  lemma RoomIsCount(log: seq<Message>)
    requires ReplayAll(log).failure.None? && |ReplayAll(log).active| <= MAX_ACTIVE
    ensures RoomFor(log) <==> |ReplayAll(log).active| != MAX_ACTIVE
  {
    hide ReplayAll, Unsettled;
    TableIsOpen(log);
    var active := ReplayAll(log).active;
    assert |active| == |active.Keys|;
    if |active| < MAX_ACTIVE {
      forall ts: set<string> | forall t :: t in ts ==> Unsettled(log, t) ensures |ts| < MAX_ACTIVE {
        SubsetSize(ts, active.Keys);
      }
    } else {
      assert forall t :: t in active.Keys ==> Unsettled(log, t);
    }
  }

  /** What the protocol allows is what is legal after the log. */
  lemma AllowedIsLegal(log: seq<Message>, m: Message)
    requires var r := ReplayAll(log); r.failure.None? && (r.closed <==> Closed in log) && |r.active| <= MAX_ACTIVE
    ensures var r := ReplayAll(log); Allowed(r.active, r.closed, m) <==> Legal(log, m)
  {
    hide ReplayAll;
    TableIsOpen(log);
    RoomIsCount(log);
    if !m.Closed? {
      TableFollowsLog(log, m.token);
      LastIsAbout(log, m.token);
    }
    hide RoomFor, Unsettled;
    var r := ReplayAll(log);
    assert r.active == map[] <==> forall t :: t !in r.active;
  }

  lemma {:induction false} LastIsAbout(log: seq<Message>, t: string)
    ensures var m := LastAbout(log, t); m.Some? ==> !m.value.Closed? && m.value.token == t
  {
    if log != [] {
      LastIsAbout(log[..|log| - 1], t);
    }
  }

  lemma ReplayLast(log: seq<Message>)
    requires log != []
    ensures ReplayAll(log) == Replay(ReplayAll(log[..|log| - 1]), log[|log| - 1])
  {
  }

  lemma ReplayKeeps(r: Reader, m: Message)
    requires r.failure.None? ==> |r.active| <= MAX_ACTIVE
    ensures var s := Replay(r, m);
            && (s.failure.None? <==> r.failure.None? && Allowed(r.active, r.closed, m))
            && (s.failure.None? ==> |s.active| <= MAX_ACTIVE && (s.closed <==> r.closed || m == Closed))
  {
    if m.Settled? {
      SubsetSize((r.active - {m.token}).Keys, r.active.Keys);
    }
  }

  /** A reader accepts a log of records if and only if every record in it is legal. */
  lemma {:induction false} AcceptsExactlyLegal(log: seq<Message>)
    ensures var r := ReplayAll(log);
            && (r.failure.None? <==> LegalLog(log))
            && (r.failure.None? ==> (r.closed <==> Closed in log) && |r.active| <= MAX_ACTIVE)
  {
    if log != [] {
      hide Legal, LegalLog, Replay, ReplayAll, Allowed;
      var before, m := log[..|log| - 1], log[|log| - 1];
      assert log == before + [m];
      AcceptsExactlyLegal(before);
      LegalSnoc(before, m);
      ReplayLast(log);
      if ReplayAll(before).failure.None? {
        AllowedIsLegal(before, m);
      }
      ReplayKeeps(ReplayAll(before), m);
      assert Closed in log <==> Closed in before || m == Closed;
    } else {
      assert LegalLog(log);
    }
  }

  // ---------------------------------------------------------------------------
  // What each call of a wrapper announces

  /** The record a call sends, if it sends one. */
  ghost function Announces(w: Writer, op: Op): (m: Option<Message>) {
    match op
    case OpStart(cleanup, _) =>
      if |w.active| == MAX_ACTIVE || (if cleanup.Some? then cleanup.value !in w.active else w.cancelled != 0) then None
      else Some(Starting(Digits(w.pid) + ":" + Digits(w.counter + 1)))
    case OpStarted(token, pid, _) => Some(Started(token, pid))
    case OpSettled(token, _) => if token in w.active then Some(Settled(token)) else None
    case OpCancel(_) => None
    case OpClose(_) => if w.failed || w.active != {} then None else Some(Closed)
  }

  /** The pipe takes the whole record. */
  predicate Whole(c: Codec, m: Message, result: WriteResult) {
    |Frame(c, m)| <= MAX_RECORD && result.Wrote? && result.n >= |Frame(c, m)|
  }

  function ResultOf(op: Op): (r: WriteResult)
    requires !op.OpCancel?
  {
    op.result
  }

  /**
   A call announces its record and nothing else; the scope fails exactly when a record is
   not taken whole; a start opens its token and a settle closes it, sent or not; closure
   counts as announced only if it was taken whole.
   */
  lemma CallAnnounces(w: Writer, op: Op)
    requires !w.ended && Tidy(w)
    ensures var v, m := Apply(w, op), Announces(w, op);
            && v.log == w.log + (if m.Some? && w.piped && Whole(w.codec, m.value, ResultOf(op)) then [m.value] else [])
            && (v.failed <==> w.failed || (m.Some? && w.piped && !Whole(w.codec, m.value, ResultOf(op))))
            && v.active == (if m.Some? && m.value.Starting? then w.active + {m.value.token}
                            else if m.Some? && m.value.Settled? then w.active - {m.value.token} else w.active)
            && v.cancelled == (if op.OpCancel? then op.number else w.cancelled)
            && (v.ended <==> op.OpClose?)
            && (v.closedSent <==> op.OpClose? && m.Some? && w.piped && Whole(w.codec, Closed, op.result))
            && v.wire == w.wire + (if m.Some? && w.piped then Written(Frame(w.codec, m.value), ResultOf(op)) else [])
  {
    hide Frame, Digits;
    match op
    case OpStart(cleanup, result) => SendWrites(Register(w), Starting(NextToken(w)), result);
    case OpStarted(token, pid, result) => SendWrites(w, Started(token, pid), result);
    case OpSettled(token, result) => SendWrites(w.(active := w.active - {token}), Settled(token), result);
    case OpCancel(_) =>
    case OpClose(result) => SendWrites(w, Closed, result);
    hide Send, SendOk, Whole, Written;
  }

  /** What the pipe takes of a record: nothing of one that is too long. */
  function Written(frame: seq<Byte>, result: WriteResult): (b: seq<Byte>) {
    if |frame| > MAX_RECORD || result.Raised? then [] else if result.n < |frame| then frame[..result.n] else frame
  }

  lemma SendWrites(w: Writer, m: Message, result: WriteResult)
    ensures var v := Send(w, m, result);
            && v == w.(wire := v.wire, log := v.log, failed := v.failed)
            && v.wire == w.wire + (if w.piped then Written(Frame(w.codec, m), result) else [])
            && v.log == w.log + (if w.piped && Whole(w.codec, m, result) then [m] else [])
            && (v.failed <==> w.failed || (w.piped && !Whole(w.codec, m, result)))
            && (SendOk(w, m, result) <==> w.piped ==> Whole(w.codec, m, result))
  {
    hide Frame;
  }

  /**
   A wrapper none of whose records was cut, that acknowledged its children in order and has
   settled them all, proves it at its exit: if the closing record is taken whole, a reader
   of the pipe, in any pieces, is satisfied.
   */
  lemma SettledProvesIt(c: Codec, pid: nat, ops: seq<Op>, result: WriteResult, chunks: seq<seq<Byte>>)
    requires Json(c) && forall i :: 0 <= i < |ops| ==> OpOk(ops[i])
    requires var w := ApplyAll(Open(c, pid, true), ops);
             && !w.failed && !w.ended && w.active == {} && ShortTokens(w.log) && Ordered(w.log)
             && Whole(c, Closed, result)
             && Concat(chunks) == w.wire + Frame(c, Closed)
    ensures RequireClosed(FeedChunks(IDLE, c, chunks))
  {
    hide Json, Feed, Frame, Open, FeedChunks, Concat;
    var all := ops + [OpClose(result)];
    var w := ApplyAll(Open(c, pid, true), ops);
    KeepsCodec(c, pid, ops);
    assert all[..|ops|] == ops && all[|ops|] == OpClose(result);
    var v := ApplyAll(Open(c, pid, true), all);
    Closes(w, result);
    assert v == Apply(w, OpClose(result));
    OrderedSnoc(w.log, Closed);
    ReaderFollowsWriter(c, pid, all, chunks);
  }

  lemma Closes(w: Writer, result: WriteResult)
    requires !w.failed && !w.ended && w.active == {} && w.piped && Whole(w.codec, Closed, result)
    ensures var v := Apply(w, OpClose(result));
            v.closedSent && !v.failed && v.log == w.log + [Closed] && v.wire == w.wire + Frame(w.codec, Closed)
  {
  }

  lemma {:induction false} KeepsCodec(c: Codec, pid: nat, ops: seq<Op>)
    ensures var w := ApplyAll(Open(c, pid, true), ops); w.codec == c && w.piped
  {
    if ops != [] {
      KeepsCodec(c, pid, ops[..|ops| - 1]);
      ApplyGrows(ApplyAll(Open(c, pid, true), ops[..|ops| - 1]), ops[|ops| - 1]);
    }
  }
}
