/**
 The per-step automaton of the soak journal probe (scripts/soak_journal.py): which
 events complete a turn, a tool turn or a compaction. Decoded JSON is the input.
 */
module JournalStep {
  import opened Options
  import opened Texts
  import opened JournalLines

  datatype Outcome<+T> = Ok(value: T) | Raised

  /** Decoded JSON; a missing member reads as `Null`, as `dict.get` does. */
  datatype Value = Null | Bool(b: bool) | Num(n: int) | Fraction | Str(s: string) | Arr(items: seq<Value>) | Obj(fields: map<string, Value>)

  function Get(m: map<string, Value>, key: string): (v: Value) {
    if key in m then m[key] else Null
  }

  /** The discriminators the automaton reacts to. */
  datatype EventKind =
    | UserMessageAccepted | CompactionStarted | TurnStarted | TextDelta | ToolCallStarted | ToolCallFinished
    | ToolResultsCommitted | TurnCommitted | TurnFinished | CompactionFinished | CompactionFailed | Other

  function KindOf(name: string): (k: EventKind) {
    if name == "user_message_accepted" then UserMessageAccepted
    else if name == "compaction_started" then CompactionStarted
    else if name == "turn_started" then TurnStarted
    else if name == "text_delta" then TextDelta
    else if name == "tool_call_started" then ToolCallStarted
    else if name == "tool_call_finished" then ToolCallFinished
    else if name == "conversation_tool_results_committed" then ToolResultsCommitted
    else if name == "conversation_turn_committed" then TurnCommitted
    else if name == "turn_finished" then TurnFinished
    else if name == "compaction_finished" then CompactionFinished
    else if name == "compaction_failed" then CompactionFailed
    else Other
  }

  /** An event whose envelope, session and sequence have been checked. */
  datatype Event = Event(kind: EventKind, f: map<string, Value>, cause: Value, sequence: string)

  datatype Kind = Turn | Tool | Compact

  datatype Step = Step(
    marker: string, kind: Kind, accepted: bool, turn: Value, started: bool, deltas: nat, invocation: Value,
    toolSource: Option<string>, toolCommitted: bool, body: Option<Record>, cause: Value, completed: bool)

  /** SOAK_STEP_dddddd_DONE */
  predicate ValidMarker(m: string) {
    |m| == 21 && m[..10] == "SOAK_STEP_" && AllDigits(m[10..16]) && m[16..] == "_DONE"
  }

  function InputMarker(m: string): (r: string) {
    if |m| == 21 then "SOAK_INPUT_" + m[10..16] else m
  }

  function Begin(marker: string, kind: Kind): (p: Step) {
    Step(marker, kind, false, Null, false, 0, Null, None, false, None, Null, false)
  }

  /** `0` or a numeral of at most twenty digits without leading zero. */
  predicate DecimalText(s: string) {
    s == "0" || (1 <= |s| <= 20 && AllDigits(s) && s[0] != '0')
  }

  predicate TurnId(v: Value) {
    v.Str? && DecimalText(v.s)
  }

  // ---------------------------------------------------------------------------
  // Event shapes

  predicate Mentions(v: Value, marker: string) {
    v.Str? && Find(v.s, marker) >= 0
  }

  function BlockText(block: Value): (t: Outcome<string>) {
    if !block.Obj? || Get(block.fields, "type") != Str("text") then Ok("")
    else if "text" !in block.fields then Ok("")
    else if block.fields["text"].Str? then Ok(block.fields["text"].s)
    else Raised
  }

  function JoinBlocks(blocks: seq<Value>): (t: Outcome<string>) {
    if blocks == [] then Ok("")
    else
      var head := BlockText(blocks[0]);
      var tail := JoinBlocks(blocks[1..]);
      if head.Ok? && tail.Ok? then Ok(head.value + tail.value) else Raised
  }

  /** Text of the text blocks; a string or object iterates without text blocks, other values cannot be iterated. */
  function TurnText(turn: map<string, Value>): (t: Outcome<string>) {
    if "blocks" !in turn then Ok("")
    else match turn["blocks"]
      case Arr(items) => JoinBlocks(items)
      case Str(_) => Ok("")
      case Obj(_) => Ok("")
      case _ => Raised
  }

  /** An assistant turn whose text carries the marker. */
  predicate MarkedTurn(e: Event, marker: string) {
    var turn := Get(e.f, "turn");
    && turn.Obj? && Get(turn.fields, "role") == Str("assistant")
    && TurnText(turn.fields).Ok? && Find(TurnText(turn.fields).value, marker) >= 0
  }

  predicate ReadCall(e: Event) {
    Get(e.f, "name") == Str("read") && Get(e.f, "args") == Obj(map["path" := Str("soak.txt")])
  }

  function ResultOf(invocation: Value, source: Value): (v: Value) {
    Obj(map["invocation_id" := invocation, "finished_source" := source])
  }

  // ---------------------------------------------------------------------------
  // Transitions: what an event means to an open step, and what that does to it

  datatype Label =
    | Nothing
    | Start(turn: Value) | Accept(turn: Value) | Piece(turn: Value) | Commit(turn: Value, proof: Record) | Finish(turn: Value)
    | Call(turn: Value, invocation: Value) | Return(turn: Value, invocation: Value, source: string)
    | Report(turn: Value, invocation: Value, source: string)
    | Manual(cause: Value) | Summarize(turn: Value, proof: Record) | Compacted(turn: Value, cause: Value)

  function OnAccepted(p: Step, e: Event): (r: Outcome<Label>) {
    var turn := Get(e.f, "agent_turn");
    if !Mentions(Get(e.f, "content"), InputMarker(p.marker)) then Ok(Nothing)
    else if p.accepted || !TurnId(turn) || !p.started || p.turn != turn then Raised
    else Ok(Accept(turn))
  }

  function OnDelta(p: Step, e: Event): (r: Outcome<Label>) {
    var text := Get(e.f, "text");
    Ok(if text.Str? && text.s != "" then Piece(p.turn) else Nothing)
  }

  function OnResults(p: Step, e: Event): (r: Outcome<Label>)
    requires p.toolSource.Some?
  {
    if "results" !in e.f then Ok(Nothing)
    else if !e.f["results"].Arr? then Raised
    else if ResultOf(p.invocation, Str(p.toolSource.value)) !in e.f["results"].items then Ok(Nothing)
    else Ok(Report(p.turn, p.invocation, p.toolSource.value))
  }

  function OnCommitted(p: Step, e: Event, proof: Record): (r: Outcome<Label>) {
    var turn := Get(e.f, "turn");
    if !turn.Obj? || Get(turn.fields, "role") != Str("assistant") then Ok(Nothing)
    else if TurnText(turn.fields).Raised? then Raised
    else if Find(TurnText(turn.fields).value, p.marker) < 0 then Ok(Nothing)
    else if !TurnId(Get(e.f, "agent_turn")) then Raised
    else
      var agent := Get(e.f, "agent_turn");
      if p.kind == Compact then
        (if "meta" in turn.fields && !turn.fields["meta"].Obj? then Raised
         else if "meta" !in turn.fields || Get(turn.fields["meta"].fields, "summary") != Bool(true) then Ok(Nothing)
         else Ok(Summarize(agent, proof)))
      else Ok(if agent != p.turn then Nothing else Commit(agent, proof))
  }

  function OnTurnFinished(p: Step, e: Event): (r: Outcome<Label>) {
    if Get(e.f, "status") != Str("completed") || !p.started || p.body.None? || p.deltas == 0
       || (p.kind == Tool && !p.toolCommitted) then Raised
    else Ok(Finish(p.turn))
  }

  function OnCompactFinished(p: Step, e: Event): (r: Outcome<Label>) {
    if p.body.None? || Get(e.f, "summary_turn_id") != p.turn || e.cause != p.cause then Raised
    else Ok(Compacted(p.turn, p.cause))
  }

  /** The decision for an open step, in the order of the source. */
  function Decide(p: Step, e: Event, proof: Record): (r: Outcome<Label>)
  {
    var mine := Get(e.f, "turn_id") == p.turn;
    if e.kind == UserMessageAccepted && p.kind != Compact then OnAccepted(p, e)
    else if e.kind == CompactionStarted && p.kind == Compact && Get(e.f, "reason") == Str("manual") then
      (if p.accepted then Raised else Ok(Manual(e.cause)))
    else if e.kind == TurnStarted && p.kind != Compact then
      (if p.started || !TurnId(Get(e.f, "turn_id")) then Raised else Ok(Start(Get(e.f, "turn_id"))))
    else if e.kind == TextDelta && p.started && mine then OnDelta(p, e)
    else if e.kind == ToolCallStarted && p.kind == Tool && p.started && mine then
      Ok(if ReadCall(e) then Call(p.turn, Get(e.f, "invocation_id")) else Nothing)
    else if e.kind == ToolCallFinished && p.invocation != Null && Get(e.f, "invocation_id") == p.invocation && mine then
      (if Get(e.f, "is_error") != Bool(false) then Raised else Ok(Return(p.turn, p.invocation, e.sequence)))
    else if e.kind == ToolResultsCommitted && Get(e.f, "agent_turn") == p.turn && p.toolSource.Some? then OnResults(p, e)
    else if e.kind == TurnCommitted && p.accepted then OnCommitted(p, e, proof)
    else if e.kind == TurnFinished && p.kind != Compact && mine then OnTurnFinished(p, e)
    else if e.kind == CompactionFinished && p.kind == Compact && p.accepted then OnCompactFinished(p, e)
    else if e.kind == CompactionFailed && p.kind == Compact && p.accepted then Raised
    else Ok(Nothing)
  }

  function Do(p: Step, l: Label): (q: Step) {
    match l
    case Nothing => p
    case Start(turn) => p.(turn := turn, started := true)
    case Accept(_) => p.(accepted := true)
    case Piece(_) => p.(deltas := p.deltas + 1)
    case Commit(_, proof) => p.(body := Some(proof))
    case Finish(_) => p.(completed := true)
    case Call(_, invocation) => p.(invocation := invocation)
    case Return(_, _, source) => p.(toolSource := Some(source))
    case Report(_, _, _) => p.(toolCommitted := true)
    case Manual(cause) => p.(accepted := true, cause := cause)
    case Summarize(turn, proof) => p.(turn := turn, body := Some(proof))
    case Compacted(_, _) => p.(completed := true)
  }

  /** One event. A completed step ignores everything. */
  function Advance(p: Step, e: Event, proof: Record): (r: Outcome<Step>)
  {
    if p.completed then Ok(p)
    else
      var l := Decide(p, e, proof);
      if l.Raised? then Raised else Ok(Do(p, l.value))
  }

  // ---------------------------------------------------------------------------
  // What the journal must contain

  datatype Seen = Seen(e: Event, proof: Record)

  predicate Started(e: Event, turn: Value) {
    e.kind == TurnStarted && Get(e.f, "turn_id") == turn
  }

  predicate Accepted(e: Event, marker: string, turn: Value) {
    e.kind == UserMessageAccepted && Mentions(Get(e.f, "content"), InputMarker(marker)) && Get(e.f, "agent_turn") == turn
  }

  predicate Delta(e: Event, turn: Value) {
    e.kind == TextDelta && Get(e.f, "turn_id") == turn && Get(e.f, "text").Str? && Get(e.f, "text").s != ""
  }

  predicate Body(e: Event, marker: string, turn: Value) {
    e.kind == TurnCommitted && MarkedTurn(e, marker) && Get(e.f, "agent_turn") == turn
  }

  predicate Finished(e: Event, turn: Value) {
    e.kind == TurnFinished && Get(e.f, "turn_id") == turn && Get(e.f, "status") == Str("completed")
  }

  predicate Called(e: Event, turn: Value, invocation: Value) {
    e.kind == ToolCallStarted && Get(e.f, "turn_id") == turn && ReadCall(e) && Get(e.f, "invocation_id") == invocation
  }

  predicate Done(e: Event, turn: Value, invocation: Value) {
    && e.kind == ToolCallFinished && Get(e.f, "turn_id") == turn && Get(e.f, "invocation_id") == invocation
    && Get(e.f, "is_error") == Bool(false)
  }

  predicate Reported(e: Event, turn: Value, invocation: Value, source: string) {
    && e.kind == ToolResultsCommitted && Get(e.f, "agent_turn") == turn
    && "results" in e.f && e.f["results"].Arr? && ResultOf(invocation, Str(source)) in e.f["results"].items
  }

  predicate ManualStart(e: Event, cause: Value) {
    e.kind == CompactionStarted && Get(e.f, "reason") == Str("manual") && e.cause == cause
  }

  predicate Summary(e: Event, marker: string, turn: Value) {
    && Body(e, marker, turn)
    && var t := Get(e.f, "turn");
       t.Obj? && "meta" in t.fields && t.fields["meta"].Obj? && Get(t.fields["meta"].fields, "summary") == Bool(true)
  }

  predicate CompactDone(e: Event, turn: Value, cause: Value) {
    e.kind == CompactionFinished && Get(e.f, "summary_turn_id") == turn && e.cause == cause
  }

  /** A label is only given to an event that is what the label says. */
  predicate Holds(l: Label, x: Seen, marker: string) {
    match l
    case Nothing => true
    case Start(turn) => Started(x.e, turn)
    case Accept(turn) => Accepted(x.e, marker, turn)
    case Piece(turn) => Delta(x.e, turn)
    case Commit(turn, proof) => Body(x.e, marker, turn) && proof == x.proof
    case Finish(turn) => Finished(x.e, turn)
    case Call(turn, invocation) => Called(x.e, turn, invocation)
    case Return(turn, invocation, source) => Done(x.e, turn, invocation) && source == x.e.sequence
    case Report(turn, invocation, source) => Reported(x.e, turn, invocation, source)
    case Manual(cause) => ManualStart(x.e, cause)
    case Summarize(turn, proof) => Summary(x.e, marker, turn) && proof == x.proof
    case Compacted(turn, cause) => CompactDone(x.e, turn, cause)
  }

  /** What the step must look like for a label to be given. */
  predicate Fits(p: Step, l: Label) {
    match l
    case Nothing => true
    case Start(turn) => p.kind != Compact && !p.started
    case Accept(turn) => p.kind != Compact && p.started && !p.accepted && turn == p.turn
    case Piece(turn) => p.started && turn == p.turn
    case Commit(turn, _) => p.kind != Compact && p.accepted && turn == p.turn
    case Finish(turn) =>
      p.kind != Compact && p.started && p.body.Some? && p.deltas > 0 && turn == p.turn && (p.kind == Tool ==> p.toolCommitted)
    case Call(turn, _) => p.kind == Tool && p.started && turn == p.turn
    case Return(turn, invocation, _) => invocation == p.invocation && invocation != Null && turn == p.turn
    case Report(turn, invocation, source) => turn == p.turn && invocation == p.invocation && p.toolSource == Some(source)
    case Manual(_) => p.kind == Compact && !p.accepted
    case Summarize(_, _) => p.kind == Compact && p.accepted
    case Compacted(turn, cause) => p.kind == Compact && p.body.Some? && turn == p.turn && cause == p.cause
  }

  lemma CommittedHolds(p: Step, x: Seen)
    requires x.e.kind == TurnCommitted && p.accepted && OnCommitted(p, x.e, x.proof).Ok?
    ensures var l := OnCommitted(p, x.e, x.proof).value; Holds(l, x, p.marker) && Fits(p, l)
  {
    hide Get, TurnText, Find, TurnId;
  }

  /** A transition is taken only on an event that is what its label says, in a step that allows it. */
  lemma DecideHolds(p: Step, x: Seen)
    requires Decide(p, x.e, x.proof).Ok?
    ensures Holds(Decide(p, x.e, x.proof).value, x, p.marker) && Fits(p, Decide(p, x.e, x.proof).value)
  {
    hide Get, TurnText, Find, TurnId, OnCommitted, Body, Summary, ReadCall, ResultOf, Mentions, InputMarker;
    if x.e.kind == TurnCommitted && p.accepted {
      CommittedHolds(p, x);
    }
  }

  // ---------------------------------------------------------------------------
  // Labels of a whole run

  predicate FitsAll(p0: Step, ls: seq<Label>)
    decreases |ls|
  {
    ls == [] || (FitsAll(p0, ls[..|ls| - 1]) && Fits(DoAll(p0, ls[..|ls| - 1]), ls[|ls| - 1])
                 && (DoAll(p0, ls[..|ls| - 1]).completed ==> ls[|ls| - 1] == Nothing))
  }

  function DoAll(p0: Step, ls: seq<Label>): (p: Step) {
    if ls == [] then p0 else Do(DoAll(p0, ls[..|ls| - 1]), ls[|ls| - 1])
  }

  ghost predicate StartAt(ls: seq<Label>, i: int, turn: Value) {
    0 <= i < |ls| && ls[i] == Start(turn)
  }

  /** The latest read call after `i` and before `j`. */
  ghost predicate CallBetween(ls: seq<Label>, i: int, c: int, j: int, turn: Value, invocation: Value) {
    0 <= i < c < j <= |ls| && ls[c] == Call(turn, invocation) && forall m :: c < m < j ==> !ls[m].Call?
  }

  ghost predicate ReturnAt(ls: seq<Label>, start: int, c: int, d: int, turn: Value, source: string) {
    exists invocation :: d < |ls| && CallBetween(ls, start, c, d, turn, invocation) && ls[d] == Return(turn, invocation, source)
  }

  ghost predicate ReportAt(ls: seq<Label>, start: int, c: int, d: int, latest: int, r: int, turn: Value) {
    exists invocation, source ::
      d < r < |ls| && ReturnAt(ls, start, c, d, turn, source) && CallBetween(ls, start, latest, r, turn, invocation)
      && ls[r] == Report(turn, invocation, source)
  }

  /** The order of a turn step's labels, up to what has happened so far. */
  ghost predicate TurnOrder(p: Step, ls: seq<Label>, k: Marks) {
    && (p.started ==> StartAt(ls, k.start, p.turn))
    && (p.accepted ==> p.started && k.start < k.accept < |ls| && ls[k.accept] == Accept(p.turn))
    && (p.deltas > 0 ==> p.started && k.start < k.delta < |ls| && ls[k.delta] == Piece(p.turn))
    && (p.body.Some? ==> p.accepted && k.accept < k.body < |ls| && ls[k.body] == Commit(p.turn, p.body.value))
    && (p.completed ==> p.started && p.body.Some? && p.deltas > 0 && k.body < k.finish < |ls| && k.delta < k.finish
                        && ls[k.finish] == Finish(p.turn) && (p.kind == Tool ==> p.toolCommitted))
  }

  ghost predicate ToolOrder(p: Step, ls: seq<Label>, k: Marks) {
    && (p.invocation != Null || p.toolSource.Some? ==> p.started && CallBetween(ls, k.start, k.call, |ls|, p.turn, p.invocation))
    && (p.toolSource.Some? ==> ReturnAt(ls, k.start, k.doneCall, k.done, p.turn, p.toolSource.value))
    && (p.toolCommitted ==> p.started && ReportAt(ls, k.start, k.resultDoneCall, k.resultDone, k.resultCall, k.result, p.turn))
  }

  ghost predicate CompactOrder(p: Step, ls: seq<Label>, k: Marks) {
    && (p.accepted ==> 0 <= k.start < |ls| && ls[k.start] == Manual(p.cause))
    && (p.body.Some? ==> p.accepted && k.start < k.body < |ls| && ls[k.body] == Summarize(p.turn, p.body.value))
    && (p.completed ==> p.body.Some? && k.body < k.finish < |ls| && ls[k.finish] == Compacted(p.turn, p.cause))
    && !p.started && p.invocation == Null && p.toolSource.None?
  }

  /** Positions of the labels since `begin`. */
  datatype Marks = Marks(start: int, accept: int, delta: int, body: int, finish: int,
    call: int, doneCall: int, done: int, resultCall: int, resultDoneCall: int, resultDone: int, result: int)

  const NOWHERE: Marks := Marks(-1, -1, -1, -1, -1, -1, -1, -1, -1, -1, -1, -1)

  ghost predicate Ordered(p: Step, ls: seq<Label>, k: Marks) {
    if p.kind == Compact then CompactOrder(p, ls, k) else TurnOrder(p, ls, k) && ToolOrder(p, ls, k)
  }

  function Mark(k: Marks, l: Label, n: nat): (r: Marks) {
    match l
    case Nothing => k
    case Start(_) => k.(start := n)
    case Accept(_) => k.(accept := n)
    case Piece(_) => k.(delta := n)
    case Commit(_, _) => k.(body := n)
    case Finish(_) => k.(finish := n)
    case Call(_, _) => k.(call := n)
    case Return(_, _, _) => k.(doneCall := k.call, done := n)
    case Report(_, _, _) => k.(resultCall := k.call, resultDoneCall := k.doneCall, resultDone := k.done, result := n)
    case Manual(_) => k.(start := n)
    case Summarize(_, _) => k.(body := n)
    case Compacted(_, _) => k.(finish := n)
  }

  lemma ReturnLonger(ls: seq<Label>, l: Label, start: int, c: int, d: int, turn: Value, source: string)
    requires ReturnAt(ls, start, c, d, turn, source)
    ensures ReturnAt(ls + [l], start, c, d, turn, source)
  {
    var invocation :| d < |ls| && CallBetween(ls, start, c, d, turn, invocation) && ls[d] == Return(turn, invocation, source);
    assert CallBetween(ls + [l], start, c, d, turn, invocation);
  }

  lemma ReportLonger(ls: seq<Label>, l: Label, start: int, c: int, d: int, latest: int, r: int, turn: Value)
    requires ReportAt(ls, start, c, d, latest, r, turn)
    ensures ReportAt(ls + [l], start, c, d, latest, r, turn)
  {
    var invocation, source :| d < r < |ls| && ReturnAt(ls, start, c, d, turn, source)
      && CallBetween(ls, start, latest, r, turn, invocation) && ls[r] == Report(turn, invocation, source);
    ReturnLonger(ls, l, start, c, d, turn, source);
    assert CallBetween(ls + [l], start, latest, r, turn, invocation);
  }

  lemma TurnOrderKeeps(p: Step, ls: seq<Label>, k: Marks, l: Label)
    requires p.kind != Compact && Ordered(p, ls, k) && Fits(p, l) && !p.completed
    ensures TurnOrder(Do(p, l), ls + [l], Mark(k, l, |ls|))
  {
    assert forall i :: 0 <= i < |ls| ==> (ls + [l])[i] == ls[i];
  }

  lemma ToolOrderKeeps(p: Step, ls: seq<Label>, k: Marks, l: Label)
    requires p.kind != Compact && Ordered(p, ls, k) && Fits(p, l) && !p.completed
    ensures ToolOrder(Do(p, l), ls + [l], Mark(k, l, |ls|))
  {
    var all, n, k' := ls + [l], |ls|, Mark(k, l, |ls|);
    if p.toolSource.Some? {
      ReturnLonger(ls, l, k.start, k.doneCall, k.done, p.turn, p.toolSource.value);
    }
    if p.toolCommitted && !l.Report? {
      ReportLonger(ls, l, k.start, k.resultDoneCall, k.resultDone, k.resultCall, k.result, p.turn);
    }
    if l.Return? {
      assert CallBetween(all, k.start, k.call, n, p.turn, p.invocation);
      assert ReturnAt(all, k.start, k.call, n, p.turn, l.source);
    }
    if l.Report? {
      assert CallBetween(all, k.start, k.call, n, p.turn, p.invocation);
      assert ReportAt(all, k.start, k.doneCall, k.done, k.call, n, p.turn);
    }
  }

  lemma CompactOrderKeeps(p: Step, ls: seq<Label>, k: Marks, l: Label)
    requires p.kind == Compact && Ordered(p, ls, k) && Fits(p, l) && !p.completed
    ensures CompactOrder(Do(p, l), ls + [l], Mark(k, l, |ls|))
  {
    assert forall i :: 0 <= i < |ls| ==> (ls + [l])[i] == ls[i];
  }

  lemma {:induction false} RunOrdered(marker: string, kind: Kind, ls: seq<Label>) returns (k: Marks)
    requires FitsAll(Begin(marker, kind), ls)
    ensures var p := DoAll(Begin(marker, kind), ls); p.kind == kind && p.marker == marker && Ordered(p, ls, k)
    decreases |ls|
  {
    if ls == [] {
      k := NOWHERE;
    } else {
      hide TurnOrder, ToolOrder, CompactOrder;
      var before, l := ls[..|ls| - 1], ls[|ls| - 1];
      var p := DoAll(Begin(marker, kind), before);
      k := RunOrdered(marker, kind, before);
      assert before + [l] == ls;
      if p.completed {
        StillOrdered(p, before, k);
      } else if kind == Compact {
        CompactOrderKeeps(p, before, k, l);
        k := Mark(k, l, |before|);
      } else {
        TurnOrderKeeps(p, before, k, l);
        ToolOrderKeeps(p, before, k, l);
        k := Mark(k, l, |before|);
      }
    }
  }

  lemma StillOrdered(p: Step, ls: seq<Label>, k: Marks)
    requires Ordered(p, ls, k)
    ensures Ordered(p, ls + [Nothing], k)
  {
    assert forall i :: 0 <= i < |ls| ==> (ls + [Nothing])[i] == ls[i];
    if p.kind != Compact && p.toolSource.Some? {
      ReturnLonger(ls, Nothing, k.start, k.doneCall, k.done, p.turn, p.toolSource.value);
    }
    if p.kind != Compact && p.toolCommitted {
      ReportLonger(ls, Nothing, k.start, k.resultDoneCall, k.resultDone, k.resultCall, k.result, p.turn);
    }
  }

  // ---------------------------------------------------------------------------
  // From events to completion

  /** All events since `begin`, unless one of them raised. */
  function RunAll(p0: Step, tr: seq<Seen>): (r: Outcome<Step>)
  {
    if tr == [] then Ok(p0)
    else
      var q := RunAll(p0, tr[..|tr| - 1]);
      if q.Raised? then Raised else Advance(q.value, tr[|tr| - 1].e, tr[|tr| - 1].proof)
  }

  lemma RunSnoc(p0: Step, tr: seq<Seen>, p: Step, x: Seen)
    requires RunAll(p0, tr) == Ok(p)
    ensures RunAll(p0, tr + [x]) == Advance(p, x.e, x.proof)
  {
    assert (tr + [x])[..|tr|] == tr;
  }

  /** A step keeps its marker and kind. */
  lemma SameStep(p: Step, x: Seen)
    requires Advance(p, x.e, x.proof).Ok?
    ensures var q := Advance(p, x.e, x.proof).value; q.marker == p.marker && q.kind == p.kind
  {
    var l := NextLabel(p, x);
  }

  /** While the step is open, each label is the decision on its event. */
  ghost predicate Decided(p0: Step, ls: seq<Label>, tr: seq<Seen>) {
    |ls| == |tr| && forall i :: 0 <= i < |ls| ==> DecidedAt(p0, ls, tr, i)
  }

  predicate DecidedAt(p0: Step, ls: seq<Label>, tr: seq<Seen>, i: nat)
    requires i < |ls| == |tr|
  {
    var p := DoAll(p0, ls[..i]);
    !p.completed ==> Decide(p, tr[i].e, tr[i].proof) == Ok(ls[i])
  }

  lemma DecidedSnoc(p0: Step, ls: seq<Label>, l: Label, tr: seq<Seen>)
    requires tr != [] && Decided(p0, ls, tr[..|tr| - 1])
    requires var p := DoAll(p0, ls); !p.completed ==> Decide(p, tr[|tr| - 1].e, tr[|tr| - 1].proof) == Ok(l)
    ensures Decided(p0, ls + [l], tr)
  {
    hide Decide, DoAll;
    forall i | 0 <= i < |ls| + 1 ensures DecidedAt(p0, ls + [l], tr, i) {
      if i < |ls| {
        assert DecidedAt(p0, ls, tr[..|tr| - 1], i);
        assert (ls + [l])[..i] == ls[..i];
      } else {
        assert (ls + [l])[..i] == ls;
      }
    }
  }

  ghost predicate AllHold(ls: seq<Label>, tr: seq<Seen>, marker: string) {
    |ls| == |tr| && forall i :: 0 <= i < |ls| ==> Holds(ls[i], tr[i], marker)
  }

  lemma AllHoldSnoc(ls: seq<Label>, l: Label, tr: seq<Seen>, marker: string)
    requires tr != [] && AllHold(ls, tr[..|tr| - 1], marker) && Holds(l, tr[|tr| - 1], marker)
    ensures AllHold(ls + [l], tr, marker)
  {
    hide Holds;
  }

  lemma {:induction false} LabelsOf(marker: string, kind: Kind, tr: seq<Seen>) returns (ls: seq<Label>)
    requires RunAll(Begin(marker, kind), tr).Ok?
    ensures var p0 := Begin(marker, kind);
            AllHold(ls, tr, marker) && FitsAll(p0, ls) && DoAll(p0, ls) == RunAll(p0, tr).value && DoAll(p0, ls).marker == marker
    ensures Decided(Begin(marker, kind), ls, tr)
    decreases |tr|
  {
    if tr == [] {
      ls := [];
    } else {
      hide Holds, Fits, Do, Advance, RunAll, DoAll, FitsAll, Decided, Decide, AllHold;
      var p0, before, x := Begin(marker, kind), tr[..|tr| - 1], tr[|tr| - 1];
      RunLast(p0, tr);
      var labels := LabelsOf(marker, kind, before);
      var l := NextLabel(DoAll(p0, labels), x);
      LabelSnoc(p0, labels, l);
      DecidedSnoc(p0, labels, l, tr);
      AllHoldSnoc(labels, l, tr, marker);
      ls := labels + [l];
    }
  }

  lemma RunLast(p0: Step, tr: seq<Seen>)
    requires tr != [] && RunAll(p0, tr).Ok?
    ensures var q := RunAll(p0, tr[..|tr| - 1]); var x := tr[|tr| - 1];
            q.Ok? && RunAll(p0, tr) == Advance(q.value, x.e, x.proof)
  {
    hide Advance;
  }

  lemma LabelSnoc(p0: Step, ls: seq<Label>, l: Label)
    ensures DoAll(p0, ls + [l]) == Do(DoAll(p0, ls), l)
    ensures FitsAll(p0, ls + [l]) <==> FitsAll(p0, ls) && Fits(DoAll(p0, ls), l) && (DoAll(p0, ls).completed ==> l == Nothing)
  {
    hide Do, Fits;
    assert (ls + [l])[..|ls|] == ls;
  }

  lemma NextLabel(p: Step, x: Seen) returns (l: Label)
    requires Advance(p, x.e, x.proof).Ok?
    ensures Holds(l, x, p.marker) && Fits(p, l) && Do(p, l) == Advance(p, x.e, x.proof).value && (p.completed ==> l == Nothing)
    ensures Do(p, l).marker == p.marker && (!p.completed ==> Decide(p, x.e, x.proof) == Ok(l))
  {
    if p.completed {
      l := Nothing;
    } else {
      DecideHolds(p, x);
      l := Decide(p, x.e, x.proof).value;
    }
  }

  /**
   A completed turn or tool step: one turn was started, then the input carrying the
   marker accepted, then the assistant body carrying the marker committed, then the
   turn finished as completed; a nonempty delta of that turn came in between, and the
   recorded body proof is that of the committed event.
   */
  lemma CompletedTurn(marker: string, kind: Kind, tr: seq<Seen>) returns (start: int, accept: int, delta: int, body: int, finish: int)
    requires kind != Compact && RunAll(Begin(marker, kind), tr).Ok? && RunAll(Begin(marker, kind), tr).value.completed
    ensures 0 <= start < accept < body < finish < |tr| && start < delta < finish
    ensures var p := RunAll(Begin(marker, kind), tr).value;
            && Started(tr[start].e, p.turn) && Accepted(tr[accept].e, marker, p.turn) && Delta(tr[delta].e, p.turn)
            && Body(tr[body].e, marker, p.turn) && p.body == Some(tr[body].proof) && Finished(tr[finish].e, p.turn)
  {
    var ls := LabelsOf(marker, kind, tr);
    var k := RunOrdered(marker, kind, ls);
    start, accept, delta, body, finish := k.start, k.accept, k.delta, k.body, k.finish;
    assert forall i :: 0 <= i < |ls| ==> Holds(ls[i], tr[i], marker);
  }

  /** At most one event of the turn is a matching read call. */
  ghost predicate OneCall(turn: Value, tr: seq<Seen>) {
    forall i, j, a, b :: 0 <= i < |tr| && 0 <= j < |tr| && Called(tr[i].e, turn, a) && Called(tr[j].e, turn, b) ==> i == j
  }

  /** A later call of the turn, with another identity, is the last one before the result. */
  ghost predicate Overtaken(turn: Value, tr: seq<Seen>, done: int, result: int, invocation: Value) {
    exists j, id :: 0 <= done < j < result <= |tr| && Called(tr[j].e, turn, id) && id != invocation && Uncalled(turn, tr, j, result)
  }

  ghost predicate Uncalled(turn: Value, tr: seq<Seen>, i: int, j: int)
    requires 0 <= i < j <= |tr|
  {
    forall m, id :: i < m < j ==> !Called(tr[m].e, turn, id)
  }

  /**
   A completed tool step also saw a matching read call, its successful finish, and then
   a committed result carrying the sequence of that finish. The result names the latest
   matching call before it, and that is the call which finished if and only if no other
   one has overtaken it; so it is when the turn has a single one.
   */
  lemma CompletedTool(marker: string, tr: seq<Seen>)
    returns (call: int, done: int, latest: int, result: int, invocation: Value, named: Value)
    requires RunAll(Begin(marker, Tool), tr).Ok? && RunAll(Begin(marker, Tool), tr).value.completed
    ensures 0 <= call < done < result < |tr| && 0 <= latest < result
    ensures var p := RunAll(Begin(marker, Tool), tr).value;
            && Called(tr[call].e, p.turn, invocation) && Done(tr[done].e, p.turn, invocation)
            && Called(tr[latest].e, p.turn, named) && Reported(tr[result].e, p.turn, named, tr[done].e.sequence)
            && Uncalled(p.turn, tr, call, done) && Uncalled(p.turn, tr, latest, result)
            && (named == invocation <==> !Overtaken(p.turn, tr, done, result, invocation))
            && (OneCall(p.turn, tr) ==> latest == call && named == invocation)
  {
    hide RunAll, Called, Done, Reported, ReportAt, OneCall, Decided, FitsAll, DoAll;
    var ls, k, source;
    ls, k := ToolLabels(marker, tr);
    call, done, latest, result := k.resultDoneCall, k.resultDone, k.resultCall, k.result;
    var turn := RunAll(Begin(marker, Tool), tr).value.turn;
    invocation, named, source := ReportLabels(ls, k.start, call, done, latest, result, turn);
    assert Holds(ls[call], tr[call], marker) && Holds(ls[done], tr[done], marker);
    assert Holds(ls[latest], tr[latest], marker) && Holds(ls[result], tr[result], marker);
    forall m, id | k.start < m < result && Called(tr[m].e, turn, id) ensures ls[m] == Call(turn, id) {
      CalledIsLabel(marker, ls, tr, k.start, m, result, turn, id);
    }
    hide Holds;
    WhoIsNamed(turn, tr, ls, call, done, latest, result, invocation, named, k.start);
    if OneCall(turn, tr) {
      OnlyCall(turn, tr, call, invocation, latest, named);
    }
  }

  lemma WhoIsNamed(turn: Value, tr: seq<Seen>, ls: seq<Label>, call: int, done: int, latest: int, result: int,
                   invocation: Value, named: Value, start: int)
    requires 0 <= start < call < done < result < |tr| == |ls| && start < latest < result
    requires ls[call] == Call(turn, invocation) && ls[done].Return? && ls[latest] == Call(turn, named)
    requires forall m :: call < m < done ==> !ls[m].Call?
    requires forall m :: latest < m < result ==> !ls[m].Call?
    requires forall m, id :: start < m < result && Called(tr[m].e, turn, id) ==> ls[m] == Call(turn, id)
    requires Called(tr[call].e, turn, invocation) && Called(tr[latest].e, turn, named)
    ensures Uncalled(turn, tr, call, done) && Uncalled(turn, tr, latest, result)
    ensures named == invocation <==> !Overtaken(turn, tr, done, result, invocation)
  {
    hide Called;
    forall m, id | call < m < done ensures !Called(tr[m].e, turn, id) {
      assert ls[m] != Call(turn, id);
    }
    forall m, id | latest < m < result ensures !Called(tr[m].e, turn, id) {
      assert ls[m] != Call(turn, id);
    }
    if latest <= done {
      assert ls[latest].Call? && ls[call].Call?;
      assert latest == call;
    } else if Overtaken(turn, tr, done, result, invocation) {
      var j, id :| 0 <= done < j < result <= |tr| && Called(tr[j].e, turn, id) && id != invocation && Uncalled(turn, tr, j, result);
      assert ls[j] == Call(turn, id);
      assert j == latest;
    }
  }

  /** Once started, a tool step keeps its turn. */
  lemma {:induction false} TurnFixed(marker: string, ls: seq<Label>, start: int, i: nat)
    requires FitsAll(Begin(marker, Tool), ls) && 0 <= start < i <= |ls| && ls[start].Start?
    ensures var p := DoAll(Begin(marker, Tool), ls[..i]); p.started && p.turn == ls[start].turn && p.kind == Tool
    decreases i
  {
    hide Fits, Do, FitsAll, DoAll;
    var p0 := Begin(marker, Tool);
    FitsPrefix(p0, ls, i);
    assert ls[..i] == ls[..i - 1] + [ls[i - 1]];
    LabelSnoc(p0, ls[..i - 1], ls[i - 1]);
    KindKept(p0, ls[..i - 1]);
    KeepsTurn(DoAll(p0, ls[..i - 1]), ls[i - 1]);
    if start < i - 1 {
      TurnFixed(marker, ls, start, i - 1);
    }
  }

  lemma KeepsTurn(p: Step, l: Label)
    requires Fits(p, l) && p.kind == Tool
    ensures var q := Do(p, l);
            && q.kind == Tool && (p.started ==> q.started && q.turn == p.turn) && (l.Start? ==> q.started && q.turn == l.turn)
  {
  }

  lemma {:induction false} KindKept(p0: Step, ls: seq<Label>)
    ensures DoAll(p0, ls).kind == p0.kind
    decreases |ls|
  {
    if ls != [] {
      KindKept(p0, ls[..|ls| - 1]);
    }
  }

  lemma {:induction false} FitsPrefix(p0: Step, ls: seq<Label>, i: nat)
    requires FitsAll(p0, ls) && i <= |ls|
    ensures FitsAll(p0, ls[..i])
    decreases |ls|
  {
    if i < |ls| {
      hide Fits, DoAll;
      FitsPrefix(p0, ls[..|ls| - 1], i);
      assert ls[..|ls| - 1][..i] == ls[..i];
    } else {
      assert ls[..i] == ls;
    }
  }

  /** A step that takes a label later on is not completed yet. */
  lemma {:induction false} OpenBefore(p0: Step, ls: seq<Label>, i: nat, r: nat)
    requires FitsAll(p0, ls) && i <= r < |ls| && ls[r] != Nothing
    ensures !DoAll(p0, ls[..i]).completed
    decreases r - i
  {
    hide Fits, FitsAll, DoAll;
    FitsPrefix(p0, ls, r + 1);
    assert ls[..r + 1] == ls[..r] + [ls[r]];
    LabelSnoc(p0, ls[..r], ls[r]);
    if i < r {
      OpenBefore(p0, ls, i + 1, r);
      assert ls[..i + 1] == ls[..i] + [ls[i]];
      LabelSnoc(p0, ls[..i], ls[i]);
    }
  }

  lemma CalledIsLabel(marker: string, ls: seq<Label>, tr: seq<Seen>, start: int, m: int, result: int, turn: Value, id: Value)
    requires FitsAll(Begin(marker, Tool), ls) && Decided(Begin(marker, Tool), ls, tr)
    requires 0 <= start < m < result < |ls| && ls[start] == Start(turn) && ls[result].Report? && Called(tr[m].e, turn, id)
    ensures ls[m] == Call(turn, id)
  {
    hide DoAll, FitsAll, Decide;
    TurnFixed(marker, ls, start, m);
    OpenBefore(Begin(marker, Tool), ls, m, result);
    assert DecidedAt(Begin(marker, Tool), ls, tr, m);
    CallDecided(DoAll(Begin(marker, Tool), ls[..m]), tr[m], id);
  }

  lemma CallDecided(p: Step, x: Seen, id: Value)
    requires p.kind == Tool && p.started && !p.completed && Called(x.e, p.turn, id)
    ensures Decide(p, x.e, x.proof) == Ok(Call(p.turn, id))
  {
    hide OnCommitted, OnResults, OnAccepted, OnDelta, OnTurnFinished, OnCompactFinished;
  }

  /** A completed tool step has labels that end in a report. */
  lemma ToolLabels(marker: string, tr: seq<Seen>) returns (ls: seq<Label>, k: Marks)
    requires RunAll(Begin(marker, Tool), tr).Ok? && RunAll(Begin(marker, Tool), tr).value.completed
    ensures AllHold(ls, tr, marker) && FitsAll(Begin(marker, Tool), ls) && Decided(Begin(marker, Tool), ls, tr)
    ensures var p := RunAll(Begin(marker, Tool), tr).value;
            && StartAt(ls, k.start, p.turn)
            && ReportAt(ls, k.start, k.resultDoneCall, k.resultDone, k.resultCall, k.result, p.turn)
  {
    hide RunAll, FitsAll, DoAll, AllHold, ReportAt, Decided;
    ls := LabelsOf(marker, Tool, tr);
    k := RunOrdered(marker, Tool, ls);
  }

  /** The labels behind a report. */
  lemma ReportLabels(ls: seq<Label>, start: int, call: int, done: int, latest: int, result: int, turn: Value)
    returns (invocation: Value, named: Value, source: string)
    requires ReportAt(ls, start, call, done, latest, result, turn)
    ensures 0 <= start < call < done < result < |ls| && start < latest < result
    ensures ls[call] == Call(turn, invocation) && ls[done] == Return(turn, invocation, source)
    ensures ls[latest] == Call(turn, named) && ls[result] == Report(turn, named, source)
    ensures forall m :: call < m < done ==> !ls[m].Call?
    ensures forall m :: latest < m < result ==> !ls[m].Call?
  {
    named, source :| done < result < |ls| && ReturnAt(ls, start, call, done, turn, source)
      && CallBetween(ls, start, latest, result, turn, named) && ls[result] == Report(turn, named, source);
    invocation :| done < |ls| && CallBetween(ls, start, call, done, turn, invocation) && ls[done] == Return(turn, invocation, source);
  }

  lemma OnlyCall(turn: Value, tr: seq<Seen>, i: int, a: Value, j: int, b: Value)
    requires OneCall(turn, tr) && 0 <= i < |tr| && 0 <= j < |tr| && Called(tr[i].e, turn, a) && Called(tr[j].e, turn, b)
    ensures i == j && a == b
  {
  }

  /** A completed compaction: manual start, committed summary, and a finish that agrees on turn and cause. */
  lemma CompletedCompaction(marker: string, tr: seq<Seen>) returns (start: int, body: int, finish: int)
    requires RunAll(Begin(marker, Compact), tr).Ok? && RunAll(Begin(marker, Compact), tr).value.completed
    ensures 0 <= start < body < finish < |tr|
    ensures var p := RunAll(Begin(marker, Compact), tr).value;
            && ManualStart(tr[start].e, p.cause) && Summary(tr[body].e, marker, p.turn) && p.body == Some(tr[body].proof)
            && CompactDone(tr[finish].e, p.turn, p.cause)
  {
    var ls := LabelsOf(marker, Compact, tr);
    var k := RunOrdered(marker, Compact, ls);
    start, body, finish := k.start, k.body, k.finish;
    assert Holds(ls[start], tr[start], marker) && Holds(ls[body], tr[body], marker) && Holds(ls[finish], tr[finish], marker);
  }
}
