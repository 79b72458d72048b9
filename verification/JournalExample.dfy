/**
 A tool turn that completes although the call named by its result never finished
 (scripts/soak_journal.py): the probe keeps the latest read call and the latest
 successful finish apart.
 */
module JournalExample {
  import opened Options
  import opened Texts
  import opened JournalLines
  import opened JournalStep
  import opened JournalProbe

  const MARKER: string := "SOAK_STEP_000001_DONE"
  const TURN := Str("7")

  function ToolCall(id: string, sequence: string): (e: Event) {
    Event(ToolCallStarted,
          map["turn_id" := TURN, "name" := Str("read"), "args" := Obj(map["path" := Str("soak.txt")]), "invocation_id" := Str(id)],
          Null, sequence)
  }

  function ToolReturn(id: string, sequence: string): (e: Event) {
    Event(ToolCallFinished, map["turn_id" := TURN, "invocation_id" := Str(id), "is_error" := Bool(false)], Null, sequence)
  }

  function ToolReport(id: string, source: string, sequence: string): (e: Event) {
    Event(ToolResultsCommitted, map["agent_turn" := TURN, "results" := Arr([ResultOf(Str(id), Str(source))])], Null, sequence)
  }

  function Opening(): (e: Event) {
    Event(TurnStarted, map["turn_id" := TURN], Null, "1")
  }

  function Message(): (e: Event) {
    Event(UserMessageAccepted, map["content" := Str(InputMarker(MARKER)), "agent_turn" := TURN], Null, "2")
  }

  function Text(): (e: Event) {
    Event(TextDelta, map["turn_id" := TURN, "text" := Str("x")], Null, "3")
  }

  function Block(): (v: Value) {
    Obj(map["type" := Str("text"), "text" := Str(MARKER)])
  }

  function Reply(): (e: Event) {
    Event(TurnCommitted, map["agent_turn" := TURN, "turn" := Obj(map["role" := Str("assistant"), "blocks" := Arr([Block()])])], Null, "8")
  }

  function Ending(): (e: Event) {
    Event(TurnFinished, map["turn_id" := TURN, "status" := Str("completed")], Null, "9")
  }

  /** A call is made and finishes, a second call is made and never finishes, and the result names the second. */
  function Events(): (es: seq<Event>)
    ensures |es| == 9
  {
    [Opening(), Message(), Text(), ToolCall("a", "4"), ToolReturn("a", "5"),
     ToolCall("b", "6"), ToolReport("b", "5", "7"), Reply(), Ending()]
  }

  const KINDS: seq<string> := [
    "turn_started", "user_message_accepted", "text_delta", "tool_call_started", "tool_call_finished", "tool_call_started",
    "conversation_tool_results_committed", "conversation_turn_committed", "turn_finished"]

  /** Records of a session that hold these events, numbered from one on. */
  ghost predicate Journaled(decode: Decoder, rs: seq<Record>, name: string) {
    && IdentityText(name) && |rs| == 9
    && forall i :: 0 <= i < 9 ==>
         decode(rs[i].bytes) == Some(Envelope(Str(name), Str(Events()[i].sequence), Str(KINDS[i]), Events()[i].f, Null))
  }

  function Trace(rs: seq<Record>): (tr: seq<Seen>)
    requires |rs| == 9
    ensures |tr| == 9 && forall i :: 0 <= i < 9 ==> tr[i] == Seen(Events()[i], rs[i])
  {
    seq(9, i requires 0 <= i < 9 => Seen(Events()[i], rs[i]))
  }

  lemma FindItself(s: string)
    ensures Find(s, s) >= 0
  {
  }

  lemma StartsTurn(p: Step, proof: Record)
    requires p == Begin(MARKER, Tool)
    ensures Advance(p, Opening(), proof) == Ok(p.(turn := TURN, started := true))
  {
  }

  lemma TakesMessage(p: Step, proof: Record)
    requires p.kind == Tool && p.started && !p.accepted && !p.completed && p.turn == TURN && p.marker == MARKER
    ensures Advance(p, Message(), proof) == Ok(p.(accepted := true))
  {
    hide Find;
    FindItself(InputMarker(MARKER));
  }

  lemma TakesText(p: Step, proof: Record)
    requires p.kind == Tool && p.started && !p.completed && p.turn == TURN
    ensures Advance(p, Text(), proof) == Ok(p.(deltas := p.deltas + 1))
  {
  }

  lemma TakesCall(p: Step, id: string, sequence: string, proof: Record)
    requires p.kind == Tool && p.started && !p.completed && p.turn == TURN
    ensures Advance(p, ToolCall(id, sequence), proof) == Ok(p.(invocation := Str(id)))
  {
    CallDecided(p, Seen(ToolCall(id, sequence), proof), Str(id));
  }

  lemma TakesReturn(p: Step, id: string, sequence: string, proof: Record)
    requires p.kind == Tool && p.started && !p.completed && p.turn == TURN && p.invocation == Str(id)
    ensures Advance(p, ToolReturn(id, sequence), proof) == Ok(p.(toolSource := Some(sequence)))
  {
  }

  lemma TakesReport(p: Step, id: string, source: string, sequence: string, proof: Record)
    requires p.kind == Tool && p.started && !p.completed && p.turn == TURN && p.invocation == Str(id) && p.toolSource == Some(source)
    ensures Advance(p, ToolReport(id, source, sequence), proof) == Ok(p.(toolCommitted := true))
  {
  }

  lemma ReplyText()
    ensures JoinBlocks([Block()]) == Ok(MARKER)
  {
    assert BlockText(Block()) == Ok(MARKER);
    assert JoinBlocks([Block()][1..]) == Ok("");
    assert MARKER + "" == MARKER;
  }

  lemma TakesReply(p: Step, proof: Record)
    requires p.kind == Tool && p.accepted && !p.completed && p.turn == TURN && p.marker == MARKER
    ensures Advance(p, Reply(), proof) == Ok(p.(body := Some(proof)))
  {
    hide Find, JoinBlocks;
    ReplyText();
    FindItself(MARKER);
  }

  lemma TakesClosed(p: Step, proof: Record)
    requires p.kind == Tool && p.started && !p.completed && p.turn == TURN && p.body.Some? && p.deltas > 0 && p.toolCommitted
    ensures Advance(p, Ending(), proof) == Ok(p.(completed := true))
  {
  }

  lemma SecondCall()
    ensures Called(ToolCall("b", "6"), TURN, Str("b")) && Reported(ToolReport("b", "5", "7"), TURN, Str("b"), "5")
  {
  }

  lemma NeverDone(e: Event)
    requires e in Events()
    ensures !Done(e, TURN, Str("b"))
  {
    assert e.kind == ToolCallFinished ==> e == ToolReturn("a", "5");
  }

  lemma RunTrace(rs: seq<Record>)
    requires |rs| == 9
    ensures var r := RunAll(Begin(MARKER, Tool), Trace(rs)); r.Ok? && r.value.completed && r.value.turn == TURN
  {
    hide Advance, Opening, Message, Text, ToolCall, ToolReturn, ToolReport, Reply, Ending, RunAll, Find, Trace;
    var p, tr := Begin(MARKER, Tool), Trace(rs);
    EmptyRun(p);
    assert tr[..0] == [];
    StartsTurn(p, rs[0]);
    var q := Follow(p, tr, 0, p);
    TakesMessage(q, rs[1]);
    q := Follow(p, tr, 1, q);
    TakesText(q, rs[2]);
    q := Follow(p, tr, 2, q);
    TakesCall(q, "a", "4", rs[3]);
    q := Follow(p, tr, 3, q);
    TakesReturn(q, "a", "5", rs[4]);
    q := Follow(p, tr, 4, q);
    TakesCall(q, "b", "6", rs[5]);
    q := Follow(p, tr, 5, q);
    TakesReport(q, "b", "5", "7", rs[6]);
    q := Follow(p, tr, 6, q);
    TakesReply(q, rs[7]);
    q := Follow(p, tr, 7, q);
    TakesClosed(q, rs[8]);
    q := Follow(p, tr, 8, q);
    assert tr[..9] == tr;
  }

  lemma EmptyRun(p: Step)
    ensures RunAll(p, []) == Ok(p)
  {
  }

  lemma Follow(p0: Step, tr: seq<Seen>, i: nat, p: Step) returns (q: Step)
    requires i < |tr| && RunAll(p0, tr[..i]) == Ok(p) && Advance(p, tr[i].e, tr[i].proof).Ok?
    ensures Advance(p, tr[i].e, tr[i].proof) == Ok(q) && RunAll(p0, tr[..i + 1]) == Ok(q)
  {
    hide RunAll, Advance;
    RunSnoc(p0, tr[..i], p, tr[i]);
    assert tr[..i + 1] == tr[..i] + [tr[i]];
    q := Advance(p, tr[i].e, tr[i].proof).value;
  }

  // ---------------------------------------------------------------------------
  // The probe takes these records

  lemma Numbers(i: nat)
    requires i < 9
    ensures var n := Events()[i].sequence; DecimalText(n) && Numeral(n) == i + 1
  {
    var n := Events()[i].sequence;
    assert |n| == 1 && n[..0] == "" && n[0] as int == '1' as int + i;
  }

  lemma KindTexts(i: nat)
    requires i < 9
    ensures KindText(KINDS[i])
  {
    if i < 6 {
      FirstTexts(i);
    } else {
      LastTexts(i);
    }
  }

  lemma FirstTexts(i: nat)
    requires i < 6
    ensures KindText(KINDS[i])
  {
  }

  lemma LastTexts(i: nat)
    requires 6 <= i < 9
    ensures KindText(KINDS[i])
  {
  }

  lemma Kinds(i: nat)
    requires i < 9
    ensures KindOf(KINDS[i]) == Events()[i].kind && Events()[i].cause == Null
  {
    hide KindText;
  }

  /** What the automaton is shown of the records. */
  lemma SeenAs(decode: Decoder, rs: seq<Record>, name: string, i: nat)
    requires Journaled(decode, rs, name) && i < 9
    ensures SeenIn(decode, rs[i]) == Trace(rs)[i] && Genuine(decode(rs[i].bytes).value, name, i + 1)
  {
    hide Events, KindOf, KindText, Numeral, DecimalText, IdentityText;
    Kinds(i);
    KindTexts(i);
    Numbers(i);
  }

  /** Records of a session in sequence, over which the automaton runs, are all taken. */
  lemma {:induction false} Takes(decode: Decoder, rs: seq<Record>, name: string, p: Step)
    requires |rs| < MAX_KINDS && RunAll(p, EventsOf(decode, rs)).Ok?
    requires forall i :: 0 <= i < |rs| ==> decode(rs[i].bytes).Some? && Genuine(decode(rs[i].bytes).value, name, i + 1)
    ensures var w := WatchedAll(Watch(Some(name), 0, {}, Some(p)), decode, rs, name);
            && w.Some? && w.value.session == Some(name) && w.value.sequence == |rs| && |w.value.kinds| <= |rs|
            && w.value.step == Some(RunAll(p, EventsOf(decode, rs)).value)
    decreases |rs|
  {
    hide RunAll, Genuine, SeenIn, Advance;
    var start := Watch(Some(name), 0, {}, Some(p));
    if rs == [] {
      EmptyRun(p);
    } else {
      var n := |rs| - 1;
      var tr := EventsOf(decode, rs);
      RunLast(p, tr);
      assert tr[..n] == EventsOf(decode, rs[..n]);
      forall i | 0 <= i < n ensures decode(rs[..n][i].bytes).Some? && Genuine(decode(rs[..n][i].bytes).value, name, i + 1) {
        assert rs[..n][i] == rs[i];
      }
      Takes(decode, rs[..n], name, p);
      var w := WatchedAll(start, decode, rs[..n], name).value;
      TakesOne(w, decode, rs[n], name);
    }
  }

  lemma TakesOne(w: Watch, decode: Decoder, r: Record, name: string)
    requires w.session == Some(name) && |w.kinds| < MAX_KINDS && w.step.Some?
    requires decode(r.bytes).Some? && Genuine(decode(r.bytes).value, name, w.sequence + 1)
    requires Advance(w.step.value, SeenIn(decode, r).e, SeenIn(decode, r).proof).Ok?
    ensures Acceptable(w, decode, r, name) && |Watched(w, decode, r, name).kinds| <= |w.kinds| + 1
    ensures Watched(w, decode, r, name).step == Some(Advance(w.step.value, SeenIn(decode, r).e, SeenIn(decode, r).proof).value)
  {
    hide Advance, DecimalText, IdentityText, KindText, KindOf, Numeral;
  }

  /**
   The probe observes the records and reports the turn complete; its result names the
   second call, and no event finishes that call.
   */
  lemma UnfinishedCallReported(decode: Decoder, rs: seq<Record>, name: string)
    requires Journaled(decode, rs, name)
    ensures var w := WatchedAll(Watch(Some(name), 0, {}, Some(Begin(MARKER, Tool))), decode, rs, name);
            && ValidMarker(MARKER) && w.Some? && w.value.step.Some? && w.value.step.value.completed && w.value.step.value.turn == TURN
    ensures var tr := EventsOf(decode, rs);
            && Reported(tr[6].e, TURN, Str("b"), "5") && Overtaken(TURN, tr, 4, 6, Str("a"))
            && (forall j :: 0 <= j < |tr| ==> !Done(tr[j].e, TURN, Str("b")))
  {
    hide RunAll, Called, Done, Reported, Events, WatchedAll, Genuine, Trace, SeenIn, EventsOf;
    RunTrace(rs);
    forall i | 0 <= i < 9
      ensures EventsOf(decode, rs)[i] == Trace(rs)[i] && decode(rs[i].bytes).Some? && Genuine(decode(rs[i].bytes).value, name, i + 1)
    {
      EventsAt(decode, rs, i);
      SeenAs(decode, rs, name, i);
    }
    assert EventsOf(decode, rs) == Trace(rs);
    Takes(decode, rs, name, Begin(MARKER, Tool));
    TraceOvertaken(rs);
    assert MARKER[..10] == "SOAK_STEP_" && MARKER[16..] == "_DONE";
  }

  lemma TraceOvertaken(rs: seq<Record>)
    requires |rs| == 9
    ensures var tr := Trace(rs);
            && Reported(tr[6].e, TURN, Str("b"), "5") && Overtaken(TURN, tr, 4, 6, Str("a"))
            && (forall j :: 0 <= j < |tr| ==> !Done(tr[j].e, TURN, Str("b")))
  {
    hide ToolCall, ToolReport, Called, Done, Reported, Opening, Message, Text, Reply, Ending, ToolReturn, Trace;
    var tr := Trace(rs);
    SecondCall();
    forall j | 0 <= j < |tr| ensures !Done(tr[j].e, TURN, Str("b")) {
      NeverDone(tr[j].e);
    }
    assert Uncalled(TURN, tr, 5, 6) && "b" != "a";
    assert Called(tr[5].e, TURN, Str("b"));
  }
}
