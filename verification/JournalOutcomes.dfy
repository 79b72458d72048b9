/**
 The other direction of the step automaton (scripts/soak_journal.py): which runs complete a
 turn, a tool turn and a compaction, and which events end in a fault.
 */
module JournalOutcomes {
  import opened Options
  import opened Texts
  import opened JournalLines
  import opened JournalStep

  // ---------------------------------------------------------------------------
  // Faults

  /** A committed turn of the assistant. */
  predicate Assistant(e: Event) {
    Get(e.f, "turn").Obj? && Get(Get(e.f, "turn").fields, "role") == Str("assistant")
  }

  /** A committed assistant turn that cannot be read: its text, or the turn or summary mark of a marked one. */
  predicate Unreadable(e: Event, marker: string, kind: Kind) {
    && Assistant(e)
    && var turn := Get(e.f, "turn").fields;
    || TurnText(turn).Raised?
    || (Find(TurnText(turn).value, marker) >= 0
        && (!TurnId(Get(e.f, "agent_turn")) || (kind == Compact && "meta" in turn && !turn["meta"].Obj?)))
  }

  /** What a turn that finishes still lacks. */
  predicate Unfinished(p: Step, e: Event) {
    Get(e.f, "status") != Str("completed") || !p.started || p.body.None? || p.deltas == 0 || (p.kind == Tool && !p.toolCommitted)
  }

  /** The faults of an open step, event by event. */
  predicate Fault(p: Step, e: Event) {
    match e.kind
    case UserMessageAccepted =>
      && p.kind != Compact && Mentions(Get(e.f, "content"), InputMarker(p.marker))
      && (p.accepted || !p.started || Get(e.f, "agent_turn") != p.turn || !TurnId(p.turn))
    case CompactionStarted => p.kind == Compact && p.accepted && Get(e.f, "reason") == Str("manual")
    case TurnStarted => p.kind != Compact && (p.started || !TurnId(Get(e.f, "turn_id")))
    case ToolCallFinished =>
      && p.invocation != Null && Get(e.f, "invocation_id") == p.invocation && Get(e.f, "turn_id") == p.turn
      && Get(e.f, "is_error") != Bool(false)
    case ToolResultsCommitted =>
      p.toolSource.Some? && Get(e.f, "agent_turn") == p.turn && "results" in e.f && !e.f["results"].Arr?
    case TurnCommitted => p.accepted && Unreadable(e, p.marker, p.kind)
    case TurnFinished => p.kind != Compact && Get(e.f, "turn_id") == p.turn && Unfinished(p, e)
    case CompactionFinished => p.kind == Compact && p.accepted && (p.body.None? || !CompactDone(e, p.turn, p.cause))
    case CompactionFailed => p.kind == Compact && p.accepted
    case _ => false
  }

  lemma CommitRaises(p: Step, e: Event, proof: Record)
    ensures OnCommitted(p, e, proof).Raised? <==> Unreadable(e, p.marker, p.kind)
  {
    hide Get, TurnText, Find, TurnId;
  }

  /** An open step ends in a fault on exactly these events; a completed one never does. */
  lemma RaisesExactly(p: Step, e: Event, proof: Record)
    ensures Advance(p, e, proof).Raised? <==> !p.completed && Fault(p, e)
  {
    hide Get, TurnText, Find, TurnId, OnCommitted, Unreadable, Mentions, InputMarker, ReadCall, ResultOf;
    CommitRaises(p, e, proof);
  }

  /** A turn that finishes, or a compaction that ends, is never left open. */
  lemma EndsDecide(p: Step, e: Event, proof: Record)
    requires !p.completed
    requires (p.kind != Compact && e.kind == TurnFinished && Get(e.f, "turn_id") == p.turn)
             || (p.kind == Compact && p.accepted && (e.kind == CompactionFinished || e.kind == CompactionFailed))
    ensures var r := Advance(p, e, proof); r.Raised? || r.value == p.(completed := true)
  {
    hide Get, TurnText, Find, TurnId, OnCommitted, Mentions, InputMarker, ReadCall, ResultOf;
  }

  // ---------------------------------------------------------------------------
  // Runs

  lemma RunOn(p0: Step, tr: seq<Seen>, n: nat)
    requires n < |tr| && RunAll(p0, tr[..n]).Ok?
    ensures RunAll(p0, tr[..n + 1]) == Advance(RunAll(p0, tr[..n]).value, tr[n].e, tr[n].proof)
  {
    hide Advance;
    assert tr[..n + 1][..n] == tr[..n];
  }

  /** A fault is final, and so is completion. */
  lemma {:induction false} Settled(p0: Step, tr: seq<Seen>, n: nat)
    requires n <= |tr|
    ensures RunAll(p0, tr[..n]).Raised? ==> RunAll(p0, tr).Raised?
    ensures RunAll(p0, tr[..n]).Ok? && RunAll(p0, tr[..n]).value.completed ==> RunAll(p0, tr) == RunAll(p0, tr[..n])
    decreases |tr|
  {
    hide Decide;
    if n == |tr| {
      assert tr[..n] == tr;
    } else {
      var m := |tr| - 1;
      assert tr[..m][..n] == tr[..n];
      Settled(p0, tr[..m], n);
    }
  }

  // ---------------------------------------------------------------------------
  // Compactions

  predicate ManuallyStarted(e: Event) {
    e.kind == CompactionStarted && Get(e.f, "reason") == Str("manual")
  }

  /** A summary with the marker, of a well-formed turn. */
  predicate GoodSummary(e: Event, marker: string) {
    Summary(e, marker, Get(e.f, "agent_turn")) && TurnId(Get(e.f, "agent_turn"))
  }

  /** Nothing to a compaction under way: neither an end, nor another start, nor a summary, nor unreadable. */
  predicate Beside(e: Event, marker: string) {
    && !ManuallyStarted(e) && e.kind != CompactionFinished && e.kind != CompactionFailed
    && (e.kind == TurnCommitted ==> !Unreadable(e, marker, Compact) && !GoodSummary(e, marker))
  }

  /** The compaction started at `start`, and since then only summaries and what is beside it. */
  ghost predicate UnderWay(marker: string, tr: seq<Seen>, start: nat) {
    && start < |tr| && ManuallyStarted(tr[start].e) && (forall j :: 0 <= j < start ==> !ManuallyStarted(tr[j].e))
    && forall j :: start < j < |tr| ==> Beside(tr[j].e, marker) || GoodSummary(tr[j].e, marker)
  }

  ghost predicate LatestSummary(marker: string, tr: seq<Seen>, start: nat, b: int) {
    && start < b < |tr| && GoodSummary(tr[b].e, marker) && forall j :: b < j < |tr| ==> Beside(tr[j].e, marker)
  }

  /** Before its manual start a compaction step takes no notice of anything. */
  lemma {:induction false} CompactIdle(marker: string, tr: seq<Seen>)
    requires forall j :: 0 <= j < |tr| ==> !ManuallyStarted(tr[j].e)
    ensures RunAll(Begin(marker, Compact), tr) == Ok(Begin(marker, Compact))
  {
    if tr != [] {
      CompactIdle(marker, tr[..|tr| - 1]);
      assert !ManuallyStarted(tr[|tr| - 1].e);
      IdleStep(marker, tr[|tr| - 1]);
    }
  }

  lemma IdleStep(marker: string, x: Seen)
    requires !ManuallyStarted(x.e)
    ensures Advance(Begin(marker, Compact), x.e, x.proof) == Ok(Begin(marker, Compact))
  {
    hide Get, TurnText, Find, TurnId, OnCommitted, ReadCall, Mentions;
  }

  /** A compaction step under way. */
  predicate Compacting(p: Step, marker: string, cause: Value) {
    p.marker == marker && p.kind == Compact && p.accepted && !p.completed && p.cause == cause
    && !p.started && p.invocation == Null && p.toolSource.None?
  }

  lemma StartCompacts(marker: string, x: Seen)
    requires ManuallyStarted(x.e)
    ensures var r := Advance(Begin(marker, Compact), x.e, x.proof);
            r.Ok? && Compacting(r.value, marker, x.e.cause) && r.value.body.None?
  {
    hide Get, TurnText, Find, TurnId, OnCommitted, ReadCall, Mentions;
  }

  lemma BesideStep(p: Step, cause: Value, x: Seen)
    requires Compacting(p, p.marker, cause) && Beside(x.e, p.marker)
    ensures Advance(p, x.e, x.proof) == Ok(p)
  {
    hide TurnText, Find, TurnId, OnCommitted, ReadCall, Mentions, GoodSummary, Unreadable;
    if x.e.kind == TurnCommitted {
      OtherCommit(p, x);
    }
  }

  lemma OtherCommit(p: Step, x: Seen)
    requires p.kind == Compact && x.e.kind == TurnCommitted && !Unreadable(x.e, p.marker, Compact) && !GoodSummary(x.e, p.marker)
    ensures OnCommitted(p, x.e, x.proof) == Ok(Nothing)
  {
    hide TurnText, Find, TurnId;
  }

  lemma SummaryStep(p: Step, cause: Value, x: Seen)
    requires Compacting(p, p.marker, cause) && GoodSummary(x.e, p.marker)
    ensures Advance(p, x.e, x.proof) == Ok(p.(turn := Get(x.e.f, "agent_turn"), body := Some(x.proof)))
  {
    hide TurnText, Find, TurnId, ReadCall, Mentions;
  }

  /** What the step knows while a compaction is under way: its cause and its latest summary. */
  lemma {:induction false} CompactKnows(marker: string, tr: seq<Seen>, start: nat)
    requires UnderWay(marker, tr, start)
    ensures var r := RunAll(Begin(marker, Compact), tr); r.Ok? && Compacting(r.value, marker, tr[start].e.cause)
    ensures var p := RunAll(Begin(marker, Compact), tr).value;
            && (p.body.Some? ==> exists b :: LatestSummary(marker, tr, start, b))
            && (forall b :: LatestSummary(marker, tr, start, b) ==> p.body == Some(tr[b].proof) && p.turn == Get(tr[b].e.f, "agent_turn"))
    decreases |tr|
  {
    hide GoodSummary, Beside, Advance, RunAll, ManuallyStarted, Get;
    var n := |tr| - 1;
    var x := tr[n];
    assert tr[..n + 1] == tr;
    if n == start {
      CompactIdle(marker, tr[..n]);
      StartCompacts(marker, x);
      RunOn(Begin(marker, Compact), tr, n);
    } else {
      assert UnderWay(marker, tr[..n], start);
      CompactKnows(marker, tr[..n], start);
      RunOn(Begin(marker, Compact), tr, n);
      var p := RunAll(Begin(marker, Compact), tr[..n]).value;
      LatestOn(marker, tr, start);
      if GoodSummary(x.e, marker) {
        SummaryStep(p, tr[start].e.cause, x);
        assert LatestSummary(marker, tr, start, n);
        SummaryNotBeside(x.e, marker);
      } else {
        BesideStep(p, tr[start].e.cause, x);
      }
    }
  }

  lemma SummaryNotBeside(e: Event, marker: string)
    requires GoodSummary(e, marker)
    ensures !Beside(e, marker)
  {
    hide Get, MarkedTurn, Unreadable;
  }

  lemma LatestOn(marker: string, tr: seq<Seen>, start: nat)
    requires start < |tr| - 1
    ensures var n := |tr| - 1;
            forall b :: LatestSummary(marker, tr, start, b)
                        <==> (b == n && GoodSummary(tr[n].e, marker))
                             || (Beside(tr[n].e, marker) && LatestSummary(marker, tr[..n], start, b))
  {
    hide GoodSummary, Beside;
  }

  /**
   How a compaction under way ends: it completes exactly when the finish agrees with its
   latest summary and its cause, with the proof of that summary; otherwise, and when it
   fails or is started again, that is a fault.
   */
  lemma CompactionEnds(marker: string, tr: seq<Seen>, start: nat, x: Seen)
    requires UnderWay(marker, tr, start)
    requires x.e.kind == CompactionFinished || x.e.kind == CompactionFailed || ManuallyStarted(x.e)
    ensures var r := RunAll(Begin(marker, Compact), tr + [x]);
            && (r.Ok? <==> exists b ::
                  LatestSummary(marker, tr, start, b) && CompactDone(x.e, Get(tr[b].e.f, "agent_turn"), tr[start].e.cause))
            && (r.Ok? ==> r.value.completed && forall b :: LatestSummary(marker, tr, start, b) ==> r.value.body == Some(tr[b].proof))
  {
    hide RunAll, LatestSummary, UnderWay, Get, Unreadable;
    CompactKnows(marker, tr, start);
    var p := RunAll(Begin(marker, Compact), tr).value;
    RunSnoc(Begin(marker, Compact), tr, p, x);
    RaisesExactly(p, x.e, x.proof);
    if x.e.kind != CompactionStarted {
      EndsDecide(p, x.e, x.proof);
    }
    hide Advance;
  }

  // ---------------------------------------------------------------------------
  // Turns

  /** Harmless to an open turn, or part of it: no start, no end, and nothing that is a fault. */
  predicate Calm(e: Event, marker: string, turn: Value) {
    && e.kind != TurnStarted
    && (e.kind == UserMessageAccepted ==> !Mentions(Get(e.f, "content"), InputMarker(marker)))
    && (e.kind == TurnFinished ==> Get(e.f, "turn_id") != turn && Get(e.f, "turn_id") != Null)
    && (e.kind == TurnCommitted ==> !Unreadable(e, marker, Turn))
    && (e.kind == ToolCallFinished && Get(e.f, "turn_id") == turn ==> Get(e.f, "is_error") == Bool(false))
    && (e.kind == ToolResultsCommitted && Get(e.f, "agent_turn") == turn && "results" in e.f ==> e.f["results"].Arr?)
  }

  /** The turn is started at `start`, its input accepted at `accept`, and everything else is calm. */
  ghost predicate OpenTurn(marker: string, tr: seq<Seen>, turn: Value, start: nat, accept: nat) {
    && start < accept && TurnId(turn) && (start < |tr| ==> Started(tr[start].e, turn))
    && (accept < |tr| ==> Accepted(tr[accept].e, marker, turn))
    && forall j :: 0 <= j < |tr| && j != start && j != accept ==> Calm(tr[j].e, marker, turn)
  }

  predicate Running(p: Step, marker: string, kind: Kind, turn: Value) {
    p.marker == marker && p.kind == kind != Compact && !p.completed && p.started && p.turn == turn && TurnId(turn)
  }

  /** Before its start a turn step takes no notice of what is calm. */
  lemma BeforeStart(marker: string, kind: Kind, x: Seen, turn: Value)
    requires kind != Compact && Calm(x.e, marker, turn) && turn != Null
    ensures Advance(Begin(marker, kind), x.e, x.proof) == Ok(Begin(marker, kind))
  {
    hide TurnText, Find, TurnId, OnCommitted, ReadCall, Mentions, InputMarker, Unreadable;
  }

  lemma StartRuns(marker: string, kind: Kind, x: Seen, turn: Value)
    requires kind != Compact && Started(x.e, turn) && TurnId(turn)
    ensures Advance(Begin(marker, kind), x.e, x.proof) == Ok(Begin(marker, kind).(turn := turn, started := true))
  {
    hide TurnText, Find, TurnId, OnCommitted, ReadCall, Mentions, InputMarker;
  }

  lemma AcceptRuns(p: Step, marker: string, kind: Kind, x: Seen, turn: Value)
    requires Running(p, marker, kind, turn) && !p.accepted && Accepted(x.e, marker, turn)
    ensures Advance(p, x.e, x.proof) == Ok(p.(accepted := true))
  {
    hide TurnText, Find, TurnId, OnCommitted, ReadCall, Mentions, InputMarker;
  }

  /** A calm event keeps the turn running, and adds exactly what it is. */
  lemma CalmRuns(p: Step, marker: string, kind: Kind, x: Seen, turn: Value)
    requires Running(p, marker, kind, turn) && Calm(x.e, marker, turn)
    ensures var r := Advance(p, x.e, x.proof);
            && r.Ok? && Running(r.value, marker, kind, turn) && r.value.accepted == p.accepted
            && (r.value.deltas > 0 <==> p.deltas > 0 || Delta(x.e, turn))
            && r.value.body == (if p.accepted && Body(x.e, marker, turn) then Some(x.proof) else p.body)
  {
    hide TurnText, Find, OnCommitted, ReadCall, Mentions, InputMarker, Unreadable, TurnId, Body;
    RaisesExactly(p, x.e, x.proof);
    if x.e.kind == TurnCommitted {
      CommitRuns(p, marker, x, turn);
    } else {
      NotBody(x.e, marker, turn);
    }
  }

  lemma NotBody(e: Event, marker: string, turn: Value)
    requires e.kind != TurnCommitted
    ensures !Body(e, marker, turn)
  {
  }

  lemma CommitRuns(p: Step, marker: string, x: Seen, turn: Value)
    requires p.marker == marker && p.kind != Compact && p.turn == turn && TurnId(turn)
    requires x.e.kind == TurnCommitted && !Unreadable(x.e, marker, Turn)
    ensures OnCommitted(p, x.e, x.proof) == Ok(if Body(x.e, marker, turn) then Commit(turn, x.proof) else Nothing)
  {
    hide TurnText, Find, TurnId;
  }

  /** Some event in `tr[i..j]` is a delta of the turn, or a committed body. */
  ghost predicate HasDelta(tr: seq<Seen>, turn: Value, i: int, j: int) {
    exists d :: i < d < j && 0 <= d < |tr| && Delta(tr[d].e, turn)
  }

  ghost predicate LatestBody(tr: seq<Seen>, marker: string, turn: Value, i: int, b: int, j: int) {
    && 0 <= i < b < j <= |tr| && Body(tr[b].e, marker, turn) && forall m :: b < m < j ==> !Body(tr[m].e, marker, turn)
  }

  /** What an open turn knows after its first `n` events. */
  ghost predicate KnowsTurn(p: Step, marker: string, kind: Kind, tr: seq<Seen>, turn: Value, start: nat, accept: nat, n: nat)
    requires n <= |tr|
  {
    && Running(p, marker, kind, turn) && (p.accepted <==> accept < n)
    && (p.deltas > 0 <==> HasDelta(tr, turn, start, n))
    && (p.body.Some? ==> exists b :: LatestBody(tr, marker, turn, accept, b, n))
    && (forall b :: LatestBody(tr, marker, turn, accept, b, n) ==> p.body == Some(tr[b].proof))
  }

  lemma {:induction false} BeforeTurn(marker: string, kind: Kind, tr: seq<Seen>, turn: Value, start: nat, accept: nat, n: nat)
    requires kind != Compact && OpenTurn(marker, tr, turn, start, accept) && n <= start && n <= |tr|
    ensures RunAll(Begin(marker, kind), tr[..n]) == Ok(Begin(marker, kind))
  {
    if n > 0 {
      hide Calm, RunAll, Advance, TurnId;
      BeforeTurn(marker, kind, tr, turn, start, accept, n - 1);
      RunOn(Begin(marker, kind), tr, n - 1);
      TurnIsText(turn);
      BeforeStart(marker, kind, tr[n - 1], turn);
    } else {
      assert tr[..0] == [];
    }
  }

  lemma TurnIsText(turn: Value)
    requires TurnId(turn)
    ensures turn != Null
  {
  }

  lemma {:induction false} TurnKnows(marker: string, kind: Kind, tr: seq<Seen>, turn: Value, start: nat, accept: nat, n: nat)
    requires kind != Compact && OpenTurn(marker, tr, turn, start, accept) && start < n <= |tr|
    ensures var r := RunAll(Begin(marker, kind), tr[..n]); r.Ok? && KnowsTurn(r.value, marker, kind, tr, turn, start, accept, n)
  {
    hide Calm, RunAll, Advance, KnowsTurn, TurnId, Delta, Body, Started, Accepted;
    var m := n - 1;
    if m == start {
      BeforeTurn(marker, kind, tr, turn, start, accept, m);
      RunOn(Begin(marker, kind), tr, m);
      StartRuns(marker, kind, tr[m], turn);
      KnowsAtStart(Begin(marker, kind).(turn := turn, started := true), marker, kind, tr, turn, start, accept);
    } else {
      TurnKnows(marker, kind, tr, turn, start, accept, m);
      RunOn(Begin(marker, kind), tr, m);
      KnowsOn(RunAll(Begin(marker, kind), tr[..m]).value, marker, kind, tr, turn, start, accept, m);
    }
  }

  lemma KnowsAtStart(p: Step, marker: string, kind: Kind, tr: seq<Seen>, turn: Value, start: nat, accept: nat)
    requires start < |tr| && start < accept && Running(p, marker, kind, turn) && !p.accepted && p.deltas == 0 && p.body.None?
    ensures KnowsTurn(p, marker, kind, tr, turn, start, accept, start + 1)
  {
    hide Body, Delta, TurnId;
  }

  lemma KnowsOn(p: Step, marker: string, kind: Kind, tr: seq<Seen>, turn: Value, start: nat, accept: nat, m: nat)
    requires OpenTurn(marker, tr, turn, start, accept) && start < m < |tr| && KnowsTurn(p, marker, kind, tr, turn, start, accept, m)
    ensures var r := Advance(p, tr[m].e, tr[m].proof); r.Ok? && KnowsTurn(r.value, marker, kind, tr, turn, start, accept, m + 1)
  {
    hide Calm, Advance, TurnId, Delta, Body, Started, Accepted;
    DeltaOn(tr, turn, start, m);
    BodyOn(tr, marker, turn, accept, m, m + 1);
    if m == accept {
      AcceptRuns(p, marker, kind, tr[m], turn);
      AcceptIsNot(tr[m].e, marker, turn);
    } else {
      CalmRuns(p, marker, kind, tr[m], turn);
    }
    hide HasDelta, LatestBody;
  }

  lemma AcceptIsNot(e: Event, marker: string, turn: Value)
    requires Accepted(e, marker, turn)
    ensures !Delta(e, turn) && !Body(e, marker, turn)
  {
    hide Mentions, InputMarker, MarkedTurn;
  }

  lemma DeltaOn(tr: seq<Seen>, turn: Value, start: nat, m: nat)
    requires start < m < |tr|
    ensures HasDelta(tr, turn, start, m + 1) <==> HasDelta(tr, turn, start, m) || Delta(tr[m].e, turn)
  {
    hide Delta;
  }

  lemma BodyOn(tr: seq<Seen>, marker: string, turn: Value, accept: nat, m: nat, n: nat)
    requires m < |tr| && n == m + 1
    ensures forall b :: LatestBody(tr, marker, turn, accept, b, n)
                        <==> if Body(tr[m].e, marker, turn) && accept < m then b == m else LatestBody(tr, marker, turn, accept, b, m)
  {
    hide Body;
    forall b ensures LatestBody(tr, marker, turn, accept, b, n)
                     <==> if Body(tr[m].e, marker, turn) && accept < m then b == m else LatestBody(tr, marker, turn, accept, b, m) {
      if LatestBody(tr, marker, turn, accept, b, n) && b < m {
        assert !Body(tr[m].e, marker, turn);
      }
    }
  }

  /**
   A turn in good order completes: started, its input accepted, a delta and a marked body
   after it, and finished as completed; and the proof it keeps is that of its latest body.
   If the turn finishes in any other way, that is a fault.
   */
  lemma TurnEnds(marker: string, tr: seq<Seen>, turn: Value, start: nat, accept: nat, x: Seen)
    requires OpenTurn(marker, tr, turn, start, accept) && accept < |tr|
    requires x.e.kind == TurnFinished && Get(x.e.f, "turn_id") == turn
    ensures var r := RunAll(Begin(marker, Turn), tr + [x]);
            && (r.Ok? <==> Get(x.e.f, "status") == Str("completed") && HasDelta(tr, turn, start, |tr|)
                           && exists b :: LatestBody(tr, marker, turn, accept, b, |tr|))
            && (r.Ok? ==> r.value.completed && r.value.turn == turn
                          && forall b :: LatestBody(tr, marker, turn, accept, b, |tr|) ==> r.value.body == Some(tr[b].proof))
  {
    hide RunAll, HasDelta, LatestBody, OpenTurn, Unreadable;
    assert tr[..|tr|] == tr;
    OpenIsOrdered(marker, tr, turn, start, accept);
    TurnKnows(marker, Turn, tr, turn, start, accept, |tr|);
    var p := RunAll(Begin(marker, Turn), tr).value;
    RunSnoc(Begin(marker, Turn), tr, p, x);
    RaisesExactly(p, x.e, x.proof);
    EndsDecide(p, x.e, x.proof);
    hide Advance;
  }

  lemma OpenIsOrdered(marker: string, tr: seq<Seen>, turn: Value, start: nat, accept: nat)
    requires OpenTurn(marker, tr, turn, start, accept)
    ensures start < accept
  {
  }

  // ---------------------------------------------------------------------------
  // Tool turns

  /** The call at `c` is finished at `d` and reported at `r`, and neither called nor finished again in between. */
  ghost predicate ToolChain(tr: seq<Seen>, turn: Value, id: Value, start: nat, c: nat, d: nat, r: nat) {
    && start < c < d < r < |tr| && id != Null
    && Called(tr[c].e, turn, id) && Done(tr[d].e, turn, id) && Reported(tr[r].e, turn, id, tr[d].e.sequence)
    && Uncalled(turn, tr, c, r) && forall j :: d < j < r ==> !Done(tr[j].e, turn, id)
  }

  /** A calm event of a running tool turn, and what it does to the tool call. */
  lemma CalmTool(p: Step, marker: string, x: Seen, turn: Value)
    requires Running(p, marker, Tool, turn) && (Calm(x.e, marker, turn) || (!p.accepted && Accepted(x.e, marker, turn)))
    ensures var q := Advance(p, x.e, x.proof);
            && q.Ok?
            && (Called(x.e, turn, Get(x.e.f, "invocation_id")) ==> q.value.invocation == Get(x.e.f, "invocation_id"))
            && (!Called(x.e, turn, Get(x.e.f, "invocation_id")) ==> q.value.invocation == p.invocation)
            && q.value.toolSource == (if p.invocation != Null && Done(x.e, turn, p.invocation) then Some(x.e.sequence) else p.toolSource)
            && (q.value.toolCommitted <==>
                  p.toolCommitted || (p.toolSource.Some? && Reported(x.e, turn, p.invocation, p.toolSource.value)))
  {
    hide TurnText, Find, OnCommitted, ReadCall, Mentions, InputMarker, Unreadable, TurnId, ResultOf;
    RaisesExactly(p, x.e, x.proof);
    if x.e.kind == TurnCommitted {
      CommitRuns(p, marker, x, turn);
    }
  }

  /** What the first `n` events leave of a tool chain. */
  ghost predicate KnowsTool(p: Step, tr: seq<Seen>, turn: Value, id: Value, c: nat, d: nat, r: nat, n: nat)
    requires d < |tr|
  {
    && (c < n <= r ==> p.invocation == id)
    && (d < n <= r ==> p.toolSource == Some(tr[d].e.sequence))
    && (r < n ==> p.toolCommitted)
  }

  lemma {:induction false} ToolKnows(marker: string, tr: seq<Seen>, turn: Value, start: nat, accept: nat, id: Value,
                                     c: nat, d: nat, r: nat, n: nat)
    requires OpenTurn(marker, tr, turn, start, accept) && ToolChain(tr, turn, id, start, c, d, r) && start < n <= |tr|
    ensures var q := RunAll(Begin(marker, Tool), tr[..n]); q.Ok? && KnowsTool(q.value, tr, turn, id, c, d, r, n)
  {
    hide Calm, RunAll, Advance, KnowsTurn, TurnId, Called, Done, Reported, Started, Accepted, ToolChain, Running;
    TurnKnows(marker, Tool, tr, turn, start, accept, n);
    ChainOrder(tr, turn, id, start, c, d, r);
    var m := n - 1;
    if m > start {
      ToolKnows(marker, tr, turn, start, accept, id, c, d, r, m);
      TurnKnows(marker, Tool, tr, turn, start, accept, m);
      RunOn(Begin(marker, Tool), tr, m);
      ToolOn(RunAll(Begin(marker, Tool), tr[..m]).value, marker, tr, turn, start, accept, id, c, d, r, m);
    }
  }

  lemma ChainOrder(tr: seq<Seen>, turn: Value, id: Value, start: nat, c: nat, d: nat, r: nat)
    requires ToolChain(tr, turn, id, start, c, d, r)
    ensures start < c < d < r < |tr|
  {
  }

  lemma ToolOn(p: Step, marker: string, tr: seq<Seen>, turn: Value, start: nat, accept: nat, id: Value, c: nat, d: nat, r: nat, m: nat)
    requires OpenTurn(marker, tr, turn, start, accept) && ToolChain(tr, turn, id, start, c, d, r) && start < m < |tr|
    requires KnowsTurn(p, marker, Tool, tr, turn, start, accept, m) && KnowsTool(p, tr, turn, id, c, d, r, m)
    ensures var q := Advance(p, tr[m].e, tr[m].proof); q.Ok? && KnowsTool(q.value, tr, turn, id, c, d, r, m + 1)
  {
    var x := tr[m];
    assert Running(p, marker, Tool, turn) && (p.accepted <==> accept < m);
    assert Calm(x.e, marker, turn) || (!p.accepted && Accepted(x.e, marker, turn));
    hide Calm, Advance, KnowsTurn, TurnId, Accepted, Running, OpenTurn;
    CalmTool(p, marker, x, turn);
    CalledIs(x.e, turn, id);
    assert c < m < r ==> !Called(x.e, turn, Get(x.e.f, "invocation_id"));
    hide Called, Done, Reported;
    if m == d {
      assert p.invocation == id;
    } else if m == r {
      assert p.invocation == id && p.toolSource == Some(tr[d].e.sequence);
    }
  }

  lemma CalledIs(e: Event, turn: Value, id: Value)
    ensures Called(e, turn, id) ==> id == Get(e.f, "invocation_id")
  {
    hide Get, ReadCall;
  }

  /**
   A tool turn in good order completes: as a turn, and with a read call, its successful
   finish and a result that reports it, in this order.
   */
  lemma ToolCompletes(marker: string, tr: seq<Seen>, turn: Value, start: nat, accept: nat, id: Value,
                      c: nat, d: nat, r: nat, b: int, x: Seen)
    requires OpenTurn(marker, tr, turn, start, accept) && ToolChain(tr, turn, id, start, c, d, r)
    requires HasDelta(tr, turn, start, |tr|) && LatestBody(tr, marker, turn, accept, b, |tr|) && Finished(x.e, turn)
    ensures var q := RunAll(Begin(marker, Tool), tr + [x]);
            q.Ok? && q.value.completed && q.value.turn == turn && q.value.body == Some(tr[b].proof)
  {
    hide *;
    ChainOrder(tr, turn, id, start, c, d, r);
    assert tr[..|tr|] == tr;
    TurnKnows(marker, Tool, tr, turn, start, accept, |tr|);
    ToolKnows(marker, tr, turn, start, accept, id, c, d, r, |tr|);
    var p := RunAll(Begin(marker, Tool), tr).value;
    KnowsEnough(p, marker, tr, turn, start, accept, id, c, d, r, b);
    RunSnoc(Begin(marker, Tool), tr, p, x);
    FinishCompletes(p, x, turn);
  }

  lemma KnowsEnough(p: Step, marker: string, tr: seq<Seen>, turn: Value, start: nat, accept: nat, id: Value, c: nat, d: nat, r: nat, b: int)
    requires KnowsTurn(p, marker, Tool, tr, turn, start, accept, |tr|) && d < r < |tr| && KnowsTool(p, tr, turn, id, c, d, r, |tr|)
    requires HasDelta(tr, turn, start, |tr|) && LatestBody(tr, marker, turn, accept, b, |tr|)
    ensures Running(p, p.marker, p.kind, turn) && p.deltas > 0 && 0 <= b < |tr| && p.body == Some(tr[b].proof)
            && p.toolCommitted && p.turn == turn
  {
    hide HasDelta, TurnId, Body;
  }

  lemma FinishCompletes(p: Step, x: Seen, turn: Value)
    requires Running(p, p.marker, p.kind, turn) && p.deltas > 0 && p.body.Some?
    requires (p.kind == Tool ==> p.toolCommitted) && Finished(x.e, turn)
    ensures Advance(p, x.e, x.proof) == Ok(p.(completed := true))
  {
    hide Get, TurnText, Find, TurnId, OnCommitted, Mentions, InputMarker, ReadCall, ResultOf;
  }

  lemma {:induction false} RunKeepsKind(p0: Step, tr: seq<Seen>)
    requires RunAll(p0, tr).Ok?
    ensures RunAll(p0, tr).value.kind == p0.kind && RunAll(p0, tr).value.marker == p0.marker
  {
    if tr != [] {
      hide Advance;
      RunKeepsKind(p0, tr[..|tr| - 1]);
      SameStep(RunAll(p0, tr[..|tr| - 1]).value, tr[|tr| - 1]);
    }
  }

  /** If a tool turn finishes in any other way than as completed, or without a reported call, that is a fault. */
  lemma ToolFaults(marker: string, tr: seq<Seen>, x: Seen)
    requires var q := RunAll(Begin(marker, Tool), tr);
             q.Ok? && !q.value.completed && x.e.kind == TurnFinished && Get(x.e.f, "turn_id") == q.value.turn
    requires var turn := RunAll(Begin(marker, Tool), tr).value.turn;
             || Get(x.e.f, "status") != Str("completed") || !HasDelta(tr, turn, -1, |tr|)
             || (forall r, id, source :: 0 <= r < |tr| ==> !Reported(tr[r].e, turn, id, source))
    ensures RunAll(Begin(marker, Tool), tr + [x]).Raised?
  {
    hide RunAll, Advance, Reported, Get, HasDelta;
    var p, all := RunAll(Begin(marker, Tool), tr).value, tr + [x];
    RunKeepsKind(Begin(marker, Tool), tr);
    RunSnoc(Begin(marker, Tool), tr, p, x);
    EndsDecide(p, x.e, x.proof);
    RaisesExactly(p, x.e, x.proof);
    if RunAll(Begin(marker, Tool), all).Ok? {
      hide Fault, Unfinished;
      FinishHad(marker, tr, x);
      StatusHad(p, x);
      assert false;
    }
  }

  lemma StatusHad(p: Step, x: Seen)
    requires p.kind == Tool && x.e.kind == TurnFinished && Get(x.e.f, "turn_id") == p.turn && !Fault(p, x.e)
    ensures Get(x.e.f, "status") == Str("completed")
  {
    hide Get;
  }

  /** A tool turn that completes with its finish had a delta and a reported call before it. */
  lemma FinishHad(marker: string, tr: seq<Seen>, x: Seen)
    requires RunAll(Begin(marker, Tool), tr + [x]).Ok? && RunAll(Begin(marker, Tool), tr + [x]).value.completed
    requires x.e.kind == TurnFinished
    ensures var turn := RunAll(Begin(marker, Tool), tr + [x]).value.turn;
            HasDelta(tr, turn, -1, |tr|) && exists r, id, source :: 0 <= r < |tr| && Reported(tr[r].e, turn, id, source)
  {
    hide *;
    var all := tr + [x];
    var turn := RunAll(Begin(marker, Tool), all).value.turn;
    var start, accept, delta, body, finish := CompletedTurn(marker, Tool, all);
    var call, done, latest, result, invocation, named := CompletedTool(marker, all);
    DeltaBefore(tr, x, turn, delta);
    ReportBefore(tr, x, turn, result, named, all[done].e.sequence);
  }

  lemma DeltaBefore(tr: seq<Seen>, x: Seen, turn: Value, d: int)
    requires 0 <= d < |tr| && Delta((tr + [x])[d].e, turn)
    ensures HasDelta(tr, turn, -1, |tr|)
  {
    hide Delta;
    assert Delta(tr[d].e, turn);
  }

  lemma ReportBefore(tr: seq<Seen>, x: Seen, turn: Value, r: int, id: Value, source: string)
    requires 0 <= r <= |tr| && Reported((tr + [x])[r].e, turn, id, source) && x.e.kind == TurnFinished
    ensures r < |tr| && Reported(tr[r].e, turn, id, source)
  {
    hide Get;
    assert (tr + [x])[|tr|] == x;
  }
}
