/**
 The impairment relay (scripts/rich_impairment.py) as a step system. Tasks interleave
 only where they await, so one step is the code a task runs between two awaits. Which
 step comes next, what the peers send and which await fails are inputs.
 */
module Relay {
  const MAX_CONNECTIONS: nat := 12
  const MAX_RESPONSE: nat := 256 * 1024
  const HEADER_LIMIT: nat := 16 * 1024
  const RECEIPT_LIMIT: nat := 8

  /** The most bytes one artifact response can withhold. */
  const MAX_HELD: nat := MAX_RESPONSE + HEADER_LIMIT

  /** Where a task awaits; `hold` marks the request that took the armed flag. */
  datatype Phase =
    | Reading                                // the request
    | Replying                               // a control reply draining
    | Dialing(artifact: bool, hold: bool)    // the upstream connection
    | Sending(artifact: bool, hold: bool)    // the request draining upstream
    | Forwarding                             // a plain response
    | Answering(hold: bool)                  // the header of an artifact response
    | Checked(hold: bool, count: nat, size: nat) // its body, past the receipt limit check
    | Holding(size: nat, receipt: nat)       // the release
    | Draining(size: nat, receipt: nat)      // the response draining to the caller
    | Joining                                // the parts of a response that has ended
    | Closing(remote: bool)                  // a stream of its own closing, the remote one first
    | Stuck(remote: bool)                    // ended by a cancellation while closing
    | Done

  datatype Task = Task(control: bool, phase: Phase)

  datatype Receipt = Receipt(bytes: nat, held: bool, delivered: bool)

  datatype Stream = Local(task: nat) | Remote(task: nat)

  /**
   The relay's fields. `tasks` lists every task ever admitted, so that a position is
   its identity: the set in the source holds those that are not `Done`.
   */
  datatype State = State(
    tasks: seq<Task>, writers: set<Stream>, closing: set<Stream>, armed: bool, offline: bool, released: bool,
    held: int, heldBytes: int, peak: int, receipts: seq<Receipt>)

  const INIT: State := State([], {}, {}, false, false, false, 0, 0, 0, [])

  // ---------------------------------------------------------------------------
  // Tallies over the tasks

  datatype Tally = Tally(live: nat, callers: nat, checked: nat, held: nat, bytes: nat, owed: nat)

  /** What one task adds: `owed` counts a selection whose receipt is still to come. */
  function Of(t: Task): (a: Tally) {
    var live := if t.phase.Done? then 0 else 1;
    Tally(
      live, if t.control then 0 else live,
      if t.phase.Checked? then 1 else 0,
      if t.phase.Holding? || t.phase.Draining? then 1 else 0,
      if t.phase.Holding? || t.phase.Draining? then t.phase.size else 0,
      if (t.phase.Dialing? || t.phase.Sending? || t.phase.Answering? || t.phase.Checked?) && t.phase.hold then 1 else 0)
  }

  function Plus(a: Tally, b: Tally): (c: Tally) {
    Tally(a.live + b.live, a.callers + b.callers, a.checked + b.checked, a.held + b.held, a.bytes + b.bytes, a.owed + b.owed)
  }

  function Sum(s: seq<Task>): (a: Tally) {
    if s == [] then Tally(0, 0, 0, 0, 0, 0) else Plus(Sum(s[..|s| - 1]), Of(s[|s| - 1]))
  }

  lemma {:induction false} SumUpdate(s: seq<Task>, i: nat, t: Task)
    requires i < |s|
    ensures Plus(Sum(s[i := t]), Of(s[i])) == Plus(Sum(s), Of(t))
  {
    hide Of;
    var n := |s| - 1;
    if i == n {
      assert s[i := t][..n] == s[..n];
    } else {
      assert s[i := t][..n] == s[..n][i := t];
      SumUpdate(s[..n], i, t);
    }
  }

  lemma SumAppend(s: seq<Task>, t: Task)
    ensures Sum(s + [t]) == Plus(Sum(s), Of(t))
  {
    assert (s + [t])[..|s|] == s;
  }

  /** What a task can be: a control task never answers, and sizes are bounded. */
  predicate Proper(t: Task) {
    && (t.control ==> t.phase.Reading? || t.phase.Replying? || t.phase.Done?
                      || (t.phase.Closing? && !t.phase.remote) || (t.phase.Stuck? && !t.phase.remote))
    && (t.phase.Checked? || t.phase.Holding? || t.phase.Draining? ==> t.phase.size <= MAX_HELD)
  }

  lemma {:induction false} SumBounds(s: seq<Task>)
    requires forall i :: 0 <= i < |s| ==> Proper(s[i])
    ensures Sum(s).checked + Sum(s).held <= Sum(s).callers <= Sum(s).live
    ensures Sum(s).bytes <= MAX_HELD * Sum(s).held
  {
    if s != [] {
      var n := |s| - 1;
      SumBounds(s[..n]);
      assert Proper(s[n]);
    }
  }

  lemma SumLive(s: seq<Task>, i: nat)
    requires i < |s| && !s[i].phase.Done?
    ensures Sum(s).live > 0
  {
    hide Sum;
    SumUpdate(s, i, s[i].(phase := Done));
  }

  lemma {:induction false} SumDone(s: seq<Task>)
    requires forall i :: 0 <= i < |s| ==> s[i].phase.Done?
    ensures Sum(s).live == 0
  {
    if s != [] {
      SumDone(s[..|s| - 1]);
    }
  }

  function HeldReceipts(rs: seq<Receipt>): (n: nat) {
    if rs == [] then 0 else HeldReceipts(rs[..|rs| - 1]) + if rs[|rs| - 1].held then 1 else 0
  }

  function Delivered(rs: seq<Receipt>): (n: nat) {
    if rs == [] then 0 else Delivered(rs[..|rs| - 1]) + if rs[|rs| - 1].delivered then 1 else 0
  }

  lemma ReceiptAppend(rs: seq<Receipt>, r: Receipt)
    ensures HeldReceipts(rs + [r]) == HeldReceipts(rs) + if r.held then 1 else 0
    ensures Delivered(rs + [r]) == Delivered(rs) + if r.delivered then 1 else 0
  {
    assert (rs + [r])[..|rs|] == rs;
  }

  /** The receipts with one of them marked as delivered. */
  function Mark(rs: seq<Receipt>, i: nat): (m: seq<Receipt>)
    ensures |m| == |rs|
  {
    if i < |rs| then rs[i := rs[i].(delivered := true)] else rs
  }

  lemma {:induction false} MarkCounts(rs: seq<Receipt>, i: nat)
    ensures HeldReceipts(Mark(rs, i)) == HeldReceipts(rs)
    ensures Delivered(rs) <= Delivered(Mark(rs, i)) <= Delivered(rs) + 1
  {
    if i < |rs| {
      var n := |rs| - 1;
      if i == n {
        assert Mark(rs, i)[..n] == rs[..n];
      } else {
        assert Mark(rs, i)[..n] == Mark(rs[..n], i);
        MarkCounts(rs[..n], i);
      }
    }
  }

  // ---------------------------------------------------------------------------
  // Steps

  datatype Command = Arm | Release | Disconnect | Resume | Status | Unsupported

  datatype Event =
    | Accept                                                    // a connection on the relay socket
    | ControlRequest                                            // a connection on the control socket
    | Commanded(task: nat, command: Command)                    // its request is complete
    | Replied(task: nat)
    | Requested(task: nat, artifact: bool, bounded: bool)       // a caller's request is complete
    | Dialed(task: nat)
    | Sent(task: nat)
    | Headed(task: nat, framed: bool, count: int, raw: nat)     // an artifact response header
    | Arrived(task: nat)                                        // the response body
    | Woken(task: nat)                                          // the release was set
    | Drained(task: nat)
    | Ended(task: nat)                                          // an await of the task fails, is cut off or has no more to do
    | Lost(stream: Stream)                                      // a transport starts closing
    | StreamClosed(task: nat)                                   // the stream the task is closing is closed
    | GoOffline                                                 // close: the first part
    | CancelAll                                                 // close: release, close the writers, cancel the tasks

  predicate At(s: State, i: nat, control: bool) {
    i < |s.tasks| && s.tasks[i].control == control
  }

  function Moved(s: State, i: nat, p: Phase): (t: State)
    requires i < |s.tasks|
  {
    s.(tasks := s.tasks[i := s.tasks[i].(phase := p)])
  }

  function Admitted(s: State, control: bool): (t: State) {
    s.(tasks := s.tasks + [Task(control, Reading)], writers := s.writers + {Local(|s.tasks|)})
  }

  predicate HasRemote(p: Phase) {
    match p
    case Sending(_, _) => true
    case Forwarding => true
    case Answering(_) => true
    case Checked(_, _, _) => true
    case Holding(_, _) => true
    case Draining(_, _) => true
    case Joining => true
    case Closing(remote) => remote
    case Stuck(remote) => remote
    case _ => false
  }

  /** Leaving the withheld section. */
  function Let(s: State, p: Phase): (t: State) {
    if p.Holding? || p.Draining? then s.(held := s.held - 1, heldBytes := s.heldBytes - p.size) else s
  }

  /** Where a task goes when what it awaits is over: a response is joined before the streams are closed. */
  function After(p: Phase): (q: Phase) {
    if p.Forwarding? || p.Answering? || p.Checked? || p.Holding? || p.Draining? then Joining else Closing(HasRemote(p))
  }

  /** The end of what a task awaits: out of the withheld section and on towards its streams. */
  function Finish(s: State, i: nat): (t: State)
    requires i < |s.tasks|
  {
    var p := s.tasks[i].phase;
    Moved(Let(s, p), i, After(p))
  }

  /** The write, unless the relay is offline or the caller is gone. */
  function Write(s: State, i: nat, size: nat, receipt: nat): (t: State)
    requires i < |s.tasks|
    ensures |t.tasks| == |s.tasks|
  {
    if !s.offline && Local(i) !in s.closing then Moved(s, i, Draining(size, receipt)) else Finish(s, i)
  }

  /** A new receipt and the withheld section. */
  function Enter(s: State, i: nat, hold: bool, count: nat, size: nat): (t: State)
    requires i < |s.tasks|
    ensures |t.tasks| == |s.tasks|
  {
    var bytes := s.heldBytes + size;
    Moved(s, i, Holding(size, |s.receipts|)).(
      receipts := s.receipts + [Receipt(count, hold, false)], held := s.held + 1, heldBytes := bytes,
      peak := if bytes > s.peak then bytes else s.peak)
  }

  function Obey(s: State, i: nat, c: Command): (t: State)
    requires i < |s.tasks|
  {
    match c
    case Arm => if s.armed || s.held != 0 then Finish(s, i) else Moved(s, i, Replying).(released := false, armed := true)
    case Release => Moved(s, i, Replying).(released := true)
    case Disconnect =>
      Moved(s, i, Replying).(offline := true, released := true, closing := s.closing + (s.writers - {Local(i)}))
    case Resume => Moved(s, i, Replying).(offline := false)
    case Status => Moved(s, i, Replying)
    case Unsupported => Finish(s, i)
  }

  function Cancelled(t: Task): (c: Task) {
    if t.phase.Closing? then t.(phase := Stuck(t.phase.remote)) else t
  }

  function CancelledAll(ts: seq<Task>): (c: seq<Task>)
    ensures |c| == |ts| && forall i :: 0 <= i < |ts| ==> c[i] == Cancelled(ts[i])
  {
    seq(|ts|, i requires 0 <= i < |ts| => Cancelled(ts[i]))
  }

  /** The first part of an artifact response: framing, size and the receipt limit. */
  function Head(s: State, i: nat, hold: bool, framed: bool, count: int, raw: nat): (t: State)
    requires i < |s.tasks|
  {
    if framed && raw <= HEADER_LIMIT && 0 <= count <= MAX_RESPONSE && |s.receipts| < RECEIPT_LIMIT
    then Moved(s, i, Checked(hold, count, count + raw))
    else Finish(s, i)
  }

  /** A caller's complete request: an artifact read takes the armed flag. */
  function Request(s: State, i: nat, artifact: bool, bounded: bool): (t: State)
    requires i < |s.tasks|
  {
    if artifact && !bounded then Finish(s, i)
    else
      var selected := s.armed && artifact;
      Moved(s, i, Dialing(artifact, selected)).(armed := s.armed && !selected)
  }

  function Close(s: State, i: nat): (t: State)
    requires i < |s.tasks|
  {
    match s.tasks[i].phase
    case Closing(remote) =>
      if remote then Moved(s, i, Closing(false)).(writers := s.writers - {Remote(i)})
      else Moved(s, i, Done).(writers := s.writers - {Local(i)})
    case _ => s
  }

  /** The step of a task in its own phase; an event that does not fit the phase does nothing. */
  function Act(s: State, i: nat, e: Event): (t: State)
    requires i < |s.tasks|
  {
    var p := s.tasks[i].phase;
    var control := s.tasks[i].control;
    match e
    case Commanded(_, command) => if control && p.Reading? then Obey(s, i, command) else s
    case Replied(_) => if p.Replying? then Finish(s, i) else s
    case Requested(_, artifact, bounded) => if !control && p.Reading? then Request(s, i, artifact, bounded) else s
    case Dialed(_) =>
      if p.Dialing? then Moved(s, i, Sending(p.artifact, p.hold)).(writers := s.writers + {Remote(i)}) else s
    case Sent(_) => if p.Sending? then Moved(s, i, if p.artifact then Answering(p.hold) else Forwarding) else s
    case Headed(_, framed, count, raw) => if p.Answering? then Head(s, i, p.hold, framed, count, raw) else s
    case Arrived(_) =>
      if !p.Checked? then s
      else if p.hold then Enter(s, i, true, p.count, p.size)
      else Write(Enter(s, i, false, p.count, p.size), i, p.size, |s.receipts|)
    case Woken(_) => if p.Holding? && s.released then Write(s, i, p.size, p.receipt) else s
    case Drained(_) =>
      if p.Draining? then Finish(s.(receipts := Mark(s.receipts, p.receipt)), i) else s
    case Ended(_) => if p.Closing? || p.Stuck? || p.Done? then s else Finish(s, i)
    case StreamClosed(_) => Close(s, i)
    case _ => s
  }

  function Step(s: State, e: Event): (t: State) {
    match e
    case Accept => if s.offline || Sum(s.tasks).live >= MAX_CONNECTIONS then s else Admitted(s, false)
    case ControlRequest => if Sum(s.tasks).live >= MAX_CONNECTIONS + 2 then s else Admitted(s, true)
    case Lost(stream) => s.(closing := s.closing + {stream})
    case GoOffline => s.(offline := true)
    case CancelAll =>
      s.(released := true, closing := s.closing + s.writers, tasks := CancelledAll(s.tasks))
    case _ => if e.task < |s.tasks| then Act(s, e.task, e) else s
  }

  // ---------------------------------------------------------------------------
  // What every step keeps

  /** The streams whose tasks have not let go of them. */
  predicate Open(ts: seq<Task>, w: Stream) {
    w.task < |ts| && if w.Local? then !ts[w.task].phase.Done? else HasRemote(ts[w.task].phase)
  }

  /** The counters are the sums over the tasks, and the bounds. */
  predicate Books(s: State, a: Tally) {
    && a.live <= MAX_CONNECTIONS + 2 && a.callers <= MAX_CONNECTIONS
    && s.held == a.held && s.heldBytes == a.bytes && s.heldBytes <= s.peak
    && |s.receipts| + a.checked < RECEIPT_LIMIT + MAX_CONNECTIONS
    && Delivered(s.receipts) + s.held <= |s.receipts|
  }

  ghost predicate Inv(s: State) {
    && (forall i :: 0 <= i < |s.tasks| ==> Proper(s.tasks[i]))
    && (forall w :: w in s.writers <==> Open(s.tasks, w))
    && Books(s, Sum(s.tasks))
  }

  /** Moving one task, with the tallies of its old and new phase. */
  lemma MoveSum(s: State, i: nat, p: Phase)
    requires i < |s.tasks|
    ensures Plus(Sum(Moved(s, i, p).tasks), Of(s.tasks[i])) == Plus(Sum(s.tasks), Of(s.tasks[i].(phase := p)))
  {
    hide Of, Sum, Plus;
    SumUpdate(s.tasks, i, s.tasks[i].(phase := p));
  }

  lemma FinishKeeps(s: State, i: nat)
    requires Inv(s) && i < |s.tasks|
    requires !s.tasks[i].phase.Closing? && !s.tasks[i].phase.Stuck? && !s.tasks[i].phase.Done?
    ensures Inv(Finish(s, i))
  {
    hide Sum, Delivered, HeldReceipts;
    MoveSum(s, i, After(s.tasks[i].phase));
  }

  lemma WriteKeeps(s: State, i: nat, size: nat, receipt: nat)
    requires Inv(s) && i < |s.tasks| && s.tasks[i].phase == Holding(size, receipt)
    ensures Inv(Write(s, i, size, receipt))
  {
    hide Sum, Delivered, HeldReceipts;
    FinishKeeps(s, i);
    MoveSum(s, i, Draining(size, receipt));
  }

  lemma EnterKeeps(s: State, i: nat)
    requires Inv(s) && i < |s.tasks| && s.tasks[i].phase.Checked?
    ensures var p := s.tasks[i].phase; Inv(Enter(s, i, p.hold, p.count, p.size))
  {
    hide Sum, Delivered, HeldReceipts;
    var p := s.tasks[i].phase;
    MoveSum(s, i, Holding(p.size, |s.receipts|));
    ReceiptAppend(s.receipts, Receipt(p.count, p.hold, false));
  }

  lemma DrainKeeps(s: State, i: nat)
    requires Inv(s) && i < |s.tasks| && s.tasks[i].phase.Draining?
    ensures Inv(Finish(s.(receipts := Mark(s.receipts, s.tasks[i].phase.receipt)), i))
  {
    hide Sum, Delivered, HeldReceipts;
    var m := s.(receipts := Mark(s.receipts, s.tasks[i].phase.receipt));
    MarkCounts(s.receipts, s.tasks[i].phase.receipt);
    MoveSum(m, i, After(s.tasks[i].phase));
  }

  /** Past the limit check: at most one task per caller is between the check and its receipt. */
  lemma CheckedKeeps(s: State, i: nat, p: Phase)
    requires Inv(s) && i < |s.tasks| && s.tasks[i].phase.Answering? && |s.receipts| < RECEIPT_LIMIT
    requires p.Checked? && p.size <= MAX_HELD
    ensures Inv(Moved(s, i, p))
  {
    hide Sum, Delivered, HeldReceipts;
    MoveSum(s, i, p);
    SumBounds(Moved(s, i, p).tasks);
  }

  lemma HeadKeeps(s: State, i: nat, framed: bool, count: int, raw: nat)
    requires Inv(s) && i < |s.tasks| && s.tasks[i].phase.Answering?
    ensures Inv(Head(s, i, s.tasks[i].phase.hold, framed, count, raw))
  {
    hide Inv, Moved, Finish;
    FinishKeeps(s, i);
    if 0 <= count <= MAX_RESPONSE && raw <= HEADER_LIMIT && |s.receipts| < RECEIPT_LIMIT {
      CheckedKeeps(s, i, Checked(s.tasks[i].phase.hold, count, count + raw));
    }
  }

  lemma ObeyKeeps(s: State, i: nat, c: Command)
    requires Inv(s) && i < |s.tasks| && s.tasks[i] == Task(true, Reading)
    ensures Inv(Obey(s, i, c))
  {
    hide Sum, Delivered, HeldReceipts;
    FinishKeeps(s, i);
    MoveSum(s, i, Replying);
  }

  lemma RequestKeeps(s: State, i: nat, artifact: bool, bounded: bool)
    requires Inv(s) && i < |s.tasks| && s.tasks[i] == Task(false, Reading)
    ensures Inv(Request(s, i, artifact, bounded))
  {
    hide Sum, Delivered, HeldReceipts;
    if artifact && !bounded {
      FinishKeeps(s, i);
    } else {
      MoveSum(s, i, Dialing(artifact, s.armed && artifact));
    }
  }

  lemma CloseRemoteKeeps(s: State, i: nat)
    requires Inv(s) && i < |s.tasks| && s.tasks[i].phase == Closing(true)
    ensures Inv(Moved(s, i, Closing(false)).(writers := s.writers - {Remote(i)}))
  {
    hide Sum, Delivered, HeldReceipts;
    MoveSum(s, i, Closing(false));
  }

  lemma CloseLocalKeeps(s: State, i: nat)
    requires Inv(s) && i < |s.tasks| && s.tasks[i].phase == Closing(false)
    ensures Inv(Moved(s, i, Done).(writers := s.writers - {Local(i)}))
  {
    hide Sum, Delivered, HeldReceipts;
    MoveSum(s, i, Done);
  }

  lemma CloseKeeps(s: State, i: nat)
    requires Inv(s) && i < |s.tasks|
    ensures Inv(Close(s, i))
  {
    hide Inv;
    if s.tasks[i].phase == Closing(true) {
      CloseRemoteKeeps(s, i);
    } else if s.tasks[i].phase == Closing(false) {
      CloseLocalKeeps(s, i);
    }
  }

  lemma AdmitKeeps(s: State, control: bool)
    requires Inv(s) && Sum(s.tasks).live < MAX_CONNECTIONS + 2 && (!control ==> Sum(s.tasks).live < MAX_CONNECTIONS)
    ensures Inv(Admitted(s, control))
  {
    hide Sum, Delivered, HeldReceipts;
    SumAppend(s.tasks, Task(control, Reading));
    SumBounds(s.tasks);
  }

  lemma {:induction false} CancelSum(ts: seq<Task>)
    ensures Sum(CancelledAll(ts)) == Sum(ts)
  {
    if ts != [] {
      var n := |ts| - 1;
      assert CancelledAll(ts)[..n] == CancelledAll(ts[..n]);
      CancelSum(ts[..n]);
    }
  }

  lemma CancelKeeps(s: State)
    requires Inv(s)
    ensures Inv(Step(s, CancelAll))
  {
    hide Sum, Delivered, HeldReceipts;
    CancelSum(s.tasks);
  }

  lemma ActKeeps(s: State, i: nat, e: Event)
    requires Inv(s) && i < |s.tasks|
    ensures Inv(Act(s, i, e))
  {
    hide Sum, Delivered, HeldReceipts, Inv, Request, Obey, Head, Close, Mark;
    var p := s.tasks[i].phase;
    match e
    case Commanded(_, command) => if s.tasks[i] == Task(true, Reading) { ObeyKeeps(s, i, command); }
    case Replied(_) => if p.Replying? { FinishKeeps(s, i); }
    case Requested(_, artifact, bounded) => if s.tasks[i] == Task(false, Reading) { RequestKeeps(s, i, artifact, bounded); }
    case Dialed(_) => if p.Dialing? { DialKeeps(s, i); }
    case Sent(_) => if p.Sending? { SendKeeps(s, i, if p.artifact then Answering(p.hold) else Forwarding); }
    case Headed(_, framed, count, raw) => if p.Answering? { HeadKeeps(s, i, framed, count, raw); }
    case Arrived(_) =>
      if p.Checked? {
        EnterKeeps(s, i);
        if !p.hold {
          WriteKeeps(Enter(s, i, false, p.count, p.size), i, p.size, |s.receipts|);
        }
      }
    case Woken(_) => if p.Holding? { WriteKeeps(s, i, p.size, p.receipt); }
    case Drained(_) => if p.Draining? { DrainKeeps(s, i); }
    case Ended(_) => if !p.Closing? && !p.Stuck? && !p.Done? { FinishKeeps(s, i); }
    case StreamClosed(_) => CloseKeeps(s, i);
    case _ =>
  }

  lemma DialKeeps(s: State, i: nat)
    requires Inv(s) && i < |s.tasks| && s.tasks[i].phase.Dialing?
    ensures var p := s.tasks[i].phase; Inv(Moved(s, i, Sending(p.artifact, p.hold)).(writers := s.writers + {Remote(i)}))
  {
    hide Sum, Delivered, HeldReceipts;
    MoveSum(s, i, Sending(s.tasks[i].phase.artifact, s.tasks[i].phase.hold));
  }

  lemma SendKeeps(s: State, i: nat, p: Phase)
    requires Inv(s) && i < |s.tasks| && s.tasks[i].phase.Sending?
    requires p == Forwarding || p == Answering(s.tasks[i].phase.hold)
    ensures Inv(Moved(s, i, p))
  {
    hide Sum, Delivered, HeldReceipts;
    MoveSum(s, i, p);
  }

  /** Every step of every task keeps the books and the streams. */
  lemma StepKeeps(s: State, e: Event)
    requires Inv(s)
    ensures Inv(Step(s, e))
  {
    hide Sum, Delivered, HeldReceipts, Act, Admitted;
    match e
    case Accept => if Sum(s.tasks).live < MAX_CONNECTIONS { AdmitKeeps(s, false); }
    case ControlRequest => if Sum(s.tasks).live < MAX_CONNECTIONS + 2 { AdmitKeeps(s, true); }
    case Lost(_) =>
    case GoOffline =>
    case CancelAll => CancelKeeps(s);
    case _ => if e.task < |s.tasks| { ActKeeps(s, e.task, e); }
  }

  // ---------------------------------------------------------------------------
  // Whole runs

  function Run(es: seq<Event>): (s: State) {
    if es == [] then INIT else Step(Run(es[..|es| - 1]), es[|es| - 1])
  }

  /** The step puts one more response into the withheld section. */
  predicate Enters(s: State, e: Event) {
    e.Arrived? && e.task < |s.tasks| && s.tasks[e.task].phase.Checked?
  }

  /** The most bytes withheld at any moment of the step. */
  function Crest(s: State, e: Event): (n: int) {
    if Enters(s, e) then s.heldBytes + s.tasks[e.task].phase.size else s.heldBytes
  }

  function Max(a: int, b: int): (m: int) { if a < b then b else a }

  /** The most bytes withheld at any moment of the run. */
  function Highest(es: seq<Event>): (n: int) {
    if es == [] then 0 else var past := es[..|es| - 1]; Max(Highest(past), Crest(Run(past), es[|es| - 1]))
  }

  /** A control request that is granted the armed flag. */
  predicate Arms(s: State, e: Event) {
    && e.Commanded? && e.command.Arm? && e.task < |s.tasks| && s.tasks[e.task] == Task(true, Reading)
    && !s.armed && s.held == 0
  }

  function ArmCount(es: seq<Event>): (n: nat) {
    if es == [] then 0 else var past := es[..|es| - 1]; ArmCount(past) + if Arms(Run(past), es[|es| - 1]) then 1 else 0
  }

  /** Receipts marked held, selections on their way to one, and the flag itself. */
  function Pledged(s: State): (n: nat) {
    HeldReceipts(s.receipts) + Sum(s.tasks).owed + if s.armed then 1 else 0
  }

  /** Only entering the withheld section can raise the peak, and it raises it to the bytes then withheld. */
  lemma PeakStep(s: State, e: Event)
    requires s.heldBytes <= s.peak
    ensures Step(s, e).peak == Max(s.peak, Crest(s, e))
  {
    hide Sum, Mark, Act;
    if !e.Accept? && !e.ControlRequest? && !e.Lost? && !e.GoOffline? && !e.CancelAll? && e.task < |s.tasks| {
      PeakAct(s, e.task, e);
    }
  }

  lemma PeakAct(s: State, i: nat, e: Event)
    requires i < |s.tasks| && s.heldBytes <= s.peak
    ensures Act(s, i, e).peak
            == if e.Arrived? && s.tasks[i].phase.Checked? then Max(s.peak, s.heldBytes + s.tasks[i].phase.size) else s.peak
  {
    hide Mark, HasRemote, Of;
  }

  lemma FinishPledge(s: State, i: nat)
    requires i < |s.tasks|
    ensures Pledged(Finish(s, i)) <= Pledged(s)
  {
    hide Sum, HeldReceipts;
    MoveSum(s, i, After(s.tasks[i].phase));
  }

  lemma EnterPledge(s: State, i: nat)
    requires i < |s.tasks| && s.tasks[i].phase.Checked?
    ensures var p := s.tasks[i].phase; Pledged(Enter(s, i, p.hold, p.count, p.size)) <= Pledged(s)
  {
    hide Sum, HeldReceipts;
    var p := s.tasks[i].phase;
    MoveSum(s, i, Holding(p.size, |s.receipts|));
    ReceiptAppend(s.receipts, Receipt(p.count, p.hold, false));
  }

  /** A task that moves on without a new selection pledges no more. */
  lemma MovePledge(s: State, i: nat, p: Phase)
    requires i < |s.tasks| && Of(s.tasks[i].(phase := p)).owed <= Of(s.tasks[i]).owed
    ensures Pledged(Moved(s, i, p)) <= Pledged(s)
  {
    hide Sum, HeldReceipts, Of;
    MoveSum(s, i, p);
  }

  lemma WritePledge(s: State, i: nat, size: nat, receipt: nat)
    requires i < |s.tasks|
    ensures Pledged(Write(s, i, size, receipt)) <= Pledged(s)
  {
    hide Pledged, Finish;
    FinishPledge(s, i);
    MovePledge(s, i, Draining(size, receipt));
  }

  lemma RequestPledge(s: State, i: nat, artifact: bool, bounded: bool)
    requires i < |s.tasks|
    ensures Pledged(Request(s, i, artifact, bounded)) <= Pledged(s)
  {
    hide Sum, HeldReceipts, Finish;
    FinishPledge(s, i);
    MoveSum(s, i, Dialing(artifact, s.armed && artifact));
  }

  lemma ObeyPledge(s: State, i: nat, c: Command)
    requires i < |s.tasks|
    ensures Pledged(Obey(s, i, c)) <= Pledged(s) + if c.Arm? && !s.armed && s.held == 0 then 1 else 0
  {
    hide Sum, HeldReceipts, Finish;
    FinishPledge(s, i);
    MoveSum(s, i, Replying);
  }

  lemma DrainPledge(s: State, i: nat, receipt: nat)
    requires i < |s.tasks|
    ensures Pledged(Finish(s.(receipts := Mark(s.receipts, receipt)), i)) <= Pledged(s)
  {
    hide Sum, HeldReceipts, Finish, Mark;
    MarkCounts(s.receipts, receipt);
    FinishPledge(s.(receipts := Mark(s.receipts, receipt)), i);
  }

  lemma DialPledge(s: State, i: nat)
    requires i < |s.tasks| && s.tasks[i].phase.Dialing?
    ensures var p := s.tasks[i].phase; Pledged(Moved(s, i, Sending(p.artifact, p.hold)).(writers := s.writers + {Remote(i)})) <= Pledged(s)
  {
    hide Sum, HeldReceipts;
    MovePledge(s, i, Sending(s.tasks[i].phase.artifact, s.tasks[i].phase.hold));
  }

  lemma HeadPledge(s: State, i: nat, framed: bool, count: int, raw: nat)
    requires i < |s.tasks| && s.tasks[i].phase.Answering?
    ensures Pledged(Head(s, i, s.tasks[i].phase.hold, framed, count, raw)) <= Pledged(s)
  {
    hide Pledged, Finish, Moved;
    FinishPledge(s, i);
    if 0 <= count {
      MovePledge(s, i, Checked(s.tasks[i].phase.hold, count, count + raw));
    }
  }

  lemma ClosePledge(s: State, i: nat)
    requires i < |s.tasks|
    ensures Pledged(Close(s, i)) <= Pledged(s)
  {
    hide Sum, HeldReceipts;
    MovePledge(s, i, Closing(false));
    MovePledge(s, i, Done);
  }

  lemma ActPledge(s: State, i: nat, e: Event)
    requires i < |s.tasks|
    ensures Pledged(Act(s, i, e)) <= Pledged(s)
            + if e.Commanded? && e.command.Arm? && s.tasks[i] == Task(true, Reading) && !s.armed && s.held == 0 then 1 else 0
  {
    hide Pledged, Request, Obey, Head, Close, Mark, Finish, Write, Moved, Enter;
    var p := s.tasks[i].phase;
    match e
    case Commanded(_, command) => ObeyPledge(s, i, command);
    case Replied(_) => FinishPledge(s, i);
    case Requested(_, artifact, bounded) => RequestPledge(s, i, artifact, bounded);
    case Dialed(_) => if p.Dialing? { DialPledge(s, i); }
    case Sent(_) => if p.Sending? { MovePledge(s, i, if p.artifact then Answering(p.hold) else Forwarding); }
    case Headed(_, framed, count, raw) => if p.Answering? { HeadPledge(s, i, framed, count, raw); }
    case Arrived(_) =>
      if p.Checked? {
        EnterPledge(s, i);
        if !p.hold {
          var t := Enter(s, i, false, p.count, p.size);
          WritePledge(t, i, p.size, |s.receipts|);
        }
      }
    case Woken(_) => if p.Holding? { WritePledge(s, i, p.size, p.receipt); }
    case Drained(_) => if p.Draining? { DrainPledge(s, i, p.receipt); }
    case Ended(_) => FinishPledge(s, i);
    case StreamClosed(_) => ClosePledge(s, i);
    case _ =>
  }

  lemma PledgeStep(s: State, e: Event)
    ensures Pledged(Step(s, e)) <= Pledged(s) + if Arms(s, e) then 1 else 0
  {
    hide Sum, HeldReceipts, Act;
    match e
    case Accept => SumAppend(s.tasks, Task(false, Reading));
    case ControlRequest => SumAppend(s.tasks, Task(true, Reading));
    case Lost(_) =>
    case GoOffline =>
    case CancelAll => CancelSum(s.tasks);
    case _ => if e.task < |s.tasks| { ActPledge(s, e.task, e); }
  }

  /** The books of every run, against the run itself. */
  lemma {:induction false} RunKeeps(es: seq<Event>)
    ensures Inv(Run(es)) && Run(es).peak == Highest(es) && Pledged(Run(es)) <= ArmCount(es)
  {
    if es != [] {
      var past := es[..|es| - 1];
      RunKeeps(past);
      var s, e := Run(past), es[|es| - 1];
      assert s.heldBytes <= s.peak;
      hide Inv, Pledged, Step, Crest;
      StepKeeps(s, e);
      PledgeStep(s, e);
      PeakStep(s, e);
    }
  }

  lemma {:induction false} PeakBound(es: seq<Event>)
    ensures 0 <= Highest(es) <= MAX_CONNECTIONS * MAX_HELD
  {
    if es != [] {
      var past := es[..|es| - 1];
      PeakBound(past);
      RunKeeps(past);
      CrestBound(Run(past), es[|es| - 1]);
    }
  }

  lemma CrestBound(s: State, e: Event)
    requires Inv(s)
    ensures 0 <= Crest(s, e) <= MAX_CONNECTIONS * MAX_HELD
  {
    hide Sum;
    SumBounds(s.tasks);
    if Enters(s, e) {
      assert Proper(s.tasks[e.task]);
      assert Of(s.tasks[e.task]).checked == 1;
      SumUpdate(s.tasks, e.task, s.tasks[e.task].(phase := Done));
    }
  }

  /**
   Conservation under every interleaving: the counters are the sums over the responses
   inside the withheld section, the peak is the most ever withheld, the tasks and
   receipts stay bounded, and held receipts never outnumber the arms granted.
   */
  lemma RelayConserves(es: seq<Event>)
    ensures var s := Run(es); var a := Sum(s.tasks);
            && s.held == a.held && s.heldBytes == a.bytes
            && s.peak == Highest(es) <= MAX_CONNECTIONS * MAX_HELD
            && a.callers <= MAX_CONNECTIONS && a.live <= MAX_CONNECTIONS + 2
            && HeldReceipts(s.receipts) <= ArmCount(es)
            && Delivered(s.receipts) + s.held <= |s.receipts| <= 19
            && (forall w :: w in s.writers <==> Open(s.tasks, w))
  {
    RunKeeps(es);
    PeakBound(es);
  }

  // ---------------------------------------------------------------------------
  // Holding and writing

  /** A step starts to write task `i`'s response to its caller. */
  predicate Writes(s: State, t: State, i: nat) {
    i < |s.tasks| && i < |t.tasks| && t.tasks[i].phase.Draining? && !s.tasks[i].phase.Draining?
  }

  lemma WriteAllowed(s: State, i: nat, size: nat, receipt: nat)
    requires i < |s.tasks|
    ensures Write(s, i, size, receipt).tasks[i].phase.Draining? ==> !s.offline && Local(i) !in s.closing
  {
  }

  /** Nothing else starts to write. */
  lemma FinishIsQuiet(s: State, i: nat)
    requires i < |s.tasks|
    ensures !Finish(s, i).tasks[i].phase.Draining?
  {
    hide HasRemote;
  }

  lemma QuietSteps(s: State, i: nat, e: Event)
    requires i < |s.tasks|
    ensures e.Commanded? ==> !Obey(s, i, e.command).tasks[i].phase.Draining?
    ensures e.Requested? ==> !Request(s, i, e.artifact, e.bounded).tasks[i].phase.Draining?
    ensures Close(s, i).tasks[i].phase.Draining? ==> s.tasks[i].phase.Draining?
  {
    hide Finish;
    FinishIsQuiet(s, i);
  }

  lemma HeadIsQuiet(s: State, i: nat, hold: bool, framed: bool, count: int, raw: nat)
    requires i < |s.tasks|
    ensures !Head(s, i, hold, framed, count, raw).tasks[i].phase.Draining?
  {
    hide Finish;
    FinishIsQuiet(s, i);
  }

  /** A response is written only on line and to a caller that is still there, and a held one only after the release. */
  lemma ActWrites(s: State, i: nat, e: Event)
    requires i < |s.tasks| && Writes(s, Act(s, i, e), i)
    ensures !s.offline && Local(i) !in s.closing
    ensures (s.tasks[i].phase.Checked? && !s.tasks[i].phase.hold) || (s.tasks[i].phase.Holding? && s.released)
  {
    hide Mark, HasRemote, Write, Finish, Obey, Close, Head, Request;
    var p := s.tasks[i].phase;
    FinishIsQuiet(s, i);
    QuietSteps(s, i, e);
    if e.Headed? && p.Answering? {
      HeadIsQuiet(s, i, p.hold, e.framed, e.count, e.raw);
    } else if e.Arrived? && p.Checked? && !p.hold {
      WriteAllowed(Enter(s, i, false, p.count, p.size), i, p.size, |s.receipts|);
    } else if e.Woken? && p.Holding? {
      WriteAllowed(s, i, p.size, p.receipt);
    }
  }

  lemma WritesOnlyWhenAllowed(s: State, e: Event, i: nat)
    requires Writes(s, Step(s, e), i)
    ensures !s.offline && Local(i) !in s.closing
    ensures (s.tasks[i].phase.Checked? && !s.tasks[i].phase.hold) || (s.tasks[i].phase.Holding? && s.released)
  {
    hide Sum, Act;
    if !e.Accept? && !e.ControlRequest? && !e.Lost? && !e.GoOffline? && !e.CancelAll? && e.task < |s.tasks| {
      ActTouches(s, e.task, e);
      ActWrites(s, e.task, e);
    }
  }

  // ---------------------------------------------------------------------------
  // Closing

  /** What `close` refuses to leave behind. */
  predicate Retained(s: State) {
    s.held != 0 || s.heldBytes != 0 || s.writers != {} || Sum(s.tasks).live != 0
  }

  /** Everything `close` looks for comes down to one thing: a task that is not done. */
  lemma RetainedIsLive(s: State)
    requires Inv(s)
    ensures Retained(s) <==> exists i :: 0 <= i < |s.tasks| && !s.tasks[i].phase.Done?
  {
    hide Sum, Delivered, HeldReceipts;
    if forall i :: 0 <= i < |s.tasks| ==> s.tasks[i].phase.Done? {
      SumDone(s.tasks);
      SumBounds(s.tasks);
      assert forall w :: w in s.writers ==> Open(s.tasks, w);
      assert s.writers == {};
    } else {
      var i :| 0 <= i < |s.tasks| && !s.tasks[i].phase.Done?;
      SumLive(s.tasks, i);
    }
  }

  /** After `close` has cancelled the tasks: no new task, and no second cancellation. */
  predicate Calm(e: Event) {
    !e.Accept? && !e.ControlRequest? && !e.CancelAll?
  }

  function Later(s: State, es: seq<Event>): (t: State)
  {
    if es == [] then s else Step(Later(s, es[..|es| - 1]), es[|es| - 1])
  }

  predicate SameStuck(a: seq<Task>, b: seq<Task>) {
    |a| == |b| && forall i :: 0 <= i < |a| ==> a[i].phase.Stuck? == b[i].phase.Stuck?
  }

  /** From `s` to `t` task `i` alone moves, and neither into nor out of `Stuck`. */
  predicate Touches(s: State, t: State, i: nat)
    requires i < |s.tasks|
  {
    |t.tasks| == |s.tasks| && t.tasks == s.tasks[i := t.tasks[i]] && t.tasks[i].phase.Stuck? == s.tasks[i].phase.Stuck?
  }

  lemma ObeyTouches(s: State, i: nat, c: Command)
    requires i < |s.tasks| && s.tasks[i].phase.Reading?
    ensures Touches(s, Obey(s, i, c), i)
  {
    hide HasRemote;
  }

  lemma ActTouches(s: State, i: nat, e: Event)
    requires i < |s.tasks|
    ensures Touches(s, Act(s, i, e), i)
  {
    hide Mark, HasRemote, Obey, Finish, Write, Close, Head, Request;
    var p := s.tasks[i].phase;
    if e.Commanded? && p.Reading? {
      ObeyTouches(s, i, e.command);
    } else if e.StreamClosed? {
      CloseTouches(s, i);
    } else if !p.Stuck? {
      FinishTouches(s, i);
      if e.Requested? {
        RequestTouches(s, i, e.artifact, e.bounded);
      } else if e.Headed? && p.Answering? {
        HeadTouches(s, i, p.hold, e.framed, e.count, e.raw);
      } else if e.Arrived? && p.Checked? {
        WriteTouches(Enter(s, i, false, p.count, p.size), i, p.size, |s.receipts|);
      } else if e.Woken? && p.Holding? {
        WriteTouches(s, i, p.size, p.receipt);
      } else if e.Drained? && p.Draining? {
        FinishTouches(s.(receipts := Mark(s.receipts, p.receipt)), i);
      }
    }
  }

  lemma FinishTouches(s: State, i: nat)
    requires i < |s.tasks| && !s.tasks[i].phase.Stuck?
    ensures Touches(s, Finish(s, i), i)
  {
  }

  lemma CloseTouches(s: State, i: nat)
    requires i < |s.tasks|
    ensures Touches(s, Close(s, i), i)
  {
  }

  lemma WriteTouches(s: State, i: nat, size: nat, receipt: nat)
    requires i < |s.tasks| && !s.tasks[i].phase.Stuck?
    ensures Touches(s, Write(s, i, size, receipt), i)
  {
  }

  lemma RequestTouches(s: State, i: nat, artifact: bool, bounded: bool)
    requires i < |s.tasks| && !s.tasks[i].phase.Stuck?
    ensures Touches(s, Request(s, i, artifact, bounded), i)
  {
    hide Finish;
    FinishTouches(s, i);
  }

  lemma HeadTouches(s: State, i: nat, hold: bool, framed: bool, count: int, raw: nat)
    requires i < |s.tasks| && !s.tasks[i].phase.Stuck?
    ensures Touches(s, Head(s, i, hold, framed, count, raw), i)
  {
    hide Finish;
    FinishTouches(s, i);
  }

  lemma CalmStep(s: State, e: Event)
    requires Calm(e)
    ensures SameStuck(s.tasks, Step(s, e).tasks)
  {
    hide Sum, Act;
    if !e.Lost? && !e.GoOffline? && e.task < |s.tasks| {
      ActTouches(s, e.task, e);
    }
  }

  lemma {:induction false} CalmRun(s: State, es: seq<Event>)
    requires Inv(s) && forall k :: 0 <= k < |es| ==> Calm(es[k])
    ensures Inv(Later(s, es)) && SameStuck(s.tasks, Later(s, es).tasks)
  {
    if es != [] {
      hide Inv, Step;
      var past := es[..|es| - 1];
      CalmRun(s, past);
      StepKeeps(Later(s, past), es[|es| - 1]);
      CalmStep(Later(s, past), es[|es| - 1]);
    }
  }

  /** A task that has ended: what the joined close waits for. */
  predicate Over(t: Task) {
    t.phase.Done? || t.phase.Stuck?
  }

  /**
   The joined close raises exactly when it cancelled a task that was already closing
   its streams (or one that an earlier close had so cut off): that task skips the
   statements that take its streams and itself off the books.
   */
  lemma CloseRaisesExactly(s: State, es: seq<Event>)
    requires Inv(s) && forall k :: 0 <= k < |es| ==> Calm(es[k])
    requires forall i :: 0 <= i < |s.tasks| && i < |Later(Step(s, CancelAll), es).tasks| ==> Over(Later(Step(s, CancelAll), es).tasks[i])
    ensures Retained(Later(Step(s, CancelAll), es))
            <==> exists i :: 0 <= i < |s.tasks| && (s.tasks[i].phase.Closing? || s.tasks[i].phase.Stuck?)
  {
    var c := Step(s, CancelAll);
    CancelKeeps(s);
    CalmRun(c, es);
    var t := Later(c, es);
    RetainedIsLive(t);
    assert forall i :: 0 <= i < |s.tasks| ==> c.tasks[i] == Cancelled(s.tasks[i]);
    if i :| 0 <= i < |s.tasks| && (s.tasks[i].phase.Closing? || s.tasks[i].phase.Stuck?) {
      assert c.tasks[i].phase.Stuck?;
      assert t.tasks[i].phase.Stuck?;
    }
    if i :| 0 <= i < |t.tasks| && !t.tasks[i].phase.Done? {
      assert Over(t.tasks[i]);
      assert c.tasks[i].phase.Stuck?;
    }
  }

  /** So it does raise: a caller hangs up, and its stream is still closing when the relay closes. */
  lemma CloseCanRaise()
    ensures var t := Step(Run([Accept, Ended(0)]), CancelAll);
            (forall i :: 0 <= i < |t.tasks| ==> Over(t.tasks[i])) && Retained(t)
  {
    hide Step, Run, Sum;
    Accepted();
    var s := Run([Accept, Ended(0)]);
    CancelsClosing(s);
    SumLive(Step(s, CancelAll).tasks, 0);
  }

  lemma Accepted()
    ensures Run([Accept, Ended(0)]).tasks == [Task(false, Closing(false))]
  {
    hide Obey, Request, Head, Close, Write, Enter, Mark;
    assert [Accept][..0] == [] && [Accept, Ended(0)][..1] == [Accept];
    assert Run([Accept]) == Admitted(INIT, false);
  }

  lemma CancelsClosing(s: State)
    requires s.tasks == [Task(false, Closing(false))]
    ensures Step(s, CancelAll).tasks == [Task(false, Stuck(false))]
  {
    hide Sum, Act;
  }
}
