/**
 The relay object itself: each method is what a task of scripts/rich_impairment.py
 runs between two awaits. `Valid` is the invariant of the step system, so the counters
 always are the sums over the responses withheld, and every method refines a step.
 */
module RelayObject {
  import opened Relay

  /** No response is withheld from its caller. */
  predicate Idle(ts: seq<Task>) {
    forall k :: 0 <= k < |ts| ==> !ts[k].phase.Holding? && !ts[k].phase.Draining?
  }

  lemma {:induction false} NoneHeld(ts: seq<Task>)
    requires Idle(ts)
    ensures Sum(ts).held == 0
  {
    if ts != [] {
      NoneHeld(ts[..|ts| - 1]);
    }
  }

  lemma SomeHeld(ts: seq<Task>, k: nat)
    requires k < |ts| && (ts[k].phase.Holding? || ts[k].phase.Draining?)
    ensures Sum(ts).held > 0
  {
    hide Sum;
    SumUpdate(ts, k, ts[k].(phase := Done));
  }

  /** The counter is zero exactly when nothing is withheld. */
  lemma HeldIsIdle(s: State)
    requires Inv(s)
    ensures s.held == 0 <==> Idle(s.tasks)
  {
    hide Sum;
    if Idle(s.tasks) {
      NoneHeld(s.tasks);
    } else {
      var k :| 0 <= k < |s.tasks| && (s.tasks[k].phase.Holding? || s.tasks[k].phase.Draining?);
      SomeHeld(s.tasks, k);
    }
  }

  /** What a task withholds is exactly what the counters lose when it leaves. */
  lemma Leaves(s: State, i: nat)
    requires i < |s.tasks|
    ensures var t, a := Finish(s, i), Of(s.tasks[i]); t.held == s.held - a.held && t.heldBytes == s.heldBytes - a.bytes
  {
  }

  /** After a disconnect every open stream but that of the command is closing. */
  lemma Disconnects(s: State, i: nat)
    requires Inv(s) && i < |s.tasks| && s.tasks[i] == Task(true, Reading)
    ensures var t := Obey(s, i, Disconnect); forall w :: Open(t.tasks, w) && w != Local(i) ==> w in t.closing
  {
    hide Sum;
    forall w | Open(Moved(s, i, Replying).tasks, w) && w != Local(i) ensures w in s.writers {
      assert Open(s.tasks, w);
    }
  }

  /** After a body has arrived: one more receipt, within the bounds, and written only where allowed. */
  lemma Arrives(s: State, i: nat)
    requires Inv(s) && i < |s.tasks| && s.tasks[i].phase.Checked?
    ensures var t, p := Act(s, i, Arrived(i)), s.tasks[i].phase;
            && |t.receipts| == |s.receipts| + 1 <= 19 && !t.receipts[|s.receipts|].delivered && |t.tasks| == |s.tasks|
            && s.heldBytes + p.size <= t.peak && (t.peak > s.peak ==> t.peak <= MAX_CONNECTIONS * MAX_HELD)
            && (t.tasks[i].phase.Draining? ==> !s.offline && Local(i) !in s.closing && !p.hold)
            && (p.hold ==> t.tasks[i].phase == Holding(p.size, |s.receipts|))
            && (!p.hold && !s.offline && Local(i) !in s.closing ==> t.tasks[i].phase == Draining(p.size, |s.receipts|))
            && t.receipts == s.receipts + [Receipt(p.count, p.hold, false)]
  {
    hide Sum, Delivered, Mark;
    PeakAct(s, i, Arrived(i));
    CrestBound(s, Arrived(i));
    OneChecked(s, i);
    if !s.tasks[i].phase.hold {
      WriteAllowed(Enter(s, i, false, s.tasks[i].phase.count, s.tasks[i].phase.size), i, s.tasks[i].phase.size, |s.receipts|);
    }
  }

  lemma OneChecked(s: State, i: nat)
    requires Inv(s) && i < |s.tasks| && s.tasks[i].phase.Checked?
    ensures |s.receipts| < 19
  {
    hide Sum;
    SumUpdate(s.tasks, i, s.tasks[i].(phase := Done));
  }

  /** After the cancellation every open stream is closing, and no task is. */
  lemma Cancels(s: State)
    requires Inv(s)
    ensures var t := Step(s, CancelAll);
            && (forall w :: Open(t.tasks, w) ==> w in t.closing)
            && (forall k :: 0 <= k < |t.tasks| ==> !t.tasks[k].phase.Closing?)
  {
    hide Sum;
    forall w | Open(CancelledAll(s.tasks), w) ensures w in s.writers {
      assert Open(s.tasks, w);
    }
  }

  class ImpairmentRelay {
    var tasks: seq<Task>
    var writers: set<Stream>
    var closing: set<Stream>
    var armed: bool
    var offline: bool
    var released: bool
    var held: int
    var heldBytes: int
    var peak: int
    var receipts: seq<Receipt>

    ghost function Now(): State
      reads this
    {
      State(tasks, writers, closing, armed, offline, released, held, heldBytes, peak, receipts)
    }

    /** Counters are sums over the tasks, within the bounds, and the writers are the open streams. */
    ghost predicate Valid()
      reads this
    {
      Inv(Now())
    }

    constructor ()
      ensures Now() == INIT && Valid()
    {
      tasks, writers, closing, receipts := [], {}, {}, [];
      armed, offline, released := false, false, false;
      held, heldBytes, peak := 0, 0, 0;
    }

    method Admit(control: bool)
      modifies this
      ensures Now() == Admitted(old(Now()), control)
    {
      writers := writers + {Local(|tasks|)};
      tasks := tasks + [Task(control, Reading)];
    }

    method AcceptCaller()
      requires Valid()
      modifies this
      ensures Valid() && Now() == Step(old(Now()), Accept)
      ensures tasks == (if offline || Sum(old(tasks)).live >= MAX_CONNECTIONS then old(tasks) else old(tasks) + [Task(false, Reading)])
    {
      StepKeeps(Now(), Accept);
      if offline || Sum(tasks).live >= MAX_CONNECTIONS {
        return;
      }
      Admit(false);
    }

    method AcceptControl()
      requires Valid()
      modifies this
      ensures Valid() && Now() == Step(old(Now()), ControlRequest)
      ensures tasks == (if Sum(old(tasks)).live >= MAX_CONNECTIONS + 2 then old(tasks) else old(tasks) + [Task(true, Reading)])
    {
      StepKeeps(Now(), ControlRequest);
      if Sum(tasks).live >= MAX_CONNECTIONS + 2 {
        return;
      }
      Admit(true);
    }

    method MoveTo(i: nat, p: Phase)
      requires i < |tasks|
      modifies `tasks
      ensures Now() == Moved(old(Now()), i, p)
    {
      tasks := tasks[i := tasks[i].(phase := p)];
    }

    /** The `finally` clauses of a task: out of the withheld section, then on to its streams. */
    method Depart(i: nat)
      requires i < |tasks|
      modifies this
      ensures Now() == Finish(old(Now()), i)
    {
      var p := tasks[i].phase;
      if p.Holding? || p.Draining? {
        held := held - 1;
        heldBytes := heldBytes - p.size;
      }
      MoveTo(i, After(p));
    }

    /** An await fails or is cut off: the counters lose exactly what the task withheld. */
    method Leave(i: nat)
      requires Valid() && i < |tasks| && !tasks[i].phase.Closing? && !tasks[i].phase.Stuck? && !tasks[i].phase.Done?
      modifies this
      ensures Valid() && Now() == Step(old(Now()), Ended(i)) && i < |tasks| && tasks[i].phase == After(old(tasks)[i].phase)
      ensures var a := Of(old(tasks)[i]); held == old(held) - a.held && heldBytes == old(heldBytes) - a.bytes
    {
      hide Inv, Sum, Of, Obey, Request, Head, Mark;
      StepKeeps(Now(), Ended(i));
      Leaves(Now(), i);
      Depart(i);
    }

    /** Closes every connection but the task's own. */
    method DropOthers(i: nat)
      modifies `closing
      ensures closing == old(closing) + (writers - {Local(i)})
    {
      var rest := writers;
      while rest != {}
        invariant rest <= writers
        invariant forall w :: w in closing <==> w in old(closing) || (w in writers && w !in rest && w != Local(i))
        decreases |rest|
      {
        var connection :| connection in rest;
        if connection != Local(i) {
          closing := closing + {connection};
        }
        rest := rest - {connection};
      }
    }

    method Command(i: nat, c: Command)
      requires Valid() && i < |tasks| && tasks[i] == Task(true, Reading)
      modifies this
      ensures Valid() && Now() == Step(old(Now()), Commanded(i, c))
      ensures c.Arm? ==> (tasks[i].phase.Replying? <==> !old(armed) && Idle(old(tasks)))
      ensures c.Disconnect? ==> offline && released && forall w :: Open(tasks, w) && w != Local(i) ==> w in closing
      ensures c.Unsupported? || !tasks[i].phase.Replying? ==> armed == old(armed) && offline == old(offline) && released == old(released)
      ensures c.Arm? && tasks[i].phase.Replying? ==> armed && !released && offline == old(offline)
      ensures c.Release? ==> released && offline == old(offline) && armed == old(armed)
      ensures c.Disconnect? ==> armed == old(armed)
      ensures c.Resume? ==> !offline && released == old(released) && armed == old(armed)
      ensures c.Status? ==> armed == old(armed) && offline == old(offline) && released == old(released)
      ensures !c.Disconnect? ==> closing == old(closing)
      ensures c.Unsupported? ==> !tasks[i].phase.Replying?
      ensures c.Release? || c.Disconnect? || c.Resume? || c.Status? ==> tasks[i].phase.Replying?
      ensures receipts == old(receipts) && held == old(held) && writers == old(writers)
    {
      hide Inv, Sum, Mark, Open;
      StepKeeps(Now(), Commanded(i, c));
      HeldIsIdle(Now());
      Disconnects(Now(), i);
      match c {
        case Arm =>
          if armed || held != 0 {
            Depart(i);
            return;
          }
          released := false;
          armed := true;
        case Release =>
          released := true;
        case Disconnect =>
          offline := true;
          released := true;
          DropOthers(i);
        case Resume =>
          offline := false;
        case Status =>
        case Unsupported =>
          Depart(i);
          return;
      }
      MoveTo(i, Replying);
    }

    method TakeRequest(i: nat, artifact: bool, bounded: bool)
      requires Valid() && i < |tasks| && tasks[i] == Task(false, Reading)
      modifies this
      ensures Valid() && Now() == Step(old(Now()), Requested(i, artifact, bounded))
      ensures tasks[i].phase.Dialing? <==> bounded || !artifact
      ensures tasks[i].phase.Dialing? && tasks[i].phase.hold <==> old(armed) && artifact && bounded
      ensures armed <==> old(armed) && !(artifact && bounded)
    {
      hide Inv, Sum, Obey;
      StepKeeps(Now(), Requested(i, artifact, bounded));
      var selected := armed && artifact;
      if artifact && !bounded {
        Depart(i);
        return;
      }
      if selected {
        armed := false;
      }
      MoveTo(i, Dialing(artifact, selected));
    }

    method Connect(i: nat)
      requires Valid() && i < |tasks| && tasks[i].phase.Dialing?
      modifies this
      ensures Valid() && Now() == Step(old(Now()), Dialed(i))
    {
      hide Inv, Sum, Obey;
      StepKeeps(Now(), Dialed(i));
      writers := writers + {Remote(i)};
      MoveTo(i, Sending(tasks[i].phase.artifact, tasks[i].phase.hold));
    }

    method SendRequest(i: nat)
      requires Valid() && i < |tasks| && tasks[i].phase.Sending?
      modifies this
      ensures Valid() && Now() == Step(old(Now()), Sent(i))
    {
      hide Inv, Sum, Obey;
      StepKeeps(Now(), Sent(i));
      MoveTo(i, if tasks[i].phase.artifact then Answering(tasks[i].phase.hold) else Forwarding);
    }

    method TakeHeader(i: nat, framed: bool, count: int, raw: nat)
      requires Valid() && i < |tasks| && tasks[i].phase.Answering?
      modifies this
      ensures Valid() && Now() == Step(old(Now()), Headed(i, framed, count, raw))
      ensures tasks[i].phase.Checked? ==> old(|receipts|) < RECEIPT_LIMIT && tasks[i].phase.size <= MAX_HELD
      ensures tasks[i].phase.Checked? <==> framed && raw <= HEADER_LIMIT && 0 <= count <= MAX_RESPONSE && |receipts| < RECEIPT_LIMIT
      ensures tasks[i].phase == if tasks[i].phase.Checked? then Checked(old(tasks)[i].phase.hold, count, count + raw) else Joining
    {
      hide Inv, Sum, Obey;
      StepKeeps(Now(), Headed(i, framed, count, raw));
      if !framed || raw > HEADER_LIMIT || !(0 <= count <= MAX_RESPONSE) || |receipts| >= RECEIPT_LIMIT {
        Depart(i);
        return;
      }
      MoveTo(i, Checked(tasks[i].phase.hold, count, count + raw));
    }

    method WriteOut(i: nat, size: nat, receipt: nat)
      requires i < |tasks| && tasks[i].phase == Holding(size, receipt)
      modifies this
      ensures Now() == Write(old(Now()), i, size, receipt)
    {
      if !offline && Local(i) !in closing {
        MoveTo(i, Draining(size, receipt));
      } else {
        Depart(i);
      }
    }

    /** A new receipt, and into the withheld section. */
    method Withhold(i: nat, hold: bool, count: nat, size: nat)
      requires i < |tasks|
      modifies this
      ensures Now() == Enter(old(Now()), i, hold, count, size)
    {
      var receipt := |receipts|;
      receipts := receipts + [Receipt(count, hold, false)];
      held := held + 1;
      heldBytes := heldBytes + size;
      peak := if heldBytes > peak then heldBytes else peak;
      MoveTo(i, Holding(size, receipt));
    }

    /** The body is here: a receipt, the counters, and either the hold or the write. */
    method TakeBody(i: nat)
      requires Valid() && i < |tasks| && tasks[i].phase.Checked?
      modifies this
      ensures Valid() && Now() == Step(old(Now()), Arrived(i))
      ensures |receipts| == |old(receipts)| + 1 <= 19 && !receipts[|old(receipts)|].delivered && |tasks| == |old(tasks)|
      ensures old(heldBytes) + old(tasks)[i].phase.size <= peak && (peak > old(peak) ==> peak <= MAX_CONNECTIONS * MAX_HELD)
      ensures tasks[i].phase.Draining? ==> !offline && Local(i) !in closing && !old(tasks)[i].phase.hold
      ensures old(tasks)[i].phase.hold ==> tasks[i].phase == Holding(old(tasks)[i].phase.size, |old(receipts)|)
      ensures !old(tasks)[i].phase.hold && !old(offline) && Local(i) !in old(closing) ==>
                tasks[i].phase == Draining(old(tasks)[i].phase.size, |old(receipts)|)
      ensures receipts == old(receipts) + [Receipt(old(tasks)[i].phase.count, old(tasks)[i].phase.hold, false)]
    {
      hide Inv, Sum, Mark, Finish, Let;
      StepKeeps(Now(), Arrived(i));
      Arrives(Now(), i);
      var p, receipt := tasks[i].phase, |receipts|;
      Withhold(i, p.hold, p.count, p.size);
      if !p.hold {
        WriteOut(i, p.size, receipt);
      }
    }

    method Resume(i: nat)
      requires Valid() && i < |tasks| && tasks[i].phase.Holding? && released
      modifies this
      ensures Valid() && Now() == Step(old(Now()), Woken(i))
      ensures tasks[i].phase.Draining? <==> !offline && Local(i) !in closing
      ensures tasks[i].phase.Draining? ==> tasks[i].phase.receipt == old(tasks)[i].phase.receipt
    {
      hide Inv, Sum, Obey;
      StepKeeps(Now(), Woken(i));
      WriteOut(i, tasks[i].phase.size, tasks[i].phase.receipt);
    }

    method Deliver(i: nat)
      requires Valid() && i < |tasks| && tasks[i].phase.Draining?
      modifies this
      ensures Valid() && Now() == Step(old(Now()), Drained(i))
      ensures var r := old(tasks)[i].phase.receipt;
              && |receipts| == |old(receipts)|
              && (forall k :: 0 <= k < |receipts| ==>
                    receipts[k] == if k == r then old(receipts)[k].(delivered := true) else old(receipts)[k])
    {
      hide Inv, Sum, Obey;
      StepKeeps(Now(), Drained(i));
      receipts := Mark(receipts, tasks[i].phase.receipt);
      Depart(i);
    }

    /** A stream of the task is closed: off the books, the task with the last one. */
    method Discard(i: nat)
      requires Valid() && i < |tasks| && tasks[i].phase.Closing?
      modifies this
      ensures Valid() && Now() == Step(old(Now()), StreamClosed(i))
    {
      hide Inv, Sum, Obey;
      StepKeeps(Now(), StreamClosed(i));
      if tasks[i].phase.remote {
        writers := writers - {Remote(i)};
        MoveTo(i, Closing(false));
      } else {
        writers := writers - {Local(i)};
        MoveTo(i, Done);
      }
    }

    /** The beginning of `close`. */
    method TakeOffline()
      requires Valid()
      modifies this
      ensures Valid() && Now() == Step(old(Now()), GoOffline)
    {
      StepKeeps(Now(), GoOffline);
      offline := true;
    }

    /** The middle of `close`: everything is let go and every task is cancelled. */
    method CancelTasks()
      requires Valid()
      modifies this
      ensures Valid() && Now() == Step(old(Now()), CancelAll)
      ensures released && (forall w :: Open(tasks, w) ==> w in closing) && forall k :: 0 <= k < |tasks| ==> !tasks[k].phase.Closing?
    {
      hide Inv, Sum, Open;
      StepKeeps(Now(), CancelAll);
      Cancels(Now());
      released := true;
      closing := closing + writers;
      var i := 0;
      while i < |tasks|
        invariant 0 <= i <= |tasks| == |old(tasks)|
        invariant forall k :: 0 <= k < i ==> tasks[k] == Cancelled(old(tasks)[k])
        invariant forall k :: i <= k < |tasks| ==> tasks[k] == old(tasks)[k]
        invariant Now() == old(Now()).(released := true, closing := old(closing) + writers, tasks := tasks)
      {
        if tasks[i].phase.Closing? {
          MoveTo(i, Stuck(tasks[i].phase.remote));
        }
        i := i + 1;
      }
      assert tasks == CancelledAll(old(tasks));
    }

    /** The check at the end of `close`. */
    method Joined() returns (ok: bool)
      requires Valid()
      ensures ok <==> forall k :: 0 <= k < |tasks| ==> tasks[k].phase.Done?
    {
      RetainedIsLive(Now());
      ok := held == 0 && heldBytes == 0 && writers == {} && Sum(tasks).live == 0;
    }
  }
}
