/**
 What the impairment relay (scripts/rich_impairment.py) is for: a response reaches its
 caller and is marked, at once if the relay is not armed, and after the release if it is.
 */
module RelayDelivery {
  import opened Relay

  /** Task `i` is a caller still there whose response is held. */
  predicate HeldFor(s: State, i: nat, receipt: nat) {
    && i < |s.tasks| && s.tasks[i].phase.Holding? && s.tasks[i].phase.receipt == receipt < |s.receipts|
    && Local(i) !in s.closing
  }

  /** Exactly the receipt at `r` is marked. */
  predicate Marks(before: seq<Receipt>, after: seq<Receipt>, r: nat) {
    && |after| == |before| && r < |before| && after[r] == before[r].(delivered := true)
    && forall k :: 0 <= k < |before| && k != r ==> after[k] == before[k]
  }

  lemma LaterNext(s: State, es: seq<Event>, e: Event)
    ensures Later(s, es + [e]) == Step(Later(s, es), e)
  {
    assert (es + [e])[..|es|] == es;
  }

  /**
   On line, a release followed by the wake-up of a held response writes it to its caller,
   and when that has drained exactly its receipt is marked as delivered and nothing of it
   is withheld any more.
   */
  lemma ReleaseDelivers(s: State, i: nat, j: nat, receipt: nat)
    requires HeldFor(s, i, receipt) && !s.offline && j < |s.tasks| && s.tasks[j] == Task(true, Reading)
    ensures var t := Later(s, [Commanded(j, Release), Woken(i)]);
            |t.tasks| == |s.tasks| && t.tasks[i].phase == Draining(s.tasks[i].phase.size, receipt) && t.receipts == s.receipts
    ensures var u := Later(s, [Commanded(j, Release), Woken(i), Drained(i)]);
            && |u.tasks| == |s.tasks| && u.tasks[i].phase == Joining && Marks(s.receipts, u.receipts, receipt)
            && u.held == s.held - 1 && u.heldBytes == s.heldBytes - s.tasks[i].phase.size
  {
    hide Later, Sum, Step;
    var a, b, c := Commanded(j, Release), Woken(i), Drained(i);
    assert [a, b] == [a] + [b] && [a, b, c] == [a, b] + [c];
    LaterOne(s, a);
    LaterNext(s, [a], b);
    LaterNext(s, [a, b], c);
    Releases(s, j);
    Wakes(Step(s, a), i);
    Drains(Step(Step(s, a), b), i);
  }

  /** The release changes the flag and the task of the command. */
  lemma Releases(s: State, j: nat)
    requires j < |s.tasks| && s.tasks[j] == Task(true, Reading)
    ensures Step(s, Commanded(j, Release)) == s.(tasks := s.tasks[j := Task(true, Replying)], released := true)
  {
    hide Sum, Finish, Head, Request, Close, Enter, Write;
  }

  lemma Wakes(s: State, i: nat)
    requires i < |s.tasks| && s.tasks[i].phase.Holding? && s.released && !s.offline && Local(i) !in s.closing
    ensures var p := s.tasks[i].phase; Step(s, Woken(i)) == s.(tasks := s.tasks[i := s.tasks[i].(phase := Draining(p.size, p.receipt))])
  {
    hide Sum, Finish, Head, Request, Close, Enter, Obey;
  }

  lemma Drains(s: State, i: nat)
    requires i < |s.tasks| && s.tasks[i].phase.Draining? && s.tasks[i].phase.receipt < |s.receipts|
    ensures var p := s.tasks[i].phase; var t := Step(s, Drained(i));
            && t.tasks == s.tasks[i := s.tasks[i].(phase := Joining)] && Marks(s.receipts, t.receipts, p.receipt)
            && t.held == s.held - 1 && t.heldBytes == s.heldBytes - p.size
            && t.offline == s.offline && t.closing == s.closing && t.armed == s.armed && t.released == s.released
            && t.writers == s.writers
  {
    hide Sum, Head, Request, Close, Enter, Obey, Write;
  }

  /** A command to resume puts the relay back on line, and callers are let in again. */
  lemma ResumeAdmits(s: State, j: nat)
    requires j < |s.tasks| && s.tasks[j] == Task(true, Reading) && Sum(s.tasks).live < MAX_CONNECTIONS
    ensures var t := Later(s, [Commanded(j, Resume), Accept]);
            && t.tasks == s.tasks[j := Task(true, Replying)] + [Task(false, Reading)]
            && Local(|s.tasks|) in t.writers && !t.offline && t.released == s.released && t.armed == s.armed
  {
    hide Later, Sum, Step;
    var a := Commanded(j, Resume);
    assert [a, Accept] == [a] + [Accept];
    LaterCons(s, a, [Accept]);
    Resumes(s, j);
    var t := s.(tasks := s.tasks[j := Task(true, Replying)], offline := false);
    SumUpdate(s.tasks, j, Task(true, Replying));
    LaterOne(t, Accept);
    Admits(t);
  }

  lemma Resumes(s: State, j: nat)
    requires j < |s.tasks| && s.tasks[j] == Task(true, Reading)
    ensures Step(s, Commanded(j, Resume)) == s.(tasks := s.tasks[j := Task(true, Replying)], offline := false)
  {
    hide Sum, Finish, Head, Request, Close, Enter, Write;
  }

  // ---------------------------------------------------------------------------
  // The whole life of an artifact request

  /** The events of a response that is not held, from the connection to the last closed stream. */
  function Life(i: nat, count: nat, raw: nat): (es: seq<Event>) {
    [Accept, Requested(i, true, true), Dialed(i), Sent(i), Headed(i, true, count, raw), Arrived(i), Drained(i), Ended(i),
     StreamClosed(i), StreamClosed(i)]
  }

  predicate Serves(s: State, count: nat, raw: nat) {
    && !s.offline && !s.armed && Sum(s.tasks).live < MAX_CONNECTIONS && |s.receipts| < RECEIPT_LIMIT
    && count <= MAX_RESPONSE && raw <= HEADER_LIMIT && Local(|s.tasks|) !in s.closing
  }

  /** The state with task `i` at phase `p`, where `i` is the newest task. */
  function With(s: State, p: Phase): (t: State) {
    s.(tasks := s.tasks + [Task(false, p)])
  }

  lemma {:induction false} LaterAppend(s: State, es: seq<Event>, fs: seq<Event>)
    ensures Later(s, es + fs) == Later(Later(s, es), fs)
    decreases |fs|
  {
    if fs == [] {
      assert es + fs == es;
    } else {
      assert (es + fs)[..|es + fs| - 1] == es + fs[..|fs| - 1];
      LaterAppend(s, es, fs[..|fs| - 1]);
    }
  }

  lemma LaterOne(s: State, e: Event)
    ensures Later(s, [e]) == Step(s, e)
  {
    assert [e][..0] == [];
  }

  lemma LaterCons(s: State, e: Event, es: seq<Event>)
    ensures Later(s, [e] + es) == Later(Step(s, e), es)
  {
    LaterAppend(s, [e], es);
    LaterOne(s, e);
  }

  /** Up to the header: the caller is let in, asks, and its response passes the limit check. */
  lemma Opens(s: State, count: nat, raw: nat)
    requires Serves(s, count, raw)
    ensures var i := |s.tasks|;
            Later(s, [Accept, Requested(i, true, true), Dialed(i), Sent(i), Headed(i, true, count, raw)])
            == With(s.(writers := s.writers + {Local(i)} + {Remote(i)}), Checked(false, count, count + raw))
  {
    hide Later, Sum, Step, With;
    var i := |s.tasks|;
    var r, d, n, e := Requested(i, true, true), Dialed(i), Sent(i), Headed(i, true, count, raw);
    assert [Accept, r, d, n, e] == [Accept] + [r, d, n, e];
    assert [r, d, n, e] == [r] + [d, n, e];
    assert [d, n, e] == [d] + [n, e];
    assert [n, e] == [n] + [e];
    LaterCons(s, Accept, [r, d, n, e]);
    var s1 := s.(writers := s.writers + {Local(i)});
    Admits(s);
    LaterCons(With(s1, Reading), r, [d, n, e]);
    Asks(s1, i);
    LaterCons(With(s1, Dialing(true, false)), d, [n, e]);
    Dials(s1, i);
    var s2 := s1.(writers := s1.writers + {Remote(i)});
    LaterCons(With(s2, Sending(true, false)), n, [e]);
    Sends(s2, i);
    LaterOne(With(s2, Answering(false)), e);
    Heads(s2, i, count, raw);
  }

  lemma Admits(s: State)
    requires !s.offline && Sum(s.tasks).live < MAX_CONNECTIONS
    ensures Step(s, Accept) == With(s.(writers := s.writers + {Local(|s.tasks|)}), Reading)
  {
    hide Sum;
  }

  lemma Asks(s: State, i: nat)
    requires i == |s.tasks| && !s.armed
    ensures Step(With(s, Reading), Requested(i, true, true)) == With(s, Dialing(true, false))
  {
    hide Sum, Finish, Obey, Close, Write, Enter, Head;
  }

  lemma Dials(s: State, i: nat)
    requires i == |s.tasks|
    ensures Step(With(s, Dialing(true, false)), Dialed(i)) == With(s.(writers := s.writers + {Remote(i)}), Sending(true, false))
  {
    hide Sum, Finish, Obey, Close, Write, Enter, Head, Request;
  }

  lemma Sends(s: State, i: nat)
    requires i == |s.tasks|
    ensures Step(With(s, Sending(true, false)), Sent(i)) == With(s, Answering(false))
  {
    hide Sum, Finish, Obey, Close, Write, Enter, Head, Request;
  }

  lemma Heads(s: State, i: nat, count: nat, raw: nat)
    requires i == |s.tasks| && |s.receipts| < RECEIPT_LIMIT && count <= MAX_RESPONSE && raw <= HEADER_LIMIT
    ensures Step(With(s, Answering(false)), Headed(i, true, count, raw)) == With(s, Checked(false, count, count + raw))
  {
    hide Sum, Finish, Obey, Close, Write, Enter, Request;
  }

  /** From the body to the end of the response. */
  lemma Answers(s: State, i: nat, count: nat, size: nat)
    requires i == |s.tasks| && !s.offline && Local(i) !in s.closing
    ensures var t := Later(With(s, Checked(false, count, size)), [Arrived(i), Drained(i)]);
            && t.tasks == s.tasks + [Task(false, Joining)] && t.receipts == s.receipts + [Receipt(count, false, true)]
            && t.held == s.held && t.heldBytes == s.heldBytes && t.writers == s.writers
  {
    hide Later, Sum, Step;
    var a, b := Arrived(i), Drained(i);
    assert [a, b] == [a] + [b];
    LaterCons(With(s, Checked(false, count, size)), a, [b]);
    var u := Step(With(s, Checked(false, count, size)), a);
    LaterOne(u, b);
    Arrives(s, i, count, size);
    Drains(u, i);
  }

  lemma Arrives(s: State, i: nat, count: nat, size: nat)
    requires i == |s.tasks| && !s.offline && Local(i) !in s.closing
    ensures var u := Step(With(s, Checked(false, count, size)), Arrived(i));
            && u.tasks == s.tasks + [Task(false, Draining(size, |s.receipts|))]
            && u.receipts == s.receipts + [Receipt(count, false, false)]
            && u.held == s.held + 1 && u.heldBytes == s.heldBytes + size && u.writers == s.writers
  {
    hide Sum, Finish, Obey, Close, Head, Request, Mark;
  }

  /** The parts are joined and both streams closed. */
  lemma Leaves(s: State, i: nat)
    requires i < |s.tasks| && s.tasks[i] == Task(false, Joining)
    ensures var t := Later(s, [Ended(i), StreamClosed(i), StreamClosed(i)]);
            && t == s.(tasks := s.tasks[i := Task(false, Done)], writers := s.writers - {Remote(i)} - {Local(i)})
  {
    hide Later, Step;
    var c := StreamClosed(i);
    assert [Ended(i), c, c] == [Ended(i)] + [c, c] && [c, c] == [c] + [c];
    LaterCons(s, Ended(i), [c, c]);
    var a := s.(tasks := s.tasks[i := Task(false, Closing(true))]);
    EndsJoining(s, i);
    LaterCons(a, c, [c]);
    var b := s.(tasks := s.tasks[i := Task(false, Closing(false))], writers := s.writers - {Remote(i)});
    ClosesOne(a, i, true);
    assert a.tasks[i := Task(false, Closing(false))] == b.tasks;
    LaterOne(b, StreamClosed(i));
    ClosesOne(b, i, false);
    assert b.tasks[i := Task(false, Done)] == s.tasks[i := Task(false, Done)];
  }

  lemma EndsJoining(s: State, i: nat)
    requires i < |s.tasks| && s.tasks[i] == Task(false, Joining)
    ensures Step(s, Ended(i)) == s.(tasks := s.tasks[i := Task(false, Closing(true))])
  {
    hide Sum, Obey, Close, Write, Enter, Head, Request;
  }

  lemma ClosesOne(s: State, i: nat, remote: bool)
    requires i < |s.tasks| && s.tasks[i] == Task(false, Closing(remote))
    ensures Step(s, StreamClosed(i))
            == if remote then s.(tasks := s.tasks[i := Task(false, Closing(false))], writers := s.writers - {Remote(i)})
               else s.(tasks := s.tasks[i := Task(false, Done)], writers := s.writers - {Local(i)})
  {
    hide Sum, Obey, Finish, Write, Enter, Head, Request;
  }

  /**
   An artifact request to a relay that is on line, not armed, with room and below its limit
   is served: one more receipt with the size of the body, delivered and not held; and the
   task leaves nothing behind.
   */
  lemma Served(s: State, count: nat, raw: nat)
    requires Serves(s, count, raw) && Local(|s.tasks|) !in s.writers && Remote(|s.tasks|) !in s.writers
    ensures var t := Later(s, Life(|s.tasks|, count, raw));
            && t.tasks == s.tasks + [Task(false, Done)] && t.receipts == s.receipts + [Receipt(count, false, true)]
            && t.held == s.held && t.heldBytes == s.heldBytes && t.writers == s.writers
  {
    hide Later, Sum, Step;
    var i := |s.tasks|;
    var opening := [Accept, Requested(i, true, true), Dialed(i), Sent(i), Headed(i, true, count, raw)];
    var answering := [Arrived(i), Drained(i)];
    var leaving := [Ended(i), StreamClosed(i), StreamClosed(i)];
    assert Life(i, count, raw) == opening + (answering + leaving);
    LaterAppend(s, opening, answering + leaving);
    Opens(s, count, raw);
    var s1 := s.(writers := s.writers + {Local(i)} + {Remote(i)});
    var checked := With(s1, Checked(false, count, count + raw));
    LaterAppend(checked, answering, leaving);
    Answers(s1, i, count, count + raw);
    Leaves(Later(checked, answering), i);
    assert s1.writers - {Remote(i)} - {Local(i)} == s.writers;
  }
}
