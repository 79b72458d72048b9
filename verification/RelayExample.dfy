/**
 How far the receipts of the impairment relay (scripts/rich_impairment.py) get past
 their limit: it is checked before the body is awaited and the receipt added after.
 */
module RelayExample {
  import opened Relay

  /** A caller could be let in and its response could pass the limit check. */
  predicate Ready(s: State) {
    !s.offline && !s.armed && Sum(s.tasks).live < MAX_CONNECTIONS && |s.receipts| < RECEIPT_LIMIT
  }

  lemma RunNext(es: seq<Event>, e: Event)
    ensures Run(es + [e]) == Step(Run(es), e)
  {
    hide Step;
    assert (es + [e])[..|es|] == es;
  }

  /** A caller asks for an artifact and its empty response passes the limit check. */
  lemma Check(es: seq<Event>) returns (fs: seq<Event>)
    requires Ready(Run(es))
    ensures var s, t := Run(es), Run(fs);
            && t.tasks == s.tasks + [Task(false, Checked(false, 0, 0))]
            && t.offline == s.offline && t.armed == s.armed && t.receipts == s.receipts
  {
    hide Run, Sum, Finish, Obey, Close, Write, Enter;
    var i := |Run(es).tasks|;
    var entered := es + [Accept];
    RunNext(es, Accept);
    var asked := entered + [Requested(i, true, true)];
    RunNext(entered, Requested(i, true, true));
    var dialed := asked + [Dialed(i)];
    RunNext(asked, Dialed(i));
    var sent := dialed + [Sent(i)];
    RunNext(dialed, Sent(i));
    fs := sent + [Headed(i, true, 0, 0)];
    RunNext(sent, Headed(i, true, 0, 0));
  }

  /** The body arrives: one more receipt, whatever the limit. */
  lemma Receive(es: seq<Event>, i: nat) returns (fs: seq<Event>)
    requires i < |Run(es).tasks| && Run(es).tasks[i] == Task(false, Checked(false, 0, 0))
    ensures var s, t := Run(es), Run(fs);
            && |t.receipts| == |s.receipts| + 1 && t.offline == s.offline && t.armed == s.armed
            && |t.tasks| == |s.tasks| && (forall k :: 0 <= k < |s.tasks| && k != i ==> t.tasks[k] == s.tasks[k])
            && !t.tasks[i].control && (t.tasks[i].phase.Draining? || t.tasks[i].phase == Joining)
  {
    hide Run, Sum;
    fs := es + [Arrived(i)];
    RunNext(es, Arrived(i));
  }

  /** The response is over. */
  lemma Finishes(s: State, i: nat)
    requires i < |s.tasks| && (s.tasks[i].phase.Draining? || s.tasks[i].phase == Joining)
    ensures var t := Step(s, Ended(i));
            && t.tasks == s.tasks[i := s.tasks[i].(phase := After(s.tasks[i].phase))]
            && t.receipts == s.receipts && t.offline == s.offline && t.armed == s.armed
  {
    hide Sum, Obey, Request, Head, Close, Write, Enter, Mark;
  }

  /** A stream is closed. */
  lemma Closes(s: State, i: nat)
    requires i < |s.tasks| && s.tasks[i].phase.Closing?
    ensures var t := Step(s, StreamClosed(i));
            && t.tasks == s.tasks[i := s.tasks[i].(phase := if s.tasks[i].phase.remote then Closing(false) else Done)]
            && t.receipts == s.receipts && t.offline == s.offline && t.armed == s.armed
  {
    hide Sum, Obey, Request, Head, Finish, Write, Enter, Mark;
  }

  /** The task ends and lets go of its streams. */
  lemma Retire(es: seq<Event>, i: nat) returns (fs: seq<Event>)
    requires i < |Run(es).tasks| && !Run(es).tasks[i].control
    requires Run(es).tasks[i].phase.Draining? || Run(es).tasks[i].phase == Joining
    ensures var s, t := Run(es), Run(fs);
            && t.tasks == s.tasks[i := Task(false, Done)] && t.receipts == s.receipts && t.offline == s.offline && t.armed == s.armed
  {
    hide Run, Step;
    var ended := es;
    if Run(es).tasks[i].phase.Draining? {
      ended := es + [Ended(i)];
      RunNext(es, Ended(i));
      Finishes(Run(es), i);
    }
    var joined := ended + [Ended(i)];
    RunNext(ended, Ended(i));
    Finishes(Run(ended), i);
    var half := joined + [StreamClosed(i)];
    RunNext(joined, StreamClosed(i));
    Closes(Run(joined), i);
    fs := half + [StreamClosed(i)];
    RunNext(half, StreamClosed(i));
    Closes(Run(half), i);
  }

  /** One caller after the other, up to one receipt short of the limit. */
  lemma {:induction false} ServeMany(n: nat) returns (es: seq<Event>)
    requires n < RECEIPT_LIMIT
    ensures var s := Run(es); !s.offline && !s.armed && Sum(s.tasks).live == 0 && |s.receipts| == n
  {
    if n == 0 {
      es := [];
    } else {
      hide Run, Sum;
      var before := ServeMany(n - 1);
      var i := |Run(before).tasks|;
      var checked := Check(before);
      var received := Receive(checked, i);
      es := Retire(received, i);
      assert Run(es).tasks == Run(before).tasks + [Task(false, Done)];
      SumAppend(Run(before).tasks, Task(false, Done));
    }
  }

  /** The tasks from `from` on wait for their bodies. */
  predicate AllChecked(s: State, from: nat) {
    forall i :: from <= i < |s.tasks| ==> s.tasks[i] == Task(false, Checked(false, 0, 0))
  }

  /** Then all callers at once, before any of their bodies arrives. */
  lemma {:induction false} CheckMany(es: seq<Event>, n: nat) returns (fs: seq<Event>)
    requires n <= MAX_CONNECTIONS && !Run(es).offline && !Run(es).armed
    requires Sum(Run(es).tasks).live == 0 && |Run(es).receipts| < RECEIPT_LIMIT
    ensures var s, t := Run(es), Run(fs);
            && !t.offline && !t.armed && t.receipts == s.receipts && Sum(t.tasks).live == n
            && |t.tasks| == |s.tasks| + n && AllChecked(t, |s.tasks|)
  {
    hide Run, Sum;
    if n == 0 {
      fs := es;
    } else {
      var before := CheckMany(es, n - 1);
      fs := Check(before);
      SumAppend(Run(before).tasks, Task(false, Checked(false, 0, 0)));
    }
  }

  /** And the bodies of all of them. */
  lemma {:induction false} ReceiveMany(es: seq<Event>, from: nat) returns (fs: seq<Event>)
    requires from <= |Run(es).tasks| && AllChecked(Run(es), from)
    ensures |Run(fs).receipts| == |Run(es).receipts| + |Run(es).tasks| - from
    decreases |Run(es).tasks| - from
  {
    hide Run;
    if from == |Run(es).tasks| {
      fs := es;
    } else {
      var received := Receive(es, from);
      fs := ReceiveMany(received, from + 1);
    }
  }

  /** Nineteen receipts can be reached: the bound of `RelayConserves` is exact, eleven over the limit. */
  lemma BoundIsReached() returns (es: seq<Event>)
    ensures |Run(es).receipts| == 19 > RECEIPT_LIMIT
  {
    hide Run, Sum;
    var served := ServeMany(7);
    var checked := CheckMany(served, MAX_CONNECTIONS);
    es := ReceiveMany(checked, |Run(served).tasks|);
  }
}
