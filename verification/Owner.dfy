/**
 One owner of one child process group (scripts/perf_process_owner.py,
 scripts/perf_process_wait.py): its operating-system calls, its retirement order and
 the acknowledgement it gives its own scope. What the system answers is an input.
 */
module Owner {
  import opened Texts
  import opened Scope
  import opened ScopeWriter

  /** Calls on the owned group: real signals, the reap, and signal-0 probes. */
  datatype OsCall = Term | Kill | Reap | Probe | Absent

  predicate RealSignal(c: OsCall) {
    c == Term || c == Kill
  }

  /** One turn of the cooperative loop: bytes drained, then what `waitid` said. */
  datatype ExitState = Running | Exited | WaitFailed
  datatype Poll = Poll(bytes: seq<Byte>, exit: ExitState)

  /** Everything one `settle` call is told by the system. */
  datatype Answers = Answers(
    termOk: bool, polls: seq<Poll>, killOk: bool, reapOk: bool, probes: nat, absent: bool,
    lastBytes: seq<Byte>, ack: WriteResult)

  /** `read` is all the owner has drained from a delegated child's pipe. */
  datatype Owned = Owned(
    codec: Codec, token: string, delegated: bool, reader: Reader, read: seq<Byte>,
    finished: bool, failed: bool, calls: seq<OsCall>)

  function Adopt(c: Codec, token: string, delegated: bool): (o: Owned) {
    Owned(c, token, delegated, IDLE, [], false, false, [])
  }

  function Drain(o: Owned, bytes: seq<Byte>): (r: Owned) {
    o.(reader := Feed(o.reader, o.codec, bytes), read := o.read + bytes)
  }

  function Call(o: Owned, calls: seq<OsCall>): (r: Owned) {
    o.(calls := o.calls + calls)
  }

  /** An interrupted attempt, or one that has got this far. */
  datatype Attempt = Attempt(o: Owned, ok: bool)

  /** Wait for the child to exit after closing its scope, for as many polls as the deadline allows. */
  function Cooperate(o: Owned, polls: seq<Poll>): (r: (Owned, ExitState))
    ensures r.0.calls == o.calls && r.0.token == o.token && r.0.delegated == o.delegated && r.0.codec == o.codec
    ensures r.0.finished == o.finished && r.0.failed == o.failed
    ensures o.reader == Feed(IDLE, o.codec, o.read) ==> r.0.reader == Feed(IDLE, r.0.codec, r.0.read)
    decreases |polls|
  {
    if polls == [] then (o, Running)
    else
      var d := Drain(o, polls[0].bytes);
      FeedAppend(IDLE, o.codec, o.read, polls[0].bytes);
      if polls[0].exit == WaitFailed then (d, WaitFailed)
      else if polls[0].exit == Exited && d.reader.closed then (d, Exited)
      else Cooperate(d, polls[1..])
  }

  /** Kill, reap, then prove the group absent: nothing but probes after the reap. */
  function Force(o: Owned, env: Answers): (r: Attempt) {
    var killed := Call(o, [Kill]);
    if !env.killOk || !env.reapOk then Attempt(killed, false)
    else
      var probed := Call(killed, [Reap] + seq(env.probes, _ => Probe));
      if !env.absent then Attempt(probed, false) else Attempt(Call(probed, [Absent]), true)
  }

  /** Retirement up to the acknowledgement. */
  function Retire(o: Owned, env: Answers): (r: Attempt) {
    if !o.delegated then Force(o, env)
    else
      var asked := Call(o, [Term]);
      if !env.termOk then Attempt(asked, false)
      else
        var (waited, seen) := Cooperate(asked, env.polls);
        if seen == WaitFailed then Attempt(waited, false)
        else
          var forced := Force(waited, env);
          if !forced.ok then forced
          else
            var last := Drain(forced.o, env.lastBytes);
            Attempt(last, RequireClosed(last.reader) && seen == Exited)
  }

  /** `settle` against the owner's own scope. */
  function Settle(w: Writer, o: Owned, env: Answers): (r: (Writer, Owned)) {
    if o.finished || o.failed then (w, o)
    else
      var a := Retire(o, env);
      if !a.ok then (w, a.o.(failed := true))
      else
        var acked := o.token in w.active && !w.ended && SendOk(w, Settled(o.token), env.ack);
        (Apply(w, OpSettled(o.token, env.ack)), if acked then a.o.(finished := true) else a.o.(failed := true))
  }

  // ---------------------------------------------------------------------------
  // What the calls of one owner look like

  ghost predicate NoSignalAfterReap(calls: seq<OsCall>) {
    forall i, j :: 0 <= i < j < |calls| && calls[i] == Reap ==> !RealSignal(calls[j]) && calls[j] != Reap
  }

  /** Killed, then reaped, then proved absent. */
  ghost predicate Retired(calls: seq<OsCall>) {
    exists i, j, k :: 0 <= i < j < k < |calls| && calls[i] == Kill && calls[j] == Reap && calls[k] == Absent
  }

  ghost predicate OwnedOk(o: Owned) {
    && NoSignalAfterReap(o.calls)
    && (Reap in o.calls ==> o.finished || o.failed)
    && o.reader == Feed(IDLE, o.codec, o.read)
    && !(o.finished && o.failed)
    && (o.finished ==> Retired(o.calls))
    && (o.finished && o.delegated ==> RequireClosed(o.reader))
  }

  /** Kill and reap at the end of a clean history, then probes. */
  lemma ForcedCalls(before: seq<OsCall>, probes: nat, absent: bool)
    requires Reap !in before
    ensures var calls := before + [Kill] + ([Reap] + seq(probes, _ => Probe)) + if absent then [Absent] else [];
            NoSignalAfterReap(calls) && (absent ==> Retired(calls))
  {
    var n := |before|;
    var calls := before + [Kill] + ([Reap] + seq(probes, _ => Probe)) + if absent then [Absent] else [];
    assert forall i :: 0 <= i < n ==> calls[i] == before[i];
    assert calls[n] == Kill && calls[n + 1] == Reap;
    assert forall i :: n + 1 < i < |calls| ==> calls[i] == Probe || calls[i] == Absent;
    assert absent ==> calls[|calls| - 1] == Absent;
  }

  lemma ForceCalls(o: Owned, env: Answers)
    requires Reap !in o.calls
    ensures NoSignalAfterReap(Force(o, env).o.calls) && (Force(o, env).ok ==> Retired(Force(o, env).o.calls))
    ensures Force(o, env).o == o.(calls := Force(o, env).o.calls)
  {
    if env.killOk && env.reapOk {
      ForcedCalls(o.calls, env.probes, env.absent);
      var reaped := o.calls + [Kill] + ([Reap] + seq(env.probes, _ => Probe));
      assert reaped + [] == reaped;
      assert Force(o, env).o.calls == reaped + if env.absent then [Absent] else [];
    }
  }

  lemma RetireOk(o: Owned, env: Answers)
    requires OwnedOk(o) && !o.finished && !o.failed
    ensures var a := Retire(o, env);
            && NoSignalAfterReap(a.o.calls)
            && a.o.reader == Feed(IDLE, a.o.codec, a.o.read)
            && a.o.token == o.token && a.o.delegated == o.delegated && a.o.codec == o.codec
            && a.o.finished == o.finished && a.o.failed == o.failed
            && (a.ok ==> Retired(a.o.calls) && (o.delegated ==> RequireClosed(a.o.reader)))
  {
    if !o.delegated {
      ForceCalls(o, env);
    } else {
      var asked := Call(o, [Term]);
      assert NoSignalAfterReap(asked.calls) && Reap !in asked.calls;
      var (waited, seen) := Cooperate(asked, env.polls);
      ForceCalls(waited, env);
      var forced := Force(waited, env);
      FeedAppend(IDLE, o.codec, forced.o.read, env.lastBytes);
    }
  }

  /** Repeated settling, draining and observing never signals a reaped group and never revokes a failure. */
  lemma SettleOk(w: Writer, o: Owned, env: Answers)
    requires OwnedOk(o)
    ensures var (v, p) := Settle(w, o, env);
            && OwnedOk(p) && (o.failed ==> p == o && v == w) && (o.finished ==> p == o && v == w)
            && p.token == o.token && p.delegated == o.delegated && p.codec == o.codec && o.calls <= p.calls
  {
    if !o.finished && !o.failed {
      RetireOk(o, env);
      RetireExtends(o, env);
    }
  }

  lemma RetireExtends(o: Owned, env: Answers)
    ensures o.calls <= Retire(o, env).o.calls
  {
    if o.delegated {
      var asked := Call(o, [Term]);
      var (waited, seen) := Cooperate(asked, env.polls);
      assert asked.calls <= Force(waited, env).o.calls;
    }
  }

  lemma DrainOk(o: Owned, bytes: seq<Byte>)
    requires OwnedOk(o) && !o.finished
    ensures OwnedOk(Drain(o, bytes))
  {
    FeedAppend(IDLE, o.codec, o.read, bytes);
  }

  /** The acknowledgement leaves the scope only after proof, or marks the scope failed. */
  lemma AckNeedsProof(w: Writer, o: Owned, env: Answers)
    requires o.token in w.active
    ensures var (v, p) := Settle(w, o, env);
            p.finished || v.failed || o.token in v.active
  {
  }

  // ---------------------------------------------------------------------------
  // When settling succeeds, read off the answers of the system

  /** Everything drained in the given polls. */
  function Drained(polls: seq<Poll>): (b: seq<Byte>) {
    if polls == [] then [] else Drained(polls[..|polls| - 1]) + polls[|polls| - 1].bytes
  }

  /** What the child's pipe has told by the end of poll `k`. */
  function Heard(o: Owned, polls: seq<Poll>, k: nat): (r: Reader)
    requires k < |polls|
  {
    Feed(IDLE, o.codec, o.read + Drained(polls[..k + 1]))
  }

  /** At poll `k` the child is gone and has closed its scope. */
  predicate LeftAt(o: Owned, polls: seq<Poll>, k: nat)
    requires k < |polls|
  {
    polls[k].exit == Exited && Heard(o, polls, k).closed
  }

  /** And `k` is the first such poll, and no wait failed before. */
  ghost predicate LeftFirstAt(o: Owned, polls: seq<Poll>, k: nat) {
    && k < |polls| && LeftAt(o, polls, k)
    && forall j: nat :: j < k ==> polls[j].exit != WaitFailed && !LeftAt(o, polls, j)
  }

  /** In time: the child closed its scope and left, and all it said up to its end is a closed scope. */
  ghost predicate LeavesInTime(o: Owned, env: Answers) {
    exists k :: LeftFirstAt(o, env.polls, k)
                && RequireClosed(Feed(IDLE, o.codec, o.read + Drained(env.polls[..k + 1]) + env.lastBytes))
  }

  /** The record reaches the supervisor whole, if there is one. */
  predicate Acknowledged(w: Writer, o: Owned, ack: WriteResult) {
    && o.token in w.active && !w.ended
    && (w.piped ==> |Frame(w.codec, Settled(o.token))| <= MAX_RECORD
                    && ack.Wrote? && ack.n >= |Frame(w.codec, Settled(o.token))|)
  }

  /** Every call of a complete retirement, in its order. */
  function AllCalls(o: Owned, env: Answers): (calls: seq<OsCall>) {
    (if o.delegated then [Term] else []) + [Kill, Reap] + seq(env.probes, _ => Probe) + [Absent]
  }

  lemma DrainedCons(polls: seq<Poll>, k: nat)
    requires 0 < k <= |polls|
    ensures Drained(polls[..k]) == polls[0].bytes + Drained(polls[1..][..k - 1])
    decreases k
  {
    if k == 1 {
      assert polls[..1] == [polls[0]] && [polls[0]][..0] == [];
      assert polls[1..][..0] == [];
    } else {
      DrainedCons(polls, k - 1);
      assert polls[..k][..k - 1] == polls[..k - 1] && polls[1..][..k - 1][..k - 2] == polls[1..][..k - 2];
      Regroup(polls[0].bytes, Drained(polls[1..][..k - 2]), polls[k - 1].bytes);
    }
  }

  /** After the first poll the rest is as for an owner that has drained it. */
  lemma HeardLater(o: Owned, polls: seq<Poll>, k: nat)
    requires 0 < k < |polls|
    ensures Heard(o, polls, k) == Heard(Drain(o, polls[0].bytes), polls[1..], k - 1)
  {
    hide Feed, Drained;
    DrainedCons(polls, k + 1);
    Regroup(o.read, polls[0].bytes, Drained(polls[1..][..k]));
  }

  lemma HeardFirst(o: Owned, polls: seq<Poll>)
    requires polls != [] && o.reader == Feed(IDLE, o.codec, o.read)
    ensures Heard(o, polls, 0) == Drain(o, polls[0].bytes).reader
  {
    hide Feed;
    assert polls[..1][..0] == [] && polls[..1][0] == polls[0];
    assert Drained(polls[..1]) == polls[0].bytes;
    FeedAppend(IDLE, o.codec, o.read, polls[0].bytes);
  }

  /** The waiting loop stops at the first poll that finds the child gone and its scope closed. */
  lemma {:induction false} CooperateStops(o: Owned, polls: seq<Poll>, k: nat)
    requires o.reader == Feed(IDLE, o.codec, o.read) && LeftFirstAt(o, polls, k)
    ensures Cooperate(o, polls).1 == Exited && Cooperate(o, polls).0.read == o.read + Drained(polls[..k + 1])
    decreases |polls|
  {
    hide Feed, Heard;
    HeardFirst(o, polls);
    DrainedCons(polls, k + 1);
    var d := Drain(o, polls[0].bytes);
    if k == 0 {
      assert polls[1..][..0] == [];
      assert polls[0].bytes + [] == polls[0].bytes;
    } else {
      assert polls[0].exit != WaitFailed && !LeftAt(o, polls, 0);
      LeftLater(o, polls, k);
      FeedAppend(IDLE, o.codec, o.read, polls[0].bytes);
      CooperateStops(d, polls[1..], k - 1);
      Regroup(o.read, polls[0].bytes, Drained(polls[1..][..k]));
    }
  }

  lemma LeftLater(o: Owned, polls: seq<Poll>, k: nat)
    requires 0 < k < |polls|
    requires polls[0].exit != WaitFailed && !LeftAt(o, polls, 0)
    ensures LeftFirstAt(o, polls, k) <==> LeftFirstAt(Drain(o, polls[0].bytes), polls[1..], k - 1)
  {
    hide Heard;
    var d, later := Drain(o, polls[0].bytes), polls[1..];
    forall j: nat | j < |later| ensures later[j] == polls[j + 1] && Heard(o, polls, j + 1) == Heard(d, later, j) {
      HeardLater(o, polls, j + 1);
    }
    assert forall j: nat :: j < |later| ==> LeftAt(d, later, j) == LeftAt(o, polls, j + 1);
    if LeftFirstAt(d, later, k - 1) {
      forall j: nat | j < k ensures polls[j].exit != WaitFailed && !LeftAt(o, polls, j) {
        if j > 0 {
          assert later[j - 1].exit != WaitFailed && !LeftAt(d, later, j - 1);
        }
      }
    }
  }

  /** And it sees the exit only then. */
  lemma {:induction false} CooperateSaw(o: Owned, polls: seq<Poll>) returns (k: nat)
    requires o.reader == Feed(IDLE, o.codec, o.read) && Cooperate(o, polls).1 == Exited
    ensures LeftFirstAt(o, polls, k)
    decreases |polls|
  {
    hide Feed, Heard;
    HeardFirst(o, polls);
    var d := Drain(o, polls[0].bytes);
    if polls[0].exit == Exited && d.reader.closed {
      k := 0;
    } else {
      FeedAppend(IDLE, o.codec, o.read, polls[0].bytes);
      var m := CooperateSaw(d, polls[1..]);
      k := m + 1;
      LeftLater(o, polls, k);
    }
  }

  /** The group was killed, reaped and proved absent, and a delegated child left in time. */
  ghost predicate GoesDown(o: Owned, env: Answers) {
    env.killOk && env.reapOk && env.absent && (o.delegated ==> env.termOk && LeavesInTime(o, env))
  }

  /** Retirement succeeds exactly when the group goes down and, if delegated, the child left in time. */
  lemma RetiresExactly(o: Owned, env: Answers)
    requires OwnedOk(o) && !o.finished && !o.failed
    ensures Retire(o, env).ok <==> GoesDown(o, env)
    ensures Retire(o, env).o.calls <= o.calls + AllCalls(o, env)
    ensures Retire(o, env).ok ==> Retire(o, env).o.calls == o.calls + AllCalls(o, env)
  {
    if o.delegated && env.termOk {
      DelegatedRetires(o, env);
    } else {
      hide Feed, LeavesInTime;
      RetireCalls(o, env);
    }
  }

  lemma RetireCalls(o: Owned, env: Answers)
    requires !o.delegated || !env.termOk
    ensures Retire(o, env).o.calls <= o.calls + AllCalls(o, env)
    ensures Retire(o, env).ok ==> Retire(o, env).o.calls == o.calls + AllCalls(o, env)
  {
    if !o.delegated {
      ForcedTrace(o, env);
      assert AllCalls(o, env) == DownCalls(env);
    } else {
      assert AllCalls(o, env) == [Term] + DownCalls(env);
      Regroup(o.calls, [Term], DownCalls(env));
    }
  }

  function DownCalls(env: Answers): (calls: seq<OsCall>) {
    [Kill, Reap] + seq(env.probes, _ => Probe) + [Absent]
  }

  lemma ForcedTrace(o: Owned, env: Answers)
    ensures Force(o, env).ok <==> env.killOk && env.reapOk && env.absent
    ensures Force(o, env).o.calls <= o.calls + DownCalls(env)
    ensures Force(o, env).ok ==> Force(o, env).o.calls == o.calls + DownCalls(env)
    ensures Force(o, env).o.(calls := o.calls) == o
  {
    var ps := seq(env.probes, _ => Probe);
    var all := o.calls + DownCalls(env);
    assert all == o.calls + [Kill] + ([Reap] + ps) + [Absent];
  }

  lemma DelegatedRetires(o: Owned, env: Answers)
    requires OwnedOk(o) && o.delegated && env.termOk
    ensures Retire(o, env).ok <==> env.killOk && env.reapOk && env.absent && LeavesInTime(o, env)
    ensures Retire(o, env).o.calls <= o.calls + AllCalls(o, env)
    ensures Retire(o, env).ok ==> Retire(o, env).o.calls == o.calls + AllCalls(o, env)
  {
    hide Feed, Heard, Drained, Force, LeftFirstAt;
    var asked := Call(o, [Term]);
    var (waited, seen) := Cooperate(asked, env.polls);
    assert AllCalls(o, env) == [Term] + DownCalls(env);
    Regroup(o.calls, [Term], DownCalls(env));
    ForcedTrace(waited, env);
    Waits(o, asked, env, waited, seen);
    FeedAppend(IDLE, o.codec, waited.read, env.lastBytes);
  }

  lemma Waits(o: Owned, asked: Owned, env: Answers, waited: Owned, seen: ExitState)
    requires o.reader == Feed(IDLE, o.codec, o.read) && asked == o.(calls := asked.calls) && Cooperate(asked, env.polls) == (waited, seen)
    ensures waited.reader == Feed(IDLE, o.codec, waited.read)
    ensures LeavesInTime(o, env) <==> seen == Exited && RequireClosed(Feed(IDLE, o.codec, waited.read + env.lastBytes))
  {
    hide Feed, RequireClosed, Drained;
    forall k: nat ensures LeftFirstAt(o, env.polls, k) == LeftFirstAt(asked, env.polls, k) {
      SameLeft(o, asked, env.polls, k);
    }
    hide LeftFirstAt;
    if LeavesInTime(o, env) {
      var k :| LeftFirstAt(o, env.polls, k) && RequireClosed(Feed(IDLE, o.codec, o.read + Drained(env.polls[..k + 1]) + env.lastBytes));
      CooperateStops(asked, env.polls, k);
    }
    if seen == Exited {
      var k := CooperateSaw(asked, env.polls);
      CooperateStops(asked, env.polls, k);
    }
  }

  lemma SameLeft(o: Owned, p: Owned, polls: seq<Poll>, k: nat)
    requires p == o.(calls := p.calls)
    ensures LeftFirstAt(o, polls, k) == LeftFirstAt(p, polls, k)
  {
    hide Feed, Drained;
    assert forall j: nat :: j < |polls| ==> LeftAt(o, polls, j) == LeftAt(p, polls, j);
  }

  /** When `settle` of an open owner succeeds. */
  ghost predicate Settles(w: Writer, o: Owned, env: Answers) {
    GoesDown(o, env) && Acknowledged(w, o, env.ack)
  }

  /**
   An open owner ends finished exactly when the group was killed, reaped and proved absent,
   a delegated child took the signal and left with its scope closed in time, and the
   acknowledgement got through; otherwise it ends failed. The calls are made in order and
   none of them is left out on success.
   */
  lemma SettlesExactly(w: Writer, o: Owned, env: Answers)
    requires OwnedOk(o) && !o.finished && !o.failed
    ensures var (v, p) := Settle(w, o, env);
            && (p.finished <==> Settles(w, o, env)) && p.failed == !p.finished
            && p.calls <= o.calls + AllCalls(o, env) && (p.finished ==> p.calls == o.calls + AllCalls(o, env))
            && (p.finished ==> v.active == w.active - {o.token} && v.failed == w.failed)
            && (!GoesDown(o, env) ==> v == w)
  {
    hide Retire, LeavesInTime, AllCalls;
    RetiresExactly(o, env);
    RetireKeepsFlags(o, env);
  }

  lemma RetireKeepsFlags(o: Owned, env: Answers)
    ensures Retire(o, env).o.finished == o.finished && Retire(o, env).o.failed == o.failed
  {
  }
}
