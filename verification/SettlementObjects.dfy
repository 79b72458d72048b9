/** The three objects of the settlement protocol, as the source updates them. */
module SettlementObjects {
  import opened Options
  import opened Texts
  import opened Scope
  import opened ScopeWriter
  import opened ScopeHistory
  import opened Owner

  /** The read gave bytes: it did not block and the pipe has not ended. */
  predicate Yields(result: Option<seq<Byte>>) {
    result.Some? && result.value != []
  }

  /** The bytes of the reads, in order. */
  function Taken(results: seq<Option<seq<Byte>>>): (bytes: seq<Byte>)
    requires forall i :: 0 <= i < |results| ==> Yields(results[i])
  {
    if results == [] then []
    else
      assert Yields(results[|results| - 1]);
      Taken(results[..|results| - 1]) + results[|results| - 1].value
  }

  class ScopeReader {
    const codec: Codec
    var pending: seq<Byte>
    var active: map<string, Option<int>>
    var closed: bool
    var failure: Option<Failure>

    ghost function View(): Reader
      reads this
    {
      Reader(pending, active, closed, failure)
    }

    constructor (codec: Codec)
      ensures View() == IDLE && this.codec == codec
    {
      this.codec := codec;
      pending, active, closed, failure := [], map[], false, None;
    }

    method Record(encoded: seq<Byte>)
      modifies `active, `closed, `failure
      ensures View() == RecordValue(old(View()), codec.loads(encoded))
    {
      if failure.Some? {
        return;
      }
      var message := codec.loads(encoded);
      if message.None? || !message.value.Object? || "kind" !in message.value.fields || closed {
        failure := Some(Invalid);
        return;
      }
      var fields := message.value.fields;
      var kind := fields["kind"];
      if kind == Text("closed") {
        if fields.Keys != {"kind"} || active != map[] {
          failure := Some(Invalid);
        } else {
          closed := true;
        }
        return;
      }
      if "token" !in fields || !ValidToken(fields["token"]) {
        failure := Some(Invalid);
        return;
      }
      var token := fields["token"].s;
      if kind == Text("starting") && fields.Keys == {"kind", "token"} && token !in active && |active| != MAX_ACTIVE {
        active := active[token := None];
      } else if kind == Text("started") && "pid" in fields && fields.Keys == {"kind", "token", "pid"} && token in active
                && active[token].None? && fields["pid"].Number? && fields["pid"].n > 0 {
        active := active[token := Some(fields["pid"].n)];
      } else if kind == Text("settled") && fields.Keys == {"kind", "token"} && token in active {
        active := active - {token};
      } else {
        failure := Some(Invalid);
      }
    }

    method Append(chunk: seq<Byte>)
      modifies this
      ensures View() == Feed(old(View()), codec, chunk)
    {
      var i := 0;
      while i < |chunk|
        invariant 0 <= i <= |chunk|
        invariant Feed(View(), codec, chunk[i..]) == Feed(old(View()), codec, chunk)
      {
        assert chunk[i..][0] == chunk[i] && chunk[i..][1..] == chunk[i + 1..];
        if chunk[i] == NEWLINE {
          Record(pending);
          pending := [];
        } else if |pending| < MAX_RECORD {
          pending := pending + [chunk[i]];
        } else {
          failure := Some(Oversized);
        }
        i := i + 1;
      }
    }

    /** Takes the first reads, at most sixteen, up to one that would block (`None`) or the end of the pipe. */
    method DrainPipe(results: seq<Option<seq<Byte>>>) returns (taken: seq<Byte>, n: nat)
      modifies this
      ensures n <= |results| && n <= 16 && (forall i :: 0 <= i < n ==> Yields(results[i]))
      ensures n == |results| || n == 16 || !Yields(results[n])
      ensures taken == Taken(results[..n]) && View() == Feed(old(View()), codec, taken)
    {
      taken, n := [], 0;
      while n < |results| && n < 16 && Yields(results[n])
        invariant n <= |results| && n <= 16 && forall i :: 0 <= i < n ==> Yields(results[i])
        invariant taken == Taken(results[..n]) && View() == Feed(old(View()), codec, taken)
      {
        FeedAppend(old(View()), codec, taken, results[n].value);
        Append(results[n].value);
        assert results[..n + 1][..n] == results[..n];
        taken := taken + results[n].value;
        n := n + 1;
      }
    }
  }

  class ProcessScope {
    const codec: Codec
    const pid: nat
    const piped: bool
    var counter: nat
    var active: set<string>
    var failed: bool
    var cancelled: int
    var ended: bool
    var closedSent: bool
    var wire: seq<Byte>
    ghost var log: seq<Message>

    ghost function View(): Writer
      reads this
    {
      Writer(codec, pid, piped, counter, active, failed, cancelled, ended, closedSent, wire, log)
    }

    constructor (codec: Codec, pid: nat, piped: bool)
      ensures View() == Open(codec, pid, piped)
    {
      this.codec, this.pid, this.piped := codec, pid, piped;
      counter, active, failed, cancelled, ended, closedSent := 0, {}, false, 0, false, false;
      wire, log := [], [];
    }

    method Deliver(m: Message, result: WriteResult) returns (ok: bool)
      modifies `failed, `wire, `log
      ensures View() == Send(old(View()), m, result) && ok == SendOk(old(View()), m, result)
    {
      if !piped {
        return true;
      }
      var data := Frame(codec, m);
      if |data| > MAX_RECORD || result.Raised? {
        failed := true;
        return false;
      }
      if result.n < |data| {
        wire := wire + data[..result.n];
        failed := true;
        return false;
      }
      wire := wire + data;
      log := log + [m];
      return true;
    }

    method Begin(cleanup: Option<string>, result: WriteResult) returns (token: Option<string>)
      requires !ended
      modifies this
      ensures View() == Apply(old(View()), OpStart(cleanup, result))
      ensures token.Some? <==> !Refused(old(View()), cleanup) && SendOk(Register(old(View())), Starting(NextToken(old(View()))), result)
      ensures token.Some? ==> token.value == NextToken(old(View()))
      ensures token.Some? <==>
                && |old(active)| != MAX_ACTIVE && (if cleanup.Some? then cleanup.value in old(active) else old(cancelled) == 0)
                && (piped ==> Whole(codec, Starting(Digits(pid) + ":" + Digits(old(counter) + 1)), result))
      ensures token.Some? ==> active == old(active) + {token.value} && failed == old(failed)
    {
      SendWrites(Register(View()), Starting(NextToken(View())), result);
      hide Send, SendOk, Whole, Written, Digits;
      if (cleanup.None? && cancelled != 0) || (cleanup.Some? && cleanup.value !in active) || |active| == MAX_ACTIVE {
        return None;
      }
      counter := counter + 1;
      var name := Token(pid, counter);
      active := active + {name};
      var ok := Deliver(Starting(name), result);
      return if ok then Some(name) else None;
    }

    method Acknowledge(token: string, child: int, result: WriteResult) returns (ok: bool)
      requires !ended
      modifies `failed, `wire, `log
      ensures View() == Apply(old(View()), OpStarted(token, child, result))
      ensures ok == SendOk(old(View()), Started(token, child), result)
    {
      ok := Deliver(Started(token, child), result);
    }

    method Release(token: string, result: WriteResult) returns (ok: bool)
      requires !ended
      modifies this
      ensures View() == Apply(old(View()), OpSettled(token, result))
      ensures ok == (token in old(active) && SendOk(old(View()), Settled(token), result))
      ensures ok <==> token in old(active) && (piped ==> Whole(codec, Settled(token), result))
      ensures active == old(active) - {token}
    {
      SendWrites(View(), Settled(token), result);
      hide Whole, Written;
      if token !in active {
        return false;
      }
      active := active - {token};
      ok := Deliver(Settled(token), result);
    }

    /** Registered with `atexit`; a failed closing record is swallowed. */
    method AtExit(result: WriteResult)
      requires !ended
      modifies this
      ensures View() == Apply(old(View()), OpClose(result))
      ensures !old(closedSent) ==> (closedSent <==> piped && !old(failed) && active == {} && Whole(codec, Closed, result))
      ensures closedSent && !old(closedSent) ==> wire == old(wire) + Frame(codec, Closed)
    {
      SendWrites(View(), Closed, result);
      if !failed && active == {} {
        var ok := Deliver(Closed, result);
        closedSent := piped && ok;
      }
      ended := true;
    }
  }

  class OwnedProcess {
    const home: ProcessScope
    const token: string
    const pipe: ScopeReader?
    var finished: bool
    var failed: bool
    var calls: seq<OsCall>
    ghost var read: seq<Byte>

    ghost predicate Apart()
    {
      pipe != null ==> pipe.codec == home.codec
    }

    ghost function View(): Owned
      reads this, pipe
    {
      Owned(home.codec, token, pipe != null, if pipe == null then IDLE else pipe.View(), read, finished, failed, calls)
    }

    /** After a successful registration and spawn. */
    constructor (home: ProcessScope, token: string, delegated: bool)
      ensures Apart() && this.home == home && this.token == token && (pipe != null ==> fresh(pipe))
      ensures View() == Adopt(home.codec, token, delegated)
    {
      this.home, this.token := home, token;
      finished, failed, calls, read := false, false, [], [];
      if delegated {
        pipe := new ScopeReader(home.codec);
      } else {
        pipe := null;
      }
    }

    /** Exit observation leaves the child waitable and changes nothing. */
    method ObserveExit(answer: Option<int>) returns (code: Option<int>, raised: bool)
      ensures raised == (!finished && failed)
      ensures !finished && !failed ==> code == answer
    {
      if finished {
        return answer, false;
      }
      if failed {
        return None, true;
      }
      return answer, false;
    }

    /** The cooperative phase: drain, look for the exit, until closed and gone or out of time. */
    method Await(polls: seq<Poll>) returns (seen: ExitState)
      requires Apart() && pipe != null
      modifies this`read, pipe
      ensures Cooperate(old(View()), polls) == (View(), seen)
    {
      var i := 0;
      while i < |polls|
        invariant 0 <= i <= |polls|
        invariant Cooperate(old(View()), polls) == Cooperate(View(), polls[i..])
      {
        assert polls[i..][0] == polls[i] && polls[i..][1..] == polls[i + 1..];
        pipe.Append(polls[i].bytes);
        read := read + polls[i].bytes;
        if polls[i].exit == WaitFailed {
          return WaitFailed;
        }
        if polls[i].exit == Exited && pipe.closed {
          return Exited;
        }
        i := i + 1;
      }
      return Running;
    }

    /** The final signal, the reap, and then only absence probes. */
    method ForceDown(env: Answers) returns (ok: bool)
      modifies this`calls
      ensures Force(old(View()), env) == Attempt(View(), ok)
    {
      calls := calls + [Kill];
      if !env.killOk || !env.reapOk {
        return false;
      }
      calls := calls + ([Reap] + seq(env.probes, _ => Probe));
      if !env.absent {
        return false;
      }
      calls := calls + [Absent];
      return true;
    }

    method RetireGroup(env: Answers) returns (ok: bool)
      requires Apart()
      modifies this`calls, this`read, pipe
      ensures Retire(old(View()), env) == Attempt(View(), ok)
    {
      var cooperative := true;
      if pipe != null {
        calls := calls + [Term];
        if !env.termOk {
          return false;
        }
        var seen := Await(env.polls);
        if seen == WaitFailed {
          return false;
        }
        cooperative := seen == Exited;
      }
      ok := ForceDown(env);
      if ok && pipe != null {
        pipe.Append(env.lastBytes);
        read := read + env.lastBytes;
        ok := pipe.failure.None? && pipe.pending == [] && pipe.closed && pipe.active == map[] && cooperative;
      }
    }

    method SettleGroup(env: Answers) returns (ok: bool)
      requires Apart() && !home.ended
      modifies this, pipe, home
      ensures Settle(old(home.View()), old(View()), env) == (home.View(), View())
      ensures ok == finished
      ensures OwnedOk(old(View())) && !old(finished) && !old(failed) ==> (ok <==> Settles(old(home.View()), old(View()), env))
    {
      if OwnedOk(View()) && !finished && !failed {
        SettlesExactly(home.View(), View(), env);
      }
      hide Settles, OwnedOk, SendOk;
      if finished {
        return true;
      }
      if failed {
        return false;
      }
      ok := RetireGroup(env);
      if ok {
        ok := home.Release(token, env.ack);
      }
      finished, failed := ok, !ok;
    }
  }
}
