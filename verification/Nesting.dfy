/**
 Wrappers inside wrappers. A node is one wrapper process: the calls its code makes on
 its scope and owners, in order, with every answer the system gives. Delegated children
 are nodes themselves, read through their settlement pipes.
 */
module Nesting {
  import opened Options
  import opened Texts
  import opened Scope
  import opened ScopeWriter
  import opened Owner

  /** A native tool, or another wrapper holding the write end of a pipe. */
  datatype Child = Native | Wrapper(node: Node)

  datatype Step =
    | Launch(cleanup: Option<string>, announce: WriteResult, spawned: bool, undo: WriteResult,
             pid: int, started: WriteResult, rescue: Answers, child: Child)
    | SettleStep(k: nat, env: Answers)
    | DrainStep(k: nat, bytes: seq<Byte>)
    | CancelStep(number: int)
    | ExitStep(result: WriteResult)

  /** A run: the steps taken, and the wrapper's state before the first and after each of them. */
  datatype Node = Node(pid: nat, steps: seq<Step>, worlds: seq<World>)

  /** An owner object: the step that created it, its token's serial number, and whether the spawn succeeded. */
  datatype Entry = Entry(at: nat, serial: nat, spawned: bool, o: Owned)

  /** A wrapper in progress. */
  datatype World = World(w: Writer, owners: seq<Entry>)

  /** A registered owner spawns its child, acknowledges the start, and cleans up on the way out of a failure. */
  function SpawnStep(s: World, at: nat, step: Step, token: string, o: Owned): (r: World)
    requires step.Launch?
  {
    if !step.spawned then
      World(Apply(s.w, OpSettled(token, step.undo)), s.owners + [Entry(at, s.w.counter, false, o)])
    else
      var v := Apply(s.w, OpStarted(token, step.pid, step.started));
      if SendOk(s.w, Started(token, step.pid), step.started) then
        World(v, s.owners + [Entry(at, s.w.counter, true, o)])
      else
        var (u, p) := Settle(v, o, step.rescue);
        World(u, s.owners + [Entry(at, s.w.counter, true, p)])
  }

  /** `OwnedProcess.__init__`: register first, then spawn. */
  function LaunchStep(s: World, at: nat, step: Step): (r: World)
    requires step.Launch?
  {
    var token := NextToken(s.w);
    var s1 := s.(w := Apply(s.w, OpStart(step.cleanup, step.announce)));
    if Refused(s.w, step.cleanup) || !SendOk(Register(s.w), Starting(token), step.announce) then s1
    else SpawnStep(s1, at, step, token, Adopt(s.w.codec, token, step.child.Wrapper?))
  }

  function Advance(s: World, at: nat, step: Step): (r: World) {
    if s.w.ended then s
    else match step
      case Launch(_, _, _, _, _, _, _, _) => LaunchStep(s, at, step)
      case SettleStep(k, env) =>
        if k < |s.owners| && s.owners[k].spawned then
          var (w, o) := Settle(s.w, s.owners[k].o, env);
          World(w, s.owners[k := s.owners[k].(o := o)])
        else s
      case DrainStep(k, bytes) =>
        if k < |s.owners| && !s.owners[k].o.finished then s.(owners := s.owners[k := s.owners[k].(o := Drain(s.owners[k].o, bytes))])
        else s
      case CancelStep(number) => s.(w := Apply(s.w, OpCancel(number)))
      case ExitStep(result) => s.(w := Apply(s.w, OpClose(result)))
  }

  ghost predicate Linked(node: Node, i: nat)
    requires i < |node.steps| && |node.worlds| == |node.steps| + 1
  {
    node.worlds[i + 1] == Advance(node.worlds[i], i, node.steps[i])
  }

  /** The states are those the code goes through. */
  ghost predicate Run(c: Codec, node: Node) {
    && |node.worlds| == |node.steps| + 1
    && node.worlds[0] == World(Open(c, node.pid, true), [])
    && forall i: nat {:trigger Linked(node, i)} :: i < |node.steps| ==> Linked(node, i)
  }

  function Final(node: Node): (s: World)
    requires |node.worlds| > 0
  {
    node.worlds[|node.worlds| - 1]
  }

  // ---------------------------------------------------------------------------
  // What every step keeps

  /** Each owner has its own token, and a spawned group is finished, still registered, or the scope has failed. */
  ghost predicate Accounted(w: Writer, e: Entry) {
    && e.serial <= w.counter && e.o.token == Token(w.pid, e.serial)
    && OwnedOk(e.o) && e.o.codec == w.codec
    && (e.spawned && !e.o.finished ==> e.o.token in w.active || w.failed)
  }

  ghost predicate AllAccounted(w: Writer, owners: seq<Entry>) {
    forall i :: 0 <= i < |owners| ==> Accounted(w, owners[i])
  }

  /** The owner was created by one of the steps taken, as the kind of child it asked for. */
  ghost predicate Created(e: Entry, before: seq<Step>) {
    e.at < |before| && before[e.at].Launch? && e.o.delegated == before[e.at].child.Wrapper?
  }

  ghost predicate Serials(owners: seq<Entry>, before: seq<Step>) {
    && (forall i :: 0 <= i < |owners| ==> Created(owners[i], before))
    && (forall i, j :: 0 <= i < j < |owners| ==> owners[i].serial < owners[j].serial)
  }

  ghost predicate ScopeOk(w: Writer) {
    Tidy(w) && Seen(w) && w.piped
  }

  ghost predicate WorldOk(c: Codec, s: World, before: seq<Step>) {
    s.w.codec == c && ScopeOk(s.w) && AllAccounted(s.w, s.owners) && Serials(s.owners, before)
  }

  /** The scope moved on, and only token `t` may have left its active set. */
  ghost predicate Follows(w: Writer, v: Writer, t: string) {
    && v.codec == w.codec && v.pid == w.pid && w.counter <= v.counter && (w.failed ==> v.failed)
    && (forall x :: x in w.active && x != t ==> x in v.active)
  }

  lemma ApplyKeeps(w: Writer, op: Op, t: string)
    requires Json(w.codec) && ScopeOk(w) && OpOk(op) && (op.OpSettled? ==> op.token == t)
    ensures ScopeOk(Apply(w, op)) && Follows(w, Apply(w, op), t)
  {
    ApplyTidy(w, op);
    ApplySeen(w, op);
    ApplyGrows(w, op);
  }

  lemma SettleKeeps(w: Writer, o: Owned, env: Answers)
    requires Json(w.codec) && ScopeOk(w)
    ensures ScopeOk(Settle(w, o, env).0) && Follows(w, Settle(w, o, env).0, o.token)
  {
    ApplyKeeps(w, OpSettled(o.token, env.ack), o.token);
  }

  /** Owners whose token was not settled stay accounted for. */
  lemma OthersAccounted(w: Writer, v: Writer, owners: seq<Entry>, t: string)
    requires AllAccounted(w, owners) && Follows(w, v, t)
    requires forall i :: 0 <= i < |owners| ==> owners[i].o.token != t
    ensures AllAccounted(v, owners)
  {
  }

  /** A new token is nobody else's. */
  lemma NewTokenDiffers(w: Writer, owners: seq<Entry>)
    requires AllAccounted(w, owners)
    ensures forall i :: 0 <= i < |owners| ==> owners[i].o.token != NextToken(w) && owners[i].serial < w.counter + 1
  {
    forall i | 0 <= i < |owners| ensures owners[i].o.token != NextToken(w) {
      assert Accounted(w, owners[i]);
      if owners[i].o.token == NextToken(w) {
        TokensDiffer(w.pid, owners[i].serial, w.counter + 1);
      }
    }
  }

  lemma AdoptedOk(c: Codec, token: string, delegated: bool)
    ensures OwnedOk(Adopt(c, token, delegated))
  {
  }

  /** Registration put the token into the active set. */
  lemma StartRegisters(w: Writer, cleanup: Option<string>, result: WriteResult)
    requires !w.ended && !Refused(w, cleanup)
    ensures var v := Apply(w, OpStart(cleanup, result));
            NextToken(w) in v.active && v.counter == w.counter + 1 && !v.ended && v.pid == w.pid && v.codec == w.codec
  {
  }

  lemma StartedKeepsActive(w: Writer, token: string, pid: int, result: WriteResult)
    ensures var v := Apply(w, OpStarted(token, pid, result));
            v.active == w.active && v.counter == w.counter && v.pid == w.pid && v.codec == w.codec
  {
  }

  lemma StaysCreated(owners: seq<Entry>, before: seq<Step>, step: Step)
    requires Serials(owners, before)
    ensures Serials(owners, before + [step])
  {
    forall i | 0 <= i < |owners| ensures Created(owners[i], before + [step]) {
      assert Created(owners[i], before);
    }
  }

  lemma RegisteredOk(s: World, before: seq<Step>, cleanup: Option<string>, result: WriteResult)
    requires Json(s.w.codec) && WorldOk(s.w.codec, s, before)
    ensures WorldOk(s.w.codec, s.(w := Apply(s.w, OpStart(cleanup, result))), before)
  {
    var op := OpStart(cleanup, result);
    NewTokenDiffers(s.w, s.owners);
    ApplyKeeps(s.w, op, NextToken(s.w));
    OthersAccounted(s.w, Apply(s.w, op), s.owners, NextToken(s.w));
  }

  lemma NewcomerOk(s: World, cleanup: Option<string>, result: WriteResult, delegated: bool)
    requires AllAccounted(s.w, s.owners) && !s.w.ended && !Refused(s.w, cleanup)
    ensures var s1 := s.(w := Apply(s.w, OpStart(cleanup, result)));
            Newcomer(s1, NextToken(s.w), Adopt(s.w.codec, NextToken(s.w), delegated))
  {
    NewTokenDiffers(s.w, s.owners);
    StartRegisters(s.w, cleanup, result);
    AdoptedOk(s.w.codec, NextToken(s.w), delegated);
  }

  lemma LaunchOk(s: World, before: seq<Step>, step: Step)
    requires Json(s.w.codec) && WorldOk(s.w.codec, s, before) && step.Launch? && !s.w.ended
    ensures WorldOk(s.w.codec, LaunchStep(s, |before|, step), before + [step])
  {
    var token := NextToken(s.w);
    var s1 := s.(w := Apply(s.w, OpStart(step.cleanup, step.announce)));
    RegisteredOk(s, before, step.cleanup, step.announce);
    if Refused(s.w, step.cleanup) || !SendOk(Register(s.w), Starting(token), step.announce) {
      StaysCreated(s1.owners, before, step);
    } else {
      NewcomerOk(s, step.cleanup, step.announce, step.child.Wrapper?);
      SpawnOk(s1, before, step, token, Adopt(s.w.codec, token, step.child.Wrapper?));
    }
  }

  /** The registered owner: only its token can leave the active set from here. */
  ghost predicate Newcomer(s: World, token: string, o: Owned) {
    && o.token == token == Token(s.w.pid, s.w.counter) && token in s.w.active && !s.w.ended
    && OwnedOk(o) && o.codec == s.w.codec && !o.finished && !o.failed
    && forall i :: 0 <= i < |s.owners| ==> s.owners[i].o.token != token && s.owners[i].serial < s.w.counter
  }

  lemma JoinOk(s: World, before: seq<Step>, step: Step, v: Writer, token: string, e: Entry)
    requires WorldOk(s.w.codec, s, before) && ScopeOk(v) && Follows(s.w, v, token)
    requires forall i :: 0 <= i < |s.owners| ==> s.owners[i].o.token != token && s.owners[i].serial < e.serial
    requires e.at == |before| && step.Launch? && e.o.delegated == step.child.Wrapper? && Accounted(v, e)
    ensures WorldOk(s.w.codec, World(v, s.owners + [e]), before + [step])
  {
    StaysCreated(s.owners, before, step);
    OthersAccounted(s.w, v, s.owners, token);
  }

  lemma SpawnOk(s: World, before: seq<Step>, step: Step, token: string, o: Owned)
    requires Json(s.w.codec) && WorldOk(s.w.codec, s, before) && step.Launch? && Newcomer(s, token, o) && o.delegated == step.child.Wrapper?
    ensures WorldOk(s.w.codec, SpawnStep(s, |before|, step, token, o), before + [step])
  {
    if !step.spawned {
      var v := Apply(s.w, OpSettled(token, step.undo));
      ApplyKeeps(s.w, OpSettled(token, step.undo), token);
      JoinOk(s, before, step, v, token, Entry(|before|, s.w.counter, false, o));
    } else {
      var op := OpStarted(token, step.pid, step.started);
      var v := Apply(s.w, op);
      NamedIsPlain(s.w, token);
      ApplyKeeps(s.w, op, token);
      StartedKeepsActive(s.w, token, step.pid, step.started);
      if SendOk(s.w, Started(token, step.pid), step.started) {
        JoinOk(s, before, step, v, token, Entry(|before|, s.w.counter, true, o));
      } else {
        RescueOk(s, before, step, v, token, o, step.rescue);
      }
    }
  }

  /** A start acknowledgement that could not be sent: settle at once. */
  lemma RescueOk(s: World, before: seq<Step>, step: Step, v: Writer, token: string, o: Owned, rescue: Answers)
    requires Json(s.w.codec) && WorldOk(s.w.codec, s, before) && Newcomer(s, token, o)
    requires step.Launch? && o.delegated == step.child.Wrapper?
    requires ScopeOk(v) && Follows(s.w, v, token) && v.active == s.w.active && v.counter == s.w.counter
    ensures var (u, p) := Settle(v, o, rescue);
            WorldOk(s.w.codec, World(u, s.owners + [Entry(|before|, s.w.counter, true, p)]), before + [step])
  {
    var (u, p) := Settle(v, o, rescue);
    SettleKeeps(v, o, rescue);
    SettleOk(v, o, rescue);
    AckNeedsProof(v, o, rescue);
    JoinOk(s, before, step, u, token, Entry(|before|, s.w.counter, true, p));
  }

  lemma SettleStepOk(s: World, before: seq<Step>, step: Step, k: nat, env: Answers)
    requires Json(s.w.codec) && WorldOk(s.w.codec, s, before) && k < |s.owners|
    ensures var (w, o) := Settle(s.w, s.owners[k].o, env);
            WorldOk(s.w.codec, World(w, s.owners[k := s.owners[k].(o := o)]), before + [step])
  {
    var e := s.owners[k];
    var (w, o) := Settle(s.w, e.o, env);
    assert Accounted(s.w, e);
    SettleKeeps(s.w, e.o, env);
    SettleOk(s.w, e.o, env);
    if e.o.token in s.w.active {
      AckNeedsProof(s.w, e.o, env);
    }
    assert Accounted(w, e.(o := o));
    var owners := s.owners[k := e.(o := o)];
    forall i | 0 <= i < |owners| ensures Accounted(w, owners[i]) {
      if i != k {
        assert Accounted(s.w, s.owners[i]);
        if s.owners[i].o.token == e.o.token {
          TokensDiffer(s.w.pid, s.owners[i].serial, e.serial);
        }
      }
    }
  }

  lemma DrainStepOk(s: World, before: seq<Step>, step: Step, k: nat, bytes: seq<Byte>)
    requires WorldOk(s.w.codec, s, before) && k < |s.owners| && !s.owners[k].o.finished
    ensures WorldOk(s.w.codec, s.(owners := s.owners[k := s.owners[k].(o := Drain(s.owners[k].o, bytes))]), before + [step])
  {
    assert Accounted(s.w, s.owners[k]);
    DrainOk(s.owners[k].o, bytes);
  }

  lemma ScopeStepOk(s: World, before: seq<Step>, step: Step, op: Op)
    requires Json(s.w.codec) && WorldOk(s.w.codec, s, before) && (op.OpCancel? || op.OpClose?)
    ensures WorldOk(s.w.codec, s.(w := Apply(s.w, op)), before + [step])
  {
    ApplyKeeps(s.w, op, "");
    forall i | 0 <= i < |s.owners| ensures s.owners[i].o.token != "" {
      assert Accounted(s.w, s.owners[i]);
    }
    OthersAccounted(s.w, Apply(s.w, op), s.owners, "");
  }

  lemma AdvanceOk(s: World, before: seq<Step>, step: Step)
    requires Json(s.w.codec) && WorldOk(s.w.codec, s, before)
    ensures WorldOk(s.w.codec, Advance(s, |before|, step), before + [step])
  {
    StaysCreated(s.owners, before, step);
    if !s.w.ended {
      match step
      case Launch(_, _, _, _, _, _, _, _) => LaunchOk(s, before, step);
      case SettleStep(k, env) =>
        if k < |s.owners| {
          SettleStepOk(s, before, step, k, env);
        }
      case DrainStep(k, bytes) =>
        if k < |s.owners| && !s.owners[k].o.finished {
          DrainStepOk(s, before, step, k, bytes);
        }
      case CancelStep(number) => ScopeStepOk(s, before, step, OpCancel(number));
      case ExitStep(result) => ScopeStepOk(s, before, step, OpClose(result));
    }
  }

  lemma OpenOk(c: Codec, pid: nat)
    ensures WorldOk(c, World(Open(c, pid, true), []), [])
  {
  }

  lemma Next(c: Codec, node: Node, i: nat)
    requires Json(c) && Run(c, node) && i < |node.steps| && WorldOk(c, node.worlds[i], node.steps[..i])
    ensures WorldOk(c, node.worlds[i + 1], node.steps[..i + 1])
  {
    assert Linked(node, i);
    AdvanceOk(node.worlds[i], node.steps[..i], node.steps[i]);
    assert node.steps[..i + 1] == node.steps[..i] + [node.steps[i]];
  }

  /** The invariant over every state of every run. */
  lemma {:induction false} RunOk(c: Codec, node: Node, n: nat)
    requires Json(c) && Run(c, node) && n <= |node.steps|
    ensures WorldOk(c, node.worlds[n], node.steps[..n])
  {
    if n == 0 {
      OpenOk(c, node.pid);
    } else {
      RunOk(c, node, n - 1);
      Next(c, node, n - 1);
    }
  }

  // ---------------------------------------------------------------------------
  // The whole tree

  /** The wrapper an owner delegated to, if it did. */
  predicate Delegates(node: Node, e: Entry) {
    e.at < |node.steps| && node.steps[e.at].Launch? && node.steps[e.at].child.Wrapper?
  }

  function Inner(node: Node, e: Entry): (n: Node)
    requires Delegates(node, e)
    ensures n < node
  {
    node.steps[e.at].child.node
  }

  /** Every wrapper of the tree ran, and every owner drained a prefix of what its wrapper wrote. */
  ghost predicate Tree(c: Codec, node: Node)
    decreases node
  {
    && Run(c, node)
    && forall i :: 0 <= i < |Final(node).owners| ==>
         var e := Final(node).owners[i];
         Delegates(node, e) ==>
           Tree(c, Inner(node, e)) && e.o.read <= Final(Inner(node, e)).w.wire
  }

  /**
   Every group registered anywhere below this wrapper never came to be, or was killed,
   its leader reaped and the group then proved absent.
   */
  ghost predicate AllSettled(c: Codec, node: Node)
    requires Tree(c, node)
    decreases node
  {
    forall i :: 0 <= i < |Final(node).owners| ==>
      var e := Final(node).owners[i];
      e.spawned ==> e.o.finished && Retired(e.o.calls) && (Delegates(node, e) ==> AllSettled(c, Inner(node, e)))
  }

  /** Closure seen through a pipe is closure of the wrapper behind it. */
  lemma SeenClosed(c: Codec, node: Node, read: seq<Byte>)
    requires Json(c) && Run(c, node) && read <= Final(node).w.wire && Feed(IDLE, c, read).closed
    ensures var w := Final(node).w; w.closedSent && !w.failed && w.active == {}
  {
    var w := Final(node).w;
    RunOk(c, node, |node.steps|);
    assert w.wire == read + w.wire[|read|..];
    FeedAppend(IDLE, c, read, w.wire[|read|..]);
    FeedMonotone(Feed(IDLE, c, read), c, w.wire[|read|..]);
  }

  /** A wrapper that announced closure left nothing behind, at any depth. */
  lemma {:induction false} ClosedTreeIsSettled(c: Codec, node: Node)
    requires Json(c) && Tree(c, node) && Final(node).w.closedSent
    ensures AllSettled(c, node)
    decreases node
  {
    var s := Final(node);
    RunOk(c, node, |node.steps|);
    forall i | 0 <= i < |s.owners| && s.owners[i].spawned
      ensures s.owners[i].o.finished && Retired(s.owners[i].o.calls)
      ensures Delegates(node, s.owners[i]) ==> AllSettled(c, Inner(node, s.owners[i]))
    {
      var e := s.owners[i];
      assert Accounted(s.w, e);
      if Delegates(node, e) {
        assert Created(e, node.steps[..|node.steps|]) && node.steps[..|node.steps|] == node.steps;
        SeenClosed(c, Inner(node, e), e.o.read);
        ClosedTreeIsSettled(c, Inner(node, e));
      }
    }
  }

  /**
   If a delegated owner's `settle` succeeds on a wrapper, then at every nesting depth
   below it every spawned group was killed, reaped and proved absent, in that order.
   */
  lemma NestedSettlement(c: Codec, w: Writer, o: Owned, env: Answers, node: Node)
    requires Json(c) && Tree(c, node) && OwnedOk(o) && o.delegated && o.codec == c && !o.finished && !o.failed
    requires var p := Settle(w, o, env).1; p.finished && p.read <= Final(node).w.wire
    ensures AllSettled(c, node)
  {
    SettleOk(w, o, env);
    var p := Settle(w, o, env).1;
    SeenClosed(c, node, p.read);
    ClosedTreeIsSettled(c, node);
  }

  /** No owner in any run ever signals a group whose leader it has reaped. */
  lemma NeverSignalsReaped(c: Codec, node: Node, n: nat, i: nat)
    requires Json(c) && Run(c, node) && n <= |node.steps| && i < |node.worlds[n].owners|
    ensures NoSignalAfterReap(node.worlds[n].owners[i].o.calls)
  {
    RunOk(c, node, n);
    assert Accounted(node.worlds[n].w, node.worlds[n].owners[i]);
  }
}
