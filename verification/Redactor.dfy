/**
 The streaming secret redactor of the CI evidence wrapper and the bounded log and
 tail that receive its output (scripts/ci_evidence.py). The marker is a parameter
 throughout; `MARK` is the one the wrapper uses.
 */
module Redactor {
  import opened Texts

  /** The environment filter keeps only values of at least six characters. */
  predicate Proper(secrets: seq<seq<Byte>>) {
    forall i :: 0 <= i < |secrets| ==> |secrets[i]| > 0
  }

  /** Bytes that stay buffered after a read: one less than the longest secret. */
  function HeldBytes(secrets: seq<seq<Byte>>): (n: nat)
    ensures forall s :: s in secrets ==> |s| <= n + 1
    ensures n == 0 || exists s :: s in secrets && |s| == n + 1
  {
    if secrets == [] then 0
    else
      var rest := HeldBytes(secrets[1..]);
      if |secrets[0]| > rest + 1 then |secrets[0]| - 1 else rest
  }

  /** Every secret in turn, each replaced throughout. */
  function Scrub(text: seq<Byte>, secrets: seq<seq<Byte>>, mark: seq<Byte>): (r: seq<Byte>)
    requires Proper(secrets)
    decreases |secrets|
  {
    if secrets == [] then text else Scrub(Replace(text, secrets[0], mark), secrets[1..], mark)
  }

  /** Everything returned so far, and what is still buffered. */
  datatype Stream = Stream(out: seq<Byte>, pending: seq<Byte>)

  function Read(st: Stream, chunk: seq<Byte>, secrets: seq<seq<Byte>>, mark: seq<Byte>): (r: Stream)
    requires Proper(secrets)
  {
    var text := Scrub(st.pending + chunk, secrets, mark);
    var emit := if |text| > HeldBytes(secrets) then |text| - HeldBytes(secrets) else 0;
    Stream(st.out + text[..emit], text[emit..])
  }

  function ReadAll(chunks: seq<seq<Byte>>, secrets: seq<seq<Byte>>, mark: seq<Byte>): (r: Stream)
    requires Proper(secrets)
  {
    if chunks == [] then Stream([], [])
    else Read(ReadAll(chunks[..|chunks| - 1], secrets, mark), chunks[|chunks| - 1], secrets, mark)
  }

  /** The whole redacted stream: every read, then the final flush. */
  function Output(chunks: seq<seq<Byte>>, secrets: seq<seq<Byte>>, mark: seq<Byte>): (r: seq<Byte>)
    requires Proper(secrets)
  {
    var st := ReadAll(chunks, secrets, mark);
    st.out + Scrub(st.pending, secrets, mark)
  }

  /** Reading moves bytes from the pending to the returned part, after scrubbing. */
  lemma ReadSplits(st: Stream, chunk: seq<Byte>, secrets: seq<seq<Byte>>, mark: seq<Byte>)
    requires Proper(secrets)
    ensures var r := Read(st, chunk, secrets, mark);
            && r.out + r.pending == st.out + Scrub(st.pending + chunk, secrets, mark)
            && |r.pending| <= HeldBytes(secrets)
            && (|r.pending| == HeldBytes(secrets) || r.out == st.out)
  {
    hide Scrub, HeldBytes;
    var text := Scrub(st.pending + chunk, secrets, mark);
    var r := Read(st, chunk, secrets, mark);
    var k := |text| - |r.pending|;
    assert r.out == st.out + text[..k] && r.pending == text[k..];
    Regroup(st.out, text[..k], text[k..]);
    assert text[..k] + text[k..] == text;
  }

  // ---------------------------------------------------------------------------
  // When can a secret and the marker overlap?

  /** Placed `d` bytes after the start of the marker, `s` agrees with it on a nonempty overlap. */
  predicate Clash(s: seq<Byte>, mark: seq<Byte>, d: int) {
    -|s| < d < |mark| && forall k :: 0 <= k < |s| && 0 <= k + d < |mark| ==> s[k] == mark[k + d]
  }

  ghost predicate Clear(s: seq<Byte>, mark: seq<Byte>) {
    |s| > 0 && forall d :: !Clash(s, mark, d)
  }

  ghost predicate AllClear(secrets: seq<seq<Byte>>, mark: seq<Byte>) {
    forall i :: 0 <= i < |secrets| ==> Clear(secrets[i], mark)
  }

  /** Overlapping occurrences of a secret and of the marker are a clash. */
  lemma OverlapClashes(text: seq<Byte>, s: seq<Byte>, mark: seq<Byte>, i: int, j: int)
    requires OccursAt(text, s, i) && OccursAt(text, mark, j)
    requires i < j + |mark| && j < i + |s|
    ensures Clash(s, mark, i - j)
  {
    forall k | 0 <= k < |s| && 0 <= k + (i - j) < |mark|
      ensures s[k] == mark[k + (i - j)]
    {
      assert s[k] == text[i..i + |s|][k] == text[i + k];
      assert mark[k + i - j] == text[j..j + |mark|][k + i - j] == text[i + k];
    }
  }

  // ---------------------------------------------------------------------------
  // Which replacements can put a secret together

  /** Bytes of `s` that lie before the marker when `s` starts `d` bytes after the marker does. */
  function Before(s: seq<Byte>, d: int): (l: seq<Byte>)
    requires -|s| < d
  {
    if d < 0 then s[..-d] else []
  }

  /** Bytes of `s` that lie after the marker. */
  function After(s: seq<Byte>, mark: seq<Byte>, d: int): (r: seq<Byte>)
    requires d < |mark|
  {
    if d + |s| > |mark| then s[|mark| - d..] else []
  }

  /** The marker put for `s` completes a copy of `u` at offset `d`, and the scan for `s` does not stop earlier. */
  predicate RebuildsAt(u: seq<Byte>, s: seq<Byte>, mark: seq<Byte>, d: int) {
    Clash(u, mark, d) && Find(Before(u, d) + s, s) == |Before(u, d)|
  }

  ghost predicate Rebuilds(u: seq<Byte>, s: seq<Byte>, mark: seq<Byte>) {
    exists d :: RebuildsAt(u, s, mark, d)
  }

  /** A secret that its own marker can rebuild. */
  ghost predicate Leaky(s: seq<Byte>, mark: seq<Byte>) {
    Rebuilds(s, s, mark)
  }

  /** No secret can be rebuilt by the marker put for it or for another one. */
  ghost predicate Peaceful(secrets: seq<seq<Byte>>, mark: seq<Byte>) {
    forall u, s :: u in secrets && s in secrets ==> !Rebuilds(u, s, mark)
  }

  /** A marker whose secret, put back, would still be the first match of the text. */
  ghost predicate Tracked(x: seq<Byte>, s: seq<Byte>, mark: seq<Byte>, j: int) {
    OccursAt(x, mark, j) && forall i :: i < j ==> !OccursAt(x[..j] + s, s, i)
  }

  /** No occurrence starts before position `n`. */
  ghost predicate NoneBefore(text: seq<Byte>, s: seq<Byte>, n: nat) {
    forall i :: i < n ==> !OccursAt(text, s, i)
  }

  lemma TrackedExtends(x: seq<Byte>, z: seq<Byte>, s: seq<Byte>, mark: seq<Byte>, j: int)
    requires Tracked(x, s, mark, j)
    ensures Tracked(x + z, s, mark, j)
  {
    OccursLeft(x, z, mark, j);
    assert (x + z)[..j] == x[..j];
  }

  /** Only a secret that the marker rebuilds can overlap it. */
  lemma TrackedOverlap(x: seq<Byte>, u: seq<Byte>, s: seq<Byte>, mark: seq<Byte>, i: int, j: int)
    requires |u| > 0 && |s| > 0 && Tracked(x, s, mark, j) && OccursAt(x, u, i)
    requires i < j + |mark| && j < i + |u|
    ensures Rebuilds(u, s, mark)
  {
    OverlapClashes(x, u, mark, i, j);
    var l := Before(u, i - j);
    if i < j {
      assert l == x[i..j];
      assert x[..j] + s == x[..i] + (l + s);
      forall k | k < |l| ensures !OccursAt(l + s, s, k) {
        if 0 <= k {
          OccursRight(x[..i], l + s, s, i + k);
        }
      }
    }
    OccursRight(l, s, s, |l|);
    assert RebuildsAt(u, s, mark, i - j);
  }

  /** The replaced text, cut at its first marker. */
  lemma ReplaceShape(a: seq<Byte>, text: seq<Byte>, s: seq<Byte>, mark: seq<Byte>)
    requires |s| > 0 && Contains(text, s)
    ensures var f := Find(text, s);
            && a + Replace(text, s, mark) == a + text[..f] + mark + Replace(text[f + |s|..], s, mark)
            && a + text == a + text[..f] + text[f..] == a + text[..f + |s|] + text[f + |s|..]
  {
    var f := Find(text, s);
    Regroup(a, text[..f] + mark, Replace(text[f + |s|..], s, mark));
    Regroup(a, text[..f], mark);
    assert text == text[..f] + text[f..] == text[..f + |s|] + text[f + |s|..];
    Regroup(a, text[..f], text[f..]);
    Regroup(a, text[..f + |s|], text[f + |s|..]);
  }

  lemma ReplaceFirst(text: seq<Byte>, s: seq<Byte>, mark: seq<Byte>)
    requires |s| > 0
    ensures var f := Find(text, s);
            Replace(text, s, mark) == if f < 0 then text else text[..f] + mark + Replace(text[f + |s|..], s, mark)
  {
  }

  /** The first replacement in `text` leaves a tracked marker. */
  lemma FirstTracked(a: seq<Byte>, text: seq<Byte>, s: seq<Byte>, mark: seq<Byte>)
    requires |s| > 0 && Contains(text, s) && NoneBefore(a + text, s, |a|)
    ensures var p := a + text[..Find(text, s)]; Tracked(p + mark, s, mark, |p|)
  {
    var f := Find(text, s);
    var p, tail := a + text[..f], text[f + |s|..];
    assert a + text == p + s + tail;
    assert (p + mark)[..|p|] == p;
    OccursRight(p, mark, mark, |p|);
    forall i | i < |p| ensures !OccursAt(p + s, s, i) {
      OccursLeft(p + s, tail, s, i);
      if i >= |a| {
        OccursRight(a, text, s, i);
      }
    }
  }

  /** Around the first marker, a word it does not rebuild lies on one side. */
  lemma AroundFirst(a: seq<Byte>, text: seq<Byte>, s: seq<Byte>, mark: seq<Byte>, u: seq<Byte>, i: int)
    requires |s| > 0 && |u| > 0 && Contains(text, s) && NoneBefore(a + text, s, |a|) && !Rebuilds(u, s, mark)
    requires OccursAt(a + Replace(text, s, mark), u, i)
    ensures var f := Find(text, s); var p := a + text[..f]; var rest := Replace(text[f + |s|..], s, mark);
            OccursAt(p, u, i) || (i >= |p| + |mark| && OccursAt(rest, u, i - |p| - |mark|))
  {
    hide Replace, Find, Rebuilds, Tracked, NoneBefore;
    var f := Find(text, s);
    var p, rest := a + text[..f], Replace(text[f + |s|..], s, mark);
    ReplaceShape(a, text, s, mark);
    FirstTracked(a, text, s, mark);
    TrackedExtends(p + mark, rest, s, mark, |p|);
    NoOverlap(p + mark + rest, u, s, mark, i, |p|);
    Beside(p, mark, rest, u, i);
  }

  lemma NoOverlap(x: seq<Byte>, u: seq<Byte>, s: seq<Byte>, mark: seq<Byte>, i: int, j: int)
    requires |u| > 0 && |s| > 0 && Tracked(x, s, mark, j) && OccursAt(x, u, i) && !Rebuilds(u, s, mark)
    ensures i + |u| <= j || j + |mark| <= i
  {
    hide Tracked, Rebuilds, OccursAt;
    if j < i + |u| && i < j + |mark| {
      TrackedOverlap(x, u, s, mark, i, j);
    }
  }

  lemma Beside(p: seq<Byte>, mark: seq<Byte>, rest: seq<Byte>, u: seq<Byte>, i: int)
    requires OccursAt(p + mark + rest, u, i) && (i + |u| <= |p| || |p| + |mark| <= i)
    ensures OccursAt(p, u, i) || (i >= |p| + |mark| && OccursAt(rest, u, i - |p| - |mark|))
  {
    if i + |u| <= |p| {
      OccursLeft(p + mark, rest, u, i);
      OccursLeft(p, mark, u, i);
    } else {
      OccursRight(p + mark, rest, u, i);
    }
  }

  /** An occurrence of a word that is not rebuilt was there before, in place if it starts in the prefix. */
  lemma {:induction false} ReplaceAddsNothing(a: seq<Byte>, text: seq<Byte>, s: seq<Byte>, mark: seq<Byte>, u: seq<Byte>, i: int)
    requires |s| > 0 && |u| > 0 && NoneBefore(a + text, s, |a|) && !Rebuilds(u, s, mark)
    requires OccursAt(a + Replace(text, s, mark), u, i)
    ensures Contains(a + text, u)
    ensures i < |a| ==> OccursAt(a + text, u, i)
    decreases |text|
  {
    hide Replace, Rebuilds, Find;
    ReplaceFirst(text, s, mark);
    if !Contains(text, s) {
      assert OccursAt(a + text, u, i);
    } else {
      var f := Find(text, s);
      var p, tail := a + text[..f], text[f + |s|..];
      ReplaceShape(a, text, s, mark);
      AroundFirst(a, text, s, mark, u, i);
      if OccursAt(p, u, i) {
        OccursLeft(p, text[f..], u, i);
      } else {
        assert [] + Replace(tail, s, mark) == Replace(tail, s, mark) && [] + tail == tail;
        ReplaceAddsNothing([], tail, s, mark, u, i - |p| - |mark|);
        var m :| OccursAt(tail, u, m);
        OccursRight(a + text[..f + |s|], tail, u, m + |a| + f + |s|);
      }
    }
  }

  /** Replacing a secret that is not leaky removes it. */
  lemma {:induction false} ReplaceRemoves(a: seq<Byte>, text: seq<Byte>, s: seq<Byte>, mark: seq<Byte>)
    requires |s| > 0 && NoneBefore(a + text, s, |a|) && !Rebuilds(s, s, mark)
    ensures !Contains(a + Replace(text, s, mark), s)
    decreases |text|
  {
    hide Replace, Rebuilds, Find;
    ReplaceFirst(text, s, mark);
    var f := Find(text, s);
    if f >= 0 {
      var p, tail := a + text[..f], text[f + |s|..];
      assert [] + Replace(tail, s, mark) == Replace(tail, s, mark);
      ReplaceRemoves([], tail, s, mark);
    }
    forall i ensures !OccursAt(a + Replace(text, s, mark), s, i) {
      if OccursAt(a + Replace(text, s, mark), s, i) {
        NoneLeft(a, text, s, mark, i);
      }
    }
  }

  lemma NoneLeft(a: seq<Byte>, text: seq<Byte>, s: seq<Byte>, mark: seq<Byte>, i: int)
    requires |s| > 0 && NoneBefore(a + text, s, |a|) && !Rebuilds(s, s, mark)
    requires var f := Find(text, s); f >= 0 ==> !Contains(Replace(text[f + |s|..], s, mark), s)
    ensures !OccursAt(a + Replace(text, s, mark), s, i)
  {
    hide Replace, Rebuilds, Find;
    ReplaceFirst(text, s, mark);
    var f := Find(text, s);
    if OccursAt(a + Replace(text, s, mark), s, i) {
      if f >= 0 {
        AroundFirst(a, text, s, mark, s, i);
        var p := a + text[..f];
        assert a + text == p + text[f..];
        OccursLeft(p, text[f..], s, i);
      }
      if i >= |a| {
        OccursRight(a, text, s, i);
      }
    }
  }

  // ---------------------------------------------------------------------------
  // Lists of secrets

  ghost predicate NoSecret(text: seq<Byte>, secrets: seq<seq<Byte>>) {
    forall s :: s in secrets ==> !Contains(text, s)
  }

  /** No secret of the list starts in the first `n` bytes. */
  ghost predicate AllAfter(text: seq<Byte>, secrets: seq<seq<Byte>>, n: nat) {
    forall s :: s in secrets ==> NoneBefore(text, s, n)
  }

  /** One pass for `s` keeps what was out of `a` out of it, and out of the whole if it was. */
  lemma PassKeeps(a: seq<Byte>, text: seq<Byte>, s: seq<Byte>, mark: seq<Byte>, u: seq<Byte>)
    requires |s| > 0 && |u| > 0 && NoneBefore(a + text, s, |a|) && !Rebuilds(u, s, mark)
    ensures NoneBefore(a + text, u, |a|) ==> NoneBefore(a + Replace(text, s, mark), u, |a|)
    ensures !Contains(a + text, u) ==> !Contains(a + Replace(text, s, mark), u)
  {
    hide Replace, Rebuilds;
    forall i | OccursAt(a + Replace(text, s, mark), u, i)
      ensures Contains(a + text, u) && (i < |a| ==> OccursAt(a + text, u, i))
    {
      ReplaceAddsNothing(a, text, s, mark, u, i);
    }
  }

  lemma PassKeepsAll(a: seq<Byte>, text: seq<Byte>, secrets: seq<seq<Byte>>, mark: seq<Byte>)
    requires Proper(secrets) && secrets != [] && Peaceful(secrets, mark) && AllAfter(a + text, secrets, |a|)
    ensures AllAfter(a + Replace(text, secrets[0], mark), secrets, |a|)
  {
    hide Replace, Rebuilds, NoneBefore;
    forall u | u in secrets ensures NoneBefore(a + Replace(text, secrets[0], mark), u, |a|) {
      PassKeeps(a, text, secrets[0], mark, u);
    }
  }

  /** Scrubbing for secrets that do not rebuild `u` keeps it out. */
  lemma {:induction false} ScrubKeepsOut(a: seq<Byte>, text: seq<Byte>, secrets: seq<seq<Byte>>, mark: seq<Byte>, u: seq<Byte>)
    requires Proper(secrets) && Peaceful(secrets, mark) && AllAfter(a + text, secrets, |a|)
    requires |u| > 0 && !Contains(a + text, u) && forall s :: s in secrets ==> !Rebuilds(u, s, mark)
    ensures !Contains(a + Scrub(text, secrets, mark), u)
    decreases |secrets|
  {
    if secrets != [] {
      hide Replace, Rebuilds, NoneBefore;
      PassKeepsAll(a, text, secrets, mark);
      PassKeeps(a, text, secrets[0], mark, u);
      ScrubKeepsOut(a, Replace(text, secrets[0], mark), secrets[1..], mark, u);
    }
  }

  /** One pass over a peaceful list leaves no secret behind, whatever the order of the list. */
  lemma {:induction false} ScrubRemoves(a: seq<Byte>, text: seq<Byte>, secrets: seq<seq<Byte>>, mark: seq<Byte>, u: seq<Byte>)
    requires Proper(secrets) && Peaceful(secrets, mark) && AllAfter(a + text, secrets, |a|) && u in secrets
    ensures !Contains(a + Scrub(text, secrets, mark), u)
    decreases |secrets|
  {
    hide Replace, Rebuilds, NoneBefore;
    var once := Replace(text, secrets[0], mark);
    PassKeepsAll(a, text, secrets, mark);
    if u == secrets[0] {
      ReplaceRemoves(a, text, u, mark);
      ScrubKeepsOut(a, once, secrets[1..], mark, u);
    } else {
      ScrubRemoves(a, once, secrets[1..], mark, u);
    }
  }

  /** A tracked marker of some secret reaches past position `n`. */
  ghost predicate Traced(x: seq<Byte>, secrets: seq<seq<Byte>>, mark: seq<Byte>, n: nat) {
    exists s, j :: s in secrets && Tracked(x, s, mark, j) && j + |mark| > n
  }

  /** Scrubbing either changes nothing, or the last pass that did leaves a tracked marker. */
  lemma {:induction false} ScrubTraces(a: seq<Byte>, text: seq<Byte>, secrets: seq<seq<Byte>>, mark: seq<Byte>)
    requires Proper(secrets) && Peaceful(secrets, mark) && AllAfter(a + text, secrets, |a|) && |mark| > 0
    ensures Scrub(text, secrets, mark) == text || Traced(a + Scrub(text, secrets, mark), secrets, mark, |a|)
    decreases |secrets|
  {
    if secrets != [] {
      hide Replace, Rebuilds, NoneBefore, Tracked;
      var s := secrets[0];
      var once := Replace(text, s, mark);
      PassKeepsAll(a, text, secrets, mark);
      ScrubTraces(a, once, secrets[1..], mark);
      if Scrub(text, secrets, mark) == once && once != text {
        PassTraces(a, text, s, mark);
      }
    }
  }

  lemma PassTraces(a: seq<Byte>, text: seq<Byte>, s: seq<Byte>, mark: seq<Byte>)
    requires |s| > 0 && NoneBefore(a + text, s, |a|) && Replace(text, s, mark) != text
    ensures exists j :: Tracked(a + Replace(text, s, mark), s, mark, j) && j >= |a|
  {
    hide Replace, Find;
    ReplaceFirst(text, s, mark);
    var f := Find(text, s);
    var p := a + text[..f];
    FirstTracked(a, text, s, mark);
    ReplaceShape(a, text, s, mark);
    TrackedExtends(p + mark, Replace(text[f + |s|..], s, mark), s, mark, |p|);
  }

  /** Nothing has got out, and no secret can run from the emitted bytes through everything buffered. */
  ghost predicate Sound(st: Stream, secrets: seq<seq<Byte>>, mark: seq<Byte>) {
    && NoSecret(st.out + st.pending, secrets)
    && (st.out == [] || |st.pending| >= HeldBytes(secrets) || Traced(st.out + st.pending, secrets, mark, |st.out|))
  }

  /** An occurrence that starts in emitted bytes cannot end in new ones. */
  lemma NoStraddle(st: Stream, chunk: seq<Byte>, secrets: seq<seq<Byte>>, mark: seq<Byte>, u: seq<Byte>, i: int)
    requires Proper(secrets) && Peaceful(secrets, mark) && Sound(st, secrets, mark) && u in secrets && i < |st.out|
    ensures !OccursAt(st.out + st.pending + chunk, u, i)
  {
    hide Rebuilds;
    var seen := st.out + st.pending;
    if i + |u| <= |seen| {
      OccursLeft(seen, chunk, u, i);
    } else if |st.pending| < HeldBytes(secrets) && OccursAt(seen + chunk, u, i) {
      var s, j :| s in secrets && Tracked(seen, s, mark, j) && j + |mark| > |st.out|;
      TrackedExtends(seen, chunk, s, mark, j);
      TrackedOverlap(seen + chunk, u, s, mark, i, j);
    }
  }

  lemma NewStartsAfter(st: Stream, chunk: seq<Byte>, secrets: seq<seq<Byte>>, mark: seq<Byte>)
    requires Proper(secrets) && Peaceful(secrets, mark) && Sound(st, secrets, mark)
    ensures AllAfter(st.out + (st.pending + chunk), secrets, |st.out|)
  {
    hide Rebuilds, Sound;
    Regroup(st.out, st.pending, chunk);
    forall u, i | u in secrets && i < |st.out| ensures !OccursAt(st.out + (st.pending + chunk), u, i) {
      NoStraddle(st, chunk, secrets, mark, u, i);
    }
  }

  /** Scrubbing new input keeps the invariant, before anything is emitted. */
  lemma ScrubSound(st: Stream, chunk: seq<Byte>, secrets: seq<seq<Byte>>, mark: seq<Byte>)
    requires Proper(secrets) && Peaceful(secrets, mark) && Sound(st, secrets, mark) && |mark| > 0
    ensures Sound(Stream(st.out, Scrub(st.pending + chunk, secrets, mark)), secrets, mark)
  {
    hide Scrub, HeldBytes, Rebuilds, Tracked, Contains;
    var text := st.pending + chunk;
    NewStartsAfter(st, chunk, secrets, mark);
    forall u | u in secrets ensures !Contains(st.out + Scrub(text, secrets, mark), u) {
      ScrubRemoves(st.out, text, secrets, mark, u);
    }
    ScrubTraces(st.out, text, secrets, mark);
    if Scrub(text, secrets, mark) == text && Traced(st.out + st.pending, secrets, mark, |st.out|) {
      var s, j :| s in secrets && Tracked(st.out + st.pending, s, mark, j) && j + |mark| > |st.out|;
      Regroup(st.out, st.pending, chunk);
      TrackedExtends(st.out + st.pending, chunk, s, mark, j);
    }
  }

  /** One read keeps the invariant. */
  lemma ReadSound(st: Stream, chunk: seq<Byte>, secrets: seq<seq<Byte>>, mark: seq<Byte>)
    requires Proper(secrets) && Peaceful(secrets, mark) && Sound(st, secrets, mark) && |mark| > 0
    ensures Sound(Read(st, chunk, secrets, mark), secrets, mark)
  {
    hide Scrub, HeldBytes, Rebuilds, Traced, NoSecret, Read;
    ScrubSound(st, chunk, secrets, mark);
    ReadSplits(st, chunk, secrets, mark);
    var next := Read(st, chunk, secrets, mark);
    if next.out == st.out {
      SamePrefix(st.out, next.pending, Scrub(st.pending + chunk, secrets, mark));
    }
  }

  lemma SamePrefix(a: seq<Byte>, b: seq<Byte>, c: seq<Byte>)
    requires a + b == a + c
    ensures b == c
  {
    assert (a + b)[|a|..] == b && (a + c)[|a|..] == c;
  }

  lemma {:induction false} ReadAllSound(chunks: seq<seq<Byte>>, secrets: seq<seq<Byte>>, mark: seq<Byte>)
    requires Proper(secrets) && Peaceful(secrets, mark) && |mark| > 0
    ensures Sound(ReadAll(chunks, secrets, mark), secrets, mark)
  {
    if chunks != [] {
      hide Sound, Rebuilds;
      ReadAllSound(chunks[..|chunks| - 1], secrets, mark);
      ReadSound(ReadAll(chunks[..|chunks| - 1], secrets, mark), chunks[|chunks| - 1], secrets, mark);
    } else {
      forall s | s in secrets ensures |s| > 0 {}
    }
  }

  /**
   However the process output is cut into reads, no secret of a peaceful list appears
   anywhere in the concatenated evidence, not even across emission cuts.
   */
  lemma PeacefulStaysOut(chunks: seq<seq<Byte>>, secrets: seq<seq<Byte>>, mark: seq<Byte>)
    requires Proper(secrets) && Peaceful(secrets, mark) && |mark| > 0
    ensures NoSecret(Output(chunks, secrets, mark), secrets)
  {
    hide Scrub, HeldBytes, Rebuilds, Traced, Contains;
    ReadAllSound(chunks, secrets, mark);
    var st := ReadAll(chunks, secrets, mark);
    assert st.pending + [] == st.pending;
    ScrubSound(st, [], secrets, mark);
  }

  /** Secrets that cannot overlap the marker are safe together, whatever else they share. */
  lemma NoSecretEscapes(chunks: seq<seq<Byte>>, secrets: seq<seq<Byte>>, mark: seq<Byte>)
    requires Proper(secrets) && AllClear(secrets, mark) && |mark| > 0
    ensures NoSecret(Output(chunks, secrets, mark), secrets)
  {
    forall u, s, d | u in secrets && s in secrets ensures !RebuildsAt(u, s, mark, d) {
      assert Clear(u, mark);
      assert !Clash(u, mark, d);
    }
    PeacefulStaysOut(chunks, secrets, mark);
  }

  // ---------------------------------------------------------------------------
  // Input without secrets passes unchanged

  lemma {:induction false} ScrubIdentity(text: seq<Byte>, secrets: seq<seq<Byte>>, mark: seq<Byte>)
    requires Proper(secrets) && NoSecret(text, secrets)
    ensures Scrub(text, secrets, mark) == text
    decreases |secrets|
  {
    if secrets != [] {
      assert secrets[0] in secrets;
      ScrubIdentity(text, secrets[1..], mark);
    }
  }

  lemma PartsHaveNoSecret(a: seq<Byte>, b: seq<Byte>, secrets: seq<seq<Byte>>)
    requires NoSecret(a + b, secrets)
    ensures NoSecret(a, secrets) && NoSecret(b, secrets)
  {
    forall s, i: nat | s in secrets ensures !OccursAt(a, s, i) && !OccursAt(b, s, i) {
      OccursRight(a, b, s, i + |a|);
      if i + |s| <= |a| {
        OccursLeft(a, b, s, i);
      }
    }
  }

  lemma {:induction false} ReadAllTransparent(chunks: seq<seq<Byte>>, secrets: seq<seq<Byte>>, mark: seq<Byte>)
    requires Proper(secrets) && NoSecret(Concat(chunks), secrets)
    ensures ReadAll(chunks, secrets, mark).out + ReadAll(chunks, secrets, mark).pending == Concat(chunks)
  {
    if chunks != [] {
      hide Read, Scrub, NoSecret;
      var n := |chunks| - 1;
      PartsHaveNoSecret(Concat(chunks[..n]), chunks[n], secrets);
      ReadAllTransparent(chunks[..n], secrets, mark);
      var st := ReadAll(chunks[..n], secrets, mark);
      ReadSplits(st, chunks[n], secrets, mark);
      Regroup(st.out, st.pending, chunks[n]);
      PartsHaveNoSecret(st.out, st.pending + chunks[n], secrets);
      ScrubIdentity(st.pending + chunks[n], secrets, mark);
    }
  }

  /** A stream that carries no secret reaches the evidence byte for byte. */
  lemma TransparentWithoutSecrets(chunks: seq<seq<Byte>>, secrets: seq<seq<Byte>>, mark: seq<Byte>)
    requires Proper(secrets) && NoSecret(Concat(chunks), secrets)
    ensures Output(chunks, secrets, mark) == Concat(chunks)
  {
    ReadAllTransparent(chunks, secrets, mark);
    var st := ReadAll(chunks, secrets, mark);
    PartsHaveNoSecret(st.out, st.pending, secrets);
    ScrubIdentity(st.pending, secrets, mark);
  }

  // ---------------------------------------------------------------------------
  // Secrets that do get out

  /** The overlay of the marker and a clashing secret contains the secret. */
  lemma OverlayContains(s: seq<Byte>, mark: seq<Byte>, d: int)
    requires Clash(s, mark, d)
    ensures Contains(Before(s, d) + mark + After(s, mark, d), s)
  {
    var l, r := Before(s, d), After(s, mark, d);
    var at := |l| + d;
    var t := l + mark + r;
    assert at + |s| <= |t|;
    forall k | 0 <= k < |s| ensures t[at + k] == s[k] {
      if 0 <= k + d < |mark| {
        assert t[at + k] == mark[k + d];
      }
    }
    assert t[at..at + |s|] == s;
    assert OccursAt(t, s, at);
  }

  /**
   The one-read input on which a secret is rebuilt: the marker put for secret number `k`
   completes `u`, if no other secret interferes and nothing as long as `u` stays buffered.
   */
  lemma RebuiltGetsOut(secrets: seq<seq<Byte>>, mark: seq<Byte>, u: seq<Byte>, k: nat, d: int)
    requires Proper(secrets) && k < |secrets| && |u| == HeldBytes(secrets) + 1 && RebuildsAt(u, secrets[k], mark, d)
    requires var l, s, r := Before(u, d), secrets[k], After(u, mark, d);
             && NoSecret(l + s + r, secrets[..k]) && !Contains(r, s)
             && (forall i :: k < i < |secrets| ==> secrets[i] != u)
             && (forall w :: w in secrets && w != u ==> !Contains(l + mark + r, w))
    ensures Contains(Output([Before(u, d) + secrets[k] + After(u, mark, d)], secrets, mark), u)
  {
    var l, s, r := Before(u, d), secrets[k], After(u, mark, d);
    var text := l + s + r;
    OverlayContains(u, mark, d);
    ReplacedOnce(l, s, r, mark);
    ScrubAlone(text, secrets, mark, k, l + mark + r);
    FlushedAsRead(text, secrets, mark, u);
  }

  lemma ReplacedOnce(l: seq<Byte>, s: seq<Byte>, r: seq<Byte>, mark: seq<Byte>)
    requires |s| > 0 && Find(l + s, s) == |l| && !Contains(r, s)
    ensures Replace(l + s + r, s, mark) == l + mark + r
  {
    var text := l + s + r;
    forall i | i < |l| ensures !OccursAt(text, s, i) {
      OccursLeft(l + s, r, s, i);
    }
    OccursLeft(l + s, r, s, |l|);
    assert Find(text, s) == |l|;
    assert text[|l| + |s|..] == r && text[..|l|] == l;
  }

  /** Only secret number `k` changes the text. */
  lemma {:induction false} ScrubAlone(text: seq<Byte>, secrets: seq<seq<Byte>>, mark: seq<Byte>, k: nat, done: seq<Byte>)
    requires Proper(secrets) && k < |secrets| && NoSecret(text, secrets[..k])
    requires Replace(text, secrets[k], mark) == done && NoSecret(done, secrets[k + 1..])
    ensures Scrub(text, secrets, mark) == done
    decreases k
  {
    hide Replace, Contains;
    if k == 0 {
      ScrubIdentity(done, secrets[1..], mark);
    } else {
      assert secrets[0] in secrets[..k];
      NotThere(text, secrets[0], mark);
      assert secrets[1..][..k - 1] == secrets[..k][1..] && secrets[1..][k..] == secrets[k + 1..];
      ScrubAlone(text, secrets[1..], mark, k - 1, done);
    }
  }

  lemma NotThere(text: seq<Byte>, s: seq<Byte>, mark: seq<Byte>)
    requires |s| > 0 && !Contains(text, s)
    ensures Replace(text, s, mark) == text
  {
  }

  /** One read followed by the flush, when what stays buffered holds no secret. */
  lemma FlushedAsRead(text: seq<Byte>, secrets: seq<seq<Byte>>, mark: seq<Byte>, u: seq<Byte>)
    requires Proper(secrets) && |u| == HeldBytes(secrets) + 1
    requires forall w :: w in secrets && w != u ==> !Contains(Scrub(text, secrets, mark), w)
    ensures Output([text], secrets, mark) == Scrub(text, secrets, mark)
  {
    hide Replace, Scrub, Read, ReadAll, Output, HeldBytes;
    var start, st := Stream([], []), Read(Stream([], []), text, secrets, mark);
    ReadAllEnds([text], secrets, mark);
    ReadAllNext([text], 0, secrets, mark);
    ReadSplits(start, text, secrets, mark);
    assert [] + text == text && [] + Scrub(text, secrets, mark) == Scrub(text, secrets, mark);
    forall w, i | w in secrets ensures !OccursAt(st.pending, w, i) {
      if w != u && i >= 0 {
        OccursRight(st.out, st.pending, w, |st.out| + i);
      }
    }
    ScrubIdentity(st.pending, secrets, mark);
  }

  /** No stream, however it is read, puts `s` into the evidence. */
  ghost predicate StaysOut(s: seq<Byte>, mark: seq<Byte>)
    requires |s| > 0
  {
    forall chunks :: !Contains(Output(chunks, [s], mark), s)
  }

  /** The one-read input whose redaction recreates a leaky secret. */
  lemma LeakIsReal(s: seq<Byte>, mark: seq<Byte>, d: int) returns (chunks: seq<seq<Byte>>)
    requires |s| > 0 && RebuildsAt(s, s, mark, d)
    ensures chunks == [Before(s, d) + s + After(s, mark, d)]
    ensures Contains(Output(chunks, [s], mark), s)
  {
    var l, r := Before(s, d), After(s, mark, d);
    chunks := [l + s + r];
    assert HeldBytes([s]) == |s| - 1 by {
      assert s in [s] && [s][1..] == [];
    }
    forall i ensures !OccursAt(r, s, i) {}
    RebuiltGetsOut([s], mark, s, 0, d);
  }

  /**
   A sole secret stays out of the evidence for every stream and every way of reading it
   exactly when it is not leaky: a clash alone is not enough.
   */
  lemma SafeExactlyWhenNotLeaky(s: seq<Byte>, mark: seq<Byte>)
    requires |s| > 0 && |mark| > 0
    ensures StaysOut(s, mark) <==> !Leaky(s, mark)
  {
    hide Output;
    if Leaky(s, mark) {
      var d :| RebuildsAt(s, s, mark, d);
      var chunks := LeakIsReal(s, mark, d);
    } else {
      forall chunks ensures !Contains(Output(chunks, [s], mark), s) {
        PeacefulStaysOut(chunks, [s], mark);
        assert s in [s];
      }
    }
  }

  // ---------------------------------------------------------------------------
  // The wrapper itself

  /** The bytes of "[REDACTED]". */
  const MARK: seq<Byte> := [91, 82, 69, 68, 65, 67, 84, 69, 68, 93]
  const MAX_TAIL_BYTES: nat := 128 * 1024
  const MAX_LOG_BYTES: nat := 8 * 1024 * 1024

  /** The condition an operator can read off: no bracket in the secret and not a piece of "REDACTED". */
  lemma NoBracketIsClear(s: seq<Byte>)
    requires |s| > 0 && 91 !in s && 93 !in s
    requires !Contains(MARK[1..9], s)
    ensures Clear(s, MARK)
  {
    forall d ensures !Clash(s, MARK, d) {
      if -|s| < d <= 0 {
        assert s[-d] != MARK[0];
      } else if 0 < d < 10 && d + |s| >= 10 {
        assert s[9 - d] != MARK[9];
      } else if 0 < d < 10 {
        var piece := MARK[1..9][d - 1..d - 1 + |s|];
        assert !OccursAt(MARK[1..9], s, d - 1);
        var k :| 0 <= k < |s| && piece[k] != s[k];
        assert piece[k] == MARK[1..9][d - 1 + k] == MARK[d + k];
      }
    }
  }

  /** Six opening brackets clash with the marker and still cannot leak; a secret that starts with its last byte does. */
  lemma ClashIsNotLeak()
    ensures Clash([91, 91, 91, 91, 91, 91], MARK, -5) && !Leaky([91, 91, 91, 91, 91, 91], MARK)
    ensures Leaky([93, 97, 98, 99, 100, 101], MARK)
  {
    var s: seq<Byte> := [91, 91, 91, 91, 91, 91];
    forall d ensures !RebuildsAt(s, s, MARK, d) {
      if -6 < d < 0 {
        var l := Before(s, d);
        assert (l + s)[0..6] == s;
        assert OccursAt(l + s, s, 0);
      } else if 0 <= d < 10 {
        assert d == 0 ==> s[1] != MARK[1];
        assert d > 0 ==> s[0] != MARK[d];
      }
    }
    var t: seq<Byte> := [93, 97, 98, 99, 100, 101];
    assert [] + t == t && OccursAt(t, t, 0);
    assert RebuildsAt(t, t, MARK, 9);
  }

  const BRACKETS: seq<Byte> := [91, 91, 91, 91, 91, 91]
  /** The bytes of "secret". */
  const PLAIN: seq<Byte> := [115, 101, 99, 114, 101, 116]
  /** Eleven digits. */
  const DIGITS: seq<Byte> := [49, 49, 49, 49, 49, 49, 49, 49, 49, 49, 49]

  /** A text without byte `s[j]` does not hold `s`. */
  lemma LacksByte(text: seq<Byte>, s: seq<Byte>, j: nat)
    requires j < |s| && s[j] !in text
    ensures !Contains(text, s)
  {
    forall i ensures !OccursAt(text, s, i) {
      Differs(text, s, i, j);
    }
  }

  lemma Differs(text: seq<Byte>, s: seq<Byte>, i: int, j: nat)
    requires j < |s| && (0 <= i && i + |s| <= |text| ==> text[i + j] != s[j])
    ensures !OccursAt(text, s, i)
  {
    if 0 <= i && i + |s| <= |text| {
      assert text[i..i + |s|][j] == text[i + j];
    }
  }

  lemma NotLeakyAlone()
    ensures !Leaky(BRACKETS, MARK) && !Leaky(PLAIN, MARK) && !Leaky(DIGITS, MARK)
  {
    hide Leaky, Contains, Clear;
    ClashIsNotLeak();
    LacksByte(MARK[1..9], PLAIN, 0);
    LacksByte(MARK[1..9], DIGITS, 0);
    NoBracketIsClear(PLAIN);
    NoBracketIsClear(DIGITS);
    ClearIsNotLeaky(PLAIN);
    ClearIsNotLeaky(DIGITS);
  }

  lemma ClearIsNotLeaky(s: seq<Byte>)
    requires Clear(s, MARK)
    ensures !Leaky(s, MARK)
  {
    hide Find, Clash;
  }

  /** Two secrets, neither leaky alone: the marker put for the second completes the first. */
  lemma LeakTogether()
    ensures !Leaky(BRACKETS, MARK) && !Leaky(PLAIN, MARK)
    ensures Contains(Output([BRACKETS[..5] + PLAIN], [BRACKETS, PLAIN], MARK), BRACKETS)
  {
    NotLeakyAlone();
    hide Output, Leaky;
    var secrets, l := [BRACKETS, PLAIN], BRACKETS[..5];
    var text := l + PLAIN + [];
    assert text == l + PLAIN;
    assert Before(BRACKETS, -5) == l && After(BRACKETS, MARK, -5) == [];
    forall i | i < 5 ensures !OccursAt(text, PLAIN, i) {
      Differs(text, PLAIN, i, 0);
    }
    assert OccursAt(text, PLAIN, 5);
    forall i ensures !OccursAt(text, BRACKETS, i) {
      Differs(text, BRACKETS, i, 5);
    }
    LacksByte([], PLAIN, 0);
    LacksByte(l + MARK + [], PLAIN, 0);
    TwoHeld(secrets);
    RebuiltGetsOut(secrets, MARK, BRACKETS, 1, -5);
  }

  lemma TwoHeld(secrets: seq<seq<Byte>>)
    requires |secrets| == 2 && |secrets[0]| >= |secrets[1]| > 0
    ensures HeldBytes(secrets) == |secrets[0]| - 1
  {
    assert secrets[0] in secrets;
    var s :| HeldBytes(secrets) == 0 || (s in secrets && |s| == HeldBytes(secrets) + 1);
  }

  /**
   The order of the list does not help either. Here the marker is put for the first
   secret, after the start of the second has already been emitted, so that the pass for
   the second never sees it.
   */
  lemma LeakAcrossReads()
    ensures !Leaky(DIGITS, MARK) && !Leaky(BRACKETS, MARK)
    ensures Contains(Output([BRACKETS[..5] + DIGITS[..10], [49]], [DIGITS, BRACKETS], MARK), BRACKETS)
  {
    NotLeakyAlone();
    hide Output, Leaky, ReadAll, Scrub, HeldBytes;
    var secrets, l, chunk := [DIGITS, BRACKETS], BRACKETS[..5], BRACKETS[..5] + DIGITS[..10];
    var chunks := [chunk, [49]];
    TwoHeld(secrets);
    ReadAllEnds(chunks, secrets, MARK);
    ReadAllNext(chunks, 0, secrets, MARK);
    ReadAllNext(chunks, 1, secrets, MARK);
    assert chunks[..2] == chunks;
    FirstRead(secrets);
    SecondRead(secrets);
    assert OccursAt(l + MARK, BRACKETS, 0);
  }

  lemma FirstRead(secrets: seq<seq<Byte>>)
    requires secrets == [DIGITS, BRACKETS]
    ensures Read(Stream([], []), BRACKETS[..5] + DIGITS[..10], secrets, MARK) == Stream(BRACKETS[..5], DIGITS[..10])
  {
    hide Scrub, HeldBytes;
    var text := BRACKETS[..5] + DIGITS[..10];
    TwoHeld(secrets);
    forall i ensures !OccursAt(text, DIGITS, i) && !OccursAt(text, BRACKETS, i) {
      Differs(text, DIGITS, i, 0);
      Differs(text, BRACKETS, i, 5);
    }
    ScrubIdentity(text, secrets, MARK);
    assert [] + text == text;
    assert text[..5] == BRACKETS[..5] && text[5..] == DIGITS[..10];
  }

  lemma SecondRead(secrets: seq<seq<Byte>>)
    requires secrets == [DIGITS, BRACKETS]
    ensures Read(Stream(BRACKETS[..5], DIGITS[..10]), [49], secrets, MARK) == Stream(BRACKETS[..5], MARK)
    ensures Scrub(MARK, secrets, MARK) == MARK
  {
    hide Scrub, HeldBytes, Replace;
    TwoHeld(secrets);
    assert DIGITS[..10] + [49] == DIGITS == [] + DIGITS + [];
    LacksByte([], DIGITS, 0);
    assert OccursAt([] + DIGITS, DIGITS, 0);
    ReplacedOnce([], DIGITS, [], MARK);
    assert [] + MARK + [] == MARK;
    LacksByte(MARK, DIGITS, 0);
    forall i ensures !OccursAt(MARK, BRACKETS, i) {
      Differs(MARK, BRACKETS, i, 1);
    }
    assert secrets[1..] == [BRACKETS] && secrets[..0] == [];
    ScrubAlone(DIGITS, secrets, MARK, 0, MARK);
    ScrubIdentity(MARK, secrets, MARK);
    assert MARK[0..] == MARK && BRACKETS[..5] + MARK[..0] == BRACKETS[..5];
  }

  /** The `redact` closure with its buffer. */
  class SecretBuffer {
    const secrets: seq<seq<Byte>>
    const heldBytes: nat
    var pending: seq<Byte>

    ghost predicate Valid()
      reads this
    {
      Proper(secrets) && heldBytes == HeldBytes(secrets)
    }

    constructor (secrets: seq<seq<Byte>>)
      requires Proper(secrets)
      ensures Valid() && this.secrets == secrets && pending == []
    {
      this.secrets := secrets;
      heldBytes := HeldBytes(secrets);
      pending := [];
    }

    /** Scrubs what is pending and new, and lets go of all but what may still be the start of a secret. */
    method Redact(chunk: seq<Byte>, final: bool, ghost out: seq<Byte>) returns (safe: seq<Byte>)
      requires Valid()
      modifies this`pending
      ensures safe + pending == Scrub(old(pending) + chunk, secrets, MARK)
      ensures final ==> pending == []
      ensures !final ==> |pending| <= heldBytes && (safe != [] ==> |pending| == heldBytes)
      ensures !final ==> Stream(out + safe, pending) == Read(Stream(out, old(pending)), chunk, secrets, MARK)
    {
      hide Replace, HeldBytes;
      pending := pending + chunk;
      var i := 0;
      assert secrets[0..] == secrets;
      while i < |secrets|
        invariant 0 <= i <= |secrets|
        invariant Scrub(pending, secrets[i..], MARK) == Scrub(old(pending) + chunk, secrets, MARK)
      {
        assert secrets[i..][0] == secrets[i] && secrets[i..][1..] == secrets[i + 1..];
        pending := Replace(pending, secrets[i], MARK);
        i := i + 1;
      }
      var emit := if final then |pending| else if |pending| > heldBytes then |pending| - heldBytes else 0;
      safe := pending[..emit];
      pending := pending[emit..];
    }
  }

  /** At most the first `n` bytes of a stream. */
  function First(total: seq<Byte>, n: nat): (p: seq<Byte>)
    ensures p <= total && |p| <= n && (|p| < |total| ==> |p| == n)
  {
    if |total| <= n then total else total[..n]
  }

  /** At most the last `n` bytes of a stream. */
  function Last(total: seq<Byte>, n: nat): (t: seq<Byte>)
    ensures |t| <= |total| && t == total[|total| - |t|..]
    ensures |t| <= n && (|t| < |total| ==> |t| == n)
  {
    if |total| <= n then total else total[|total| - n..]
  }

  lemma FirstAppend(total: seq<Byte>, chunk: seq<Byte>, n: nat)
    ensures First(total, n) + First(chunk, n - |First(total, n)|) == First(total + chunk, n)
  {
  }

  lemma LastAppend(total: seq<Byte>, chunk: seq<Byte>, n: nat)
    ensures Last(Last(total, n) + chunk, n) == Last(total + chunk, n)
  {
    var kept := Last(total, n);
    assert kept + chunk == (total + chunk)[|total| - |kept|..];
    var m := |Last(total + chunk, n)|;
    assert |Last(kept + chunk, n)| == m;
  }

  /** The `retain` closure: a bounded log file, its counters and a rolling tail. */
  class EvidenceLog {
    var log: seq<Byte>
    var prefixBytes: nat
    var omittedBytes: nat
    var tail: seq<Byte>

    /** What has to be on disk and in memory once `total` has been retained. */
    ghost predicate Retains(total: seq<Byte>)
      reads this
    {
      && log == First(total, MAX_LOG_BYTES) && prefixBytes == |log| && tail == Last(total, MAX_TAIL_BYTES)
      && prefixBytes + omittedBytes == |total|
    }

    constructor ()
      ensures Retains([])
    {
      log, prefixBytes, omittedBytes, tail := [], 0, 0, [];
    }

    method Retain(chunk: seq<Byte>, ghost total: seq<Byte>)
      requires Retains(total)
      modifies this
      ensures Retains(total + chunk)
    {
      var available := MAX_LOG_BYTES - prefixBytes;
      var prefix := First(chunk, available);
      log := log + prefix;
      prefixBytes := prefixBytes + |prefix|;
      omittedBytes := omittedBytes + |chunk| - |prefix|;
      tail := Last(tail + chunk, MAX_TAIL_BYTES);
      FirstAppend(total, chunk, MAX_LOG_BYTES);
      LastAppend(total, chunk, MAX_TAIL_BYTES);
    }
  }

  lemma ReadAllNext(chunks: seq<seq<Byte>>, i: nat, secrets: seq<seq<Byte>>, mark: seq<Byte>)
    requires Proper(secrets) && i < |chunks|
    ensures ReadAll(chunks[..i + 1], secrets, mark) == Read(ReadAll(chunks[..i], secrets, mark), chunks[i], secrets, mark)
  {
    hide Read;
    assert chunks[..i + 1][..i] == chunks[..i];
  }

  lemma ReadAllEnds(chunks: seq<seq<Byte>>, secrets: seq<seq<Byte>>, mark: seq<Byte>)
    requires Proper(secrets)
    ensures ReadAll(chunks[..0], secrets, mark) == Stream([], [])
    ensures var st := ReadAll(chunks[..|chunks|], secrets, mark);
            Output(chunks, secrets, mark) == st.out + Scrub(st.pending, secrets, mark)
  {
    hide Read, Scrub;
    assert chunks[..|chunks|] == chunks;
  }

  /** The read loop of the wrapper: redact, retain, and flush at end of stream. */
  method Observe(chunks: seq<seq<Byte>>, secrets: seq<seq<Byte>>)
    returns (log: seq<Byte>, prefixBytes: nat, omittedBytes: nat, tail: seq<Byte>)
    requires Proper(secrets)
    ensures log == First(Output(chunks, secrets, MARK), MAX_LOG_BYTES)
    ensures tail == Last(Output(chunks, secrets, MARK), MAX_TAIL_BYTES)
    ensures prefixBytes == |log| && prefixBytes + omittedBytes == |Output(chunks, secrets, MARK)|
  {
    hide Scrub, First, Last, Read, ReadAll, Output, HeldBytes;
    var buffer := new SecretBuffer(secrets);
    var evidence := new EvidenceLog();
    ReadAllEnds(chunks, secrets, MARK);
    ghost var out: seq<Byte> := [];
    var i := 0;
    while i < |chunks|
      invariant 0 <= i <= |chunks|
      invariant buffer.Valid() && evidence.Retains(out)
      invariant buffer.secrets == secrets
      invariant Stream(out, buffer.pending) == ReadAll(chunks[..i], secrets, MARK)
    {
      ReadAllNext(chunks, i, secrets, MARK);
      var safe := buffer.Redact(chunks[i], false, out);
      evidence.Retain(safe, out);
      out := out + safe;
      i := i + 1;
    }
    assert buffer.pending + [] == buffer.pending;
    var rest := buffer.Redact([], true, out);
    assert rest + buffer.pending == rest;
    evidence.Retain(rest, out);
    log, prefixBytes, omittedBytes, tail := evidence.log, evidence.prefixBytes, evidence.omittedBytes, evidence.tail;
  }
}
