/**
 The redactor of scripts/ci_evidence.py on the stream as a whole: with one secret the
 evidence is the process output with every copy of the secret exchanged for the marker,
 however the output was read.
 */
module RedactorWhole {
  import opened Texts
  import opened Redactor

  // ---------------------------------------------------------------------------
  // Replacement cuts at the secret and joins with the marker

  function Join(pieces: seq<seq<Byte>>, sep: seq<Byte>): (text: seq<Byte>) {
    if pieces == [] then [] else if |pieces| == 1 then pieces[0] else pieces[0] + sep + Join(pieces[1..], sep)
  }

  /** No copy of the secret in the last piece, and in the others none that starts before the piece ends. */
  ghost predicate CutAt(pieces: seq<seq<Byte>>, s: seq<Byte>) {
    && pieces != [] && !Contains(pieces[|pieces| - 1], s)
    && forall i, k :: 0 <= i < |pieces| - 1 && k < |pieces[i]| ==> !OccursAt(pieces[i] + s, s, k)
  }

  /** Every text is cut at the copies found from the left, and replacement joins the same pieces with the marker. */
  lemma {:induction false} ReplaceJoins(text: seq<Byte>, s: seq<Byte>, mark: seq<Byte>) returns (pieces: seq<seq<Byte>>)
    requires |s| > 0
    ensures CutAt(pieces, s) && Join(pieces, s) == text && Join(pieces, mark) == Replace(text, s, mark)
    decreases |text|
  {
    var f := Find(text, s);
    if f < 0 {
      pieces := [text];
    } else {
      var p, tail := text[..f], text[f + |s|..];
      assert text == p + s + tail;
      var rest := ReplaceJoins(tail, s, mark);
      pieces := [p] + rest;
      JoinMore(p, rest, s);
      JoinMore(p, rest, mark);
      FirstPiece(p, tail, s);
      CutMore(p, rest, s);
    }
  }

  lemma JoinMore(p: seq<Byte>, rest: seq<seq<Byte>>, sep: seq<Byte>)
    requires rest != []
    ensures Join([p] + rest, sep) == p + sep + Join(rest, sep)
  {
    assert ([p] + rest)[1..] == rest;
  }

  lemma FirstPiece(p: seq<Byte>, tail: seq<Byte>, s: seq<Byte>)
    requires Find(p + s + tail, s) == |p|
    ensures forall k :: k < |p| ==> !OccursAt(p + s, s, k)
  {
    hide Find;
    forall k | k < |p| ensures !OccursAt(p + s, s, k) {
      OccursLeft(p + s, tail, s, k);
    }
  }

  lemma CutMore(p: seq<Byte>, rest: seq<seq<Byte>>, s: seq<Byte>)
    requires CutAt(rest, s) && forall k :: k < |p| ==> !OccursAt(p + s, s, k)
    ensures CutAt([p] + rest, s)
  {
    hide OccursAt, Contains;
    var all := [p] + rest;
    assert all[|all| - 1] == rest[|rest| - 1];
    forall i, k | 0 <= i < |all| - 1 && k < |all[i]| ensures !OccursAt(all[i] + s, s, k) {
      if i > 0 {
        assert all[i] == rest[i - 1];
      }
    }
  }

  /** There is only one way to cut a text so. */
  lemma {:induction false} CutOnce(pieces: seq<seq<Byte>>, s: seq<Byte>, mark: seq<Byte>)
    requires |s| > 0 && CutAt(pieces, s)
    ensures Replace(Join(pieces, s), s, mark) == Join(pieces, mark)
    decreases |pieces|
  {
    var text := Join(pieces, s);
    if |pieces| > 1 {
      var p, rest := pieces[0], pieces[1..];
      hide OccursAt, Contains, Find;
      assert rest[|rest| - 1] == pieces[|pieces| - 1];
      forall i, k | 0 <= i < |rest| - 1 && k < |rest[i]| ensures !OccursAt(rest[i] + s, s, k) {
        assert rest[i] == pieces[i + 1];
      }
      CutOnce(rest, s, mark);
      var tail := Join(rest, s);
      FoundAt(p, tail, s);
      assert text == p + s + tail;
      assert text[..|p|] == p && text[|p| + |s|..] == tail;
    }
  }

  lemma FoundAt(p: seq<Byte>, tail: seq<Byte>, s: seq<Byte>)
    requires |s| > 0 && forall k :: k < |p| ==> !OccursAt(p + s, s, k)
    ensures Find(p + s + tail, s) == |p|
  {
    var text := p + s + tail;
    OccursRight(p, s, s, |p|);
    OccursLeft(p + s, tail, s, |p|);
    assert Contains(text, s);
    var f := Find(text, s);
    if f < |p| {
      OccursLeft(p + s, tail, s, f);
    }
  }

  // ---------------------------------------------------------------------------
  // Reads do not matter

  lemma FoundLater(a: seq<Byte>, text: seq<Byte>, s: seq<Byte>)
    requires |s| > 0 && NoneBefore(a + text, s, |a|)
    ensures Find(a + text, s) == if Find(text, s) < 0 then -1 else |a| + Find(text, s)
  {
    hide OccursAt;
    var i, f := Find(a + text, s), Find(text, s);
    if f >= 0 {
      OccursRight(a, text, s, |a| + f);
    }
    if i >= 0 {
      OccursRight(a, text, s, i);
    }
  }

  /** What lies before the first copy stays as it is. */
  lemma SkipBefore(a: seq<Byte>, text: seq<Byte>, s: seq<Byte>, mark: seq<Byte>)
    requires |s| > 0 && NoneBefore(a + text, s, |a|)
    ensures Replace(a + text, s, mark) == a + Replace(text, s, mark)
  {
    hide Replace, Find, OccursAt, NoneBefore;
    FoundLater(a, text, s);
    ReplaceFirst(text, s, mark);
    ReplaceFirst(a + text, s, mark);
    var f := Find(text, s);
    if f >= 0 {
      assert f + |s| <= |text| by {
        FoundFits(text, s);
      }
      assert (a + text)[..|a| + f] == a + text[..f];
      assert (a + text)[|a| + f + |s|..] == text[f + |s|..];
      assert a + text[..f] + mark == a + (text[..f] + mark);
    }
  }

  lemma FoundFits(text: seq<Byte>, s: seq<Byte>)
    ensures Find(text, s) + |s| <= |text| || Find(text, s) < 0
  {
  }

  /** Replacing again, with more text behind, is replacing once in the longer text. */
  lemma {:induction false} ReplaceResumes(text: seq<Byte>, more: seq<Byte>, s: seq<Byte>, mark: seq<Byte>)
    requires |s| > 0 && !Leaky(s, mark)
    ensures Replace(Replace(text, s, mark) + more, s, mark) == Replace(text + more, s, mark)
    decreases |text|
  {
    hide Replace, Find, Rebuilds;
    ReplaceFirst(text, s, mark);
    var f := Find(text, s);
    if f >= 0 {
      var p, tail := text[..f], text[f + |s|..];
      ReplaceResumes(tail, more, s, mark);
      assert text == p + s + tail;
      FirstPiece(p, tail, s);
      var y := Replace(tail, s, mark) + more;
      MarkSkipped(p, y, s, mark);
      assert p + mark + Replace(tail, s, mark) + more == p + mark + y;
      SkipBefore(p + mark, y, s, mark);
      assert text + more == p + s + (tail + more);
      FoundAt(p, tail + more, s);
      ReplaceFirst(text + more, s, mark);
      assert (text + more)[..f] == p && (text + more)[f + |s|..] == tail + more;
    }
  }

  lemma MarkSkipped(p: seq<Byte>, y: seq<Byte>, s: seq<Byte>, mark: seq<Byte>)
    requires |s| > 0 && !Leaky(s, mark) && forall k :: k < |p| ==> !OccursAt(p + s, s, k)
    ensures NoneBefore(p + mark + y, s, |p + mark|)
  {
    hide Rebuilds;
    assert (p + mark)[..|p|] == p;
    OccursRight(p, mark, mark, |p|);
    assert Tracked(p + mark, s, mark, |p|);
    TrackedExtends(p + mark, y, s, mark, |p|);
    forall i | i < |p + mark| ensures !OccursAt(p + mark + y, s, i) {
      if OccursAt(p + mark + y, s, i) {
        NoOverlap(p + mark + y, s, s, mark, i, |p|);
        Beside(p, mark, y, s, i);
        OccursLeft(p, s, s, i);
      }
    }
  }

  lemma AloneScrubbed(text: seq<Byte>, s: seq<Byte>, mark: seq<Byte>)
    requires |s| > 0
    ensures Scrub(text, [s], mark) == Replace(text, s, mark)
  {
    hide Replace;
    assert [s][1..] == [];
  }

  lemma AlonePeaceful(s: seq<Byte>, mark: seq<Byte>)
    requires |s| > 0 && !Leaky(s, mark)
    ensures Proper([s]) && Peaceful([s], mark)
  {
    hide Rebuilds;
  }

  /** One read: what is out and pending is the whole input so far, with the secret replaced. */
  lemma OneMoreRead(st: Stream, text: seq<Byte>, chunk: seq<Byte>, s: seq<Byte>, mark: seq<Byte>)
    requires |s| > 0 && !Leaky(s, mark) && |mark| > 0 && Sound(st, [s], mark) && st.out + st.pending == Replace(text, s, mark)
    ensures st.out + Replace(st.pending + chunk, s, mark) == Replace(text + chunk, s, mark)
  {
    hide Replace, Rebuilds, Sound, NoneBefore;
    AlonePeaceful(s, mark);
    NewStartsAfter(st, chunk, [s], mark);
    assert s in [s];
    SkipBefore(st.out, st.pending + chunk, s, mark);
    Regroup(st.out, st.pending, chunk);
    ReplaceResumes(text, chunk, s, mark);
  }

  lemma {:induction false} ReadSoFar(chunks: seq<seq<Byte>>, s: seq<Byte>, mark: seq<Byte>)
    requires |s| > 0 && !Leaky(s, mark) && |mark| > 0
    ensures var st := ReadAll(chunks, [s], mark);
            Sound(st, [s], mark) && st.out + st.pending == Replace(Concat(chunks), s, mark)
    decreases |chunks|
  {
    AlonePeaceful(s, mark);
    ReadAllSound(chunks, [s], mark);
    if chunks != [] {
      hide Replace, Scrub, Rebuilds, Sound, Read;
      var n := |chunks| - 1;
      var st := ReadAll(chunks[..n], [s], mark);
      ReadSoFar(chunks[..n], s, mark);
      OneMoreRead(st, Concat(chunks[..n]), chunks[n], s, mark);
      AloneScrubbed(st.pending + chunks[n], s, mark);
      ReadSplits(st, chunks[n], [s], mark);
    }
  }

  /**
   With a single secret that its marker does not rebuild, the evidence is the whole process
   output with the copies of the secret replaced from the left, whatever the reads were.
   */
  lemma ReadsDoNotMatter(chunks: seq<seq<Byte>>, s: seq<Byte>, mark: seq<Byte>)
    requires |s| > 0 && !Leaky(s, mark) && |mark| > 0
    ensures Output(chunks, [s], mark) == Replace(Concat(chunks), s, mark)
  {
    hide Replace, Scrub, Rebuilds, Sound, ReadAll;
    var st := ReadAll(chunks, [s], mark);
    ReadSoFar(chunks, s, mark);
    OneMoreRead(st, Concat(chunks), [], s, mark);
    assert st.pending + [] == st.pending && Concat(chunks) + [] == Concat(chunks);
    AloneScrubbed(st.pending, s, mark);
  }

  // ---------------------------------------------------------------------------
  // With two secrets reads can matter

  const EARLIER: seq<Byte> := [97, 98, 99, 100, 101, 102]
  const LATER: seq<Byte> := [98, 99, 100, 101, 102, 103]

  /** Of two secrets that overlap in the output, the reads decide which one is replaced. */
  lemma ReadsMatterForTwo()
    ensures var secrets := [LATER, EARLIER];
            && Proper(secrets) && AllClear(secrets, MARK)
            && Concat([EARLIER, [103]]) == Concat([EARLIER + [103]])
            && Output([EARLIER, [103]], secrets, MARK) == MARK + [103]
            && Output([EARLIER + [103]], secrets, MARK) == [97] + MARK
  {
    hide Output, Clear;
    ClearOfMark();
    SameInput();
    ReadApart();
    ReadTogether();
  }

  lemma ClearOfMark()
    ensures Clear(LATER, MARK) && Clear(EARLIER, MARK)
  {
    hide Clear;
    LacksByte(MARK[1..9], LATER, 0);
    LacksByte(MARK[1..9], EARLIER, 0);
    NoBracketIsClear(LATER);
    NoBracketIsClear(EARLIER);
  }

  lemma SameInput()
    ensures Concat([EARLIER, [103]]) == Concat([EARLIER + [103]])
  {
    assert [EARLIER, [103]][..1] == [EARLIER] && [EARLIER][..0] == [] && [EARLIER + [103]][..0] == [];
  }

  lemma ReadTogether()
    ensures Output([EARLIER + [103]], [LATER, EARLIER], MARK) == [97] + MARK
  {
    hide Output, Scrub, HeldBytes, Replace;
    var secrets, text := [LATER, EARLIER], EARLIER + [103];
    assert text == [97] + LATER + [];
    LacksByte([], LATER, 0);
    assert OccursAt([97] + LATER, LATER, 1);
    Differs([97] + LATER, LATER, 0, 0);
    ReplacedOnce([97], LATER, [], MARK);
    assert [97] + MARK + [] == [97] + MARK;
    LacksByte([97] + MARK, EARLIER, 1);
    assert secrets[1..] == [EARLIER] && secrets[..0] == [];
    ScrubAlone(text, secrets, MARK, 0, [97] + MARK);
    TwoHeld(secrets);
    FlushedAsRead(text, secrets, MARK, LATER);
  }

  lemma ReadApart()
    ensures Output([EARLIER, [103]], [LATER, EARLIER], MARK) == MARK + [103]
  {
    hide Output, Scrub, HeldBytes, Replace, ReadAll, Read;
    var secrets, chunks := [LATER, EARLIER], [EARLIER, [103]];
    ReadAllEnds(chunks, secrets, MARK);
    ReadAllNext(chunks, 0, secrets, MARK);
    ReadAllNext(chunks, 1, secrets, MARK);
    assert chunks[..2] == chunks;
    EarlierRead(secrets);
    LaterRead(secrets);
    var next := Read(Stream(MARK[..5], MARK[5..]), [103], secrets, MARK);
    Kept(next.out, next.pending, secrets);
  }

  lemma LaterRead(secrets: seq<seq<Byte>>)
    requires secrets == [LATER, EARLIER]
    ensures var next := Read(Stream(MARK[..5], MARK[5..]), [103], secrets, MARK); next.out + next.pending == MARK + [103]
  {
    hide Scrub, HeldBytes, Read;
    var text := MARK[5..] + [103];
    NoneInTail();
    ScrubIdentity(text, secrets, MARK);
    ReadSplits(Stream(MARK[..5], MARK[5..]), [103], secrets, MARK);
    assert MARK[..5] + text == MARK + [103];
  }

  lemma NoneInTail()
    ensures NoSecret(MARK[5..] + [103], [LATER, EARLIER])
  {
    LacksByte(MARK[5..] + [103], LATER, 0);
    LacksByte(MARK[5..] + [103], EARLIER, 1);
  }

  /** What is left of such a text holds no secret either. */
  lemma Kept(a: seq<Byte>, b: seq<Byte>, secrets: seq<seq<Byte>>)
    requires a + b == MARK + [103] && secrets == [LATER, EARLIER]
    ensures Scrub(b, secrets, MARK) == b
  {
    hide Scrub;
    assert 98 !in a + b;
    assert forall i :: 0 <= i < |b| ==> b[i] == (a + b)[|a| + i];
    LacksByte(b, LATER, 0);
    LacksByte(b, EARLIER, 1);
    ScrubIdentity(b, secrets, MARK);
  }

  lemma EarlierRead(secrets: seq<seq<Byte>>)
    requires secrets == [LATER, EARLIER]
    ensures Read(Stream([], []), EARLIER, secrets, MARK) == Stream(MARK[..5], MARK[5..])
  {
    hide Scrub, HeldBytes;
    TwoHeld(secrets);
    EarlierScrubbed(secrets);
    assert [] + EARLIER == EARLIER && [] + MARK[..5] == MARK[..5];
  }

  lemma EarlierScrubbed(secrets: seq<seq<Byte>>)
    requires secrets == [LATER, EARLIER]
    ensures Scrub(EARLIER, secrets, MARK) == MARK
  {
    hide Scrub, Replace;
    forall i ensures !OccursAt(EARLIER, LATER, i) {
      Differs(EARLIER, LATER, i, 0);
    }
    assert EARLIER == [] + EARLIER + [] && [] + EARLIER == EARLIER;
    LacksByte([], EARLIER, 0);
    assert OccursAt([] + EARLIER, EARLIER, 0);
    ReplacedOnce([], EARLIER, [], MARK);
    assert [] + MARK + [] == MARK;
    assert secrets[..1] == [LATER] && secrets[2..] == [];
    ScrubAlone(EARLIER, secrets, MARK, 1, MARK);
  }
}
