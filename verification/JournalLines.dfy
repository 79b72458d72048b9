/** Newline-terminated records of a growing file, however it is read (scripts/soak_journal.py). */
module JournalLines {
  import opened Texts

  const NEWLINE: Byte := 10

  /** Where in which file a record was found. */
  datatype Record = Record(file: int, offset: nat, bytes: seq<Byte>)

  /** The records complete so far and the unterminated rest. */
  datatype Scanned = Scanned(records: seq<Record>, rest: seq<Byte>)

  /** The first `k` bytes of a file, byte by byte. */
  function Scan(file: int, content: seq<Byte>, k: nat): (s: Scanned)
    requires k <= |content|
    ensures |s.rest| <= k
  {
    if k == 0 then Scanned([], [])
    else
      var s := Scan(file, content, k - 1);
      var line := s.rest + [content[k - 1]];
      if content[k - 1] == NEWLINE then Scanned(s.records + [Record(file, k - |line|, line)], []) else Scanned(s.records, line)
  }

  /** Only the bytes read so far matter. */
  lemma {:induction false} ScanPrefix(file: int, a: seq<Byte>, b: seq<Byte>, k: nat)
    requires k <= |a| && k <= |b| && a[..k] == b[..k]
    ensures Scan(file, a, k) == Scan(file, b, k)
  {
    if k > 0 {
      assert a[k - 1] == a[..k][k - 1] == b[k - 1];
      assert a[..k - 1] == a[..k][..k - 1] == b[..k - 1];
      ScanPrefix(file, a, b, k - 1);
    }
  }

  /** The rest is the end of what was read, without a newline, and starts at a record boundary. */
  lemma {:induction false} RestIsTail(file: int, content: seq<Byte>, k: nat)
    requires k <= |content|
    ensures var s := Scan(file, content, k);
            && s.rest == content[k - |s.rest|..k] && NEWLINE !in s.rest
            && Scan(file, content, k - |s.rest|) == Scanned(s.records, [])
  {
    hide Scan;
    ScanPlain(file, content, k);
    if k > 0 {
      RestIsTail(file, content, k - 1);
      var s := Scan(file, content, k - 1);
      assert content[k - 1 - |s.rest|..k] == content[k - 1 - |s.rest|..k - 1] + [content[k - 1]];
    }
  }

  /** Reading on only adds records. */
  lemma {:induction false} ScanGrows(file: int, content: seq<Byte>, k: nat, m: nat)
    requires k <= m <= |content|
    ensures Scan(file, content, k).records <= Scan(file, content, m).records
    decreases m
  {
    if k < m {
      ScanGrows(file, content, k, m - 1);
    }
  }

  /** Bytes without a newline only lengthen the rest. */
  lemma {:induction false} ScanOn(file: int, content: seq<Byte>, k: nat, m: nat)
    requires k <= m <= |content| && Scan(file, content, k).rest == [] && NEWLINE !in content[k..m]
    ensures Scan(file, content, m) == Scanned(Scan(file, content, k).records, content[k..m])
    decreases m
  {
    if k < m {
      assert content[k..m] == content[k..m - 1] + [content[m - 1]];
      ScanOn(file, content, k, m - 1);
    } else {
      assert content[k..m] == [];
    }
  }

  /** One whole line from a record boundary. */
  lemma ScanLine(file: int, content: seq<Byte>, k: nat, m: nat)
    requires k <= m < |content| && Scan(file, content, k).rest == []
    requires content[m] == NEWLINE && NEWLINE !in content[k..m]
    ensures Scan(file, content, m + 1) == Scanned(Scan(file, content, k).records + [Record(file, k, content[k..m + 1])], [])
  {
    ScanOn(file, content, k, m);
    assert content[k..m + 1] == content[k..m] + [content[m]];
  }

  /** A record is its own bytes in the file, and one line. */
  ghost predicate Located(content: seq<Byte>, r: Record) {
    && r.offset + |r.bytes| <= |content| && content[r.offset..r.offset + |r.bytes|] == r.bytes
    && |r.bytes| > 0 && r.bytes[|r.bytes| - 1] == NEWLINE && NEWLINE !in r.bytes[..|r.bytes| - 1]
  }

  ghost predicate AllLocated(file: int, content: seq<Byte>, recs: seq<Record>) {
    forall i :: 0 <= i < |recs| ==> recs[i].file == file && Located(content, recs[i])
  }

  /** Records follow each other without gap or overlap, from the start of the file up to `end`. */
  ghost predicate Tiles(recs: seq<Record>, end: nat) {
    && (recs == [] ==> end == 0)
    && (recs != [] ==> recs[0].offset == 0 && recs[|recs| - 1].offset + |recs[|recs| - 1].bytes| == end)
    && (forall i :: 0 < i < |recs| ==> recs[i].offset == recs[i - 1].offset + |recs[i - 1].bytes|)
  }

  lemma TilesOn(recs: seq<Record>, end: nat, r: Record)
    requires Tiles(recs, end) && r.offset == end
    ensures Tiles(recs + [r], end + |r.bytes|)
  {
  }

  /** The record that the newline at `k - 1` completes. */
  lemma LastLocated(file: int, content: seq<Byte>, k: nat) returns (r: Record)
    requires 0 < k <= |content| && content[k - 1] == NEWLINE
    ensures var s := Scan(file, content, k - 1);
            && Scan(file, content, k) == Scanned(s.records + [r], [])
            && Located(content, r) && r.file == file && r.offset == k - 1 - |s.rest| && |r.bytes| == |s.rest| + 1
  {
    hide Scan;
    RestIsTail(file, content, k - 1);
    ScanPlain(file, content, k);
    var s := Scan(file, content, k - 1);
    var line := s.rest + [content[k - 1]];
    assert content[k - |line|..k] == line;
    assert line[..|line| - 1] == s.rest;
    r := Record(file, k - |line|, line);
  }

  /**
   Exactly once: the scanned records are the lines of the file, each with the bytes at
   its own offset, tiling everything before the rest.
   */
  lemma {:induction false} ScanIsExact(file: int, content: seq<Byte>, k: nat)
    requires k <= |content|
    ensures var s := Scan(file, content, k);
            && Tiles(s.records, k - |s.rest|)
            && AllLocated(file, content, s.records)
  {
    hide *;
    if k == 0 {
      ExactAtStart(file, content);
    } else {
      ScanIsExact(file, content, k - 1);
      ExactOn(file, content, k);
    }
  }

  lemma ExactAtStart(file: int, content: seq<Byte>)
    ensures var s := Scan(file, content, 0); Tiles(s.records, 0 - |s.rest|) && AllLocated(file, content, s.records)
  {
    ScanPlain(file, content, 0);
  }

  lemma ExactOn(file: int, content: seq<Byte>, k: nat)
    requires 0 < k <= |content|
    requires var s := Scan(file, content, k - 1); Tiles(s.records, k - 1 - |s.rest|) && AllLocated(file, content, s.records)
    ensures var s := Scan(file, content, k); Tiles(s.records, k - |s.rest|) && AllLocated(file, content, s.records)
  {
    hide *;
    ScanPlain(file, content, k);
    if content[k - 1] == NEWLINE {
      var s := Scan(file, content, k - 1);
      var last := LastLocated(file, content, k);
      TilesOn(s.records, k - 1 - |s.rest|, last);
      LocatedOn(file, content, s.records, last);
    }
  }

  lemma ScanPlain(file: int, content: seq<Byte>, k: nat)
    requires k <= |content|
    ensures k == 0 ==> Scan(file, content, k) == Scanned([], [])
    ensures k > 0 && content[k - 1] != NEWLINE ==>
              var s := Scan(file, content, k - 1); Scan(file, content, k) == Scanned(s.records, s.rest + [content[k - 1]])
    ensures k > 0 && content[k - 1] == NEWLINE ==>
              var s := Scan(file, content, k - 1); var line := s.rest + [NEWLINE];
              |line| <= k && Scan(file, content, k) == Scanned(s.records + [Record(file, k - |line|, line)], [])
  {
  }

  lemma LocatedOn(file: int, content: seq<Byte>, recs: seq<Record>, r: Record)
    requires AllLocated(file, content, recs) && r.file == file && Located(content, r)
    ensures AllLocated(file, content, recs + [r])
  {
    hide Located;
  }

  /** The records completed between two offsets. */
  ghost function New(file: int, content: seq<Byte>, k: nat, m: nat): (r: seq<Record>)
    requires k <= m <= |content|
    ensures Scan(file, content, m).records == Scan(file, content, k).records + r
  {
    ScanGrows(file, content, k, m);
    Scan(file, content, m).records[|Scan(file, content, k).records|..]
  }

  lemma NewSplit(file: int, content: seq<Byte>, k: nat, m: nat, n: nat)
    requires k <= m <= n <= |content|
    ensures New(file, content, k, n) == New(file, content, k, m) + New(file, content, m, n)
  {
    hide Scan, New;
    var a, b, c := Scan(file, content, k).records, New(file, content, k, m), New(file, content, m, n);
    Regroup(a, b, c);
    assert (a + (b + c))[|a|..] == b + c;
    assert (a + New(file, content, k, n))[|a|..] == New(file, content, k, n);
  }

  /** What is pending at `k` is the beginning of the next record, or of the rest. */
  lemma {:induction false} RestGoesOn(file: int, content: seq<Byte>, k: nat, m: nat)
    requires k <= m <= |content|
    ensures var r := New(file, content, k, m);
            |Scan(file, content, k).rest| <= if r == [] then |Scan(file, content, m).rest| else |r[0].bytes|
    decreases m
  {
    if k < m {
      hide Scan, New;
      RestGoesOn(file, content, k, m - 1);
      NewSplit(file, content, k, m - 1, m);
      ScanPlain(file, content, m);
      NewOne(file, content, m);
    } else {
      assert New(file, content, k, k) == [];
    }
  }

  lemma NewOne(file: int, content: seq<Byte>, m: nat)
    requires 0 < m <= |content|
    ensures var s := Scan(file, content, m - 1); var r := New(file, content, m - 1, m);
            if content[m - 1] == NEWLINE then |r| == 1 && r[0].bytes == s.rest + [NEWLINE] else r == []
  {
    hide Scan;
    ScanPlain(file, content, m);
  }
}
