/**
 Releases that are accepted and validated and cannot be published: one member path has a
 doubled slash, a closing brace, or a name that no archive header holds.
 */
module ReleaseExample {
  import opened Options
  import opened Texts
  import opened Release
  import opened ReleaseArchive

  // ---------------------------------------------------------------------------
  // The contract and the build

  /** The path of the last member does not start with an `x`. */
  predicate Odd(last: Path) {
    last != [] && last[0] != "" && last[0][0] != 'x' && ".." !in last && Spelled(last)
  }

  /** A name of its own length for each member but the last. */
  function ExamplePath(i: nat, last: Path): (p: Path)
    ensures if i == 6 then p == last else |p| == 1 && |p[0]| == i + 1 && p[0][0] == 'x' && ShellWord(p[0])
  {
    if i == 6 then last else [seq(i + 1, _ => 'x')]
  }

  const LIMIT: nat := 1024

  function Members(last: Path): (ms: seq<Member>)
    ensures |ms| == 7 && forall i :: 0 <= i < 7 ==> ms[i] == Member(IDS[i], ExamplePath(i, last), false, LIMIT)
  {
    seq(7, i requires 0 <= i < 7 => Member(IDS[i], ExamplePath(i, last), false, LIMIT))
  }

  function Example(last: Path): (c: Contract) {
    Contract(3 * LIMIT + 11, Members(last), Budgets(3, 3, 5))
  }

  /** One byte for each member. */
  function Bytes(id: Id): (s: seq<Byte>) {
    [7]
  }

  /** A faithful codec whose receipt is within its limit. */
  ghost predicate Usable(k: Codec) {
    Faithful(k) && 0 < |ReceiptFor(k, [7])| <= LIMIT
  }

  lemma ExampleIds(last: Path)
    ensures var ids := Ids(Members(last)); Distinct(ids) && |ids| == |IDS| && forall id: Id :: id in ids
  {
    assert Ids(Members(last)) == IDS;
    hide Members, ExamplePath;
    forall id: Id ensures id in IDS && Distinct(IDS) {
      EveryId(id);
    }
  }

  lemma ExampleShaped(last: Path)
    requires Odd(last)
    ensures Shaped(Members(last))
  {
    hide IDS, Members, Distinct, ShellWord;
    var ms := Members(last);
    ExampleIds(last);
    forall i, j | 0 <= i < j < 7 ensures ms[i].path != ms[j].path {
      assert ExamplePath(i, last) != ExamplePath(j, last);
    }
    forall i | 0 <= i < 7 ensures ms[i].limit > 0 && ms[i].path != [] && ms[i].path[0] != "" && ".." !in ms[i].path {
      assert ".."[0] == '.' && ExamplePath(i, last) == ms[i].path;
    }
  }

  lemma ExampleSpelled(last: Path, i: nat)
    requires Odd(last) && i < 7
    ensures Spelled(Members(last)[i].path)
  {
    assert Members(last)[i].path == ExamplePath(i, last);
  }

  lemma ExampleRenders(last: Path)
    ensures Renderable(Members(last)) <==> forall n :: n in last ==> ShellWord(n)
  {
    hide Members, ShellWord;
    var ms := Members(last);
    assert ms[6].path == last;
    forall i, n | 0 <= i < 6 && n in ms[i].path ensures ShellWord(n) {
      assert n in ExamplePath(i, last);
    }
  }

  lemma ExampleSum(last: Path)
    ensures Sum(Members(last), LimitOf) == 7 * LIMIT
  {
    hide Members;
    SumMap(Members(last), IDS, LimitOf, _ => LIMIT);
    SumOfIds(_ => LIMIT);
  }

  lemma ExampleLimits(last: Path, id: Id)
    requires Shaped(Members(last))
    ensures Limit(Example(last), id) == LIMIT
  {
    hide Members, Shaped, Limit;
    LimitIs(Example(last), Index(Members(last), id));
  }

  lemma ExampleAccepted(last: Path)
    requires Odd(last)
    ensures Accepted(Example(last))
  {
    hide Shaped, Limit, Sum, Members, Odd, Spelled, Renderable;
    ExampleShaped(last);
    forall i | 0 <= i < 7 ensures Spelled(Members(last)[i].path) {
      ExampleSpelled(last, i);
    }
    ExampleSum(last);
    forall id: Id ensures Limit(Example(last), id) == LIMIT {
      ExampleLimits(last, id);
    }
  }

  lemma ExampleValidated(last: Path, k: Codec)
    requires Odd(last) && Usable(k)
    ensures Shaped(Example(last).members) && Validated(Example(last), Bytes) && Sized(Example(last), k, Bytes)
  {
    hide Shaped, Limit, Members, Odd, Faithful;
    ExampleShaped(last);
    forall id: Id ensures Limit(Example(last), id) == LIMIT {
      ExampleLimits(last, id);
    }
  }

  // ---------------------------------------------------------------------------
  // A name no header holds

  function Long(): (n: Name)
    ensures |n| == LENGTH_NAME + 1 && forall j :: 0 <= j < |n| ==> n[j] == 'y'
  {
    seq(LENGTH_NAME + 1, _ => 'y')
  }

  /** A single plain name for the last member makes a clean contract. */
  lemma OneName(n: Name)
    requires n != "" && n != "." && n[0] != 'x'
    ensures Clean(Members([n]))
  {
    hide Members, Parts;
    var ms := Members([n]);
    forall i | 0 <= i < 7 ensures |ms[i].path| == 1 && Plain(ms[i].path) && Parts(ms[i].path) == ms[i].path {
      assert ms[i].path == ExamplePath(i, [n]) && "."[0] == '.';
      PlainParts(ms[i].path);
    }
  }

  lemma LongOdd()
    ensures Odd([Long()]) && ShellWord(Long())
  {
    assert "."[0] == '.';
  }

  /**
   The contract is accepted, the build validated, every path plain and none above another,
   and the installer can be rendered; no archive header holds one of the names.
   */
  lemma LongName(k: Codec) returns (c: Contract, b: Build)
    requires Usable(k)
    ensures Accepted(c) && Validated(c, b) && Sized(c, k, b) && Renderable(c.members) && Clean(c.members)
    ensures forall root, epoch :: !Archivable(root, epoch, c.members, k, b)
  {
    hide Usable, Shaped, Limit, Members, Odd, Validated, Sized, Accepted, Clean, Renderable, NameHeld;
    var last: Path := [Long()];
    c, b := Example(last), Bytes;
    LongOdd();
    OneName(Long());
    ExampleAccepted(last);
    ExampleValidated(last, k);
    ExampleRenders(last);
    forall root, epoch ensures !Archivable(root, epoch, c.members, k, b) {
      LongNameNotHeld(root, last);
      assert c.members[6].path == last;
    }
  }

  /** The same with a closing brace in a path, which the contract may hold and the installer may not. */
  lemma ClosingBrace(k: Codec) returns (c: Contract, b: Build)
    requires Usable(k)
    ensures Accepted(c) && Validated(c, b) && Sized(c, k, b) && Clean(c.members) && !Renderable(c.members)
  {
    hide Usable, Shaped, Limit, Members, Validated, Sized, Accepted, Clean, Renderable, NameHeld;
    var last: Path := ["}"];
    c, b := Example(last), Bytes;
    OneName("}");
    ExampleAccepted(last);
    ExampleValidated(last, k);
    ExampleRenders(last);
    assert "}" in last && !ShellWord("}");
  }

  // ---------------------------------------------------------------------------
  // A doubled slash, and the tree it is staged as

  const SLASHES: Path := ["lib", "", "g"]

  lemma SlashesOdd()
    ensures Odd(SLASHES) && ExamplePath(6, SLASHES)[1] == ""
  {
    assert "lib"[0] == 'l';
  }

  function ExampleParts(i: nat): (p: Path)
    ensures if i == 6 then p == ["lib", "g"] else p == ExamplePath(i, SLASHES)
  {
    if i == 6 then ["lib", "g"] else ExamplePath(i, SLASHES)
  }

  lemma PartsOf(i: nat)
    ensures Parts(ExamplePath(i, SLASHES)) == ExampleParts(i)
  {
    if i == 6 {
      var q: Path := ["lib", "", "g"];
      assert q[1..] == ["", "g"] && q[1..][1..] == ["g"] && q[1..][1..][1..] == [];
      assert Parts(q[1..][1..]) == ["g"];
      assert Parts(q[1..]) == Parts(q[1..][1..]);
      assert Parts(q) == ["lib"] + Parts(q[1..]);
    } else {
      assert "."[0] == '.';
      PlainParts(ExamplePath(i, SLASHES));
    }
  }

  /** The root, the one directory, and a file for each member. */
  function Listed(): (names: seq<Path>)
    ensures |names| == 9 && names[0] == [] && names[1] == ["lib"] && forall i :: 0 <= i < 7 ==> names[i + 2] == ExampleParts(i)
  {
    [[], ["lib"]] + seq(7, i requires 0 <= i < 7 => ExampleParts(i))
  }

  function Staged(): (t: Tree) {
    map p | p in Listed() :: if p == [] || p == ["lib"] then Dir else File(false, [7])
  }

  lemma AboveOnlyLib(d: Path, i: nat)
    ensures Above(d, ExamplePath(i, SLASHES)) <==> i == 6 && d == ["lib"]
  {
    hide Parts;
    PartsOf(i);
    if i == 6 && |d| == 1 {
      assert ["lib", "g"][..1] == ["lib"];
    }
  }

  lemma OneDirectory(d: Path)
    ensures Directory(Members(SLASHES), d) <==> d == ["lib"]
  {
    hide Members, Above, ExamplePath;
    var ms := Members(SLASHES);
    forall i | 0 <= i < 7 ensures Above(d, ms[i].path) <==> i == 6 && d == ["lib"] {
      AboveOnlyLib(d, i);
    }
    assert Above(d, ms[6].path) <==> d == ["lib"];
  }

  lemma NotDirectory(i: nat)
    ensures ExampleParts(i) != [] && ExampleParts(i) != ["lib"]
  {
    assert "lib"[0] == 'l';
  }

  lemma ListedPath(p: Path)
    ensures p in Listed() <==> p == [] || p == ["lib"] || Owned(Members(SLASHES), p)
  {
    hide Members, ExamplePath, ExampleParts, Listed, Parts;
    var ms, names := Members(SLASHES), Listed();
    forall i | 0 <= i < 7 ensures Parts(ms[i].path) == names[i + 2] {
      PartsOf(i);
    }
    if p in names {
      var j :| 0 <= j < 9 && names[j] == p;
      if j >= 2 {
        assert Parts(ms[j - 2].path) == p;
      }
    }
    if Owned(ms, p) {
      var i :| 0 <= i < |ms| && Parts(ms[i].path) == p;
      assert names[i + 2] == p;
    }
    assert names[0] in names && names[1] in names;
  }

  lemma ExampleComplete(k: Codec)
    ensures Complete(Members(SLASHES), k, Bytes, Staged()) && Lists(Listed(), Staged())
  {
    hide Members, Listed, Parts, ExamplePath, ExampleParts, Clean, Directory, Owned;
    var ms, t := Members(SLASHES), Staged();
    forall p ensures p in t <==> p == [] || Directory(ms, p) || Owned(ms, p) {
      OneDirectory(p);
      ListedPath(p);
    }
    forall d | Directory(ms, d) ensures IsDir(t, d) {
      OneDirectory(d);
    }
    forall i | 0 <= i < |ms| ensures IsFile(t, Parts(ms[i].path)) {
      PartsOf(i);
      NotDirectory(i);
      assert Listed()[i + 2] in Listed();
    }
    ExampleNotClean();
    ListedDistinct();
  }

  lemma ListedDistinct()
    ensures Distinct(Listed())
  {
    hide Listed;
    var names := Listed();
    assert |"lib"| == 3 && "lib"[0] == 'l';
    forall i, j | 0 <= i < j < 9 ensures names[i] != names[j] {
      if i >= 2 {
        assert names[i] == ExampleParts(i - 2) && names[j] == ExampleParts(j - 2);
      } else {
        assert j >= 2 ==> names[j] == ExampleParts(j - 2);
      }
    }
  }

  lemma ExampleNotClean()
    ensures !Clean(Members(SLASHES))
  {
    SlashesOdd();
    assert !Plain(Members(SLASHES)[6].path);
  }

  lemma ExampleStageable()
    ensures Stageable(Members(SLASHES))
  {
    hide Members, Parts, ExamplePath, ExampleParts, Directory;
    var ms, names := Members(SLASHES), Listed();
    ListedDistinct();
    SlashesOdd();
    ExampleRenders(SLASHES);
    forall i | 0 <= i < |ms| ensures Stages(ms, i) {
      PartsOf(i);
      NotDirectory(i);
      OneDirectory(Parts(ms[i].path));
      forall j | 0 <= j < i ensures Parts(ms[j].path) != Parts(ms[i].path) {
        PartsOf(j);
        assert names[j + 2] != names[i + 2];
      }
    }
  }

  /**
   The contract is accepted, the build validated, nothing lies above anything else and the
   tree is staged and listed; the archive does not verify.
   */
  lemma DoubledSlash(k: Codec) returns (c: Contract, b: Build, t: Tree, names: seq<Path>)
    requires Usable(k)
    ensures Accepted(c) && Validated(c, b) && Sized(c, k, b)
    ensures forall i, j :: 0 <= i < |c.members| && 0 <= j < |c.members| ==> !Above(c.members[i].path, c.members[j].path)
    ensures Stageable(c.members) && Complete(c.members, k, b, t) && Lists(names, t)
    ensures !Verified(c, k, Package(t, names))
  {
    c, b, t, names := Example(SLASHES), Bytes, Staged(), Listed();
    SlashesOdd();
    ExampleAccepted(SLASHES);
    ExampleValidated(SLASHES, k);
    ExampleComplete(k);
    ExampleNotClean();
    ExampleStageable();
    hide Stageable, Accepted, Validated, Sized, Faithful, Complete, Verified, Clean, Above, Shaped, Listed, Staged;
    forall i, j | 0 <= i < |c.members| && 0 <= j < |c.members| ensures !Above(c.members[i].path, c.members[j].path) {
      ExampleApart(i, j);
    }
    if Verified(c, k, Package(t, names)) {
      VerifiedIsClean(c, k, b, t, names);
    }
  }

  lemma ExampleApart(i: nat, j: nat)
    requires i < 7 && j < 7
    ensures |Example(SLASHES).members| == 7 && !Above(Example(SLASHES).members[i].path, Example(SLASHES).members[j].path)
  {
    AboveOnlyLib(ExamplePath(i, SLASHES), j);
    assert "lib"[0] == 'l';
  }
}
