/**
 Packaging a staged release and verifying the archive: the two ends of
 scripts/release_contract.py and scripts/package-release.py agree exactly when the
 contract's paths are clean.
 */
module ReleaseArchive {
  import opened Options
  import opened Texts
  import opened Release

  datatype Kind = Folder | Regular | Special

  /** An archive entry, named relative to the release root. */
  datatype Entry = Entry(name: Path, kind: Kind, mode: nat, content: seq<Byte>)

  const MODE_755: nat := 493
  const MODE_644: nat := 420

  function Mode(executable: bool): (m: nat) {
    if executable then MODE_755 else MODE_644
  }

  /** How a path of the staged tree is packaged. */
  function EntryOf(p: Path, n: Node): (e: Entry) {
    match n
    case Dir => Entry(p, Folder, MODE_755, [])
    case File(executable, content) => Entry(p, Regular, Mode(executable), content)
  }

  function Size(n: Node): (s: nat) {
    if n.File? then |n.content| else 0
  }

  function EntrySize(e: Entry): (s: nat) {
    |e.content|
  }

  /** What a listing of a tree is. */
  ghost predicate Lists(names: seq<Path>, t: Tree) {
    Distinct(names) && forall p :: p in names <==> p in t
  }

  /** One entry per path of the listing. */
  function Package(t: Tree, names: seq<Path>): (es: seq<Entry>)
    requires forall p :: p in names ==> p in t
    ensures |es| == |names| && forall i :: 0 <= i < |es| ==> es[i] == EntryOf(names[i], t[names[i]])
  {
    seq(|names|, i requires 0 <= i < |names| => EntryOf(names[i], t[names[i]]))
  }

  function Names(es: seq<Entry>): (names: seq<Path>)
    ensures |names| == |es| && forall i :: 0 <= i < |es| ==> names[i] == es[i].name
  {
    seq(|es|, i requires 0 <= i < |es| => es[i].name)
  }

  // ---------------------------------------------------------------------------
  // The archive format

  const LENGTH_NAME: nat := 100
  const LENGTH_PREFIX: nat := 155
  const NUMBER_LIMIT: nat := 8_589_934_592
  /** The gzip header, which is written first, has 32 bits for the time. */
  const TIME_LIMIT: nat := 0x1_0000_0000

  /** Characters of names joined with slashes. */
  function Joined(names: seq<Name>): (n: nat) {
    if names == [] then 0 else if |names| == 1 then |names[0]| else |names[0]| + 1 + Joined(names[1..])
  }

  /** The components of an archived name: a directory's name ends in a slash. */
  function Components(root: Name, p: Path, directory: bool): (c: seq<Name>)
    ensures |c| > 0
  {
    [root] + p + if directory then [""] else []
  }

  /** A ustar header holds the name: whole, or cut at a slash into a prefix and a name. */
  predicate NameHeld(root: Name, p: Path, directory: bool) {
    var c := Components(root, p, directory);
    || Joined(c) <= LENGTH_NAME
    || exists i :: 1 <= i < |c| && Joined(c[..i]) <= LENGTH_PREFIX && Joined(c[i..]) <= LENGTH_NAME
  }

  /** And the size fits its eleven octal digits. */
  predicate Held(root: Name, p: Path, n: Node) {
    NameHeld(root, p, n.Dir?) && Size(n) < NUMBER_LIMIT
  }

  /** What packaging needs of a path of the tree. */
  predicate Storable(root: Name, t: Tree, p: Path) {
    p in t && Held(root, p, t[p])
  }

  /** No header holds a name of over a hundred characters between its slashes, whatever comes before it. */
  lemma {:induction false} LongNameNotHeld(root: Name, p: Path)
    requires p != [] && |p[|p| - 1]| > LENGTH_NAME
    ensures !NameHeld(root, p, false)
  {
    var c := Components(root, p, false);
    assert c[|c| - 1] == p[|p| - 1];
    forall i | 0 <= i < |c| ensures Joined(c[i..]) > LENGTH_NAME {
      JoinedLast(c[i..]);
    }
    assert c[0..] == c;
  }

  lemma {:induction false} JoinedLast(names: seq<Name>)
    requires names != []
    ensures Joined(names) >= |names[|names| - 1]|
  {
    if |names| > 1 {
      JoinedLast(names[1..]);
    }
  }

  /** Splits a long name at the first slash that leaves both parts short enough. */
  method SplitName(c: seq<Name>) returns (i: Option<nat>)
    ensures i.Some? <==> exists k :: 1 <= k < |c| && Joined(c[..k]) <= LENGTH_PREFIX && Joined(c[k..]) <= LENGTH_NAME
    ensures i.Some? ==> 1 <= i.value < |c| && Joined(c[..i.value]) <= LENGTH_PREFIX && Joined(c[i.value..]) <= LENGTH_NAME
  {
    var k := 1;
    while k < |c|
      invariant 1 <= k <= |c| + 1
      invariant forall j :: 1 <= j < k && j < |c| ==> !(Joined(c[..j]) <= LENGTH_PREFIX && Joined(c[j..]) <= LENGTH_NAME)
      decreases |c| - k
    {
      if Joined(c[..k]) <= LENGTH_PREFIX && Joined(c[k..]) <= LENGTH_NAME {
        return Some(k);
      }
      k := k + 1;
    }
    i := None;
  }

  /** Packages a listing entry by entry; the first name or size that no header holds ends it. */
  method PackageTree(root: Name, epoch: int, t: Tree, names: seq<Path>) returns (r: Option<seq<Entry>>)
    requires forall p :: p in names ==> p in t
    ensures r.Some? <==> 0 <= epoch < TIME_LIMIT && forall i :: 0 <= i < |names| ==> Storable(root, t, names[i])
    ensures r.Some? ==> r.value == Package(t, names)
  {
    hide Held, EntryOf;
    if epoch < 0 || epoch >= TIME_LIMIT {
      return None;
    }
    var es := [];
    var k := 0;
    while k < |names|
      invariant 0 <= k <= |names| && |es| == k
      invariant forall i :: 0 <= i < k ==> es[i] == EntryOf(names[i], t[names[i]])
      invariant forall i :: 0 <= i < k ==> Storable(root, t, names[i])
    {
      var held := HeaderHolds(root, names[k], t[names[k]]);
      if !held {
        return None;
      }
      es := es + [EntryOf(names[k], t[names[k]])];
      k := k + 1;
    }
    assert es == Package(t, names);
    r := Some(es);
  }

  method HeaderHolds(root: Name, p: Path, n: Node) returns (ok: bool)
    ensures ok <==> Held(root, p, n)
  {
    hide Joined;
    var c := Components(root, p, n.Dir?);
    if Joined(c) > LENGTH_NAME {
      var cut := SplitName(c);
      if cut.None? {
        return false;
      }
    }
    ok := Size(n) < NUMBER_LIMIT;
  }

  // ---------------------------------------------------------------------------
  // Verification

  /** Some member is expected at the name, which is its path as written. */
  predicate At(ms: seq<Member>, p: Path) {
    exists i :: 0 <= i < |ms| && ms[i].path == p
  }

  predicate Expected(ms: seq<Member>, p: Path) {
    p == [] || Directory(ms, p) || At(ms, p)
  }

  /** The entry is what the contract expects at its name; a member takes precedence over a directory. */
  predicate Fits(ms: seq<Member>, e: Entry) {
    && Plain(e.name) && ".." !in e.name
    && (forall i :: 0 <= i < |ms| && ms[i].path == e.name ==>
          e.kind == Regular && e.mode % 4096 == Mode(ms[i].executable) && 0 < |e.content| <= ms[i].limit)
    && (!At(ms, e.name) ==> e.kind == Folder && e.mode % 4096 == MODE_755 && e.content == [])
  }

  /** The receipt in the archive describes the helper in the archive. */
  predicate Attested(k: Codec, receipt: seq<Byte>, helper: seq<Byte>) {
    var r := k.loads(receipt);
    r.Some? && r.value.0 > 0 && r.value.0 == |helper| && r.value.1 == k.sha(helper)
  }

  predicate Holds(es: seq<Entry>, p: Path, content: seq<Byte>) {
    exists i :: 0 <= i < |es| && es[i].name == p && es[i].kind == Regular && es[i].content == content
  }

  /** The names are exactly the expected ones, each once. */
  ghost predicate Named(ms: seq<Member>, names: seq<Path>) {
    Distinct(names) && forall p :: p in names <==> Expected(ms, p)
  }

  predicate AllFit(ms: seq<Member>, es: seq<Entry>) {
    forall i :: 0 <= i < |es| ==> Fits(ms, es[i])
  }

  /** The archive holds the helper and a receipt for it. */
  ghost predicate Receipted(ms: seq<Member>, k: Codec, es: seq<Entry>)
    requires Shaped(ms)
  {
    exists r, h ::
      Holds(es, ms[Index(ms, WasmHostIdentity)].path, r) && Holds(es, ms[Index(ms, WasmHost)].path, h) && Attested(k, r, h)
  }

  /** The whole verdict on an archive. */
  ghost predicate Verified(c: Contract, k: Codec, es: seq<Entry>)
    requires Shaped(c.members)
  {
    && Named(c.members, Names(es)) && AllFit(c.members, es)
    && Sum(es, EntrySize) <= c.expandedMax
    && Receipted(c.members, k, es)
  }

  /** Adds up the entries while it checks them. */
  method CheckEntries(c: Contract, es: seq<Entry>) returns (ok: bool)
    ensures ok <==> AllFit(c.members, es) && Sum(es, EntrySize) <= c.expandedMax
  {
    hide Fits;
    var expanded := 0;
    var i := 0;
    while i < |es|
      invariant 0 <= i <= |es|
      invariant forall j :: 0 <= j < i ==> Fits(c.members, es[j])
      invariant expanded == Sum(es[..i], EntrySize)
    {
      if !Fits(c.members, es[i]) {
        return false;
      }
      assert es[..i + 1] == es[..i] + [es[i]] && [es[i]][1..] == [];
      SumConcat(es[..i], [es[i]], EntrySize);
      expanded := expanded + EntrySize(es[i]);
      i := i + 1;
    }
    assert es[..i] == es;
    ok := expanded <= c.expandedMax;
  }

  /** The content of the file at a name. */
  method Extract(es: seq<Entry>, p: Path) returns (r: Option<seq<Byte>>)
    requires Distinct(Names(es))
    ensures forall content :: r == Some(content) <==> Holds(es, p, content)
  {
    var i := 0;
    while i < |es|
      invariant 0 <= i <= |es|
      invariant forall j :: 0 <= j < i ==> es[j].name != p || es[j].kind != Regular
    {
      if es[i].name == p && es[i].kind == Regular {
        r := Some(es[i].content);
        forall content | Holds(es, p, content) ensures r == Some(content) {
          var j :| 0 <= j < |es| && es[j].name == p && es[j].kind == Regular && es[j].content == content;
          assert Names(es)[j] == Names(es)[i];
        }
        return;
      }
      i := i + 1;
    }
    r := None;
  }

  method VerifyArchive(c: Contract, k: Codec, es: seq<Entry>) returns (ok: bool)
    requires Shaped(c.members)
    ensures ok <==> Verified(c, k, es)
  {
    var ms := c.members;
    var ds := ArchiveDirectories(ms);
    var expected := {[]} + ds + set m | m in ms :: m.path;
    var names := set p | p in Names(es);
    SameNames(ms, ds, Names(es));
    if !Distinct(Names(es)) || names != expected {
      return false;
    }
    ok := CheckEntries(c, es);
    if !ok {
      return;
    }
    hide Holds, AllFit, Attested, Shaped, Named, Sum;
    var r := Extract(es, ms[Index(ms, WasmHostIdentity)].path);
    var h := Extract(es, ms[Index(ms, WasmHost)].path);
    ok := r.Some? && h.Some? && Attested(k, r.value, h.value);
  }

  lemma SameNames(ms: seq<Member>, ds: set<Path>, names: seq<Path>)
    requires forall d :: d in ds <==> Directory(ms, d)
    ensures Named(ms, names) <==> Distinct(names) && (set p | p in names) == {[]} + ds + set m | m in ms :: m.path
  {
    hide Directory;
    var expected := {[]} + ds + set m | m in ms :: m.path;
    forall p ensures p in expected <==> Expected(ms, p) {
      if At(ms, p) {
        var i :| 0 <= i < |ms| && ms[i].path == p;
        assert ms[i] in ms;
      }
    }
    var listed := set p | p in names;
    assert forall p :: p in listed <==> p in names;
    if forall p :: p in names <==> Expected(ms, p) {
      assert listed == expected;
    }
  }

  // ---------------------------------------------------------------------------
  // The two ends agree

  /** The rendered installer and the helper's receipt are within their limits. */
  predicate Sized(c: Contract, k: Codec, b: Build)
    requires Shaped(c.members)
  {
    && 0 < |b(Installer)| <= Limit(c, Installer)
    && 0 < |ReceiptFor(k, b(WasmHost))| <= Limit(c, WasmHostIdentity)
  }

  lemma LimitIs(c: Contract, i: nat)
    requires Shaped(c.members) && i < |c.members|
    ensures Limit(c, c.members[i].id) == c.members[i].limit
  {
    var ms := c.members;
    assert ms[i].id in Ids(ms);
    var m := ById(ms, ms[i].id);
    var j :| 0 <= j < |ms| && ms[j] == m;
    OnlyOne(ms, i, j);
  }

  /** Every staged path is plain. */
  lemma StagedPlain(ms: seq<Member>, k: Codec, b: Build, t: Tree, p: Path)
    requires Shaped(ms) && Complete(ms, k, b, t) && p in t
    ensures Plain(p) && ".." !in p
  {
    hide Parts;
    if Directory(ms, p) {
      var i :| 0 <= i < |ms| && Above(p, ms[i].path);
      PlainParts(ms[i].path);
    } else if Owned(ms, p) {
      var i :| 0 <= i < |ms| && Parts(ms[i].path) == p;
      PlainParts(ms[i].path);
    }
  }

  lemma FileFits(c: Contract, k: Codec, b: Build, t: Tree, i: nat)
    requires Accepted(c) && Validated(c, b) && Sized(c, k, b) && i < |c.members| && Placed(c.members, k, b, t, i)
    ensures var m := c.members[i];
            t[m.path].File? && t[m.path].executable == m.executable && 0 < |t[m.path].content| <= m.limit
  {
    hide Limit, Shaped, Sum;
    LimitIs(c, i);
  }

  lemma NameFits(c: Contract, k: Codec, b: Build, t: Tree, p: Path)
    requires Accepted(c) && Validated(c, b) && Sized(c, k, b) && Clean(c.members) && Complete(c.members, k, b, t) && p in t
    ensures Fits(c.members, EntryOf(p, t[p])) && Expected(c.members, p)
  {
    hide Shaped, Sum, Limit, Validated, Sized, Placed, Clean, Complete, Expected, At, Plain;
    var ms := c.members;
    StagedPlain(ms, k, b, t, p);
    StagedExpected(ms, k, b, t, p);
    forall i | 0 <= i < |ms| && ms[i].path == p
      ensures t[p].File? && t[p].executable == ms[i].executable && 0 < |t[p].content| <= ms[i].limit
    {
      StagedPlaced(ms, k, b, t, i);
      FileFits(c, k, b, t, i);
    }
  }

  lemma StagedPlaced(ms: seq<Member>, k: Codec, b: Build, t: Tree, i: nat)
    requires Clean(ms) && Complete(ms, k, b, t) && i < |ms|
    ensures Placed(ms, k, b, t, i)
  {
  }

  /** A clean staged tree has what is expected, directories away from the members. */
  lemma StagedExpected(ms: seq<Member>, k: Codec, b: Build, t: Tree, p: Path)
    requires Clean(ms) && Complete(ms, k, b, t)
    ensures p in t <==> Expected(ms, p)
    ensures p in t && !At(ms, p) ==> t[p].Dir?
  {
    hide Directory, Above;
    if Owned(ms, p) {
      var i :| 0 <= i < |ms| && Parts(ms[i].path) == p;
      PlainParts(ms[i].path);
      assert At(ms, p);
    }
    if At(ms, p) {
      var i :| 0 <= i < |ms| && ms[i].path == p;
      PlainParts(ms[i].path);
      assert Owned(ms, p);
    }
    assert Directory(ms, p) ==> IsDir(t, p);
  }

  function Paths(ms: seq<Member>): (ps: seq<Path>)
    ensures |ps| == |ms| && forall i :: 0 <= i < |ms| ==> ps[i] == ms[i].path
  {
    seq(|ms|, i requires 0 <= i < |ms| => ms[i].path)
  }

  function SizeAt(t: Tree): (f: Path -> nat) {
    p => if p in t then Size(t[p]) else 0
  }

  lemma SizeElsewhere(ms: seq<Member>, k: Codec, b: Build, t: Tree, p: Path)
    requires Clean(ms) && Complete(ms, k, b, t) && p !in Paths(ms)
    ensures SizeAt(t)(p) == 0
  {
    StagedExpected(ms, k, b, t, p);
  }

  lemma PackageBytes(t: Tree, names: seq<Path>)
    requires Lists(names, t)
    ensures Sum(Package(t, names), EntrySize) == Sum(names, SizeAt(t))
  {
    SumMap(Package(t, names), names, EntrySize, SizeAt(t));
  }

  /** The bytes of a clean release are the bytes of its members. */
  lemma StagedBytes(ms: seq<Member>, k: Codec, b: Build, t: Tree, names: seq<Path>)
    requires Shaped(ms) && Clean(ms) && Complete(ms, k, b, t) && Lists(names, t)
    ensures Sum(Package(t, names), EntrySize) == Sum(Ids(ms), Sizes(k, b))
  {
    hide *;
    PackageBytes(t, names);
    MemberPaths(ms, k, b, t, names);
    SumWithin(names, Paths(ms), SizeAt(t));
    SumMap(Paths(ms), Ids(ms), SizeAt(t), Sizes(k, b));
  }

  lemma MemberPaths(ms: seq<Member>, k: Codec, b: Build, t: Tree, names: seq<Path>)
    requires Shaped(ms) && Clean(ms) && Complete(ms, k, b, t) && Lists(names, t)
    ensures Distinct(names) && Distinct(Paths(ms)) && forall p :: p in Paths(ms) ==> p in names
    ensures forall i :: 0 <= i < |ms| ==> SizeAt(t)(Paths(ms)[i]) == Sizes(k, b)(Ids(ms)[i])
    ensures forall p :: p !in Paths(ms) ==> SizeAt(t)(p) == 0
  {
    PathsDistinct(ms);
    forall p | p !in Paths(ms) ensures SizeAt(t)(p) == 0 {
      SizeElsewhere(ms, k, b, t, p);
    }
    forall i | 0 <= i < |ms| ensures ms[i].path in t && SizeAt(t)(ms[i].path) == Sizes(k, b)(ms[i].id) {
      MemberSize(ms, k, b, t, i);
    }
    hide Shaped, Clean, Complete, SizeAt, Sizes, Distinct;
  }

  lemma PathsDistinct(ms: seq<Member>)
    requires Shaped(ms)
    ensures Distinct(Paths(ms))
  {
  }

  lemma MemberSize(ms: seq<Member>, k: Codec, b: Build, t: Tree, i: nat)
    requires Clean(ms) && Complete(ms, k, b, t) && i < |ms|
    ensures ms[i].path in t && SizeAt(t)(ms[i].path) == Sizes(k, b)(ms[i].id)
  {
    assert Placed(ms, k, b, t, i);
  }

  lemma StagedHolds(ms: seq<Member>, k: Codec, b: Build, t: Tree, names: seq<Path>, i: nat)
    requires Clean(ms) && Complete(ms, k, b, t) && Lists(names, t) && i < |ms|
    ensures Holds(Package(t, names), ms[i].path, Content(k, b, ms[i].id))
  {
    assert Placed(ms, k, b, t, i);
    hide Clean, Complete, Content;
    assert ms[i].path in names;
    var j :| 0 <= j < |names| && names[j] == ms[i].path;
    assert Package(t, names)[j].name == ms[i].path;
  }

  lemma StagedAttested(ms: seq<Member>, k: Codec, b: Build, t: Tree, names: seq<Path>)
    requires Shaped(ms) && Clean(ms) && Complete(ms, k, b, t) && Lists(names, t) && Faithful(k) && |b(WasmHost)| > 0
    ensures Holds(Package(t, names), ms[Index(ms, WasmHostIdentity)].path, ReceiptFor(k, b(WasmHost)))
    ensures Holds(Package(t, names), ms[Index(ms, WasmHost)].path, b(WasmHost))
    ensures Attested(k, ReceiptFor(k, b(WasmHost)), b(WasmHost))
  {
    hide Holds;
    StagedHolds(ms, k, b, t, names, Index(ms, WasmHostIdentity));
    StagedHolds(ms, k, b, t, names, Index(ms, WasmHost));
  }

  /** A clean release verifies. */
  lemma CleanVerifies(c: Contract, k: Codec, b: Build, t: Tree, names: seq<Path>)
    requires Accepted(c) && Validated(c, b) && Sized(c, k, b) && Faithful(k) && Clean(c.members)
    requires Complete(c.members, k, b, t) && Lists(names, t)
    ensures Verified(c, k, Package(t, names))
  {
    hide Fits, Expected, Complete, Clean, Sum, AllFit, Named, Receipted;
    BudgetsSuffice(c, k, b);
    hide *;
    StagedBytes(c.members, k, b, t, names);
    StagedReceipted(c, k, b, t, names);
    StagedFits(c, k, b, t, names);
    StagedNamed(c.members, k, b, t, names);
  }

  lemma StagedReceipted(c: Contract, k: Codec, b: Build, t: Tree, names: seq<Path>)
    requires Accepted(c) && Validated(c, b) && Clean(c.members) && Complete(c.members, k, b, t) && Lists(names, t) && Faithful(k)
    ensures Receipted(c.members, k, Package(t, names))
  {
    StagedAttested(c.members, k, b, t, names);
  }

  lemma StagedNamed(ms: seq<Member>, k: Codec, b: Build, t: Tree, names: seq<Path>)
    requires Clean(ms) && Complete(ms, k, b, t) && Lists(names, t)
    ensures Named(ms, Names(Package(t, names)))
  {
    assert Names(Package(t, names)) == names;
    forall p ensures p in names <==> Expected(ms, p) {
      StagedExpected(ms, k, b, t, p);
    }
  }

  lemma StagedFits(c: Contract, k: Codec, b: Build, t: Tree, names: seq<Path>)
    requires Accepted(c) && Validated(c, b) && Sized(c, k, b) && Clean(c.members) && Complete(c.members, k, b, t) && Lists(names, t)
    ensures AllFit(c.members, Package(t, names))
  {
    hide Fits, Complete, Clean, Accepted, Validated, Sized;
    var es := Package(t, names);
    forall i | 0 <= i < |es| ensures Fits(c.members, es[i]) {
      assert names[i] in names;
      NameFits(c, k, b, t, names[i]);
    }
  }

  /** And only a clean release does. */
  lemma VerifiedIsClean(c: Contract, k: Codec, b: Build, t: Tree, names: seq<Path>)
    requires Shaped(c.members) && Complete(c.members, k, b, t) && Lists(names, t) && Verified(c, k, Package(t, names))
    ensures Clean(c.members)
  {
    hide Receipted, AllFit, Sum, Complete;
    var ms := c.members;
    assert Names(Package(t, names)) == names;
    forall i | 0 <= i < |ms| ensures Plain(ms[i].path) && ms[i].path in t {
      assert At(ms, ms[i].path);
      assert Expected(ms, ms[i].path);
      StagedPlain(ms, k, b, t, ms[i].path);
    }
    hide Verified, Shaped, Named;
    forall i, j | 0 <= i < |ms| && 0 <= j < |ms| ensures !Above(ms[i].path, ms[j].path) {
      NotAbove(ms, k, b, t, i, j);
    }
  }

  /** A plain member is a file, and a path above another is a directory. */
  lemma NotAbove(ms: seq<Member>, k: Codec, b: Build, t: Tree, i: nat, j: nat)
    requires Complete(ms, k, b, t) && i < |ms| && j < |ms| && Plain(ms[i].path)
    ensures !Above(ms[i].path, ms[j].path)
  {
    PlainParts(ms[i].path);
    assert IsFile(t, Parts(ms[i].path));
    assert Directory(ms, ms[i].path) ==> IsDir(t, ms[i].path);
  }

  /** The archive format holds every name and size of the release, and the time. */
  ghost predicate Archivable(root: Name, epoch: int, ms: seq<Member>, k: Codec, b: Build) {
    && 0 <= epoch < TIME_LIMIT && NameHeld(root, [], true)
    && (forall d :: Directory(ms, d) ==> NameHeld(root, d, true))
    && (forall i :: 0 <= i < |ms| ==> NameHeld(root, ms[i].path, false) && |Content(k, b, ms[i].id)| < NUMBER_LIMIT)
  }

  /** For a clean staged tree that is what packaging its listing needs. */
  lemma StagedHeld(root: Name, ms: seq<Member>, k: Codec, b: Build, t: Tree, epoch: int, names: seq<Path>)
    requires Clean(ms) && Complete(ms, k, b, t) && Lists(names, t)
    ensures Archivable(root, epoch, ms, k, b) <==>
              0 <= epoch < TIME_LIMIT && forall i :: 0 <= i < |names| ==> Storable(root, t, names[i])
  {
    hide NameHeld, Directory;
    if Archivable(root, epoch, ms, k, b) {
      forall i | 0 <= i < |names| ensures Storable(root, t, names[i]) {
        assert names[i] in names;
        PathHeld(root, ms, k, b, t, epoch, names[i]);
      }
    } else if 0 <= epoch < TIME_LIMIT && forall i :: 0 <= i < |names| ==> Storable(root, t, names[i]) {
      forall p | p in t ensures Storable(root, t, p) {
        assert p in names;
      }
      assert [] in t;
      forall d | Directory(ms, d) ensures NameHeld(root, d, true) {
        assert IsDir(t, d);
      }
      forall i | 0 <= i < |ms| ensures NameHeld(root, ms[i].path, false) && |Content(k, b, ms[i].id)| < NUMBER_LIMIT {
        StagedPlaced(ms, k, b, t, i);
      }
      assert false;
    }
  }

  lemma PathHeld(root: Name, ms: seq<Member>, k: Codec, b: Build, t: Tree, epoch: int, p: Path)
    requires Clean(ms) && Complete(ms, k, b, t) && Archivable(root, epoch, ms, k, b) && p in t
    ensures Held(root, p, t[p])
  {
    StagedExpected(ms, k, b, t, p);
    if At(ms, p) {
      var i :| 0 <= i < |ms| && ms[i].path == p;
      StagedPlaced(ms, k, b, t, i);
    }
  }

  /** A clean release that verifies has an installer and a receipt within their limits. */
  lemma VerifiedIsSized(c: Contract, k: Codec, b: Build, t: Tree, names: seq<Path>)
    requires Shaped(c.members) && Clean(c.members) && Complete(c.members, k, b, t) && Lists(names, t)
    requires AllFit(c.members, Package(t, names))
    ensures Sized(c, k, b)
  {
    MemberSized(c, k, b, t, names, Installer);
    MemberSized(c, k, b, t, names, WasmHostIdentity);
  }

  lemma MemberSized(c: Contract, k: Codec, b: Build, t: Tree, names: seq<Path>, id: Id)
    requires Shaped(c.members) && Clean(c.members) && Complete(c.members, k, b, t) && Lists(names, t)
    requires AllFit(c.members, Package(t, names))
    ensures 0 < |Content(k, b, id)| <= Limit(c, id)
  {
    hide Clean, Complete, Shaped, Limit, Content;
    var ms := c.members;
    var i := Index(ms, id);
    StagedPlaced(ms, k, b, t, i);
    LimitIs(c, i);
    var j :| 0 <= j < |names| && names[j] == ms[i].path;
    assert Fits(ms, Package(t, names)[j]);
  }

  /**
   From an accepted contract and a validated build to the verified archive: it goes
   through exactly when the installer can be rendered, it and the receipt are within
   their limits, every member path is written plainly, none lies above another, and the
   archive format holds every name, every size and the time.
   */
  method Publish(c: Contract, k: Codec, b: Build, root: Name, epoch: int,
                 sorted: set<Path> -> seq<Path>, listing: Tree -> seq<Path>)
    returns (ok: bool)
    requires Accepted(c) && Validated(c, b) && Faithful(k)
    requires (forall s :: Sorts(sorted, s)) && forall t :: Lists(listing(t), t)
    ensures ok <==> Renderable(c.members) && Sized(c, k, b) && Clean(c.members) && Archivable(root, epoch, c.members, k, b)
  {
    hide Sum, Renderable;
    assert Shaped(c.members);
    hide Accepted, Validated, Sized, Faithful, Verified, Complete, Clean, Shaped, Archivable, Held;
    if Clean(c.members) && Renderable(c.members) {
      CleanStages(c.members);
    }
    hide Stageable;
    var fs := new FileSystem();
    ok := Stage(fs, c.members, k, b, sorted);
    if ok {
      StageableRenders(c.members);
      var names := listing(fs.tree);
      assert Lists(names, fs.tree);
      var es := PackageTree(root, epoch, fs.tree, names);
      if Clean(c.members) {
        StagedHeld(root, c.members, k, b, fs.tree, epoch, names);
        CleanVerdict(c, k, b, fs.tree, names);
      }
      if es.None? {
        return false;
      }
      ok := VerifyArchive(c, k, es.value);
      if ok {
        VerifiedIsClean(c, k, b, fs.tree, names);
      }
    }
  }

  lemma CleanVerdict(c: Contract, k: Codec, b: Build, t: Tree, names: seq<Path>)
    requires Accepted(c) && Validated(c, b) && Faithful(k) && Clean(c.members)
    requires Complete(c.members, k, b, t) && Lists(names, t)
    ensures Verified(c, k, Package(t, names)) <==> Sized(c, k, b)
  {
    hide Accepted, Validated, Sized, Faithful, Complete, Clean, Shaped, AllFit, Named, Receipted, Sum;
    AcceptedIsShaped(c);
    if Sized(c, k, b) {
      CleanVerifies(c, k, b, t, names);
    }
    if Verified(c, k, Package(t, names)) {
      VerifiedIsSized(c, k, b, t, names);
    }
  }

  lemma AcceptedIsShaped(c: Contract)
    requires Accepted(c)
    ensures Shaped(c.members)
  {
    hide Shaped, Sum, Limit;
  }
}
