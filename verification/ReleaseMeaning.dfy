/**
 What a verified archive (scripts/release_contract.py, `verify_archive`) is: the release of
 some build and nothing else, so that a change to any one entry of it is found.
 */
module ReleaseMeaning {
  import opened Options
  import opened Texts
  import opened Release
  import opened ReleaseArchive

  /** The build whose members are the contents of an archive. */
  function BuildOf(ms: seq<Member>, es: seq<Entry>): (b: Build)
    requires Shaped(ms)
  {
    id => ContentAt(es, ms[Index(ms, id)].path)
  }

  function ContentAt(es: seq<Entry>, p: Path): (s: seq<Byte>) {
    if es == [] then [] else if es[0].name == p then es[0].content else ContentAt(es[1..], p)
  }

  /** Some entry has the name. */
  predicate Present(es: seq<Entry>, p: Path) {
    exists j :: 0 <= j < |es| && es[j].name == p
  }

  /** Entry `e` is the file of member `m`, with permissions rwxr-xr-x or rw-r--r--. */
  predicate FileOf(m: Member, content: seq<Byte>, e: Entry) {
    && e.kind == Regular && e.mode % 0x1000 == (if m.executable then 7 * 64 + 5 * 8 + 5 else 6 * 64 + 4 * 8 + 4)
    && e.content == content && 1 <= |content| <= m.limit
  }

  predicate EmptyFolder(e: Entry) {
    e.kind == Folder && e.mode % 0x1000 == 7 * 64 + 5 * 8 + 5 && e.content == []
  }

  /** The archive is the release of the build: its members, the folders around them, each once, within the limits. */
  ghost predicate Carries(c: Contract, k: Codec, es: seq<Entry>, b: Build) {
    var ms := c.members;
    && (forall i, j :: 0 <= i < j < |es| ==> es[i].name != es[j].name)
    && (forall i :: 0 <= i < |ms| ==> Present(es, ms[i].path))
    && (forall i, n :: 0 <= i < |ms| && 0 < n < |Parts(ms[i].path)| ==> Present(es, Parts(ms[i].path)[..n]))
    && Present(es, [])
    && (forall j :: 0 <= j < |es| ==> "" !in es[j].name && "." !in es[j].name && ".." !in es[j].name)
    && (forall i, j :: 0 <= i < |ms| && 0 <= j < |es| && ms[i].path == es[j].name ==> FileOf(ms[i], b(ms[i].id), es[j]))
    && (forall j :: 0 <= j < |es| && (forall i :: 0 <= i < |ms| ==> ms[i].path != es[j].name) ==>
          EmptyFolder(es[j]) && (es[j].name == [] || Around(ms, es[j].name)))
    && Sum(es, EntrySize) <= c.expandedMax
    && k.loads(b(WasmHostIdentity)) == Some((|b(WasmHost)|, k.sha(b(WasmHost))))
  }

  /** A folder on the way to some member. */
  predicate Around(ms: seq<Member>, p: Path) {
    exists i :: 0 <= i < |ms| && 0 < |p| < |Parts(ms[i].path)| && p == Parts(ms[i].path)[..|p|]
  }

  lemma AroundIsDirectory(ms: seq<Member>, p: Path)
    ensures Around(ms, p) <==> Directory(ms, p)
  {
    if Around(ms, p) {
      var i :| 0 <= i < |ms| && 0 < |p| < |Parts(ms[i].path)| && p == Parts(ms[i].path)[..|p|];
      assert Above(p, ms[i].path);
    }
    if Directory(ms, p) {
      var i :| 0 <= i < |ms| && Above(p, ms[i].path);
    }
  }

  lemma {:induction false} ContentFound(es: seq<Entry>, j: nat)
    requires j < |es| && Distinct(Names(es))
    ensures ContentAt(es, es[j].name) == es[j].content
    decreases |es|
  {
    if j > 0 {
      assert Names(es)[0] != Names(es)[j];
      var rest := es[1..];
      forall a, b | 0 <= a < b < |rest| ensures Names(rest)[a] != Names(rest)[b] {
        assert Names(es)[a + 1] != Names(es)[b + 1];
      }
      ContentFound(rest, j - 1);
      assert rest[j - 1] == es[j];
    }
  }

  lemma PresentIs(es: seq<Entry>, p: Path)
    ensures Present(es, p) <==> p in Names(es)
  {
    if Present(es, p) {
      var j :| 0 <= j < |es| && es[j].name == p;
      assert Names(es)[j] == p;
    }
    if p in Names(es) {
      var j :| 0 <= j < |es| && Names(es)[j] == p;
      assert es[j].name == p;
    }
  }

  /** A verified archive is the release of the build made of its contents. */
  lemma VerifiedCarries(c: Contract, k: Codec, es: seq<Entry>)
    requires Shaped(c.members) && Verified(c, k, es)
    ensures Carries(c, k, es, BuildOf(c.members, es))
  {
    hide Shaped, Sum, Parts, Attested, Receipted, Expected, Fits, Present, Around;
    var ms, b := c.members, BuildOf(c.members, es);
    assert forall i, j :: 0 <= i < j < |es| ==> es[i].name != es[j].name by {
      assert forall i, j :: 0 <= i < j < |es| ==> Names(es)[i] != Names(es)[j];
      assert forall i :: 0 <= i < |es| ==> Names(es)[i] == es[i].name;
    }
    forall i | 0 <= i < |ms| ensures Present(es, ms[i].path) {
      MemberExpected(ms, i);
      PresentIs(es, ms[i].path);
    }
    forall i, n | 0 <= i < |ms| && 0 < n < |Parts(ms[i].path)| ensures Present(es, Parts(ms[i].path)[..n]) {
      FolderExpected(ms, i, n);
      PresentIs(es, Parts(ms[i].path)[..n]);
    }
    RootExpected(ms);
    PresentIs(es, []);
    forall j | 0 <= j < |es| ensures "" !in es[j].name && "." !in es[j].name && ".." !in es[j].name {
      EntryPlain(ms, es[j]);
    }
    forall i, j | 0 <= i < |ms| && 0 <= j < |es| && ms[i].path == es[j].name ensures FileOf(ms[i], b(ms[i].id), es[j]) {
      ContentFound(es, j);
      MemberEntry(ms, i, es[j]);
      BuildHas(ms, es, i);
    }
    forall j | 0 <= j < |es| && (forall i :: 0 <= i < |ms| ==> ms[i].path != es[j].name)
      ensures EmptyFolder(es[j]) && (es[j].name == [] || Around(ms, es[j].name))
    {
      assert Names(es)[j] == es[j].name;
      FolderEntry(ms, es[j]);
    }
    ReceiptCarried(c, k, es);
  }

  lemma MemberExpected(ms: seq<Member>, i: nat)
    requires i < |ms|
    ensures Expected(ms, ms[i].path)
  {
  }

  lemma FolderExpected(ms: seq<Member>, i: nat, n: nat)
    requires i < |ms| && 0 < n < |Parts(ms[i].path)|
    ensures Expected(ms, Parts(ms[i].path)[..n])
  {
    assert Above(Parts(ms[i].path)[..n], ms[i].path);
  }

  lemma RootExpected(ms: seq<Member>)
    ensures Expected(ms, [])
  {
  }

  lemma EntryPlain(ms: seq<Member>, e: Entry)
    requires Fits(ms, e)
    ensures "" !in e.name && "." !in e.name && ".." !in e.name
  {
  }

  lemma MemberEntry(ms: seq<Member>, i: nat, e: Entry)
    requires i < |ms| && ms[i].path == e.name && Fits(ms, e)
    ensures FileOf(ms[i], e.content, e)
  {
  }

  lemma FolderEntry(ms: seq<Member>, e: Entry)
    requires Fits(ms, e) && Expected(ms, e.name) && forall i :: 0 <= i < |ms| ==> ms[i].path != e.name
    ensures EmptyFolder(e) && (e.name == [] || Around(ms, e.name))
  {
    AroundIsDirectory(ms, e.name);
  }

  lemma BuildHas(ms: seq<Member>, es: seq<Entry>, i: nat)
    requires Shaped(ms) && i < |ms|
    ensures BuildOf(ms, es)(ms[i].id) == ContentAt(es, ms[i].path)
  {
    OnlyIndex(ms, ms[i].id);
    hide Shaped;
  }

  lemma HeldContent(es: seq<Entry>, p: Path, content: seq<Byte>)
    requires Distinct(Names(es)) && Holds(es, p, content)
    ensures ContentAt(es, p) == content
  {
    var j :| 0 <= j < |es| && es[j].name == p && es[j].kind == Regular && es[j].content == content;
    ContentFound(es, j);
  }

  lemma ReceiptCarried(c: Contract, k: Codec, es: seq<Entry>)
    requires Shaped(c.members) && Distinct(Names(es)) && Receipted(c.members, k, es)
    ensures var b := BuildOf(c.members, es);
            k.loads(b(WasmHostIdentity)) == Some((|b(WasmHost)|, k.sha(b(WasmHost))))
  {
    var ms := c.members;
    var r, h :| Holds(es, ms[Index(ms, WasmHostIdentity)].path, r) && Holds(es, ms[Index(ms, WasmHost)].path, h) && Attested(k, r, h);
    hide Holds, Shaped;
    HeldContent(es, ms[Index(ms, WasmHostIdentity)].path, r);
    HeldContent(es, ms[Index(ms, WasmHost)].path, h);
  }

  /** And the release of any build within the limits is verified. */
  lemma CarriedVerifies(c: Contract, k: Codec, es: seq<Entry>, b: Build)
    requires Shaped(c.members) && Carries(c, k, es, b)
    ensures Verified(c, k, es)
  {
    hide Shaped, Sum, Parts, Receipted, Fits, Named;
    CarriedNamed(c, k, es, b);
    forall j | 0 <= j < |es| ensures Fits(c.members, es[j]) {
      CarriedFits(c, k, es, b, j);
    }
    CarriedReceipt(c, k, es, b);
  }

  lemma CarriedNamed(c: Contract, k: Codec, es: seq<Entry>, b: Build)
    requires Carries(c, k, es, b)
    ensures Named(c.members, Names(es))
  {
    hide Sum, Parts, FileOf, EmptyFolder, Present, Around;
    var ms := c.members;
    forall p ensures p in Names(es) <==> Expected(ms, p) {
      PresentIs(es, p);
      AroundIsDirectory(ms, p);
      if Present(es, p) {
        PresentExpected(c, k, es, b, p);
      }
      if Expected(ms, p) {
        ExpectedPresent(c, k, es, b, p);
      }
    }
  }

  lemma PresentExpected(c: Contract, k: Codec, es: seq<Entry>, b: Build, p: Path)
    requires Carries(c, k, es, b) && Present(es, p)
    ensures Expected(c.members, p)
  {
    hide Sum, Parts, FileOf, EmptyFolder, Around, Directory;
    var j :| 0 <= j < |es| && es[j].name == p;
    AroundIsDirectory(c.members, p);
    assert At(c.members, p) || forall i :: 0 <= i < |c.members| ==> c.members[i].path != es[j].name;
  }

  lemma ExpectedPresent(c: Contract, k: Codec, es: seq<Entry>, b: Build, p: Path)
    requires Carries(c, k, es, b) && Expected(c.members, p)
    ensures Present(es, p)
  {
    hide Sum, Parts, FileOf, EmptyFolder, Around, Present;
    var ms := c.members;
    if Directory(ms, p) {
      var i :| 0 <= i < |ms| && Above(p, ms[i].path);
      assert p == Parts(ms[i].path)[..|p|];
    }
  }

  lemma CarriedFits(c: Contract, k: Codec, es: seq<Entry>, b: Build, j: nat)
    requires Carries(c, k, es, b) && j < |es|
    ensures Fits(c.members, es[j])
  {
    hide Sum, Parts, Around, Present;
  }

  lemma CarriedReceipt(c: Contract, k: Codec, es: seq<Entry>, b: Build)
    requires Shaped(c.members) && Carries(c, k, es, b)
    ensures Receipted(c.members, k, es)
  {
    hide Shaped, Sum, Parts, Around;
    var ms := c.members;
    CarriedHolds(c, k, es, b, Index(ms, WasmHostIdentity));
    CarriedHolds(c, k, es, b, Index(ms, WasmHost));
    hide Carries, Holds;
    assert Attested(k, b(WasmHostIdentity), b(WasmHost));
  }

  lemma CarriedHolds(c: Contract, k: Codec, es: seq<Entry>, b: Build, i: nat)
    requires Carries(c, k, es, b) && i < |c.members|
    ensures Holds(es, c.members[i].path, b(c.members[i].id)) && |b(c.members[i].id)| > 0
  {
    hide Sum, Parts, Around;
    var j :| 0 <= j < |es| && es[j].name == c.members[i].path;
    assert FileOf(c.members[i], b(c.members[i].id), es[j]);
  }

  /** An archive verifies exactly if it is the release of some build. */
  lemma VerifiedIsRelease(c: Contract, k: Codec, es: seq<Entry>)
    requires Shaped(c.members)
    ensures Verified(c, k, es) <==> exists b :: Carries(c, k, es, b)
  {
    hide Verified, Carries, Shaped;
    if Verified(c, k, es) {
      VerifiedCarries(c, k, es);
    }
    forall b | Carries(c, k, es, b) ensures Verified(c, k, es) {
      CarriedVerifies(c, k, es, b);
    }
  }

  // ---------------------------------------------------------------------------
  // Changes are found

  /** Another name, type or permission for one entry, or a file emptied or a folder filled: the archive no longer verifies. */
  lemma ChangeFound(c: Contract, k: Codec, es: seq<Entry>, j: nat, e: Entry)
    requires Shaped(c.members) && Verified(c, k, es) && j < |es|
    requires e.name != es[j].name || e.kind != es[j].kind || e.mode % 0x1000 != es[j].mode % 0x1000
             || (e.content == []) != (es[j].content == [])
    ensures !Verified(c, k, es[j := e])
  {
    hide Shaped, Receipted, Sum, Named, Fits;
    var changed := es[j := e];
    assert Names(changed) == Names(es)[j := e.name];
    if Named(c.members, Names(changed)) && AllFit(c.members, changed) {
      SameName(c.members, Names(es), j, e.name);
      assert changed[j] == e;
      SameFit(c.members, es[j], e);
      assert false;
    }
  }

  lemma SameName(ms: seq<Member>, names: seq<Path>, j: nat, p: Path)
    requires j < |names| && Named(ms, names) && Named(ms, names[j := p])
    ensures p == names[j]
  {
    hide Expected;
    assert names[j := p][j] == p;
    assert p in names[j := p] && Expected(ms, p) && p in names;
    var i :| 0 <= i < |names| && names[i] == p;
    assert names[j := p][i] == p;
    assert i == j;
  }

  lemma SameFit(ms: seq<Member>, e: Entry, f: Entry)
    requires Fits(ms, e) && Fits(ms, f) && e.name == f.name
    ensures e.kind == f.kind && e.mode % 0x1000 == f.mode % 0x1000 && (e.content == [] <==> f.content == [])
  {
  }

  /** So are a missing entry and an additional one. */
  lemma LossFound(c: Contract, k: Codec, es: seq<Entry>, j: nat, e: Entry)
    requires Shaped(c.members) && Verified(c, k, es) && j < |es|
    ensures !Verified(c, k, es[..j] + es[j + 1..]) && !Verified(c, k, es + [e])
  {
    hide Named, Shaped, Receipted, Sum, Fits, AllFit;
    var less, more := es[..j] + es[j + 1..], es + [e];
    assert Names(less) == Names(es)[..j] + Names(es)[j + 1..];
    assert Names(more) == Names(es) + [e.name];
    AsMany(c.members, Names(es), Names(less));
    AsMany(c.members, Names(es), Names(more));
  }

  /** Two lists of the same names, each once, are equally long. */
  lemma AsMany(ms: seq<Member>, names: seq<Path>, other: seq<Path>)
    requires Named(ms, names) && |other| != |names|
    ensures !Named(ms, other)
  {
    hide Expected;
    if Named(ms, other) {
      var all := set p | p in names;
      assert all == set p | p in other;
      CountDistinct(names);
      CountDistinct(other);
      assert false;
    }
  }

  lemma {:induction false} CountDistinct(names: seq<Path>)
    requires Distinct(names)
    ensures |set p | p in names| == |names|
  {
    if names != [] {
      var n := |names| - 1;
      var init := names[..n];
      CountDistinct(init);
      assert (set p | p in names) == (set p | p in init) + {names[n]};
      assert names[n] !in init;
    }
  }
}
