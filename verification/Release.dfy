/**
 The release contract (scripts/release_contract.py) and the packager
 (scripts/package-release.py): when a contract and a build that are accepted lead to an
 archive that verifies. The platform is fixed and its member paths are resolved.
 */
module Release {
  import opened Options
  import opened Texts

  type Name = string

  /** A path: the names between its slashes. A member's path may still hold empty and dot names. */
  type Path = seq<Name>

  datatype Id = Installer | Engine | JsHost | WasmHost | WasmHostIdentity | Native | Licenses

  const IDS: seq<Id> := [Installer, Engine, JsHost, WasmHost, WasmHostIdentity, Native, Licenses]

  datatype Member = Member(id: Id, path: Path, executable: bool, limit: nat)

  datatype Budgets = Budgets(engine: nat, wasmHost: nat, jsBundle: nat)

  datatype Contract = Contract(expandedMax: nat, members: seq<Member>, budgets: Budgets)

  /** The parts of a path as the path library sees them. */
  function Parts(p: Path): (q: Path)
    ensures |q| <= |p| && forall n :: n in q <==> n in p && n != "" && n != "."
  {
    if p == [] then [] else (if p[0] == "" || p[0] == "." then [] else [p[0]]) + Parts(p[1..])
  }

  predicate Plain(p: Path) {
    "" !in p && "." !in p
  }

  /** A path without empty and dot names is its own parts, and only such a path is. */
  lemma {:induction false} PlainParts(p: Path)
    ensures Plain(Parts(p)) && (Parts(p) == p <==> Plain(p))
  {
    if p != [] {
      PlainParts(p[1..]);
      assert p == [p[0]] + p[1..];
      if Plain(p) {
        assert Plain(p[1..]);
      }
    }
  }

  // ---------------------------------------------------------------------------
  // The contract and the build

  predicate Distinct<T(==)>(s: seq<T>) {
    forall i, j :: 0 <= i < j < |s| ==> s[i] != s[j]
  }

  function Ids(ms: seq<Member>): (ids: seq<Id>)
    ensures |ids| == |ms| && forall i :: 0 <= i < |ms| ==> ids[i] == ms[i].id
  {
    seq(|ms|, i requires 0 <= i < |ms| => ms[i].id)
  }

  /** The first member with the id. */
  function ById(ms: seq<Member>, id: Id): (m: Member)
    requires exists i :: 0 <= i < |ms| && ms[i].id == id
    ensures m in ms && m.id == id
  {
    if ms[0].id == id then ms[0] else ById(ms[1..], id)
  }

  /** Each required member once, and no path twice. */
  predicate Shaped(ms: seq<Member>) {
    && Distinct(Ids(ms)) && |ms| == |IDS| && (forall id: Id :: id in Ids(ms))
    && (forall i, j :: 0 <= i < j < |ms| ==> ms[i].path != ms[j].path)
    && (forall i :: 0 <= i < |ms| ==> ms[i].limit > 0 && ms[i].path != [] && ms[i].path[0] != "" && ".." !in ms[i].path)
  }

  function Limit(c: Contract, id: Id): (n: nat)
    requires Shaped(c.members)
  {
    assert id in Ids(c.members);
    ById(c.members, id).limit
  }

  function LimitOf(m: Member): (n: nat) {
    m.limit
  }

  /** What a name may consist of where the installer spells it out as a shell word. */
  predicate ShellSafe(c: char) {
    'A' <= c <= 'Z' || 'a' <= c <= 'z' || '0' <= c <= '9' || c in "_.-"
  }

  predicate ShellWord(n: Name) {
    forall j :: 0 <= j < |n| ==> ShellSafe(n[j])
  }

  /** The installer can be rendered: every member path is a shell word. */
  predicate Renderable(ms: seq<Member>) {
    forall i, n :: 0 <= i < |ms| && n in ms[i].path ==> ShellWord(n)
  }

  /** The characters a contract may use; a closing brace is one of them even outside the template marker. */
  predicate Spelled(p: Path) {
    forall n, j :: n in p && 0 <= j < |n| ==> ShellSafe(n[j]) || n[j] == '}'
  }

  /** For an accepted contract that comes down to closing braces. */
  lemma RenderableIs(ms: seq<Member>)
    requires forall i :: 0 <= i < |ms| ==> Spelled(ms[i].path)
    ensures Renderable(ms) <==> forall i, n :: 0 <= i < |ms| && n in ms[i].path ==> '}' !in n
  {
    forall i, n | 0 <= i < |ms| && n in ms[i].path ensures ShellWord(n) <==> '}' !in n {
      assert Spelled(ms[i].path);
    }
  }

  /** What loading a contract checks of one platform. */
  predicate Accepted(c: Contract) {
    && Shaped(c.members) && (forall i :: 0 <= i < |c.members| ==> Spelled(c.members[i].path))
    && 0 < c.expandedMax <= Sum(c.members, LimitOf)
    && c.budgets.engine > 0 && c.budgets.wasmHost > 0 && c.budgets.jsBundle > 0
    && c.budgets.engine <= Limit(c, Engine) && c.budgets.wasmHost <= Limit(c, WasmHost)
    && c.budgets.jsBundle <= Limit(c, JsHost)
    && Limit(c, Installer) + Limit(c, WasmHostIdentity) + Limit(c, Licenses)
       + c.budgets.engine + c.budgets.wasmHost + c.budgets.jsBundle <= c.expandedMax
  }

  /** The bytes of every member. */
  type Build = Id -> seq<Byte>

  /** What validating a build checks: no empty or oversized artifact, and every product below its budget. */
  predicate Validated(c: Contract, b: Build)
    requires Shaped(c.members)
  {
    && (forall id :: id in {Engine, WasmHost, JsHost, Native, Licenses} ==> 0 < |b(id)| <= Limit(c, id))
    && |b(Engine)| < c.budgets.engine && |b(WasmHost)| < c.budgets.wasmHost
    && |b(JsHost)| + |b(Native)| < c.budgets.jsBundle
  }

  // ---------------------------------------------------------------------------
  // Sums over listings

  function Sum<T>(s: seq<T>, f: T -> nat): (n: nat) {
    if s == [] then 0 else f(s[0]) + Sum(s[1..], f)
  }

  lemma {:induction false} SumConcat<T>(s: seq<T>, t: seq<T>, f: T -> nat)
    ensures Sum(s + t, f) == Sum(s, f) + Sum(t, f)
  {
    if s == [] {
      assert s + t == t;
    } else {
      assert (s + t)[1..] == s[1..] + t;
      SumConcat(s[1..], t, f);
    }
  }

  /** The sum over a listing is the sum over the things that count in it, in any order. */
  lemma {:induction false} SumWithin<T>(s: seq<T>, t: seq<T>, f: T -> nat)
    requires Distinct(s) && Distinct(t) && (forall x :: x in t ==> x in s) && forall x :: x in s && x !in t ==> f(x) == 0
    ensures Sum(s, f) == Sum(t, f)
  {
    if t == [] {
      SumZero(s, f);
    } else {
      assert t[0] in s;
      var k :| 0 <= k < |s| && s[k] == t[0];
      SumPick(s, k, f);
      Removed(s, t, k);
      SumWithin(s[..k] + s[k + 1..], t[1..], f);
    }
  }

  lemma {:induction false} SumZero<T>(s: seq<T>, f: T -> nat)
    requires forall x :: x in s ==> f(x) == 0
    ensures Sum(s, f) == 0
  {
    if s != [] {
      SumZero(s[1..], f);
    }
  }

  lemma {:induction false} SumMap<S, T>(s: seq<S>, t: seq<T>, f: S -> nat, g: T -> nat)
    requires |s| == |t| && forall i :: 0 <= i < |s| ==> f(s[i]) == g(t[i])
    ensures Sum(s, f) == Sum(t, g)
  {
    if s != [] {
      SumMap(s[1..], t[1..], f, g);
    }
  }

  lemma SumHead<T>(x: T, s: seq<T>, f: T -> nat)
    ensures Sum([x] + s, f) == f(x) + Sum(s, f)
  {
    assert ([x] + s)[1..] == s;
  }

  lemma SumPick<T>(t: seq<T>, k: nat, f: T -> nat)
    requires k < |t|
    ensures Sum(t, f) == f(t[k]) + Sum(t[..k] + t[k + 1..], f)
  {
    hide Sum;
    var rest := t[k + 1..];
    assert t == t[..k] + ([t[k]] + rest);
    SumConcat(t[..k], [t[k]] + rest, f);
    SumConcat(t[..k], rest, f);
    SumHead(t[k], rest, f);
  }

  lemma Removed<T>(s: seq<T>, t: seq<T>, k: nat)
    requires Distinct(s) && Distinct(t) && (forall x :: x in t ==> x in s) && t != [] && k < |s| && s[k] == t[0]
    ensures var u := s[..k] + s[k + 1..];
            && Distinct(u) && Distinct(t[1..]) && (forall x :: x in u <==> x in s && x != t[0])
            && (forall x :: x in t[1..] <==> x in t && x != t[0])
  {
    var u := s[..k] + s[k + 1..];
    forall x ensures x in u <==> x in s && x != s[k] {
      if x in s && x != s[k] {
        var j :| 0 <= j < |s| && s[j] == x;
        assert if j < k then u[j] == x else u[j - 1] == x;
      }
    }
    assert t == [t[0]] + t[1..];
  }

  lemma EveryId(id: Id)
    ensures id in IDS && Distinct(IDS)
  {
    assert IDS[0] == Installer && IDS[1] == Engine && IDS[2] == JsHost && IDS[3] == WasmHost;
    assert IDS[4] == WasmHostIdentity && IDS[5] == Native && IDS[6] == Licenses;
  }

  lemma SumOfIds(f: Id -> nat)
    ensures Sum(IDS, f)
            == f(Installer) + f(Engine) + f(JsHost) + f(WasmHost) + f(WasmHostIdentity) + f(Native) + f(Licenses)
  {
    SumConcat([Installer, Engine], [JsHost, WasmHost] + [WasmHostIdentity, Native] + [Licenses], f);
    SumConcat([JsHost, WasmHost] + [WasmHostIdentity, Native], [Licenses], f);
    SumConcat([JsHost, WasmHost], [WasmHostIdentity, Native], f);
    assert IDS == [Installer, Engine] + ([JsHost, WasmHost] + [WasmHostIdentity, Native] + [Licenses]);
    SumOfTwo(Installer, Engine, f);
    SumOfTwo(JsHost, WasmHost, f);
    SumOfTwo(WasmHostIdentity, Native, f);
  }

  lemma SumOfTwo<T>(x: T, y: T, f: T -> nat)
    ensures Sum([x, y], f) == f(x) + f(y)
  {
    var s := [x, y];
    assert s[1..] == [y] && s[1..][1..] == [];
    assert Sum(s[1..], f) == f(y) + Sum(s[1..][1..], f);
  }

  /** The budgets are enough: an accepted contract leaves room for every build it admits. */
  lemma BudgetsSuffice(c: Contract, k: Codec, b: Build)
    requires Accepted(c) && Validated(c, b)
    requires |b(Installer)| <= Limit(c, Installer) && |ReceiptFor(k, b(WasmHost))| <= Limit(c, WasmHostIdentity)
    ensures Sum(Ids(c.members), Sizes(k, b)) <= c.expandedMax
  {
    hide Sum, Limit;
    var f := Sizes(k, b);
    forall id: Id ensures id in IDS && Distinct(IDS) {
      EveryId(id);
    }
    SumWithin(Ids(c.members), IDS, f);
    SumOfIds(f);
  }

  /**
   In an accepted contract the extraction limits of the products never bind: a build is
   admitted exactly if nothing is empty, every product is below its budget, and the native
   library and the licenses are within their limits.
   */
  lemma BudgetsDecide(c: Contract, b: Build)
    requires Accepted(c)
    ensures Validated(c, b) <==>
            && (forall id :: id in {Engine, WasmHost, JsHost, Native, Licenses} ==> b(id) != [])
            && |b(Engine)| < c.budgets.engine && |b(WasmHost)| < c.budgets.wasmHost
            && |b(JsHost)| + |b(Native)| < c.budgets.jsBundle
            && |b(Native)| <= Limit(c, Native) && |b(Licenses)| <= Limit(c, Licenses)
  {
    hide Limit, Sum, Shaped;
    assert forall id :: id in {Engine, WasmHost, JsHost, Native, Licenses} ==> (b(id) != [] <==> 0 < |b(id)|);
  }

  // ---------------------------------------------------------------------------
  // The tree a release stages

  /** The directories a path needs: its proper prefixes, the release root not among them. */
  predicate Above(d: Path, p: Path) {
    0 < |d| < |Parts(p)| && d == Parts(p)[..|d|]
  }

  predicate Directory(ms: seq<Member>, d: Path) {
    exists i :: 0 <= i < |ms| && Above(d, ms[i].path)
  }

  /** Adds the directories above a path, the deepest first. */
  method AddParents(ds: set<Path>, p: Path) returns (all: set<Path>)
    ensures forall d :: d in all <==> d in ds || Above(d, p)
  {
    hide Parts;
    all := ds;
    var parts := Parts(p);
    var n := if |parts| == 0 then 0 else |parts| - 1;
    while n != 0
      invariant 0 <= n <= |parts| && (parts != [] ==> n < |parts|)
      invariant forall d :: d in all <==> d in ds || (Above(d, p) && |d| > n)
    {
      all := all + {parts[..n]};
      n := n - 1;
    }
  }

  /** Collects the directories of every member, each with all its parents. */
  method ArchiveDirectories(ms: seq<Member>) returns (ds: set<Path>)
    ensures forall d :: d in ds <==> Directory(ms, d)
  {
    hide Above;
    ds := {};
    var k := 0;
    while k < |ms|
      invariant 0 <= k <= |ms|
      invariant forall d :: d in ds <==> Directory(ms[..k], d)
    {
      ds := AddParents(ds, ms[k].path);
      forall d ensures d in ds <==> Directory(ms[..k + 1], d) {
        DirectoryMore(ms, k, d);
      }
      k := k + 1;
    }
    assert ms[..k] == ms;
  }

  lemma DirectoryMore(ms: seq<Member>, k: nat, d: Path)
    requires k < |ms|
    ensures Directory(ms[..k + 1], d) <==> Directory(ms[..k], d) || Above(d, ms[k].path)
  {
    hide Above;
    if Directory(ms[..k], d) {
      var i :| 0 <= i < k && Above(d, ms[..k][i].path);
      assert ms[..k + 1][i] == ms[..k][i];
    }
    assert ms[..k + 1][k] == ms[k];
  }

  /** Member paths are written plainly, and none lies above another. */
  predicate Clean(ms: seq<Member>) {
    && (forall i :: 0 <= i < |ms| ==> Plain(ms[i].path))
    && (forall i, j :: 0 <= i < |ms| && 0 <= j < |ms| ==> !Above(ms[i].path, ms[j].path))
  }

  datatype Node = Dir | File(executable: bool, content: seq<Byte>)

  type Tree = map<Path, Node>

  predicate IsDir(t: Tree, p: Path) {
    p in t && t[p].Dir?
  }

  predicate IsFile(t: Tree, p: Path) {
    p in t && t[p].File?
  }

  /** The staged file system below the release root. */
  class FileSystem {
    var tree: Tree

    constructor ()
      ensures tree == map[]
    {
      tree := map[];
    }

    /** mkdir: the path is new, its parent a directory. */
    method MakeDirectory(p: Path) returns (ok: bool)
      modifies this
      ensures ok <==> p !in old(tree) && (p == [] || IsDir(old(tree), p[..|p| - 1]))
      ensures tree == if ok then old(tree)[p := Dir] else old(tree)
    {
      ok := p !in tree && (p == [] || IsDir(tree, p[..|p| - 1]));
      if ok {
        tree := tree[p := Dir];
      }
    }

    /** Copying an artifact: exclusive creation. */
    method Create(p: Path, executable: bool, content: seq<Byte>) returns (ok: bool)
      modifies this
      ensures ok <==> p != [] && p !in old(tree) && IsDir(old(tree), p[..|p| - 1])
      ensures tree == if ok then old(tree)[p := File(executable, content)] else old(tree)
    {
      ok := p != [] && p !in tree && IsDir(tree, p[..|p| - 1]);
      if ok {
        tree := tree[p := File(executable, content)];
      }
    }

    /** Writing atomically: a rename, which replaces a file and fails on a directory. */
    method Replace(p: Path, executable: bool, content: seq<Byte>) returns (ok: bool)
      requires p == [] || IsDir(tree, p[..|p| - 1])
      modifies this
      ensures ok <==> p != [] && !IsDir(old(tree), p)
      ensures tree == if ok then old(tree)[p := File(executable, content)] else old(tree)
    {
      ok := p != [] && !IsDir(tree, p);
      if ok {
        tree := tree[p := File(executable, content)];
      }
    }
  }

  /** A listing of the directories by depth, as sorting them gives it. */
  ghost predicate Listing(ms: seq<Member>, order: seq<Path>) {
    && Distinct(order) && (forall d :: d in order <==> Directory(ms, d))
    && (forall i, j :: 0 <= i < j < |order| ==> |order[i]| <= |order[j]|)
  }

  /** In such a listing a directory's parent comes before it. */
  lemma ParentFirst(ms: seq<Member>, order: seq<Path>, k: nat)
    requires Listing(ms, order) && k < |order|
    ensures order[k] != [] && (|order[k]| > 1 ==> order[k][..|order[k]| - 1] in order[..k])
  {
    var d := order[k];
    assert d in order;
    var i :| 0 <= i < |ms| && Above(d, ms[i].path);
    var u := d[..|d| - 1];
    if |d| > 1 {
      assert Above(u, ms[i].path);
      assert u in order;
      var j :| 0 <= j < |order| && order[j] == u;
      assert j < k;
    }
  }

  /** The base of the staged tree: the root and the directories, all directories. */
  ghost predicate Based(ms: seq<Member>, t: Tree) {
    IsDir(t, []) && forall d :: Directory(ms, d) ==> IsDir(t, d)
  }

  method MakeDirectories(fs: FileSystem, ms: seq<Member>, order: seq<Path>) returns (ok: bool)
    requires Listing(ms, order) && fs.tree == map[]
    modifies fs
    ensures ok && Based(ms, fs.tree) && forall p :: p in fs.tree <==> p == [] || Directory(ms, p)
  {
    ok := fs.MakeDirectory([]);
    var k := 0;
    while k < |order|
      invariant 0 <= k <= |order| && ok
      invariant forall p :: p in fs.tree <==> p == [] || p in order[..k]
      invariant forall p :: p in fs.tree ==> fs.tree[p].Dir?
    {
      ParentFirst(ms, order, k);
      assert order[k] !in order[..k];
      ok := fs.MakeDirectory(order[k]);
      assert order[..k + 1] == order[..k] + [order[k]];
      k := k + 1;
    }
    assert order[..k] == order;
  }

  // ---------------------------------------------------------------------------
  // Staging

  /** The digest, and the helper's receipt as it is written and read. */
  datatype Codec = Codec(
    sha: seq<Byte> -> seq<Byte>, dumps: (nat, seq<Byte>) -> seq<Byte>, loads: seq<Byte> -> Option<(nat, seq<Byte>)>)

  ghost predicate Faithful(k: Codec) {
    forall n: nat, d: seq<Byte> :: k.loads(k.dumps(n, d)) == Some((n, d))
  }

  function ReceiptFor(k: Codec, helper: seq<Byte>): (r: seq<Byte>) {
    k.dumps(|helper|, k.sha(helper))
  }

  /** The bytes a member ends up with: the receipt is made from the helper. */
  function Content(k: Codec, b: Build, id: Id): (s: seq<Byte>) {
    if id == WasmHostIdentity then ReceiptFor(k, b(WasmHost)) else b(id)
  }

  function Sizes(k: Codec, b: Build): (f: Id -> nat) {
    id => |Content(k, b, id)|
  }

  /** The node of member `i` in a release that is staged as intended. */
  predicate Placed(ms: seq<Member>, k: Codec, b: Build, t: Tree, i: nat)
    requires i < |ms|
  {
    ms[i].path in t && t[ms[i].path] == File(ms[i].executable, Content(k, b, ms[i].id))
  }

  /** Some member written so far has the path. */
  predicate Written(ms: seq<Member>, n: nat, p: Path)
    requires n <= |ms|
  {
    exists i :: 0 <= i < n && ms[i].id != WasmHostIdentity && Parts(ms[i].path) == p
  }

  /** The tree with the first `n` members, the receipt left out. */
  ghost predicate Filled(ms: seq<Member>, k: Codec, b: Build, t: Tree, n: nat)
    requires n <= |ms|
  {
    && Based(ms, t)
    && (forall p :: p in t ==> p == [] || Directory(ms, p) || Written(ms, n, p))
    && (forall i :: 0 <= i < n && ms[i].id != WasmHostIdentity ==> IsFile(t, Parts(ms[i].path)))
    && (Clean(ms) ==> forall i :: 0 <= i < n && ms[i].id != WasmHostIdentity ==> Placed(ms, k, b, t, i))
  }

  /** A member's parent is there, and in a clean contract its own path is free. */
  lemma Fresh(ms: seq<Member>, k: Codec, b: Build, t: Tree, n: nat, i: nat)
    requires Shaped(ms) && n <= |ms| && i < |ms| && Filled(ms, k, b, t, n)
    requires n <= i || ms[i].id == WasmHostIdentity
    ensures var p := Parts(ms[i].path); p != [] ==> IsDir(t, p[..|p| - 1])
    ensures Clean(ms) ==> Parts(ms[i].path) == ms[i].path != [] && ms[i].path !in t
  {
    var p := Parts(ms[i].path);
    if |p| > 1 {
      assert Above(p[..|p| - 1], ms[i].path);
      assert Directory(ms, p[..|p| - 1]);
    }
    if Clean(ms) {
      PlainParts(ms[i].path);
      forall j | 0 <= j < n && ms[j].id != WasmHostIdentity ensures Parts(ms[j].path) != p {
        PlainParts(ms[j].path);
        assert j != i;
      }
      assert !Directory(ms, p);
      assert !Written(ms, n, p);
    }
  }

  lemma FillSkip(ms: seq<Member>, k: Codec, b: Build, t: Tree, n: nat)
    requires n < |ms| && Filled(ms, k, b, t, n) && ms[n].id == WasmHostIdentity
    ensures Filled(ms, k, b, t, n + 1)
  {
    forall p | Written(ms, n, p) ensures Written(ms, n + 1, p) {
    }
  }

  lemma FillOne(ms: seq<Member>, k: Codec, b: Build, t: Tree, n: nat)
    requires Shaped(ms) && n < |ms| && Filled(ms, k, b, t, n) && ms[n].id != WasmHostIdentity
    requires Parts(ms[n].path) != [] && !IsDir(t, Parts(ms[n].path))
    ensures Filled(ms, k, b, t[Parts(ms[n].path) := File(ms[n].executable, b(ms[n].id))], n + 1)
  {
    hide Parts, Above, Directory, Shaped, Clean, Placed;
    var p := Parts(ms[n].path);
    var u := t[p := File(ms[n].executable, b(ms[n].id))];
    assert Written(ms, n + 1, p);
    forall q | Written(ms, n, q) ensures Written(ms, n + 1, q) {
    }
    forall d | Directory(ms, d) ensures IsDir(u, d) {
      assert IsDir(t, d);
    }
    if Clean(ms) {
      Fresh(ms, k, b, t, n, n);
      forall i | 0 <= i < n + 1 && ms[i].id != WasmHostIdentity ensures Placed(ms, k, b, u, i) {
        PlacedStill(ms, k, b, t, n, i);
      }
    }
  }

  lemma PlacedStill(ms: seq<Member>, k: Codec, b: Build, t: Tree, n: nat, i: nat)
    requires n < |ms| && i <= n && ms[n].id != WasmHostIdentity && ms[n].path !in t && (i < n ==> Placed(ms, k, b, t, i))
    ensures Placed(ms, k, b, t[ms[n].path := File(ms[n].executable, b(ms[n].id))], i)
  {
  }

  /**
   A file, not a directory, is due at the member's path, a copy finds no file there, and
   the installer can be rendered.
   */
  predicate Stages(ms: seq<Member>, i: nat)
    requires i < |ms|
  {
    var p := Parts(ms[i].path);
    && p != [] && !Directory(ms, p)
    && (ms[i].id != Installer && ms[i].id != WasmHostIdentity ==> !Written(ms, i, p))
    && (ms[i].id == Installer ==> Renderable(ms))
  }

  predicate Stageable(ms: seq<Member>) {
    forall i :: 0 <= i < |ms| ==> Stages(ms, i)
  }

  /** The receipt is staged last, over whatever is at its path. */
  lemma StageableIs(ms: seq<Member>, i: nat)
    requires Shaped(ms) && i < |ms| && ms[i].id == WasmHostIdentity
    ensures Stageable(ms) <==>
              && (forall j :: 0 <= j < |ms| && ms[j].id != WasmHostIdentity ==> Stages(ms, j))
              && Parts(ms[i].path) != [] && !Directory(ms, Parts(ms[i].path))
  {
    hide Parts, Directory, Written, Shaped, Renderable;
    forall j | 0 <= j < |ms| && ms[j].id == WasmHostIdentity ensures j == i {
      OnlyOne(ms, i, j);
    }
    assert Stages(ms, i) <==> Parts(ms[i].path) != [] && !Directory(ms, Parts(ms[i].path));
  }

  /** What is at a path of the tree so far. */
  lemma FilledAt(ms: seq<Member>, k: Codec, b: Build, t: Tree, n: nat, p: Path)
    requires n <= |ms| && Filled(ms, k, b, t, n)
    ensures p in t <==> p == [] || Directory(ms, p) || Written(ms, n, p)
    ensures IsDir(t, p) ==> p == [] || Directory(ms, p)
    ensures p == [] || Directory(ms, p) ==> IsDir(t, p)
  {
    hide Parts, Above, Directory, Clean, Placed;
    assert Directory(ms, p) ==> IsDir(t, p);
    if Written(ms, n, p) {
      var i :| 0 <= i < n && ms[i].id != WasmHostIdentity && Parts(ms[i].path) == p;
      assert IsFile(t, Parts(ms[i].path));
    }
  }

  lemma StageableRenders(ms: seq<Member>)
    requires Shaped(ms) && Stageable(ms)
    ensures Renderable(ms)
  {
    hide Renderable, Parts, Directory, Written;
    assert Stages(ms, Index(ms, Installer));
  }

  /** A clean contract whose installer can be rendered can be staged. */
  lemma CleanStages(ms: seq<Member>)
    requires Shaped(ms) && Clean(ms) && Renderable(ms)
    ensures Stageable(ms)
  {
    hide Renderable;
    forall i | 0 <= i < |ms| ensures Stages(ms, i) {
      PlainParts(ms[i].path);
      forall j | 0 <= j < i ensures Parts(ms[j].path) != Parts(ms[i].path) {
        PlainParts(ms[j].path);
      }
    }
  }

  method StageMembers(fs: FileSystem, ms: seq<Member>, k: Codec, b: Build) returns (ok: bool)
    requires Shaped(ms) && Filled(ms, k, b, fs.tree, 0)
    modifies fs
    ensures ok ==> Filled(ms, k, b, fs.tree, |ms|)
    ensures ok <==> forall i :: 0 <= i < |ms| && ms[i].id != WasmHostIdentity ==> Stages(ms, i)
  {
    hide Filled, Parts, Directory, Above, Shaped, Clean, Written, Renderable;
    var i := 0;
    while i < |ms|
      invariant 0 <= i <= |ms| && Filled(ms, k, b, fs.tree, i)
      invariant forall j :: 0 <= j < i && ms[j].id != WasmHostIdentity ==> Stages(ms, j)
    {
      var m := ms[i];
      if m.id == WasmHostIdentity {
        FillSkip(ms, k, b, fs.tree, i);
      } else {
        ghost var t := fs.tree;
        var p := Parts(m.path);
        Fresh(ms, k, b, t, i, i);
        FilledAt(ms, k, b, t, i, p);
        if m.id == Installer {
          if !Renderable(ms) {
            return false;
          }
          ok := fs.Replace(p, m.executable, b(m.id));
        } else {
          ok := fs.Create(p, m.executable, b(m.id));
        }
        if !ok {
          return;
        }
        FillOne(ms, k, b, t, i);
      }
      i := i + 1;
    }
    ok := true;
  }

  /** Some member has the path. */
  predicate Owned(ms: seq<Member>, p: Path) {
    exists i :: 0 <= i < |ms| && Parts(ms[i].path) == p
  }

  /** The staged tree: directories and a file per member, and nothing else; as intended if the contract is clean. */
  ghost predicate Complete(ms: seq<Member>, k: Codec, b: Build, t: Tree) {
    && Based(ms, t)
    && (forall p :: p in t <==> p == [] || Directory(ms, p) || Owned(ms, p))
    && (forall i :: 0 <= i < |ms| ==> IsFile(t, Parts(ms[i].path)))
    && (Clean(ms) ==> forall i :: 0 <= i < |ms| ==> Placed(ms, k, b, t, i))
  }

  lemma Finishing(ms: seq<Member>, k: Codec, b: Build, t: Tree, i: nat, receipt: seq<Byte>)
    requires Shaped(ms) && Filled(ms, k, b, t, |ms|) && i < |ms| && ms[i].id == WasmHostIdentity
    requires Parts(ms[i].path) != [] && !IsDir(t, Parts(ms[i].path))
    requires Clean(ms) ==> receipt == ReceiptFor(k, b(WasmHost))
    ensures Complete(ms, k, b, t[Parts(ms[i].path) := File(ms[i].executable, receipt)])
  {
    hide Parts, Directory, Clean, Shaped, Placed, Based, Filled, Owned, IsFile;
    var u := t[Parts(ms[i].path) := File(ms[i].executable, receipt)];
    if Clean(ms) {
      Fresh(ms, k, b, t, |ms|, i);
    }
    FinishBase(ms, k, b, t, i, receipt);
    forall j | 0 <= j < |ms| ensures IsFile(u, Parts(ms[j].path)) && (Clean(ms) ==> Placed(ms, k, b, u, j)) {
      FinishOne(ms, k, b, t, i, j, receipt);
    }
    forall q ensures q in u <==> q == [] || Directory(ms, q) || Owned(ms, q) {
      FinishKey(ms, k, b, t, i, receipt, q);
    }
  }

  lemma FinishBase(ms: seq<Member>, k: Codec, b: Build, t: Tree, i: nat, receipt: seq<Byte>)
    requires Filled(ms, k, b, t, |ms|) && i < |ms| && Parts(ms[i].path) != [] && !IsDir(t, Parts(ms[i].path))
    ensures Based(ms, t[Parts(ms[i].path) := File(ms[i].executable, receipt)])
  {
    hide Parts, Above, Directory, Clean;
    var u := t[Parts(ms[i].path) := File(ms[i].executable, receipt)];
    forall d | Directory(ms, d) ensures IsDir(u, d) {
      assert IsDir(t, d);
    }
  }

  lemma FinishKey(ms: seq<Member>, k: Codec, b: Build, t: Tree, i: nat, receipt: seq<Byte>, q: Path)
    requires Filled(ms, k, b, t, |ms|) && i < |ms|
    requires var u := t[Parts(ms[i].path) := File(ms[i].executable, receipt)];
             Based(ms, u) && forall j :: 0 <= j < |ms| ==> IsFile(u, Parts(ms[j].path))
    ensures q in t[Parts(ms[i].path) := File(ms[i].executable, receipt)] <==> q == [] || Directory(ms, q) || Owned(ms, q)
  {
    hide Parts, Above, Directory, Clean, Placed;
    if q in t {
      assert q == [] || Directory(ms, q) || Written(ms, |ms|, q);
    }
  }

  lemma FinishOne(ms: seq<Member>, k: Codec, b: Build, t: Tree, i: nat, j: nat, receipt: seq<Byte>)
    requires Shaped(ms) && Filled(ms, k, b, t, |ms|) && i < |ms| && ms[i].id == WasmHostIdentity && j < |ms|
    requires Clean(ms) ==> receipt == ReceiptFor(k, b(WasmHost)) && Parts(ms[i].path) == ms[i].path && ms[i].path !in t
    ensures var u := t[Parts(ms[i].path) := File(ms[i].executable, receipt)];
            IsFile(u, Parts(ms[j].path)) && (Clean(ms) ==> Placed(ms, k, b, u, j))
  {
    hide Parts, Above, Directory, Clean, Shaped;
    if j != i {
      assert ms[j].id != WasmHostIdentity by {
        if ms[j].id == WasmHostIdentity {
          OnlyOne(ms, i, j);
        }
      }
      assert IsFile(t, Parts(ms[j].path));
      assert Clean(ms) ==> Placed(ms, k, b, t, j);
    }
  }

  lemma OnlyOne(ms: seq<Member>, i: nat, j: nat)
    requires Shaped(ms) && i < |ms| && j < |ms| && ms[i].id == ms[j].id
    ensures i == j
  {
    assert Ids(ms)[i] == Ids(ms)[j];
  }

  /** What sorting a set of paths by depth gives. */
  ghost predicate Sorts(sorted: set<Path> -> seq<Path>, s: set<Path>) {
    && Distinct(sorted(s)) && (forall d :: d in sorted(s) <==> d in s)
    && (forall i, j :: 0 <= i < j < |sorted(s)| ==> |sorted(s)[i]| <= |sorted(s)[j]|)
  }

  /** Stages the release: the directories, the members, and last the receipt of the helper as staged. */
  method Stage(fs: FileSystem, ms: seq<Member>, k: Codec, b: Build, sorted: set<Path> -> seq<Path>) returns (ok: bool)
    requires Shaped(ms) && fs.tree == map[] && forall s :: Sorts(sorted, s)
    modifies fs
    ensures ok <==> Stageable(ms)
    ensures ok ==> Complete(ms, k, b, fs.tree)
  {
    hide Parts, Above, Directory, Clean, Filled, Written, Stageable, Complete;
    var ds := ArchiveDirectories(ms);
    assert Sorts(sorted, ds);
    ok := MakeDirectories(fs, ms, sorted(ds));
    StartFilled(ms, k, b, fs.tree);
    var i, h := Index(ms, WasmHostIdentity), Index(ms, WasmHost);
    StageableIs(ms, i);
    ok := StageMembers(fs, ms, k, b);
    if !ok {
      return;
    }
    ghost var t := fs.tree;
    FilledFile(ms, k, b, t, h);
    var receipt := ReceiptFor(k, fs.tree[Parts(ms[h].path)].content);
    Fresh(ms, k, b, t, |ms|, i);
    FilledAt(ms, k, b, t, |ms|, Parts(ms[i].path));
    ok := fs.Replace(Parts(ms[i].path), ms[i].executable, receipt);
    if ok {
      Finishing(ms, k, b, t, i, receipt);
    }
  }

  lemma StartFilled(ms: seq<Member>, k: Codec, b: Build, t: Tree)
    requires Based(ms, t) && forall p :: p in t <==> p == [] || Directory(ms, p)
    ensures Filled(ms, k, b, t, 0)
  {
  }

  lemma FilledFile(ms: seq<Member>, k: Codec, b: Build, t: Tree, h: nat)
    requires Filled(ms, k, b, t, |ms|) && h < |ms| && ms[h].id != WasmHostIdentity
    ensures IsFile(t, Parts(ms[h].path)) && (Clean(ms) ==> t[Parts(ms[h].path)].content == b(ms[h].id))
  {
    if Clean(ms) {
      PlainParts(ms[h].path);
      assert Placed(ms, k, b, t, h);
    }
  }

  /** The position of a member. */
  function Index(ms: seq<Member>, id: Id): (i: nat)
    requires Shaped(ms)
    ensures i < |ms| && ms[i].id == id
  {
    assert id in Ids(ms);
    var i :| 0 <= i < |ms| && ms[i].id == id;
    OnlyIndex(ms, id);
    i
  }

  lemma OnlyIndex(ms: seq<Member>, id: Id)
    requires Shaped(ms)
    ensures forall i, j :: 0 <= i < |ms| && 0 <= j < |ms| && ms[i].id == id == ms[j].id ==> i == j
  {
    forall i, j | 0 <= i < |ms| && 0 <= j < |ms| && ms[i].id == id == ms[j].id ensures i == j {
      OnlyOne(ms, i, j);
    }
  }
}
