/**
 The dependency-ordered package installer (scripts/ci_inventory.py): a depth-first
 visit with cycle detection. Manifests and the outcome of each command are inputs.
 */
module Installer {
  type Id = string

  /** A `file:` dependency: the package registered at its directory, or none. */
  datatype Dependency = Local(id: Id) | Unregistered

  datatype Package = Package(deps: seq<Dependency>, hasBuild: bool)

  type Packages = map<Id, Package>

  datatype Command = Install(id: Id) | Build(id: Id)

  /** Every registered directory belongs to a package. */
  predicate Closed(g: Packages) {
    forall x, k :: x in g && 0 <= k < |g[x].deps| && g[x].deps[k].Local? ==> g[x].deps[k].id in g
  }

  // ---------------------------------------------------------------------------
  // The dependency graph

  predicate Edge(g: Packages, a: Id, b: Id) {
    a in g && Local(b) in g[a].deps
  }

  predicate Path(g: Packages, p: seq<Id>) {
    forall k :: 0 <= k < |p| - 1 ==> Edge(g, p[k], p[k + 1])
  }

  /** A path from a package asked for to `x`. */
  predicate Leads(g: Packages, roots: seq<Id>, p: seq<Id>, x: Id) {
    |p| > 0 && p[0] in roots && Path(g, p) && p[|p| - 1] == x
  }

  ghost predicate Reached(g: Packages, roots: seq<Id>, x: Id) {
    exists p :: Leads(g, roots, p, x)
  }

  predicate Loops(g: Packages, p: seq<Id>, x: Id) {
    |p| > 1 && Path(g, p) && p[0] == x == p[|p| - 1]
  }

  ghost predicate Cyclic(g: Packages, x: Id) {
    exists p :: Loops(g, p, x)
  }

  /** Some reached package depends on `x`. */
  ghost predicate Consumed(g: Packages, roots: seq<Id>, x: Id) {
    exists a :: Reached(g, roots, a) && Edge(g, a, x)
  }

  ghost predicate Needed(g: Packages, roots: seq<Id>, build: bool, c: Command) {
    match c
    case Install(x) => Reached(g, roots, x)
    case Build(x) => build && x in g && g[x].hasBuild && Consumed(g, roots, x)
  }

  // ---------------------------------------------------------------------------
  // Orders of commands

  /** `past` has what a consumer needs of a dependency. */
  predicate Ready(g: Packages, build: bool, past: seq<Command>, d: Dependency) {
    d.Local? && d.id in g && Install(d.id) in past && (build && g[d.id].hasBuild ==> Build(d.id) in past)
  }

  /** The command may come after `past`: it is new, and what it needs is there. */
  predicate Follows(g: Packages, build: bool, past: seq<Command>, c: Command) {
    c !in past && c.id in g
    && match c
       case Install(x) => forall k :: 0 <= k < |g[x].deps| ==> Ready(g, build, past, g[x].deps[k])
       case Build(x) => build && g[x].hasBuild && Install(x) in past
  }

  predicate Ordered(g: Packages, build: bool, log: seq<Command>) {
    forall k :: 0 <= k < |log| ==> Follows(g, build, log[..k], log[k])
  }

  lemma OrderedAppend(g: Packages, build: bool, log: seq<Command>, c: Command)
    requires Ordered(g, build, log) && Follows(g, build, log, c)
    ensures Ordered(g, build, log + [c])
  {
    forall k | 0 <= k < |log| + 1
      ensures Follows(g, build, (log + [c])[..k], (log + [c])[k])
    {
      assert (log + [c])[..k] == log[..k];
    }
  }

  /** In an ordered log a package comes after everything it leads to. */
  lemma {:induction false} PathBefore(g: Packages, build: bool, log: seq<Command>, p: seq<Id>, k: nat)
    requires Ordered(g, build, log) && Path(g, p) && |p| > 1 && k < |log| && log[k] == Install(p[0])
    ensures Install(p[|p| - 1]) in log[..k]
  {
    assert Follows(g, build, log[..k], log[k]);
    assert Edge(g, p[0], p[1]);
    var d :| 0 <= d < |g[p[0]].deps| && g[p[0]].deps[d] == Local(p[1]);
    assert Ready(g, build, log[..k], g[p[0]].deps[d]);
    if |p| > 2 {
      var j :| 0 <= j < k && log[..k][j] == Install(p[1]);
      assert Path(g, p[1..]) by {
        forall i | 0 <= i < |p[1..]| - 1 ensures Edge(g, p[1..][i], p[1..][i + 1]) {
          assert Edge(g, p[i + 1], p[i + 1 + 1]);
        }
      }
      PathBefore(g, build, log, p[1..], j);
      assert log[..j] == log[..k][..j];
    }
  }

  /** So nothing in an ordered log is on a cycle. */
  lemma OrderedAcyclic(g: Packages, build: bool, log: seq<Command>, x: Id)
    requires Ordered(g, build, log) && Install(x) in log
    ensures !Cyclic(g, x)
  {
    var k :| 0 <= k < |log| && log[k] == Install(x);
    assert Follows(g, build, log[..k], log[k]);
    if p :| Loops(g, p, x) {
      PathBefore(g, build, log, p, k);
    }
  }

  /** An ordered log that has the roots has everything reached from them. */
  lemma {:induction false} LeadsInstalled(g: Packages, build: bool, log: seq<Command>, roots: seq<Id>, p: seq<Id>, x: Id)
    requires Ordered(g, build, log) && Leads(g, roots, p, x)
    requires forall r :: r in roots ==> Install(r) in log
    ensures Install(x) in log
  {
    var k :| 0 <= k < |log| && log[k] == Install(p[0]);
    if |p| > 1 {
      PathBefore(g, build, log, p, k);
    }
  }

  // ---------------------------------------------------------------------------
  // Outcomes

  datatype Outcome = Fine | Unknown(id: Id) | Missing(id: Id) | Cycle(id: Id) | Broken(command: Command)

  /** The outcome's complaint is true of the packages asked for. */
  ghost predicate Justified(g: Packages, roots: seq<Id>, build: bool, works: Command -> bool, o: Outcome) {
    match o
    case Fine => true
    case Unknown(x) => x in roots && x !in g
    case Missing(x) => Reached(g, roots, x) && x in g && Unregistered in g[x].deps
    case Cycle(x) => Reached(g, roots, x) && Cyclic(g, x)
    case Broken(c) => Needed(g, roots, build, c) && !works(c)
  }

  lemma Extend(g: Packages, roots: seq<Id>, trail: seq<Id>, x: Id)
    requires if trail == [] then x in roots else Leads(g, roots, trail, trail[|trail| - 1]) && Edge(g, trail[|trail| - 1], x)
    ensures Leads(g, roots, trail + [x], x) && Reached(g, roots, x)
  {
    var p := trail + [x];
    forall k | 0 <= k < |p| - 1 ensures Edge(g, p[k], p[k + 1]) {
      assert k < |trail| - 1 ==> Edge(g, trail[k], trail[k + 1]);
    }
    assert Leads(g, roots, p, x);
  }

  /** A package met again on the way to itself is on a cycle. */
  lemma MetAgain(g: Packages, roots: seq<Id>, trail: seq<Id>, x: Id)
    requires trail != [] && Leads(g, roots, trail, trail[|trail| - 1]) && Edge(g, trail[|trail| - 1], x) && x in trail
    ensures Cyclic(g, x)
  {
    Extend(g, roots, trail, x);
    var k :| 0 <= k < |trail| && trail[k] == x;
    var p := (trail + [x])[k..];
    forall i | 0 <= i < |p| - 1 ensures Edge(g, p[i], p[i + 1]) {
      assert Edge(g, (trail + [x])[k + i], (trail + [x])[k + i + 1]);
    }
    assert Loops(g, p, x);
  }

  /** Nothing stands in the way of installing what was asked for. */
  ghost predicate Installable(g: Packages, roots: seq<Id>, build: bool, works: Command -> bool) {
    && (forall x :: x in roots ==> x in g)
    && (forall x :: Reached(g, roots, x) ==> !Cyclic(g, x) && (x in g ==> Unregistered !in g[x].deps))
    && (forall c :: Needed(g, roots, build, c) ==> works(c))
  }

  /** In an ordered log with every root, a needed command is there. */
  lemma NeededIsThere(g: Packages, roots: seq<Id>, build: bool, log: seq<Command>, c: Command)
    requires Ordered(g, build, log) && (forall x :: x in roots ==> Install(x) in log) && Needed(g, roots, build, c)
    ensures c in log
  {
    match c
    case Install(x) =>
      var p :| Leads(g, roots, p, x);
      LeadsInstalled(g, build, log, roots, p, x);
    case Build(x) =>
      var a :| Reached(g, roots, a) && Edge(g, a, x);
      var p :| Leads(g, roots, p, a);
      LeadsInstalled(g, build, log, roots, p, a);
      var k :| 0 <= k < |log| && log[k] == Install(a);
      assert Follows(g, build, log[..k], log[k]);
      var d :| 0 <= d < |g[a].deps| && g[a].deps[d] == Local(x);
      assert Ready(g, build, log[..k], g[a].deps[d]);
  }

  /** An ordered log of working, needed commands with every root proves the packages installable. */
  lemma LogIsProof(g: Packages, roots: seq<Id>, build: bool, works: Command -> bool, log: seq<Command>)
    requires Ordered(g, build, log) && (forall x :: x in roots ==> Install(x) in log)
    requires forall c :: c in log ==> Needed(g, roots, build, c) && works(c)
    ensures Installable(g, roots, build, works) && forall c :: c in log <==> Needed(g, roots, build, c)
  {
    forall c | Needed(g, roots, build, c) ensures c in log {
      NeededIsThere(g, roots, build, log, c);
    }
    forall x | Reached(g, roots, x) ensures !Cyclic(g, x) && (x in g ==> Unregistered !in g[x].deps) {
      assert Needed(g, roots, build, Install(x));
      OrderedAcyclic(g, build, log, x);
      RegisteredOnly(g, build, log, x);
    }
    forall x | x in roots ensures x in g {
      var k :| 0 <= k < |log| && log[k] == Install(x);
      assert Follows(g, build, log[..k], log[k]);
    }
  }

  lemma RegisteredOnly(g: Packages, build: bool, log: seq<Command>, x: Id)
    requires Ordered(g, build, log) && Install(x) in log
    ensures x in g && Unregistered !in g[x].deps
  {
    var k :| 0 <= k < |log| && log[k] == Install(x);
    assert Follows(g, build, log[..k], log[k]);
    forall d | 0 <= d < |g[x].deps| ensures g[x].deps[d] != Unregistered {
      assert Ready(g, build, log[..k], g[x].deps[d]);
    }
  }

  lemma FaultBlocks(g: Packages, roots: seq<Id>, build: bool, works: Command -> bool, o: Outcome)
    requires Justified(g, roots, build, works, o) && !o.Fine?
    ensures !Installable(g, roots, build, works)
  {
    hide Reached, Needed, Cyclic;
  }

  // ---------------------------------------------------------------------------
  // The visit

  class Run {
    const g: Packages
    const build: bool
    const works: Command -> bool
    var installed: set<Id>
    var built: set<Id>
    var visiting: set<Id>
    var log: seq<Command>

    constructor (g: Packages, build: bool, works: Command -> bool)
      ensures this.g == g && this.build == build && this.works == works
      ensures installed == {} && built == {} && visiting == {} && log == []
    {
      this.g, this.build, this.works := g, build, works;
      installed, built, visiting, log := {}, {}, {}, [];
    }

    /** The sets are what the log says, and the log has only commands that were needed and worked. */
    ghost predicate Valid(roots: seq<Id>)
      reads this
    {
      && Closed(g) && Ordered(g, build, log) && installed !! visiting
      && (forall x :: x in installed <==> Install(x) in log)
      && (forall x :: x in built <==> Build(x) in log)
      && (forall c :: c in log ==> Needed(g, roots, build, c) && works(c))
    }

    /** `trail` leads from a package asked for to `name`, through the packages being visited. */
    ghost predicate Under(roots: seq<Id>, trail: seq<Id>, name: Id, dependency: bool)
      reads this
    {
      && (forall x :: x in visiting <==> x in trail)
      && dependency == (trail != [])
      && if trail == [] then name in roots else Leads(g, roots, trail, trail[|trail| - 1]) && Edge(g, trail[|trail| - 1], name)
    }

    /** Runs a command. */
    method Do(c: Command, ghost roots: seq<Id>) returns (o: Outcome)
      requires Valid(roots) && Needed(g, roots, build, c) && Follows(g, build, log, c)
      modifies `log
      ensures if works(c) then o.Fine? && log == old(log) + [c] else o == Broken(c) && log == old(log)
      ensures Ordered(g, build, log)
    {
      if !works(c) {
        return Broken(c);
      }
      OrderedAppend(g, build, log, c);
      log := log + [c];
      o := Fine;
    }

    method InstallNow(name: Id, ghost roots: seq<Id>) returns (o: Outcome)
      requires Valid(roots) && name in g && name in visiting && Reached(g, roots, name)
      requires forall k :: 0 <= k < |g[name].deps| ==> Ready(g, build, log, g[name].deps[k])
      modifies `installed, `visiting, `log
      ensures Ordered(g, build, log) && Justified(g, roots, build, works, o)
      ensures o.Fine? ==> Valid(roots) && visiting == old(visiting) - {name} && log == old(log) + [Install(name)]
    {
      o := Do(Install(name), roots);
      if o.Fine? {
        visiting := visiting - {name};
        installed := installed + {name};
      }
    }

    method BuildNow(name: Id, ghost roots: seq<Id>) returns (o: Outcome)
      requires Valid(roots) && name in installed && name in g && g[name].hasBuild && build && name !in built
      requires Consumed(g, roots, name)
      modifies `built, `log
      ensures Ordered(g, build, log) && Justified(g, roots, build, works, o)
      ensures o.Fine? ==> Valid(roots) && log == old(log) + [Build(name)]
    {
      o := Do(Build(name), roots);
      if o.Fine? {
        built := built + {name};
      }
    }

    method Visit(name: Id, dependency: bool, ghost roots: seq<Id>, ghost trail: seq<Id>) returns (o: Outcome)
      requires Valid(roots) && Under(roots, trail, name, dependency)
      modifies `installed, `built, `visiting, `log
      ensures Ordered(g, build, log) && Justified(g, roots, build, works, o)
      ensures o.Fine? ==> Valid(roots) && visiting == old(visiting) && old(log) <= log
      ensures o.Fine? ==> Install(name) in log && name in g && (dependency && build && g[name].hasBuild ==> Build(name) in log)
      decreases g.Keys - visiting, 1
    {
      Extend(g, roots, trail, name);
      if name in visiting {
        MetAgain(g, roots, trail, name);
        return Cycle(name);
      }
      if name !in g {
        return Unknown(name);
      }
      if name !in installed {
        visiting := visiting + {name};
        o := VisitDependencies(name, roots, trail + [name]);
        if !o.Fine? {
          return;
        }
        o := InstallNow(name, roots);
        if !o.Fine? {
          return;
        }
      }
      if dependency && build && name !in built && g[name].hasBuild {
        assert Consumed(g, roots, name) by {
          assert Reached(g, roots, trail[|trail| - 1]);
        }
        o := BuildNow(name, roots);
        return;
      }
      o := Fine;
    }

    /** The loop over the dependencies of `name`, itself the last of the trail. */
    method VisitDependencies(name: Id, ghost roots: seq<Id>, ghost trail: seq<Id>) returns (o: Outcome)
      requires Valid(roots) && name in g && name in visiting && Leads(g, roots, trail, name)
      requires forall x :: x in visiting <==> x in trail
      modifies `installed, `built, `visiting, `log
      ensures Ordered(g, build, log) && Justified(g, roots, build, works, o)
      ensures o.Fine? ==> Valid(roots) && visiting == old(visiting) && old(log) <= log
      ensures o.Fine? ==> forall k :: 0 <= k < |g[name].deps| ==> Ready(g, build, log, g[name].deps[k])
      decreases g.Keys - visiting, 2
    {
      var deps := g[name].deps;
      var i := 0;
      while i < |deps|
        invariant 0 <= i <= |deps|
        invariant Valid(roots) && visiting == old(visiting) && old(log) <= log
        invariant forall k :: 0 <= k < i ==> Ready(g, build, log, deps[k])
      {
        if deps[i].Unregistered? {
          assert Reached(g, roots, name);
          return Missing(name);
        }
        o := Visit(deps[i].id, true, roots, trail);
        if !o.Fine? {
          return;
        }
        i := i + 1;
      }
      o := Fine;
    }
  }

  /**
   Installing `ids`, or every package if none is named: it succeeds exactly when that
   is possible, and then runs each needed command once, dependencies installed and
   built before their consumers. A failure names its true cause, and leaves an ordered log.
   */
  method InstallPackages(g: Packages, names: seq<Id>, ids: seq<Id>, build: bool, works: Command -> bool)
    returns (o: Outcome, log: seq<Command>)
    requires Closed(g) && forall x :: x in names <==> x in g
    ensures var roots := if ids == [] then names else ids;
            && (o.Fine? <==> Installable(g, roots, build, works)) && Justified(g, roots, build, works, o)
            && (o.Fine? ==> forall c :: c in log <==> Needed(g, roots, build, c))
    ensures Ordered(g, build, log)
  {
    hide Installable, Needed, Follows, Closed;
    var roots := if ids == [] then names else ids;
    var run := new Run(g, build, works);
    var i := 0;
    while i < |roots|
      invariant 0 <= i <= |roots|
      invariant run.g == g && run.build == build && run.works == works && fresh(run)
      invariant run.Valid(roots) && run.visiting == {}
      invariant forall k :: 0 <= k < i ==> Install(roots[k]) in run.log
    {
      o := run.Visit(roots[i], false, roots, []);
      if !o.Fine? {
        FaultBlocks(g, roots, build, works, o);
        return o, run.log;
      }
      i := i + 1;
    }
    LogIsProof(g, roots, build, works, run.log);
    return Fine, run.log;
  }
}
