/** When a skipped test is safe to skip: reach is computed on the new tree only, and what the old run read is found in it, unless it was deleted. */
module GateSafety {
  import opened Options
  import opened Reachability
  import opened Gate

  /** One question to the gate: the tree a test last ran on, the tree of the change, the changed paths, and the test. */
  datatype Question = Question(was: Tree, now: Tree, changed: seq<string>, declared: map<string, seq<string>>, glob: (string, string) -> bool, test: string)

  /** Two trees look the same at a path. */
  ghost predicate Agree(a: Tree, b: Tree, path: string) {
    (path in a.files <==> path in b.files) && (path in a.files ==> a.files[path] == b.files[path])
  }

  predicate IsPackageDirectory(d: string) {
    HasPrefix("packages/", d) || HasPrefix("components/", d) || HasPrefix("apps/", d)
  }

  /** No path is a file and a directory, none is spelled like a glob or a directory entry, and packages lie under the three package roots. */
  ghost predicate WellFormed(t: Tree) {
    && (forall f :: f in t.files ==> !IsDirectory(t, f) && !HasPrefix("glob:", f) && !HasSuffix("/", f))
    && (forall d :: d in t.packages ==> IsPackageDirectory(d))
  }

  /** A package directory of either tree is listed in each tree that has its manifest. */
  ghost predicate ListsPackages(was: Tree, now: Tree) {
    forall d :: d in was.packages || d in now.packages ==>
      (Manifest(d) in was.files ==> d in was.packages) && (Manifest(d) in now.files ==> d in now.packages)
  }

  ghost predicate UniqueNames(t: Tree) {
    forall d, e :: d in t.packages && e in t.packages && Manifest(d) in t.files && Manifest(e) in t.files ==>
      t.files[Manifest(d)].name == t.files[Manifest(e)].name ==> d == e
  }

  /** Every path that differs is listed, whether it was added, modified or deleted. */
  ghost predicate Covers(changed: seq<string>, was: Tree, now: Tree) {
    forall f :: !Agree(was, now, f) ==> f in changed
  }

  ghost function NowReaches(q: Question): set<string> {
    Inputs(q.now, q.declared, q.test)
  }

  ghost function ReachedBefore(q: Question): set<string> {
    Inputs(q.was, q.declared, q.test)
  }

  /** A pattern matches nothing outside the directory its static prefix names. */
  ghost predicate MatchesBelow(q: Question, literal: Literal) {
    forall spot, f :: spot in literal.spots && f in q.now.files && literal.wildcard && q.glob(f, spot.pattern) ==> HasPrefix(spot.path + "/", f)
  }

  ghost predicate GlobsMatchBelow(q: Question) {
    forall m, literal :: m in q.was.files && literal in q.was.files[m].literals ==> MatchesBelow(q, literal)
  }

  /** Modules of a closure that are among the paths no test reads stay as they were. */
  ghost predicate UnreadStay(q: Question, closure: set<string>) {
    forall m :: m in closure && ReadByNoTest(m) ==> Agree(q.was, q.now, m)
  }

  /** A change of any kind, with every differing path listed. */
  ghost predicate IsChange(q: Question) {
    && WellFormed(q.was) && WellFormed(q.now)
    && ListsPackages(q.was, q.now) && UniqueNames(q.was)
    && Covers(q.changed, q.was, q.now)
    && GlobsMatchBelow(q)
    && UnreadStay(q, Closure(q.was, q.test))
  }

  /** No file that what the test reached on the old tree claims was deleted. */
  ghost predicate NothingClaimedWasDeleted(q: Question) {
    forall f :: f in q.was.files && Claims(ReachedBefore(q), f, q.glob) && !ReadByNoTest(f) ==> f in q.now.files
  }

  ghost predicate LoadsPackage(t: Tree, m: string, imported: Import) {
    && Parsed(t, m) && imported in t.files[m].imports && Loads(imported)
    && imported.target.Workspace? && imported.target.name in Workspaces(t)
  }

  ghost predicate KeepsName(q: Question, manifest: string, name: string) {
    manifest in q.now.files ==> q.now.files[manifest].name == name
  }

  /** No package the old closure loads was given another name. */
  ghost predicate NoPackageWasRenamed(q: Question) {
    forall m, imported :: m in Closure(q.was, q.test) && LoadsPackage(q.was, m, imported) ==>
      KeepsName(q, Workspaces(q.was)[imported.target.name].manifest, imported.target.name)
  }

  ghost predicate Spares(q: Question) {
    NothingClaimedWasDeleted(q) && NoPackageWasRenamed(q)
  }

  /** The gate looked at the new tree and left the test out. */
  ghost predicate Skipped(q: Question) {
    exists s :: Selects(ReachTable(q.now, q.declared), q.changed, q.glob, s)
      && q.test in q.now.files && IsTest(q.test) && q.test !in s.tests
  }

  /** A change that nothing the test now reaches is part of. */
  ghost predicate Quiet(q: Question) {
    forall f :: f in q.changed && !ReadByNoTest(f) ==> !Claims(NowReaches(q), f, q.glob)
  }

  /** A change that neither touches what the test now reaches nor deletes or renames what it reached. */
  ghost predicate Harmless(q: Question) {
    IsChange(q) && Quiet(q) && Spares(q)
  }

  lemma SkippedIsQuiet(q: Question)
    requires Skipped(q)
    ensures Quiet(q)
  {
    hide ReadByNoTest, ReadByEveryTest, Claims, Inputs;
    var reach := ReachTable(q.now, q.declared);
    var s :| Selects(reach, q.changed, q.glob, s) && q.test !in s.tests;
    assert q.test in reach;
    forall f | f in q.changed && !ReadByNoTest(f)
      ensures !Claims(NowReaches(q), f, q.glob)
    {
      assert !Forces(reach, f, q.glob);
      assert !Picks(reach, f, q.test, q.glob);
    }
  }

  // What is reached now has not changed, and what was reached has not gone.

  /** A claimed path is the same in both trees, apart from paths no test reads. */
  lemma ClaimedIsUnchanged(q: Question, path: string)
    requires Covers(q.changed, q.was, q.now) && Quiet(q) && Claims(NowReaches(q), path, q.glob) && !ReadByNoTest(path)
    ensures Agree(q.was, q.now, path)
  {
    hide ReadByNoTest, Claims, Inputs;
  }

  lemma ReachedIsUnchanged(q: Question, path: string)
    requires Harmless(q) && path in NowReaches(q) && !ReadByNoTest(path)
    ensures Agree(q.was, q.now, path)
  {
    assert Covers(q.changed, q.was, q.now) && Quiet(q);
    hide Harmless, Quiet, Covers, Inputs, ReadByNoTest;
    ClaimedIsUnchanged(q, path);
  }

  lemma ReachedWasNotDeleted(q: Question, path: string)
    requires Harmless(q) && path in ReachedBefore(q) && path in q.was.files && !ReadByNoTest(path)
    ensures path in q.now.files
  {
    assert NothingClaimedWasDeleted(q);
    hide Harmless, Inputs, ReadByNoTest;
    assert Claims(ReachedBefore(q), path, q.glob);
  }

  /** A module both closures hold is the same file in both trees. */
  lemma ModuleIsUnchanged(q: Question, m: string)
    requires Harmless(q) && m in Closure(q.was, q.test) && m in Closure(q.now, q.test)
    ensures Agree(q.was, q.now, m)
  {
    assert UnreadStay(q, Closure(q.was, q.test));
    hide Harmless, ReadByNoTest, Closure, Claims;
    if !ReadByNoTest(m) {
      ReachedIsUnchanged(q, m);
    }
  }

  lemma ManifestIsRead(d: string)
    requires IsPackageDirectory(d)
    ensures !ReadByNoTest(Manifest(d)) && !IsModule(Manifest(d))
  {
    var m := Manifest(d);
    assert m[|m| - 1] == 'n';
    assert NO_TEST[0][0] == 's' && NO_TEST[1][0] == '.';
    assert m[0] == d[0] && d[0] in ['p', 'c', 'a'];
    forall entry | entry in NO_TEST
      ensures entry[0] != m[0]
    {
    }
  }

  lemma PathsAreReached(t: Tree, declared: map<string, seq<string>>, test: string, m: string, p: string)
    requires m in Closure(t, test) && p in Paths(t, m)
    ensures p in Inputs(t, declared, test)
  {
    hide Closure, Paths;
  }

  /** The manifest a workspace resolves through: of a listed package, read by tests, no module. */
  lemma ManifestOfPackage(t: Tree, name: string) returns (d: string)
    requires WellFormed(t) && name in Workspaces(t)
    ensures d in t.packages && Manifest(d) in t.files && t.files[Manifest(d)].name == name
    ensures Workspaces(t)[name] == Package(Manifest(d), t.files[Manifest(d)].exports)
    ensures !ReadByNoTest(Manifest(d)) && !IsModule(Manifest(d))
  {
    WorkspaceHasManifest(t, t.packages, name);
    d :| d in t.packages && Workspaces(t)[name].manifest == Manifest(d);
    hide ReadByNoTest, IsModule, WorkspacesOf;
    ManifestIsRead(d);
  }

  lemma ManifestIsNamed(t: Tree, m: string, imported: Import)
    requires LoadsPackage(t, m, imported)
    ensures Workspaces(t)[imported.target.name].manifest in Paths(t, m)
  {
    hide Workspaces, Named;
    assert Workspaces(t)[imported.target.name].manifest in Through(t, imported);
  }

  /** The manifest of a package the old closure loads is still there, under the same name and still listed. */
  lemma PackageStaysListed(q: Question, m: string, imported: Import) returns (d: string)
    requires Harmless(q) && m in Closure(q.was, q.test) && LoadsPackage(q.was, m, imported)
    ensures d in q.was.packages && Manifest(d) in q.was.files && q.was.files[Manifest(d)].name == imported.target.name
    ensures Workspaces(q.was)[imported.target.name] == Package(Manifest(d), q.was.files[Manifest(d)].exports)
    ensures Manifest(d) in q.now.files && imported.target.name in Workspaces(q.now)
  {
    var name := imported.target.name;
    assert WellFormed(q.was) && ListsPackages(q.was, q.now) && NoPackageWasRenamed(q);
    hide Harmless, WellFormed, ReadByNoTest, IsModule, Closure, Parsed, Loads, WorkspacesOf;
    d := ManifestOfPackage(q.was, name);
    ManifestIsNamed(q.was, m, imported);
    PathsAreReached(q.was, q.declared, q.test, m, Manifest(d));
    ReachedWasNotDeleted(q, Manifest(d));
    assert KeepsName(q, Manifest(d), name);
    ManifestIsListed(q.now, q.now.packages, d);
  }

  /** A package the new closure resolves was resolved through an unchanged manifest. */
  lemma PackageIsUnchanged(q: Question, m: string, imported: Import) returns (d: string)
    requires Harmless(q) && m in Closure(q.now, q.test) && LoadsPackage(q.now, m, imported)
    ensures Manifest(d) in q.was.files && Agree(q.was, q.now, Manifest(d)) && d in q.was.packages
    ensures q.now.files[Manifest(d)].name == imported.target.name && !IsModule(Manifest(d))
    ensures Workspaces(q.now)[imported.target.name] == Package(Manifest(d), q.now.files[Manifest(d)].exports)
    ensures imported.target.name in Workspaces(q.was)
  {
    assert WellFormed(q.now) && ListsPackages(q.was, q.now);
    hide Harmless, WellFormed, ReadByNoTest, IsModule, Closure, Parsed, Loads, WorkspacesOf;
    d := ManifestOfPackage(q.now, imported.target.name);
    ManifestIsNamed(q.now, m, imported);
    PathsAreReached(q.now, q.declared, q.test, m, Manifest(d));
    ReachedIsUnchanged(q, Manifest(d));
    ManifestIsListed(q.was, q.was.packages, d);
  }

  lemma LoadsPackageInBoth(q: Question, m: string, imported: Import)
    requires Agree(q.was, q.now, m) && imported.target.Workspace?
    requires imported.target.name in Workspaces(q.was) && imported.target.name in Workspaces(q.now)
    ensures LoadsPackage(q.was, m, imported) == LoadsPackage(q.now, m, imported)
  {
    hide Workspaces;
  }

  /** A package the old closure loads resolves exactly as it did. */
  lemma PackageStays(q: Question, m: string, imported: Import)
    requires Harmless(q) && m in Closure(q.was, q.test) && m in Closure(q.now, q.test) && LoadsPackage(q.was, m, imported)
    ensures imported.target.name in Workspaces(q.now) && Workspaces(q.now)[imported.target.name] == Workspaces(q.was)[imported.target.name]
  {
    assert UniqueNames(q.was);
    hide Harmless, Closure, Workspaces, IsModule;
    var d := PackageStaysListed(q, m, imported);
    ModuleIsUnchanged(q, m);
    LoadsPackageInBoth(q, m, imported);
    hide LoadsPackage;
    var e := PackageIsUnchanged(q, m, imported);
    assert d == e;
  }

  /** What an import of an old module led to, it still leads to. */
  lemma ImportStays(q: Question, m: string, imported: Import)
    requires Harmless(q) && m in Closure(q.was, q.test) && m in Closure(q.now, q.test)
    requires Parsed(q.was, m) && imported in q.was.files[m].imports
    ensures Loaded(q.was, imported) <= Loaded(q.now, imported) && Through(q.was, imported) <= Through(q.now, imported)
  {
    hide Harmless, Closure, Workspaces, Parsed;
    if LoadsPackage(q.was, m, imported) {
      PackageStays(q, m, imported);
    }
  }

  /** An import that resolves now resolved the same way, when its module is in both closures. */
  lemma ImportWasThere(q: Question, m: string, imported: Import)
    requires Harmless(q) && m in Closure(q.was, q.test) && m in Closure(q.now, q.test)
    requires Parsed(q.now, m) && imported in q.now.files[m].imports
    ensures Loaded(q.now, imported) <= Loaded(q.was, imported)
    ensures forall p :: p in Through(q.now, imported) ==> !IsModule(p)
  {
    hide Harmless, Closure, Workspaces, Parsed, IsModule;
    if LoadsPackage(q.now, m, imported) {
      var d := PackageIsUnchanged(q, m, imported);
      ModuleIsUnchanged(q, m);
      LoadsPackageInBoth(q, m, imported);
      PackageStays(q, m, imported);
    }
  }

  // What may be missing from the new reach, and why that is no loss.

  /** An entry for a directory that is gone. */
  ghost predicate VanishedAt(q: Question, m: string, literal: Literal, spot: Spot, e: string) {
    && m in Closure(q.was, q.test) && Parsed(q.was, m) && literal in q.was.files[m].literals && spot in literal.spots
    && Entry(q.was, literal, spot) == Some(e) && IsDirectory(q.was, spot.path) && !IsDirectory(q.now, spot.path)
  }

  ghost predicate Vanished(q: Question, e: string) {
    exists m, literal, spot :: VanishedAt(q, m, literal, spot, e)
  }

  /** An entry of the old reach that has no place in the new one: its directory is gone, or it is a deleted file that no test reads. */
  ghost predicate Lost(q: Question, e: string) {
    Vanished(q, e) || (ReadByNoTest(e) && e in q.was.files && e !in q.now.files)
  }

  lemma EntryStays(q: Question, m: string, literal: Literal, spot: Spot, e: string)
    requires Harmless(q) && m in Closure(q.was, q.test) && Parsed(q.was, m)
    requires literal in q.was.files[m].literals && spot in literal.spots && Entry(q.was, literal, spot) == Some(e)
    requires e in ReachedBefore(q)
    ensures Entry(q.now, literal, spot) == Some(e) || Lost(q, e)
  {
    assert WellFormed(q.now);
    hide Harmless, Closure, Parsed, ReadByNoTest, Inputs;
    if !(IsDirectory(q.was, spot.path) && !IsDirectory(q.now, spot.path)) {
      if !literal.wildcard && spot.path in q.was.files && !ReadByNoTest(e) {
        ReachedWasNotDeleted(q, e);
      }
    } else {
      assert VanishedAt(q, m, literal, spot, e);
    }
  }

  lemma NameStays(q: Question, m: string, literal: Literal, e: string)
    requires Harmless(q) && m in Closure(q.was, q.test) && m in Closure(q.now, q.test)
    requires Parsed(q.was, m) && literal in q.was.files[m].literals && e in Named(q.was, literal)
    ensures e in Paths(q.now, m) || Lost(q, e)
  {
    hide Harmless, Closure, Lost, Inputs, IsModule, Through, Entry;
    var spot :| spot in literal.spots && Entry(q.was, literal, spot) == Some(e);
    assert e in Paths(q.was, m);
    PathsAreReached(q.was, q.declared, q.test, m, e);
    EntryStays(q, m, literal, spot, e);
    ModuleIsUnchanged(q, m);
    if Entry(q.now, literal, spot) == Some(e) {
      assert e in Named(q.now, literal);
    }
  }

  /** A module both closures hold still loads what it loaded, and names what it named, up to what is lost. */
  lemma EdgesGrow(q: Question, m: string)
    requires Harmless(q) && m in Closure(q.was, q.test) && m in Closure(q.now, q.test)
    ensures Modules(q.was, m) <= Modules(q.now, m)
    ensures forall e :: e in Paths(q.was, m) ==> e in Paths(q.now, m) || Lost(q, e)
  {
    hide Harmless, Closure, Lost, Loaded, Through, Named, IsModule;
    if Parsed(q.was, m) {
      ModuleIsUnchanged(q, m);
      forall imported | imported in q.was.files[m].imports
        ensures Loaded(q.was, imported) <= Loaded(q.now, imported) && Through(q.was, imported) <= Through(q.now, imported)
      {
        ImportStays(q, m, imported);
      }
      forall e | e in Paths(q.was, m)
        ensures e in Paths(q.now, m) || Lost(q, e)
      {
        if literal :| literal in q.was.files[m].literals && e in Named(q.was, literal) {
          NameStays(q, m, literal, e);
        }
      }
    }
  }

  /** A vanished entry is spelled like no file of either tree. */
  lemma VanishedIsNoFile(q: Question, e: string)
    requires WellFormed(q.was) && WellFormed(q.now) && Vanished(q, e)
    ensures e !in q.was.files && e !in q.now.files
  {
    hide Closure, Parsed;
    var m, literal, spot :| VanishedAt(q, m, literal, spot, e);
    if literal.wildcard {
      assert HasPrefix("glob:", e);
    } else {
      assert e == spot.path + "/";
      assert HasSuffix("/", e);
    }
  }

  lemma FollowedCarriesOver(q: Question, m: string, p: string)
    requires Harmless(q) && m in Closure(q.was, q.test) && m in Closure(q.now, q.test) && m in q.was.files
    requires p in Followed(q.was, m) && p in Closure(q.was, q.test)
    ensures p in Followed(q.now, m) || Vanished(q, p)
  {
    assert UnreadStay(q, Closure(q.was, q.test));
    hide Harmless, Vanished, ReadByNoTest, Modules, Paths, IsModule, Closure;
    EdgesGrow(q, m);
  }

  lemma StayStep(q: Question, m: string, p: string)
    requires Harmless(q) && m in Closure(q.was, q.test) && (m in Closure(q.now, q.test) || Vanished(q, m))
    requires p in Successors(ModuleGraph(q.was), m)
    ensures p in Closure(q.was, q.test) && (p in Closure(q.now, q.test) || Vanished(q, p))
  {
    assert WellFormed(q.was) && WellFormed(q.now);
    ReachIsLeast(ModuleGraph(q.was), {q.test});
    ReachIsLeast(ModuleGraph(q.now), {q.test});
    FollowsFromFiles(q.was, m, p);
    hide Harmless, WellFormed, Vanished, ModuleGraph, Reach, Followed;
    FollowedIsSuccessors(q.was, m);
    FollowedIsSuccessors(q.now, m);
    if Vanished(q, m) {
      VanishedIsNoFile(q, m);
    } else {
      FollowedCarriesOver(q, m, p);
    }
  }

  /** A module of the old closure is in the new one, or is spelled like an entry for a directory that is gone. */
  lemma ClosureCarriesOver(q: Question)
    requires Harmless(q)
    ensures forall m :: m in Closure(q.was, q.test) ==> m in Closure(q.now, q.test) || Vanished(q, m)
  {
    ReachIsLeast(ModuleGraph(q.was), {q.test});
    ReachIsLeast(ModuleGraph(q.now), {q.test});
    hide Harmless, Vanished, ModuleGraph, Reach, Successors;
    var was, now := Closure(q.was, q.test), Closure(q.now, q.test);
    var stays := set m | m in was && (m in now || Vanished(q, m));
    forall m, p | m in stays && p in Successors(ModuleGraph(q.was), m)
      ensures p in stays
    {
      StayStep(q, m, p);
    }
    assert Closed(ModuleGraph(q.was), stays);
  }

  lemma FollowsFromFiles(t: Tree, m: string, p: string)
    requires p in Successors(ModuleGraph(t), m)
    ensures m in t.files
  {
  }

  /** What the test reached before is in its reach on the new tree, up to what is lost. */
  lemma ReachCoversOldReach(q: Question, e: string)
    requires Harmless(q) && e in ReachedBefore(q)
    ensures e in NowReaches(q) || Lost(q, e)
  {
    assert WellFormed(q.was) && WellFormed(q.now);
    ClosureCarriesOver(q);
    hide Harmless, WellFormed, Closure, Paths, Vanished, ReadByNoTest;
    if m :| m in Closure(q.was, q.test) && e in Paths(q.was, m) {
      if Vanished(q, m) {
        VanishedIsNoFile(q, m);
        PathsOfNoFile(q.was, m);
      } else {
        EdgesGrow(q, m);
      }
    }
  }

  lemma PathsOfNoFile(t: Tree, m: string)
    requires m !in t.files
    ensures Paths(t, m) == {}
  {
  }

  /** How one entry claims a path. */
  predicate ClaimedBy(e: string, path: string, glob: (string, string) -> bool) {
    || e == path
    || (exists k :: 0 <= k < |path| && path[k] == '/' && path[..k + 1] == e)
    || (HasPrefix("glob:", e) && glob(path, e[5..]))
  }

  lemma ClaimsOneByOne(reached: set<string>, path: string, glob: (string, string) -> bool)
    ensures Claims(reached, path, glob) <==> exists e :: e in reached && ClaimedBy(e, path, glob)
  {
  }

  lemma GlobEntryClaims(pattern: string, f: string, glob: (string, string) -> bool)
    requires !HasPrefix("glob:", f) && ClaimedBy("glob:" + pattern, f, glob)
    ensures glob(f, pattern)
  {
    var e := "glob:" + pattern;
    assert e[5..] == pattern;
    assert forall k :: 0 <= k < |f| && f[k] == '/' && f[..k + 1] == e ==> e <= f;
  }

  lemma DirectoryEntryClaims(directory: string, f: string, glob: (string, string) -> bool)
    requires !HasPrefix("glob:", directory + "/") && ClaimedBy(directory + "/", f, glob)
    ensures HasPrefix(directory + "/", f)
  {
  }

  lemma VanishedClaimsNothing(q: Question, e: string, f: string)
    requires IsChange(q) && Vanished(q, e) && f in q.now.files
    ensures !ClaimedBy(e, f, q.glob)
  {
    assert WellFormed(q.was) && WellFormed(q.now) && GlobsMatchBelow(q);
    var m, literal, spot :| VanishedAt(q, m, literal, spot, e);
    assert MatchesBelow(q, literal);
    var g :| g in q.was.files && HasPrefix(spot.path + "/", g);
    assert !HasPrefix("glob:", g) && !HasPrefix("glob:", f) && spot.path !in q.was.files;
    assert !HasPrefix(spot.path + "/", f);
    hide IsChange, WellFormed, Closure, Parsed, ClaimedBy, GlobsMatchBelow;
    if ClaimedBy(e, f, q.glob) {
      if literal.wildcard {
        GlobEntryClaims(spot.pattern, f, q.glob);
      } else {
        DirectoryEntryClaims(spot.path, f, q.glob);
      }
    }
  }

  lemma DeletedClaimsNothing(q: Question, e: string, f: string)
    requires WellFormed(q.was) && e in q.was.files && e !in q.now.files && f in q.now.files
    ensures !ClaimedBy(e, f, q.glob)
  {
    if k :| 0 <= k < |f| && f[k] == '/' && f[..k + 1] == e {
      assert HasSuffix("/", e);
    }
  }

  /** What the old reach claims of the new tree, the new reach claims too. */
  lemma ClaimsCarryOver(q: Question, f: string)
    requires Harmless(q) && f in q.now.files && Claims(ReachedBefore(q), f, q.glob)
    ensures Claims(NowReaches(q), f, q.glob)
  {
    assert IsChange(q) && WellFormed(q.was);
    hide Harmless, IsChange, WellFormed, Claims, ClaimedBy, Inputs, Vanished, ReadByNoTest;
    ClaimsOneByOne(ReachedBefore(q), f, q.glob);
    ClaimsOneByOne(NowReaches(q), f, q.glob);
    var e :| e in ReachedBefore(q) && ClaimedBy(e, f, q.glob);
    ReachCoversOldReach(q, e);
    if Vanished(q, e) {
      VanishedClaimsNothing(q, e, f);
    } else if e !in NowReaches(q) {
      DeletedClaimsNothing(q, e, f);
    }
  }

  /** Whatever the old reach claims is the same in both trees. */
  lemma OldReachIsUnchanged(q: Question, f: string)
    requires Harmless(q) && Claims(ReachedBefore(q), f, q.glob) && !ReadByNoTest(f)
    ensures Agree(q.was, q.now, f)
  {
    assert NothingClaimedWasDeleted(q) && Covers(q.changed, q.was, q.now) && Quiet(q);
    hide Harmless, Covers, Quiet, Claims, ReadByNoTest, Inputs;
    if f in q.now.files {
      ClaimsCarryOver(q, f);
      ClaimedIsUnchanged(q, f);
    }
  }

  // The closure.

  /** A literal that names a file that was there named it before. */
  lemma EntryWasThere(q: Question, literal: Literal, p: string)
    requires WellFormed(q.now) && p in Named(q.now, literal)
    requires IsModule(p) && p in q.now.files && p in q.was.files
    ensures p in Named(q.was, literal)
  {
    var spot :| spot in literal.spots && Entry(q.now, literal, spot) == Some(p);
    assert !HasPrefix("glob:", p) && HasPrefix("glob:", "glob:" + spot.pattern);
    assert p[|p| - 1] == 's' && (spot.path + "/")[|spot.path|] == '/';
    assert p == spot.path;
    assert Entry(q.was, literal, spot) == Some(p);
  }

  /** A file the new closure follows was followed from the same module before. */
  lemma FollowedWasFollowed(q: Question, m: string, p: string)
    requires Harmless(q) && UnreadStay(q, Closure(q.now, q.test)) && m in Closure(q.was, q.test) && m in Closure(q.now, q.test)
    requires p in Followed(q.now, m) && p in Closure(q.now, q.test) && p in q.now.files
    ensures p in Followed(q.was, m)
  {
    assert WellFormed(q.now);
    hide Harmless, WellFormed, Loaded, Through, Named, IsModule, ReadByNoTest, Closure, Claims;
    ModuleIsUnchanged(q, m);
    forall imported | imported in q.now.files[m].imports
      ensures Loaded(q.now, imported) <= Loaded(q.was, imported)
      ensures forall r :: r in Through(q.now, imported) ==> !IsModule(r)
    {
      ImportWasThere(q, m, imported);
    }
    if p !in Modules(q.now, m) {
      if !ReadByNoTest(p) {
        ReachedIsUnchanged(q, p);
      }
      var literal :| literal in q.now.files[m].literals && p in Named(q.now, literal);
      EntryWasThere(q, literal, p);
    }
  }

  /** The files of the closure are the same in both trees: whatever else either closure holds is a path that is no file. */
  lemma ClosureIsUnchanged(q: Question)
    requires Harmless(q) && UnreadStay(q, Closure(q.now, q.test))
    ensures forall m :: m in q.now.files ==> (m in Closure(q.was, q.test) <==> m in Closure(q.now, q.test))
  {
    assert WellFormed(q.was) && WellFormed(q.now);
    ClosureCarriesOver(q);
    hide Harmless, WellFormed, ModuleGraph, Followed, Reach, Vanished, ReadByNoTest;
    var was, now := Closure(q.was, q.test), Closure(q.now, q.test);
    ReachIsLeast(ModuleGraph(q.now), {q.test});
    ReachIsLeast(ModuleGraph(q.was), {q.test});
    var stays := set p | p in now && (p in was || p !in q.now.files);
    hide Successors;
    forall m, p | m in stays && p in Successors(ModuleGraph(q.now), m)
      ensures p in stays
    {
      NowStep(q, m, p);
    }
    assert Closed(ModuleGraph(q.now), stays);
    forall m | m in q.now.files && m in was
      ensures m in now
    {
      if Vanished(q, m) {
        VanishedIsNoFile(q, m);
      }
    }
  }

  lemma NowStep(q: Question, m: string, p: string)
    requires Harmless(q) && UnreadStay(q, Closure(q.now, q.test))
    requires m in Closure(q.now, q.test) && (m in Closure(q.was, q.test) || m !in q.now.files)
    requires p in Successors(ModuleGraph(q.now), m)
    ensures p in Closure(q.now, q.test) && (p in Closure(q.was, q.test) || p !in q.now.files)
  {
    ReachIsLeast(ModuleGraph(q.now), {q.test});
    ReachIsLeast(ModuleGraph(q.was), {q.test});
    FollowsFromFiles(q.now, m, p);
    assert p in Closure(q.now, q.test);
    hide Harmless, ModuleGraph, Followed, Reach, ReadByNoTest;
    FollowedIsSuccessors(q.now, m);
    FollowedIsSuccessors(q.was, m);
    if p in q.now.files {
      FollowedWasFollowed(q, m, p);
    }
  }

  // Safety, and exactly when.

  /** An outcome that depends on nothing but the paths claimed by what the test reached on the tree it last ran on. */
  ghost predicate ReadsOnlyReach<O(!new)>(q: Question, outcome: Tree -> O) {
    forall other ::
      (forall f :: Claims(ReachedBefore(q), f, q.glob) && !ReadByNoTest(f) ==> Agree(q.was, other, f)) ==> outcome(q.was) == outcome(other)
  }

  /** Selection safety: a skipped test keeps its outcome, if it read nothing outside what it reached when it last ran and none of that was deleted or renamed. */
  lemma SkippedTestKeepsItsOutcome<O(!new)>(q: Question, outcome: Tree -> O)
    requires IsChange(q) && Skipped(q) && Spares(q) && ReadsOnlyReach(q, outcome)
    ensures outcome(q.was) == outcome(q.now)
  {
    hide IsChange, Skipped, Quiet, Spares, Claims, ReadByNoTest, ReachedBefore, Agree;
    SkippedIsQuiet(q);
    forall f | Claims(ReachedBefore(q), f, q.glob) && !ReadByNoTest(f)
      ensures Agree(q.was, q.now, f)
    {
      OldReachIsUnchanged(q, f);
    }
  }

  /** An outcome that looks at one file and nothing else. */
  function Shows(f: string): Tree -> Option<File> {
    (t: Tree) => if f in t.files then Some(t.files[f]) else None
  }

  /** No outcome that read only what the test reached can tell the two trees apart. */
  ghost predicate SafeToSkip(q: Question) {
    forall outcome: Tree -> Option<File> :: ReadsOnlyReach(q, outcome) ==> outcome(q.was) == outcome(q.now)
  }

  lemma SafeMeansUnchanged(q: Question, f: string)
    requires SafeToSkip(q) && Claims(ReachedBefore(q), f, q.glob) && !ReadByNoTest(f)
    ensures Agree(q.was, q.now, f)
  {
    hide Claims, ReadByNoTest, ReachedBefore;
    forall other | forall g :: Claims(ReachedBefore(q), g, q.glob) && !ReadByNoTest(g) ==> Agree(q.was, other, g)
      ensures Shows(f)(q.was) == Shows(f)(other)
    {
      assert Agree(q.was, other, f);
    }
    assert ReadsOnlyReach(q, Shows(f));
  }

  lemma SafeMeansNotRenamed(q: Question, m: string, imported: Import)
    requires WellFormed(q.was) && SafeToSkip(q) && m in Closure(q.was, q.test) && LoadsPackage(q.was, m, imported)
    ensures KeepsName(q, Workspaces(q.was)[imported.target.name].manifest, imported.target.name)
  {
    hide SafeToSkip, WellFormed, ReadByNoTest, IsModule, Closure, Parsed, Loads, WorkspacesOf;
    var d := ManifestOfPackage(q.was, imported.target.name);
    ManifestIsNamed(q.was, m, imported);
    PathsAreReached(q.was, q.declared, q.test, m, Manifest(d));
    assert Claims(ReachedBefore(q), Manifest(d), q.glob);
    SafeMeansUnchanged(q, Manifest(d));
  }

  /** Skipping is safe exactly when no file the old reach claims was deleted and no package the old closure loads was renamed. */
  lemma SafeExactlyWhenNothingReachedIsGone(q: Question)
    requires IsChange(q) && Skipped(q)
    ensures SafeToSkip(q) <==> NothingClaimedWasDeleted(q) && NoPackageWasRenamed(q)
  {
    assert WellFormed(q.was);
    hide IsChange, WellFormed, Skipped, Claims, ReadByNoTest, ReachedBefore, SafeToSkip, LoadsPackage, KeepsName, Closure, Workspaces;
    if SafeToSkip(q) {
      forall f | f in q.was.files && Claims(ReachedBefore(q), f, q.glob) && !ReadByNoTest(f)
        ensures f in q.now.files
      {
        SafeMeansUnchanged(q, f);
      }
      forall m, imported | m in Closure(q.was, q.test) && LoadsPackage(q.was, m, imported)
        ensures KeepsName(q, Workspaces(q.was)[imported.target.name].manifest, imported.target.name)
      {
        SafeMeansNotRenamed(q, m, imported);
      }
    } else {
      if Spares(q) {
        SparedIsSafe(q);
      }
    }
  }

  lemma SparedIsSafe(q: Question)
    requires IsChange(q) && Skipped(q) && Spares(q)
    ensures SafeToSkip(q)
  {
    hide IsChange, Skipped, Spares, ReadsOnlyReach;
    forall outcome: Tree -> Option<File> | ReadsOnlyReach(q, outcome)
      ensures outcome(q.was) == outcome(q.now)
    {
      SkippedTestKeepsItsOutcome(q, outcome);
    }
  }
}
