/** What a test reads, said of the files themselves: imports, manifests and literals, without the gate's own tables. */
module GateReads {
  import opened Options
  import opened Reachability
  import opened Gate
  import opened GateLaws

  predicate EndsLikeAModule(path: string) {
    exists k :: 0 <= k <= |path| && path[k..] in [".ts", ".mts", ".js", ".mjs"]
  }

  /** A module that is there: only these are opened. */
  predicate Opened(t: Tree, file: string) {
    file in t.files && EndsLikeAModule(file)
  }

  /** The last listed directory whose manifest says this name. */
  ghost predicate Holds(t: Tree, d: string, name: string) {
    exists i :: 0 <= i < |t.packages| && t.packages[i] == d && Says(t, d, name) && forall j :: i < j < |t.packages| ==> !Says(t, t.packages[j], name)
  }

  predicate Says(t: Tree, d: string, name: string) {
    d + "/package.json" in t.files && t.files[d + "/package.json"].name == name
  }

  /** An import that runs when its module runs, now or later. */
  predicate Runs(imported: Import) {
    imported.kind == Static || imported.kind == Dynamic
  }

  /** A module loads what a running import of it names: the path itself, or what the package exports under the subpath. */
  ghost predicate Imports(t: Tree, m: string, p: string) {
    Opened(t, m) && exists imported :: imported in t.files[m].imports && Runs(imported) && Leads(t, imported.target, p)
  }

  ghost predicate Leads(t: Tree, target: Target, p: string) {
    match target
    case Relative(path) => p == path
    case Workspace(name, subpath) =>
      exists d :: Holds(t, d, name) && "." + subpath in t.files[d + "/package.json"].exports && p == t.files[d + "/package.json"].exports["." + subpath]
    case External => false
  }

  /** A module reads the manifest a running import of it resolves through. */
  ghost predicate Resolves(t: Tree, m: string, p: string) {
    Opened(t, m) && exists imported, d :: imported in t.files[m].imports && Runs(imported) && imported.target.Workspace? && Holds(t, d, imported.target.name) && p == d + "/package.json"
  }

  ghost predicate Below(t: Tree, directory: string) {
    exists f :: f in t.files && directory + "/" <= f
  }

  /** What a literal can mean at one base: a file; a directory of two segments; below a wildcard, a glob under a directory. */
  ghost predicate Means(t: Tree, literal: Literal, spot: Spot, p: string) {
    || (!literal.wildcard && p == spot.path && p in t.files)
    || (!literal.wildcard && p == spot.path + "/" && literal.segments >= 2 && Below(t, spot.path) && spot.path !in t.files)
    || (literal.wildcard && p == "glob:" + spot.pattern && literal.segments >= 1 && Below(t, spot.path))
  }

  /** A module mentions what one of its literals means. */
  ghost predicate Mentions(t: Tree, m: string, p: string) {
    Opened(t, m) && exists literal, spot :: literal in t.files[m].literals && spot in literal.spots && Means(t, literal, spot, p)
  }

  // The gate's tables agree.

  lemma ModuleEndsSo(path: string)
    ensures IsModule(path) <==> EndsLikeAModule(path)
  {
    if IsModule(path) {
      var n := |path|;
      if HasSuffix(".ts", path) {
        assert path[n - 3..] in [".ts", ".mts", ".js", ".mjs"];
      } else if HasSuffix(".mts", path) {
        assert path[n - 4..] in [".ts", ".mts", ".js", ".mjs"];
      } else if HasSuffix(".js", path) {
        assert path[n - 3..] in [".ts", ".mts", ".js", ".mjs"];
      } else {
        assert path[n - 4..] in [".ts", ".mts", ".js", ".mjs"];
      }
    }
  }

  lemma {:induction false} LastListed(t: Tree, directories: seq<string>, name: string)
    ensures name in WorkspacesOf(t, directories) <==> exists i :: 0 <= i < |directories| && Says(t, directories[i], name)
    ensures forall i :: 0 <= i < |directories| && Says(t, directories[i], name) && (forall j :: i < j < |directories| ==> !Says(t, directories[j], name)) ==>
              WorkspacesOf(t, directories)[name] == Package(directories[i] + "/package.json", t.files[directories[i] + "/package.json"].exports)
  {
    if directories != [] {
      var n := |directories| - 1;
      LastListed(t, directories[..n], name);
    }
  }

  lemma {:induction false} SomeoneIsLast(t: Tree, directories: seq<string>, name: string) returns (i: nat)
    requires exists k :: 0 <= k < |directories| && Says(t, directories[k], name)
    ensures i < |directories| && Says(t, directories[i], name) && forall j :: i < j < |directories| ==> !Says(t, directories[j], name)
  {
    i := |directories| - 1;
    while !Says(t, directories[i], name)
      invariant 0 <= i < |directories|
      invariant forall j :: i < j < |directories| ==> !Says(t, directories[j], name)
      decreases i
    {
      i := i - 1;
    }
  }

  /** The table of workspaces: a name is there exactly when a directory holds it, with the manifest and exports of that directory. */
  lemma WorkspaceIsHeld(t: Tree, name: string)
    ensures name in Workspaces(t) <==> exists d :: Holds(t, d, name)
    ensures forall d :: Holds(t, d, name) ==>
              name in Workspaces(t) && Workspaces(t)[name] == Package(d + "/package.json", t.files[d + "/package.json"].exports)
  {
    LastListed(t, t.packages, name);
    if name in Workspaces(t) {
      var i := SomeoneIsLast(t, t.packages, name);
      assert Holds(t, t.packages[i], name);
    }
  }

  lemma LoadedIffLeads(t: Tree, imported: Import, p: string)
    ensures p in Loaded(t, imported) <==> Runs(imported) && Leads(t, imported.target, p)
    ensures p in Through(t, imported) <==> Runs(imported) && imported.target.Workspace? && exists d :: Holds(t, d, imported.target.name) && p == d + "/package.json"
  {
    if imported.target.Workspace? {
      WorkspaceIsHeld(t, imported.target.name);
    }
    hide Holds, Workspaces;
  }

  lemma NamedIffMeans(t: Tree, literal: Literal, p: string)
    ensures p in Named(t, literal) <==> exists spot :: spot in literal.spots && Means(t, literal, spot, p)
  {
    forall spot | spot in literal.spots
      ensures Entry(t, literal, spot) == Some(p) <==> Means(t, literal, spot, p)
    {
      EntryIffMeans(t, literal, spot, p);
    }
    hide Entry, Means;
  }

  lemma EntryIffMeans(t: Tree, literal: Literal, spot: Spot, p: string)
    ensures Entry(t, literal, spot) == Some(p) <==> Means(t, literal, spot, p)
  {
    assert IsDirectory(t, spot.path) <==> Below(t, spot.path);
    assert |spot.path + "/"| != |spot.path|;
  }

  /** The two tables of edges, for every file. */
  lemma EdgesAreReads(t: Tree, m: string, p: string)
    ensures p in Modules(t, m) <==> Imports(t, m, p)
    ensures p in Paths(t, m) <==> Resolves(t, m, p) || Mentions(t, m, p)
  {
    ModuleEndsSo(m);
    hide EndsLikeAModule, IsModule, Loaded, Through, Named, Holds, Leads, Means;
    if Opened(t, m) {
      forall imported
        ensures p in Loaded(t, imported) <==> Runs(imported) && Leads(t, imported.target, p)
        ensures p in Through(t, imported) <==> Runs(imported) && imported.target.Workspace? && exists d :: Holds(t, d, imported.target.name) && p == d + "/package.json"
      {
        LoadedIffLeads(t, imported, p);
      }
      forall literal
        ensures p in Named(t, literal) <==> exists spot :: spot in literal.spots && Means(t, literal, spot, p)
      {
        NamedIffMeans(t, literal, p);
      }
    }
  }

  // Reach as trails of such reads.

  /** What the gate goes on to from a file: a module it imports, or a module it resolves through or mentions. */
  ghost predicate Steps(t: Tree, a: string, b: string) {
    Imports(t, a, b) || ((Resolves(t, a, b) || Mentions(t, a, b)) && EndsLikeAModule(b))
  }

  ghost predicate Trail(t: Tree, test: string, trail: seq<string>, m: string) {
    && |trail| > 0 && trail[0] == test && trail[|trail| - 1] == m
    && forall i :: 0 < i < |trail| ==> Steps(t, trail[i - 1], trail[i])
  }

  ghost predicate OnATrail(t: Tree, test: string, m: string) {
    exists trail :: Trail(t, test, trail, m)
  }

  lemma StepsAreEdges(t: Tree, a: string, b: string)
    ensures Steps(t, a, b) <==> b in Successors(ModuleGraph(t), a)
  {
    FollowedIsSuccessors(t, a);
    EdgesAreReads(t, a, b);
    ModuleEndsSo(b);
    hide Imports, Resolves, Mentions, Modules, Paths, EndsLikeAModule, IsModule, ModuleGraph;
  }

  lemma TrailsAreWalks(t: Tree, test: string, trail: seq<string>, m: string)
    ensures Trail(t, test, trail, m) <==> EndsIn(ModuleGraph(t), {test}, trail, m)
  {
    hide Steps, ModuleGraph;
    forall i | 0 < i < |trail|
      ensures Steps(t, trail[i - 1], trail[i]) <==> trail[i] in Successors(ModuleGraph(t), trail[i - 1])
    {
      StepsAreEdges(t, trail[i - 1], trail[i]);
    }
  }

  lemma ClosureByTrails(t: Tree, test: string, m: string)
    ensures m in Closure(t, test) <==> OnATrail(t, test, m)
  {
    ReachIffWalk(ModuleGraph(t), {test}, m);
    hide Trail, EndsIn, ModuleGraph, Reach;
    forall trail
      ensures Trail(t, test, trail, m) <==> EndsIn(ModuleGraph(t), {test}, trail, m)
    {
      TrailsAreWalks(t, test, trail, m);
    }
  }

  /** What a test reaches, of the files alone: the ends of its trails, what those resolve through and mention, and what is declared for it. */
  lemma InputsByTrails(t: Tree, declared: map<string, seq<string>>, test: string, p: string)
    ensures p in Inputs(t, declared, test) <==>
              || OnATrail(t, test, p)
              || (exists m :: OnATrail(t, test, m) && (Resolves(t, m, p) || Mentions(t, m, p)))
              || (test in declared && p in declared[test])
  {
    hide Closure, Paths, OnATrail, Resolves, Mentions, Imports, Modules;
    forall m
      ensures m in Closure(t, test) <==> OnATrail(t, test, m)
      ensures p in Paths(t, m) <==> Resolves(t, m, p) || Mentions(t, m, p)
    {
      ClosureByTrails(t, test, m);
      EdgesAreReads(t, m, p);
    }
  }

  /** A static or dynamic import of a reached module is reached: the path it names, or the package's manifest and what that exports. */
  lemma ImportIsReached(t: Tree, declared: map<string, seq<string>>, test: string, m: string, imported: Import)
    requires m in Closure(t, test) && Opened(t, m) && imported in t.files[m].imports
    requires imported.kind == Static || imported.kind == Dynamic
    ensures imported.target.Relative? ==> imported.target.path in Closure(t, test) && imported.target.path in Inputs(t, declared, test)
    ensures imported.target.Workspace? ==>
              forall d :: Holds(t, d, imported.target.name) ==>
                var manifest, sub := d + "/package.json", "." + imported.target.subpath;
                && manifest in Inputs(t, declared, test)
                && (sub in t.files[manifest].exports ==>
                      t.files[manifest].exports[sub] in Closure(t, test) && t.files[manifest].exports[sub] in Inputs(t, declared, test))
  {
    ReachIsLeast(ModuleGraph(t), {test});
    match imported.target
    case Relative(path) =>
      assert Leads(t, imported.target, path);
      LeadIsReached(t, declared, test, m, path);
    case Workspace(name, subpath) =>
      forall d | Holds(t, d, name)
        ensures d + "/package.json" in Inputs(t, declared, test)
        ensures "." + subpath in t.files[d + "/package.json"].exports ==>
                  t.files[d + "/package.json"].exports["." + subpath] in Closure(t, test) && t.files[d + "/package.json"].exports["." + subpath] in Inputs(t, declared, test)
      {
        EdgesAreReads(t, m, d + "/package.json");
        assert Resolves(t, m, d + "/package.json");
        if "." + subpath in t.files[d + "/package.json"].exports {
          var p := t.files[d + "/package.json"].exports["." + subpath];
          assert Leads(t, imported.target, p);
          LeadIsReached(t, declared, test, m, p);
        }
      }
    case External =>
  }

  lemma LeadIsReached(t: Tree, declared: map<string, seq<string>>, test: string, m: string, p: string)
    requires m in Closure(t, test) && Imports(t, m, p)
    ensures p in Closure(t, test) && p in Inputs(t, declared, test)
  {
    StepsAreEdges(t, m, p);
    assert Steps(t, m, p);
    ReachIsLeast(ModuleGraph(t), {test});
    hide ModuleGraph, Steps, Imports, Paths;
  }

  /** Types, comments and outside packages are not followed: a file of such imports and no literals reaches itself alone. */
  lemma NothingElseIsFollowed(t: Tree, test: string)
    requires test in t.files && t.files[test].literals == []
    requires forall imported :: imported in t.files[test].imports ==> imported.kind == TypeOnly || imported.kind == JsDoc || imported.target == External
    ensures Closure(t, test) == {test} && Inputs(t, map[], test) == {test}
  {
    forall p
      ensures p !in Modules(t, test) && p !in Paths(t, test)
    {
      EdgesAreReads(t, test, p);
    }
    assert Modules(t, test) == {} && Paths(t, test) == {};
    hide Modules, Paths, ModuleGraph, Reach;
    InputsOfNaming(t, test, {});
  }

  // Selections.

  /** A test is selected when anything it reaches changed, unless no test reads that. */
  lemma ChangedInputSelects(t: Tree, declared: map<string, seq<string>>, glob: (string, string) -> bool, changed: seq<string>, s: Selection, test: string, p: string)
    requires Selects(ReachTable(t, declared), changed, glob, s)
    requires test in t.files && IsTest(test) && p in changed && p in Inputs(t, declared, test)
    requires !ReadByNoTest(p)
    ensures test in s.tests
  {
    var reach := ReachTable(t, declared);
    hide ReadByNoTest, ReadByEveryTest, Inputs;
    assert test in Claimants(reach, p, glob);
    if ReadByEveryTest(p) {
      assert Forces(reach, p, glob);
    } else {
      assert Picks(reach, p, test, glob);
    }
  }

  /** Paths that are inputs of every test, by name or below. */
  lemma EveryTestReads(path: string)
    ensures ReadByEveryTest(path) <==>
              || path in [".nvmrc", "package.json", "package-lock.json", "tsconfig.json", "vendor/jarenjs", "scripts/test.ts"]
              || ".nvmrc/" <= path || "package.json/" <= path || "package-lock.json/" <= path || "tsconfig.json/" <= path
              || "vendor/jarenjs/" <= path || "scripts/test.ts/" <= path
  {
    forall k | 0 <= k < 6
      ensures EVERY_TEST[k] in EVERY_TEST
    {
    }
    assert EVERY_TEST[0] + "/" == ".nvmrc/" && EVERY_TEST[1] + "/" == "package.json/" && EVERY_TEST[2] + "/" == "package-lock.json/";
    assert EVERY_TEST[3] + "/" == "tsconfig.json/" && EVERY_TEST[4] + "/" == "vendor/jarenjs/" && EVERY_TEST[5] + "/" == "scripts/test.ts/";
  }

  lemma NoTestReads(path: string)
    ensures ReadByNoTest(path) <==> path == "scripts/test-durations.json" || ".vscode/" <= path
  {
    assert NO_TEST[0] in NO_TEST && NO_TEST[1] in NO_TEST;
    assert HasSuffix("/", ".vscode/") && !HasSuffix("/", "scripts/test-durations.json");
  }

  /** A path is claimed by itself, below a reached directory, or by a reached glob. */
  lemma ClaimedThreeWays(reached: set<string>, path: string, glob: (string, string) -> bool)
    ensures Claims(reached, path, glob) <==>
              || path in reached
              || (exists d: string, rest: string :: path == (d + "/") + rest && d + "/" in reached)
              || (exists pattern: string :: "glob:" + pattern in reached && glob(path, pattern))
  {
    if k :| 0 <= k < |path| && path[k] == '/' && path[..k + 1] in reached {
      assert path[..k] + "/" == path[..k + 1] && path == (path[..k] + "/") + path[k + 1..];
    }
    if d: string, rest: string :| path == (d + "/") + rest && d + "/" in reached {
      assert path[|d|] == '/' && path[..|d| + 1] == d + "/";
    }
    if e :| e in reached && HasPrefix("glob:", e) && glob(path, e[5..]) {
      assert "glob:" + e[5..] == e;
    }
    if pattern: string :| "glob:" + pattern in reached && glob(path, pattern) {
      assert ("glob:" + pattern)[5..] == pattern;
    }
  }

  /** Each reason is for its own path, and the suite is full exactly when one says so. */
  lemma FullSaysWhy(reach: Reached, changed: seq<string>, glob: (string, string) -> bool, s: Selection)
    requires Selects(reach, changed, glob, s)
    ensures |s.reasons| == |changed| && forall i :: 0 <= i < |changed| ==> s.reasons[i].path == changed[i]
    ensures s.full <==> exists i :: 0 <= i < |s.reasons| && (s.reasons[i].Everywhere? || s.reasons[i].Unclaimed?)
  {
    forall i | 0 <= i < |changed|
      ensures s.reasons[i].path == changed[i]
      ensures s.reasons[i].Everywhere? || s.reasons[i].Unclaimed? <==> Forces(reach, changed[i], glob)
    {
      hide ReadByNoTest, ReadByEveryTest, Claimants;
    }
    hide Forces, Why, Picks;
  }

  /** A claimed path counts the tests that claim it; all of those run, and unless the suite is full nothing else does. */
  lemma ClaimedTestsRun(reach: Reached, changed: seq<string>, glob: (string, string) -> bool, s: Selection)
    requires Selects(reach, changed, glob, s)
    ensures forall i :: 0 <= i < |changed| && s.reasons[i].Claimed? ==>
              var claiming := set test | test in reach && Claims(reach[test], changed[i], glob);
              claiming != {} && |claiming| == s.reasons[i].count && claiming <= s.tests
    ensures !s.full ==> forall test :: test in s.tests ==>
              exists i :: 0 <= i < |changed| && s.reasons[i].Claimed? && test in Claimants(reach, changed[i], glob)
  {
    hide ReadByNoTest, ReadByEveryTest, Claims;
    forall i | 0 <= i < |changed| && s.reasons[i].Claimed?
      ensures var claiming := set test | test in reach && Claims(reach[test], changed[i], glob);
              claiming != {} && |claiming| == s.reasons[i].count && claiming <= s.tests
    {
      assert Claimants(reach, changed[i], glob) == set test | test in reach && Claims(reach[test], changed[i], glob);
      hide Claimants;
      forall test | test in Claimants(reach, changed[i], glob)
        ensures test in s.tests
      {
        assert Picks(reach, changed[i], test, glob);
        assert test in reach.Keys by {
          ClaimantsAreTests(reach, changed[i], glob);
        }
      }
    }
    hide Claimants;
    if !s.full {
      forall test | test in s.tests
        ensures exists i :: 0 <= i < |changed| && s.reasons[i].Claimed? && test in Claimants(reach, changed[i], glob)
      {
        var path :| path in changed && Picks(reach, path, test, glob);
        var i :| 0 <= i < |changed| && changed[i] == path;
        assert s.reasons[i].Claimed?;
      }
    }
  }

  lemma ClaimantsAreTests(reach: Reached, path: string, glob: (string, string) -> bool)
    ensures Claimants(reach, path, glob) <= reach.Keys
  {
  }

  // Three tests of one package: one loads it later, one at once, one only for its types.

  function Agents(): string { "packages/agents/src/index.ts" }
  function Gamma(): string { "test/c.test.ts" }

  function Loading(kind: Kind): File {
    File("", [Import(kind, Workspace("@tangleai/agents", ""))], [], "", map[])
  }

  function Lazy(): Tree {
    Tree(map[Alpha() := Loading(Dynamic), Beta() := Loading(Static), Gamma() := Loading(TypeOnly),
             "packages/agents/package.json" := File("", [], [], "@tangleai/agents", map["." := Agents()]),
             Agents() := File("", [], [], "", map[])],
         ["packages/agents"])
  }

  lemma LazyNames()
    ensures Alpha() != Beta() && Alpha() != Gamma() && Beta() != Gamma()
    ensures Agents() != "packages/agents/package.json"
    ensures Alpha()[0] == Beta()[0] == Gamma()[0] == 't' && Agents()[0] == 'p' && "packages/agents/package.json"[0] == 'p'
  {
    assert Alpha()[5] == 'a' && Beta()[5] == 'b' && Gamma()[5] == 'c';
    assert Agents()[16] == 's' && "packages/agents/package.json"[16] == 'p';
  }

  lemma LazyTests()
    ensures IsTest(Alpha()) && IsTest(Beta()) && IsTest(Gamma()) && !IsTest(Agents()) && !IsTest("packages/agents/package.json")
  {
    assert HasPrefix("test/", Gamma()) && HasSuffix(".test.ts", Gamma());
    PathsAreSorted();
    LazyNames();
    hide Alpha, Beta, Gamma, Agents, HasSuffix;
  }

  lemma LazyFiles()
    ensures Lazy().files.Keys == {Alpha(), Beta(), Gamma(), Agents(), "packages/agents/package.json"}
    ensures Lazy().files[Alpha()] == Loading(Dynamic) && Lazy().files[Beta()] == Loading(Static) && Lazy().files[Gamma()] == Loading(TypeOnly)
    ensures Lazy().files["packages/agents/package.json"].name == "@tangleai/agents"
    ensures Lazy().files["packages/agents/package.json"].exports == map["." := Agents()]
    ensures "packages/agents" + "/package.json" == "packages/agents/package.json"
  {
    LazyNames();
    hide Alpha, Beta, Gamma, Agents, Loading;
  }

  lemma LazyIsHeld()
    ensures Holds(Lazy(), "packages/agents", "@tangleai/agents")
  {
    LazyFiles();
    assert Lazy().packages[0] == "packages/agents";
  }

  lemma LoaderReaches(test: string, kind: Kind)
    requires test in Lazy().files && IsTest(test) && Lazy().files[test] == Loading(kind) && (kind == Static || kind == Dynamic)
    ensures Agents() in Inputs(Lazy(), map[], test)
  {
    LazyFiles();
    LazyIsHeld();
    var imported := Import(kind, Workspace("@tangleai/agents", ""));
    assert Loading(kind).imports == [imported] && imported in Loading(kind).imports;
    hide Lazy, Loading, Holds, Inputs, ModuleGraph, EndsLikeAModule, IsTest, Reach;
    ReachIsLeast(ModuleGraph(Lazy()), {test});
    TestIsModule(test);
    assert "." + "" == ".";
    ImportIsReached(Lazy(), map[], test, test, imported);
  }

  lemma TestIsModule(test: string)
    requires IsTest(test)
    ensures EndsLikeAModule(test)
  {
    assert test[|test| - 3..] == test[|test| - 8..][5..] == ".ts";
  }

  lemma TypesReachNothing()
    ensures Inputs(Lazy(), map[], Gamma()) == {Gamma()}
    ensures !Claims({Gamma()}, Agents(), NoGlob)
  {
    LazyFiles();
    NothingElseIsFollowed(Lazy(), Gamma());
    LazyNames();
    hide Lazy, Gamma, Agents, Claims, Inputs;
    OtherRootIsNotClaimed(Gamma(), Agents());
  }

  lemma AgentsAreRead()
    ensures !ReadByNoTest(Agents()) && !ReadByEveryTest(Agents())
  {
    NoTestReads(Agents());
    EveryTestReads(Agents());
    assert Agents()[0] == 'p' && Agents()[4] == 'a' && Agents()[9] == 'a';
  }

  /** A changed module selects the test that imports it dynamically as well as the one that imports it statically, and not the one that only takes its types. */
  lemma DynamicLoaderIsSelected(s: Selection)
    requires Selects(ReachTable(Lazy(), map[]), [Agents()], NoGlob, s)
    ensures s == Selection(false, {Alpha(), Beta()}, [Claimed(Agents(), 2)])
  {
    LazyTable();
    AgentsAreRead();
    LazyNames();
    hide Lazy, Claims, ReadByNoTest, ReadByEveryTest, Alpha, Beta, Gamma, Agents, ReachTable, Selects;
    LoadersClaim(ReachTable(Lazy(), map[]), s);
  }

  lemma LazyTable()
    ensures var reach := ReachTable(Lazy(), map[]);
            && reach.Keys == {Alpha(), Beta(), Gamma()}
            && Agents() in reach[Alpha()] && Agents() in reach[Beta()] && !Claims(reach[Gamma()], Agents(), NoGlob)
  {
    LazyFiles();
    LazyTests();
    TypesReachNothing();
    hide Lazy, Loading, Claims, Inputs, Alpha, Beta, Gamma, Agents, IsTest;
    LoaderReaches(Alpha(), Dynamic);
    LoaderReaches(Beta(), Static);
    TableOfTests(Lazy());
  }

  lemma TableOfTests(t: Tree)
    ensures ReachTable(t, map[]).Keys == set f | f in t.files && IsTest(f)
    ensures forall f :: f in t.files && IsTest(f) ==> ReachTable(t, map[])[f] == Inputs(t, map[], f)
  {
    hide Inputs, IsTest;
  }

  lemma LoadersClaim(reach: Reached, s: Selection)
    requires Selects(reach, [Agents()], NoGlob, s) && reach.Keys == {Alpha(), Beta(), Gamma()} && Alpha() != Beta() && Alpha() != Gamma() && Beta() != Gamma()
    requires Agents() in reach[Alpha()] && Agents() in reach[Beta()] && !Claims(reach[Gamma()], Agents(), NoGlob)
    requires !ReadByNoTest(Agents()) && !ReadByEveryTest(Agents())
    ensures s == Selection(false, {Alpha(), Beta()}, [Claimed(Agents(), 2)])
  {
    assert Claims(reach[Alpha()], Agents(), NoGlob) && Claims(reach[Beta()], Agents(), NoGlob);
    hide Claims, ReadByNoTest, ReadByEveryTest, Alpha, Beta, Gamma, Agents, NoGlob;
    assert Claimants(reach, Agents(), NoGlob) == {Alpha(), Beta()};
    assert Selects(reach, [Agents()], NoGlob, Selection(false, {Alpha(), Beta()}, [Claimed(Agents(), 2)])) by {
      assert Picks(reach, Agents(), Alpha(), NoGlob) && Picks(reach, Agents(), Beta(), NoGlob) && !Forces(reach, Agents(), NoGlob);
      assert forall path :: path in [Agents()] ==> path == Agents();
    }
    SelectionIsUnique(reach, NoGlob, [Agents()], s, Selection(false, {Alpha(), Beta()}, [Claimed(Agents(), 2)]));
  }

  /** The tests are the files below `test/` that end in `.test.ts`. */
  lemma TestsAre(path: string)
    ensures IsTest(path) <==> exists rest: string :: path == "test/" + rest && |path| >= 8 && path[|path| - 8..] == ".test.ts"
  {
    if IsTest(path) {
      assert path == "test/" + path[5..];
    }
  }
}
