/** The change gate: what each test file can reach in a source tree, and which tests a change selects. */
module Gate {
  import opened Options
  import opened Reachability

  /** How a module names another: through a workspace package, by a relative path (already resolved), or neither. */
  datatype Target = Workspace(name: string, subpath: string) | Relative(path: string) | External
  datatype Kind = Static | Dynamic | TypeOnly | JsDoc
  datatype Import = Import(kind: Kind, target: Target)

  /** One base a literal is resolved against: the path up to its first wildcard, and the whole pattern. */
  datatype Spot = Spot(path: string, pattern: string)
  /** A string literal that is shaped like a path; `segments` counts its proper path segments. */
  datatype Literal = Literal(wildcard: bool, segments: nat, spots: seq<Spot>)

  /** A file: its bytes and what the parsers read in them (imports and literals of a module, name and exports of a manifest). */
  datatype File = File(bytes: string, imports: seq<Import>, literals: seq<Literal>, name: string, exports: map<string, string>)

  /** A checkout: its files, and the package directories in the order they are listed. */
  datatype Tree = Tree(files: map<string, File>, packages: seq<string>)

  const EVERY_TEST := [".nvmrc", "package.json", "package-lock.json", "tsconfig.json", "vendor/jarenjs", "scripts/test.ts"]
  const NO_TEST := ["scripts/test-durations.json", ".vscode/"]

  predicate HasPrefix(prefix: string, s: string) {
    prefix <= s
  }

  predicate HasSuffix(suffix: string, s: string) {
    |suffix| <= |s| && s[|s| - |suffix|..] == suffix
  }

  predicate IsModule(path: string) {
    HasSuffix(".ts", path) || HasSuffix(".mts", path) || HasSuffix(".js", path) || HasSuffix(".mjs", path)
  }

  predicate IsTest(path: string) {
    HasPrefix("test/", path) && HasSuffix(".test.ts", path)
  }

  predicate IsDirectory(t: Tree, path: string) {
    exists f :: f in t.files && HasPrefix(path + "/", f)
  }

  function Manifest(directory: string): string {
    directory + "/package.json"
  }

  datatype Package = Package(manifest: string, exports: map<string, string>)

  /** The workspace packages by name; a later listing entry replaces an earlier one of the same name. */
  function WorkspacesOf(t: Tree, directories: seq<string>): map<string, Package> {
    if directories == [] then map[] else
    var before := WorkspacesOf(t, directories[..|directories| - 1]);
    var manifest := Manifest(directories[|directories| - 1]);
    if manifest in t.files
    then before[t.files[manifest].name := Package(manifest, t.files[manifest].exports)]
    else before
  }

  function Workspaces(t: Tree): map<string, Package> {
    WorkspacesOf(t, t.packages)
  }

  /** What one literal names at one base: a glob below a directory, a file, or a directory of two segments or more. */
  function Entry(t: Tree, literal: Literal, spot: Spot): Option<string> {
    if literal.wildcard then
      if IsDirectory(t, spot.path) && literal.segments > 0 then Some("glob:" + spot.pattern) else None
    else if spot.path in t.files then Some(spot.path)
    else if IsDirectory(t, spot.path) && literal.segments >= 2 then Some(spot.path + "/")
    else None
  }

  function NamedAt(t: Tree, literal: Literal, spots: seq<Spot>): set<string> {
    set spot | spot in spots && Entry(t, literal, spot).Some? :: Entry(t, literal, spot).value
  }

  function Named(t: Tree, literal: Literal): set<string> {
    NamedAt(t, literal, literal.spots)
  }

  predicate Loads(imported: Import) {
    imported.kind.Static? || imported.kind.Dynamic?
  }

  /** The module an import loads, if it names one. */
  function Loaded(t: Tree, imported: Import): set<string> {
    if !Loads(imported) then {} else
    match imported.target
    case Workspace(name, subpath) =>
      if name !in Workspaces(t) then {} else
      var exports := Workspaces(t)[name].exports;
      if "." + subpath in exports then {exports["." + subpath]} else {}
    case Relative(path) => {path}
    case External => {}
  }

  /** The manifest a workspace import resolves through. */
  function Through(t: Tree, imported: Import): set<string> {
    if Loads(imported) && imported.target.Workspace? && imported.target.name in Workspaces(t)
    then {Workspaces(t)[imported.target.name].manifest} else {}
  }

  predicate Parsed(t: Tree, file: string) {
    IsModule(file) && file in t.files
  }

  function LoadedBy(t: Tree, imports: seq<Import>): set<string> {
    set imported, m | imported in imports && m in Loaded(t, imported) :: m
  }

  function ThroughBy(t: Tree, imports: seq<Import>): set<string> {
    set imported, p | imported in imports && p in Through(t, imported) :: p
  }

  function NamedBy(t: Tree, literals: seq<Literal>): set<string> {
    set literal, p | literal in literals && p in Named(t, literal) :: p
  }

  function Modules(t: Tree, file: string): set<string> {
    if Parsed(t, file) then LoadedBy(t, t.files[file].imports) else {}
  }

  function Paths(t: Tree, file: string): set<string> {
    if Parsed(t, file) then ThroughBy(t, t.files[file].imports) + NamedBy(t, t.files[file].literals) else {}
  }

  /** What the worklist follows from a file: the modules it loads and the modules it names. */
  function Followed(t: Tree, file: string): set<string> {
    Modules(t, file) + set p | p in Paths(t, file) && IsModule(p)
  }

  function ModuleGraph(t: Tree): Graph<string> {
    map f | f in t.files && IsModule(f) :: Followed(t, f)
  }

  /** The static closure of a test: the least set of files that holds it and everything its members follow. */
  ghost function Closure(t: Tree, test: string): set<string> {
    Reach(ModuleGraph(t), {test})
  }

  function Declared(declared: map<string, seq<string>>, test: string): set<string> {
    if test in declared then set p | p in declared[test] else {}
  }

  /** A set of modules and every path one of them names. */
  ghost function Gathered(t: Tree, modules: set<string>): set<string> {
    modules + set m, p | m in modules && p in Paths(t, m) :: p
  }

  /** Everything a test reaches: its closure, the paths the closure names, and what is declared for it. */
  ghost function Inputs(t: Tree, declared: map<string, seq<string>>, test: string): set<string> {
    Gathered(t, Closure(t, test)) + Declared(declared, test)
  }

  /** A path is claimed by itself, by a reached directory above it, or by a reached glob. */
  predicate Claims(reached: set<string>, path: string, glob: (string, string) -> bool) {
    || path in reached
    || (exists k :: 0 <= k < |path| && path[k] == '/' && path[..k + 1] in reached)
    || (exists e :: e in reached && HasPrefix("glob:", e) && glob(path, e[5..]))
  }

  predicate ReadByNoTest(path: string) {
    exists entry :: entry in NO_TEST && (if HasSuffix("/", entry) then HasPrefix(entry, path) else path == entry)
  }

  predicate ReadByEveryTest(path: string) {
    exists input :: input in EVERY_TEST && (path == input || HasPrefix(input + "/", path))
  }

  /** A name is held by a listed package whose manifest is there, says that name and carries those exports. */
  lemma {:induction false} WorkspaceHasManifest(t: Tree, directories: seq<string>, name: string)
    requires name in WorkspacesOf(t, directories)
    ensures var found := WorkspacesOf(t, directories)[name];
            && found.manifest in t.files
            && t.files[found.manifest].name == name
            && t.files[found.manifest].exports == found.exports
            && exists d :: d in directories && found.manifest == Manifest(d)
  {
    var last := directories[|directories| - 1];
    if !(Manifest(last) in t.files && t.files[Manifest(last)].name == name) {
      WorkspaceHasManifest(t, directories[..|directories| - 1], name);
    }
  }

  /** A listed package whose manifest is there leaves its name among the workspaces. */
  lemma {:induction false} ManifestIsListed(t: Tree, directories: seq<string>, d: string)
    requires d in directories && Manifest(d) in t.files
    ensures t.files[Manifest(d)].name in WorkspacesOf(t, directories)
  {
    var last := |directories| - 1;
    if directories[last] != d {
      assert d in directories[..last];
      ManifestIsListed(t, directories[..last], d);
    }
  }

  function Elements(s: seq<string>): set<string> {
    set x | x in s
  }

  datatype Edges = Edges(modules: seq<string>, paths: seq<string>)

  predicate EdgesAre(t: Tree, file: string, edges: Edges) {
    Elements(edges.modules) == Modules(t, file) && Elements(edges.paths) == Paths(t, file)
  }

  datatype Reason = Unread(path: string) | Everywhere(path: string) | Unclaimed(path: string) | Claimed(path: string, count: nat)

  datatype Selection = Selection(full: bool, tests: set<string>, reasons: seq<Reason>)

  type Reached = map<string, set<string>>

  ghost function ReachTable(t: Tree, declared: map<string, seq<string>>): Reached {
    map test | test in t.files && IsTest(test) :: Inputs(t, declared, test)
  }

  function Claimants(reach: Reached, path: string, glob: (string, string) -> bool): set<string> {
    set test | test in reach && Claims(reach[test], path, glob)
  }

  /** A changed path that forces the whole suite. */
  predicate Forces(reach: Reached, path: string, glob: (string, string) -> bool) {
    !ReadByNoTest(path) && (ReadByEveryTest(path) || Claimants(reach, path, glob) == {})
  }

  /** A changed path that picks a test: it is not one that forces, and the test claims it. */
  predicate Picks(reach: Reached, path: string, test: string, glob: (string, string) -> bool) {
    !ReadByNoTest(path) && !ReadByEveryTest(path) && test in Claimants(reach, path, glob)
  }

  function Why(reach: Reached, path: string, glob: (string, string) -> bool): Reason {
    if ReadByNoTest(path) then Unread(path)
    else if ReadByEveryTest(path) then Everywhere(path)
    else if Claimants(reach, path, glob) == {} then Unclaimed(path)
    else Claimed(path, |Claimants(reach, path, glob)|)
  }

  /** What a selection over a reach table must be, with no order in it. */
  ghost predicate Selects(reach: Reached, changed: seq<string>, glob: (string, string) -> bool, s: Selection) {
    && (s.full <==> exists path :: path in changed && Forces(reach, path, glob))
    && (s.full ==> s.tests == reach.Keys)
    && (!s.full ==> forall test :: test in s.tests <==> exists path :: path in changed && Picks(reach, path, test, glob))
    && |s.reasons| == |changed|
    && (forall i :: 0 <= i < |changed| ==> s.reasons[i] == Why(reach, changed[i], glob))
  }

  /** The gate over one checkout; `edges` remembers what was parsed. */
  class ChangeGate {
    const tree: Tree
    const declared: map<string, seq<string>>
    const workspaces: map<string, Package>
    var edges: map<string, Edges>

    ghost predicate Valid()
      reads this
    {
      && workspaces == Workspaces(tree)
      && forall file :: file in edges ==> EdgesAre(tree, file, edges[file])
    }

    constructor (tree: Tree, declared: map<string, seq<string>>)
      ensures Valid() && this.tree == tree && this.declared == declared && edges == map[]
    {
      this.tree := tree;
      this.declared := declared;
      this.edges := map[];
      var found: map<string, Package> := map[];
      for i := 0 to |tree.packages|
        invariant found == WorkspacesOf(tree, tree.packages[..i])
      {
        assert tree.packages[..i + 1][..i] == tree.packages[..i];
        var manifest := Manifest(tree.packages[i]);
        if manifest in tree.files {
          found := found[tree.files[manifest].name := Package(manifest, tree.files[manifest].exports)];
        }
      }
      assert tree.packages[..|tree.packages|] == tree.packages;
      this.workspaces := found;
    }

    method NamedPaths(literal: Literal) returns (found: seq<string>)
      ensures Elements(found) == Named(tree, literal)
    {
      found := [];
      for i := 0 to |literal.spots|
        invariant Elements(found) == NamedAt(tree, literal, literal.spots[..i])
      {
        var spot := literal.spots[i];
        assert literal.spots[..i + 1] == literal.spots[..i] + [spot];
        var one: seq<string> := [];
        if literal.wildcard {
          if IsDirectory(tree, spot.path) && literal.segments > 0 {
            one := ["glob:" + spot.pattern];
          }
        } else if spot.path in tree.files {
          one := [spot.path];
        } else if IsDirectory(tree, spot.path) && literal.segments >= 2 {
          one := [spot.path + "/"];
        }
        NamedAtOne(tree, literal, spot);
        ElementsOfSum(found, one);
        found := found + one;
      }
      assert literal.spots[..|literal.spots|] == literal.spots;
    }

    /** What the imports of a module load, and the manifests they resolve through. */
    method ImportEdges(imports: seq<Import>) returns (found: Edges)
      requires Valid()
      ensures Elements(found.modules) == LoadedBy(tree, imports) && Elements(found.paths) == ThroughBy(tree, imports)
    {
      hide Workspaces;
      found := Edges([], []);
      for i := 0 to |imports|
        invariant Elements(found.modules) == LoadedBy(tree, imports[..i])
        invariant Elements(found.paths) == ThroughBy(tree, imports[..i])
      {
        var imported := imports[i];
        assert imports[..i + 1] == imports[..i] + [imported];
        var modules: seq<string>, paths: seq<string> := [], [];
        if imported.kind.Static? || imported.kind.Dynamic? {
          match imported.target
          case Workspace(name, subpath) =>
            if name in workspaces {
              paths := [workspaces[name].manifest];
              var exports := workspaces[name].exports;
              if "." + subpath in exports {
                modules := [exports["." + subpath]];
              }
            }
          case Relative(path) =>
            modules := [path];
          case External =>
        }
        assert Elements(modules) == Loaded(tree, imported) && Elements(paths) == Through(tree, imported);
        OneMoreImport(tree, imports[..i], imported);
        ElementsOfSum(found.modules, modules);
        ElementsOfSum(found.paths, paths);
        found := Edges(found.modules + modules, found.paths + paths);
      }
      assert imports[..|imports|] == imports;
    }

    /** The paths the literals of a module name. */
    method LiteralPaths(literals: seq<Literal>) returns (found: seq<string>)
      ensures Elements(found) == NamedBy(tree, literals)
    {
      hide Named;
      found := [];
      for i := 0 to |literals|
        invariant Elements(found) == NamedBy(tree, literals[..i])
      {
        assert literals[..i + 1] == literals[..i] + [literals[i]];
        var names := NamedPaths(literals[i]);
        OneMoreLiteral(tree, literals[..i], literals[i]);
        ElementsOfSum(found, names);
        found := found + names;
      }
      assert literals[..|literals|] == literals;
    }

    method EdgesOf(file: string) returns (found: Edges)
      requires Valid()
      modifies this`edges
      ensures Valid() && EdgesAre(tree, file, found)
      ensures edges == old(edges)[file := found]
      ensures file in old(edges) ==> found == old(edges)[file]
    {
      if file in edges {
        assert edges == edges[file := edges[file]];
        return edges[file];
      }
      hide Workspaces, Named, Loaded, Through, IsModule;
      found := Edges([], []);
      if IsModule(file) && file in tree.files {
        found := ImportEdges(tree.files[file].imports);
        var names := LiteralPaths(tree.files[file].literals);
        ElementsOfSum(found.paths, names);
        found := found.(paths := found.paths + names);
      }
      edges := edges[file := found];
    }

    /** Puts what a file follows on the worklist and returns the paths it names. */
    method Follow(file: string, pending: seq<string>) returns (paths: set<string>, next: seq<string>)
      requires Valid()
      modifies this`edges
      ensures Valid()
      ensures paths == Paths(tree, file)
      ensures Elements(next) == Elements(pending) + Successors(ModuleGraph(tree), file)
    {
      FollowedIsSuccessors(tree, file);
      var found := EdgesOf(file);
      paths := Elements(found.paths);
      var named := FilterModules(found.paths);
      ElementsOfSum(found.modules, named);
      ElementsOfSum(pending, found.modules + named);
      next := pending + (found.modules + named);
    }

    /** The worklist: a test's closure with the paths it names. */
    method Walk(test: string) returns (reached: set<string>)
      requires Valid()
      modifies this`edges
      ensures Valid()
      ensures reached == Gathered(tree, Closure(tree, test))
    {
      hide ModuleGraph, Paths, Modules, Reach, Universe;
      ghost var graph := ModuleGraph(tree);
      var modules: set<string> := {};
      reached := {};
      var pending := [test];
      assert Elements(pending) == {test};
      WalkStarts(graph, {test});
      while |pending| > 0
        invariant Valid()
        invariant Walking(graph, {test}, modules, Elements(pending))
        invariant reached == Gathered(tree, modules)
        decreases |Unexplored(graph, {test}, modules)|, |pending|
      {
        var file := pending[|pending| - 1];
        assert Elements(pending) == Elements(pending[..|pending| - 1]) + {file} by {
          ElementsOfSum(pending[..|pending| - 1], [file]);
          assert pending == pending[..|pending| - 1] + [file];
        }
        pending := pending[..|pending| - 1];
        WalkStep(graph, {test}, modules, Elements(pending), file);
        if file in modules { continue; }
        WalkShrinks(graph, {test}, modules, Elements(pending), file);
        GatheredOneMore(tree, modules, file);
        modules := modules + {file};
        var paths;
        paths, pending := Follow(file, pending);
        reached := reached + {file} + paths;
      }
      WalkEnds(graph, {test}, modules);
    }

    /** The tests a change selects: the reach of every test file of the tree, then the fold over the changed paths. */
    method Select(changed: seq<string>, glob: (string, string) -> bool) returns (s: Selection)
      requires Valid()
      modifies this`edges
      ensures Valid()
      ensures Selects(ReachTable(tree, declared), changed, glob, s)
    {
      var tests := set f | f in tree.files && IsTest(f);
      var left := tests;
      var reach: Reached := map[];
      while left != {}
        invariant Valid() && left <= tests
        invariant reach.Keys == tests - left
        invariant forall test :: test in reach ==> reach[test] == Inputs(tree, declared, test)
        decreases left
      {
        var test :| test in left;
        left := left - {test};
        var reached := InputsOf(test);
        reach := reach[test := reached];
      }
      assert reach == ReachTable(tree, declared);
      s := SelectFrom(reach, changed, glob);
    }

    method InputsOf(test: string) returns (reached: set<string>)
      requires Valid()
      modifies this`edges
      ensures Valid()
      ensures reached == Inputs(tree, declared, test)
    {
      reached := Walk(test);
      if test in declared {
        reached := reached + Elements(declared[test]);
      }
    }
  }

  /** Folds the changed paths over a reach table, in the order given. */
  method SelectFrom(reach: Reached, changed: seq<string>, glob: (string, string) -> bool) returns (s: Selection)
    ensures Selects(reach, changed, glob, s)
  {
    hide ReadByNoTest, ReadByEveryTest, Claims;
    var chosen: set<string>, reasons: seq<Reason> := {}, [];
    var full := false;
    for i := 0 to |changed|
      invariant |reasons| == i
      invariant full <==> exists path :: path in changed[..i] && Forces(reach, path, glob)
      invariant forall test :: test in chosen <==> exists path :: path in changed[..i] && Picks(reach, path, test, glob)
      invariant forall j :: 0 <= j < i ==> reasons[j] == Why(reach, changed[j], glob)
    {
      var path := changed[i];
      ghost var wasFull, wasChosen := full, chosen;
      if ReadByNoTest(path) {
        reasons := reasons + [Unread(path)];
      } else if ReadByEveryTest(path) {
        full := true;
        reasons := reasons + [Everywhere(path)];
      } else {
        var claimed := Claimants(reach, path, glob);
        if claimed == {} {
          full := true;
          reasons := reasons + [Unclaimed(path)];
        } else {
          chosen := chosen + claimed;
          reasons := reasons + [Claimed(path, |claimed|)];
        }
      }
      assert full <==> wasFull || Forces(reach, path, glob);
      assert forall test :: test in chosen <==> test in wasChosen || Picks(reach, path, test, glob);
      OneMorePath(reach, changed, i, glob);
    }
    assert changed[..|changed|] == changed;
    s := Selection(full, if full then reach.Keys else chosen, reasons);
  }

  lemma OneMorePath(reach: Reached, changed: seq<string>, i: nat, glob: (string, string) -> bool)
    requires i < |changed|
    ensures (exists path :: path in changed[..i + 1] && Forces(reach, path, glob)) <==>
            (exists path :: path in changed[..i] && Forces(reach, path, glob)) || Forces(reach, changed[i], glob)
    ensures forall test :: (exists path :: path in changed[..i + 1] && Picks(reach, path, test, glob)) <==>
                           (exists path :: path in changed[..i] && Picks(reach, path, test, glob)) || Picks(reach, changed[i], test, glob)
  {
    hide Forces, Picks;
    assert changed[..i + 1] == changed[..i] + [changed[i]];
    assert forall path :: path in changed[..i + 1] <==> path in changed[..i] || path == changed[i];
  }

  lemma ElementsOfSum(a: seq<string>, b: seq<string>)
    ensures Elements(a + b) == Elements(a) + Elements(b)
  {
  }

  lemma OneMoreImport(t: Tree, imports: seq<Import>, imported: Import)
    ensures LoadedBy(t, imports + [imported]) == LoadedBy(t, imports) + Loaded(t, imported)
    ensures ThroughBy(t, imports + [imported]) == ThroughBy(t, imports) + Through(t, imported)
  {
    hide Loaded, Through;
    assert forall other :: other in imports + [imported] <==> other in imports || other == imported;
  }

  lemma OneMoreLiteral(t: Tree, literals: seq<Literal>, literal: Literal)
    ensures NamedBy(t, literals + [literal]) == NamedBy(t, literals) + Named(t, literal)
  {
    hide Named;
    assert forall other :: other in literals + [literal] <==> other in literals || other == literal;
  }

  lemma NamedAtOne(t: Tree, literal: Literal, spot: Spot)
    ensures NamedAt(t, literal, [spot]) == match Entry(t, literal, spot) case Some(p) => {p} case None => {}
  {
    var one := [spot];
    assert spot in one;
  }

  lemma GatheredOneMore(t: Tree, modules: set<string>, file: string)
    ensures Gathered(t, modules + {file}) == Gathered(t, modules) + {file} + Paths(t, file)
  {
  }

  lemma FollowedIsSuccessors(t: Tree, file: string)
    ensures Successors(ModuleGraph(t), file) == Followed(t, file)
  {
    if !Parsed(t, file) {
      assert Followed(t, file) == {};
    }
  }

  method FilterModules(paths: seq<string>) returns (kept: seq<string>)
    ensures Elements(kept) == set p | p in paths && IsModule(p)
  {
    kept := [];
    for i := 0 to |paths|
      invariant Elements(kept) == set p | p in paths[..i] && IsModule(p)
    {
      ghost var before := Elements(kept);
      assert paths[..i + 1] == paths[..i] + [paths[i]];
      if IsModule(paths[i]) {
        kept := kept + [paths[i]];
      }
      assert Elements(kept) == before + if IsModule(paths[i]) then {paths[i]} else {};
    }
    assert paths[..|paths|] == paths;
  }

  // What the reach of a test is, said by walks.

  /** A path the test reads: a walk along imports and named modules ends in it, or in a module that names it, or it is declared. */
  ghost predicate IsWalkedTo(t: Tree, declared: map<string, seq<string>>, test: string, p: string) {
    || (exists walk :: EndsIn(ModuleGraph(t), {test}, walk, p))
    || (exists walk, m :: EndsIn(ModuleGraph(t), {test}, walk, m) && p in Paths(t, m))
    || (test in declared && p in declared[test])
  }

  /** What a test reaches is exactly what some walk from it leads to or names, and what is declared for it. */
  lemma InputsByWalks(t: Tree, declared: map<string, seq<string>>, test: string, p: string)
    ensures p in Inputs(t, declared, test) <==> IsWalkedTo(t, declared, test, p)
  {
    hide ModuleGraph, Paths, Reach, EndsIn;
    forall m
      ensures m in Closure(t, test) <==> exists walk :: EndsIn(ModuleGraph(t), {test}, walk, m)
    {
      ReachIffWalk(ModuleGraph(t), {test}, m);
    }
  }

  /** A glob entry that ends like a module goes on the worklist, and adds nothing but itself: it is spelled like no file. */
  lemma GlobEntriesAddNothing(t: Tree, modules: set<string>, pattern: string)
    requires "glob:" + pattern !in t.files
    ensures Followed(t, "glob:" + pattern) == {}
    ensures Gathered(t, modules + {"glob:" + pattern}) == Gathered(t, modules) + {"glob:" + pattern}
  {
    assert Paths(t, "glob:" + pattern) == {} && Modules(t, "glob:" + pattern) == {};
    hide Paths, Modules;
    GatheredOneMore(t, modules, "glob:" + pattern);
  }
}
