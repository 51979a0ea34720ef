/** Laws of the selection as a function of the changed paths, and the change it does not cover. */
module GateLaws {
  import opened Options
  import opened Reachability
  import opened Gate
  import opened GateSafety

  function Join(reach: Reached, a: Selection, b: Selection): Selection {
    Selection(a.full || b.full, if a.full || b.full then reach.Keys else a.tests + b.tests, a.reasons + b.reasons)
  }

  /** The selection for a concatenation is the join of the selections. */
  lemma SelectionOfSum(reach: Reached, glob: (string, string) -> bool, a: seq<string>, sa: Selection, b: seq<string>, sb: Selection, s: Selection)
    requires Selects(reach, a, glob, sa) && Selects(reach, b, glob, sb)
    ensures Selects(reach, a + b, glob, s) <==> s == Join(reach, sa, sb)
  {
    hide Forces, Picks, Why;
    var j := Join(reach, sa, sb);
    assert j.full <==> exists path :: path in a + b && Forces(reach, path, glob);
    assert !j.full ==> forall test :: test in j.tests <==> exists path :: path in a + b && Picks(reach, path, test, glob);
    assert Selects(reach, a + b, glob, j);
    SelectionIsUnique(reach, glob, a + b, s, j);
  }

  lemma SelectionIsUnique(reach: Reached, glob: (string, string) -> bool, changed: seq<string>, s: Selection, t: Selection)
    requires Selects(reach, changed, glob, t)
    ensures Selects(reach, changed, glob, s) <==> s == t
  {
    hide Forces, Picks, Why;
    if Selects(reach, changed, glob, s) {
      assert s.tests == t.tests;
      assert s.reasons == t.reasons;
    }
  }

  /** More changed paths never select fewer tests, in any order and with any repeats. */
  lemma SelectionIsMonotone(reach: Reached, glob: (string, string) -> bool, a: seq<string>, sa: Selection, b: seq<string>, sb: Selection)
    requires Selects(reach, a, glob, sa) && Selects(reach, b, glob, sb)
    requires forall path :: path in a ==> path in b
    ensures sa.full ==> sb.full
    ensures sa.tests <= sb.tests
  {
    hide Forces, Why, Claims, ReadByNoTest, ReadByEveryTest;
    if !sb.full {
      assert !sa.full;
      assert sa.tests <= sb.tests;
    } else if !sa.full {
      forall test | test in sa.tests
        ensures test in reach
      {
        var path :| path in a && Picks(reach, path, test, glob);
      }
    }
  }

  /** A changed test file of the tree is always selected. */
  lemma ChangedTestIsSelected(t: Tree, declared: map<string, seq<string>>, glob: (string, string) -> bool, changed: seq<string>, s: Selection, test: string)
    requires Selects(ReachTable(t, declared), changed, glob, s)
    requires test in changed && test in t.files && IsTest(test)
    ensures test in s.tests
  {
    var reach := ReachTable(t, declared);
    TestIsRead(test);
    ReachIsLeast(ModuleGraph(t), {test});
    hide ReadByNoTest, ReadByEveryTest, ModuleGraph;
    assert test in reach[test];
    assert test in Claimants(reach, test, glob);
    if !ReadByEveryTest(test) {
      assert Picks(reach, test, test, glob);
    } else {
      assert Forces(reach, test, glob);
    }
  }

  lemma TestIsRead(test: string)
    requires IsTest(test)
    ensures !ReadByNoTest(test)
  {
    assert test[0] == 't' && NO_TEST[0][0] == 's' && NO_TEST[1][0] == '.';
  }

  function Alpha(): string { "test/a.test.ts" }
  function Beta(): string { "test/b.test.ts" }
  function Gone(): string { "docs/in/x.md" }
  function Kept(): string { "docs/in/y.md" }

  function Naming(bytes: string, segments: nat, path: string): File {
    File(bytes, [], [Literal(false, segments, [Spot(path, path)])], "", map[])
  }

  /** One test names a file, another names the directory above it, and the change deletes the file. */
  function Before(): Tree {
    Tree(map[Alpha() := Naming("a", 3, Gone()), Beta() := Naming("b", 2, "docs/in"), Kept() := Naming("y", 0, ""), Gone() := Naming("x", 0, "")], [])
  }

  function After(): Tree {
    Tree(map[Alpha() := Naming("a", 3, Gone()), Beta() := Naming("b", 2, "docs/in"), Kept() := Naming("y", 0, "")], [])
  }

  lemma PathsOfNaming(t: Tree, file: string, bytes: string, segments: nat, path: string)
    requires Parsed(t, file) && t.files[file] == Naming(bytes, segments, path)
    ensures Modules(t, file) == {}
    ensures Paths(t, file) == match Entry(t, Literal(false, segments, [Spot(path, path)]), Spot(path, path)) case Some(p) => {p} case None => {}
  {
    var literal := Literal(false, segments, [Spot(path, path)]);
    assert t.files[file].literals == [literal] && literal in t.files[file].literals;
    NamedAtOne(t, literal, Spot(path, path));
    assert Paths(t, file) == Named(t, literal);
  }

  /** A test that loads nothing and names nothing but data reaches itself and what it names. */
  lemma InputsOfNaming(t: Tree, test: string, named: set<string>)
    requires Modules(t, test) == {} && Paths(t, test) == named
    requires forall p :: p in named ==> !IsModule(p)
    ensures Inputs(t, map[], test) == {test} + named && Closure(t, test) == {test}
  {
    hide Modules, Paths, IsModule, ModuleGraph;
    FollowedIsSuccessors(t, test);
    assert Followed(t, test) == {};
    assert Closed(ModuleGraph(t), {test});
    ReachIsLeast(ModuleGraph(t), {test});
    assert Closure(t, test) == {test};
    GatheredOneMore(t, {}, test);
    assert {} + {test} == {test} && Gathered(t, {}) == {};
  }

  lemma NamesDiffer()
    ensures Alpha() != Beta() && Gone() != Kept() && Gone() != Alpha() && Gone() != Beta() && Kept() != Alpha() && Kept() != Beta()
    ensures Parsed(Before(), Alpha()) && Parsed(After(), Alpha()) && Parsed(After(), Beta())
    ensures Gone() in Before().files && Gone() !in After().files
    ensures Before().files[Alpha()] == Naming("a", 3, Gone()) == After().files[Alpha()]
    ensures After().files[Beta()] == Naming("b", 2, "docs/in")
    ensures !IsModule(Gone()) && !IsModule("docs/in/")
    ensures IsTest(Alpha()) && IsTest(Beta()) && !IsTest(Kept())
  {
    PathsDiffer();
    PathsAreSorted();
    hide Alpha, Beta, Gone, Kept, IsTest, IsModule, HasSuffix;
  }

  lemma PathsDiffer()
    ensures Alpha() != Beta() && Gone() != Kept() && Gone() != Alpha() && Gone() != Beta() && Kept() != Alpha() && Kept() != Beta()
  {
    assert |Gone()| == 12 && |Alpha()| == 14 && Alpha()[5] != Beta()[5] && Gone()[8] != Kept()[8];
  }

  lemma PathsAreSorted()
    ensures !IsModule(Gone()) && !IsModule("docs/in/") && IsModule(Alpha()) && IsModule(Beta())
    ensures IsTest(Alpha()) && IsTest(Beta()) && !IsTest(Kept())
  {
    assert HasSuffix(".ts", Alpha()) && HasSuffix(".ts", Beta());
    assert Gone()[11] == 'd' && "docs/in/"[7] == '/';
  }

  lemma EntriesHere()
    ensures Entry(After(), Literal(false, 3, [Spot(Gone(), Gone())]), Spot(Gone(), Gone())) == None
    ensures Entry(After(), Literal(false, 2, [Spot("docs/in", "docs/in")]), Spot("docs/in", "docs/in")) == Some("docs/in/")
    ensures Entry(Before(), Literal(false, 3, [Spot(Gone(), Gone())]), Spot(Gone(), Gone())) == Some(Gone())
  {
    NamesDiffer();
    assert HasPrefix("docs/in" + "/", Kept()) && Kept() in After().files;
    forall f | f in After().files
      ensures !HasPrefix(Gone() + "/", f)
    {
      assert f == Alpha() || f == Beta() || f == Kept();
      assert f[0] != 'd' || f[8] != 'x';
    }
    assert "docs/in" !in After().files by {
      assert |"docs/in"| == 7 && |Kept()| == 12 && |Alpha()| == |Beta()| == 14;
    }
    assert "docs/in" + "/" == "docs/in/";
  }

  lemma AlphaNow()
    ensures Inputs(After(), map[], Alpha()) == {Alpha()}
  {
    NamesDiffer();
    EntriesHere();
    hide Entry, After;
    PathsOfNaming(After(), Alpha(), "a", 3, Gone());
    InputsOfNaming(After(), Alpha(), {});
  }

  lemma BetaNow()
    ensures Inputs(After(), map[], Beta()) == {Beta(), "docs/in/"}
  {
    NamesDiffer();
    EntriesHere();
    hide Entry, After;
    PathsOfNaming(After(), Beta(), "b", 2, "docs/in");
    InputsOfNaming(After(), Beta(), {"docs/in/"});
  }

  lemma AlphaBefore()
    ensures Inputs(Before(), map[], Alpha()) == {Alpha(), Gone()} && Closure(Before(), Alpha()) == {Alpha()}
  {
    NamesDiffer();
    EntriesHere();
    hide Entry, Before;
    PathsOfNaming(Before(), Alpha(), "a", 3, Gone());
    InputsOfNaming(Before(), Alpha(), {Gone()});
  }

  function NoGlob(path: string, pattern: string): bool {
    false
  }

  function Deletion(): Question {
    Question(Before(), After(), [Gone()], map[], NoGlob, Alpha())
  }

  lemma ReadUnderDocs(path: string)
    requires path != "" && path[0] == 'd'
    ensures !ReadByNoTest(path)
  {
    assert NO_TEST[0][0] == 's' && NO_TEST[1][0] == '.';
    forall entry | entry in NO_TEST
      ensures entry != "" && entry[0] != path[0]
    {
    }
  }

  lemma NoInputOfEveryTest(path: string)
    requires path != "" && path[0] == 'd'
    ensures !ReadByEveryTest(path)
  {
    forall input | input in EVERY_TEST
      ensures input != "" && input[0] != path[0]
    {
    }
  }

  lemma OtherRootIsNotClaimed(test: string, path: string)
    requires test != "" && path != "" && test[0] != path[0]
    ensures !Claims({test}, path, NoGlob)
  {
    forall k | 0 <= k < |path| && path[k] == '/'
      ensures path[..k + 1] != test
    {
      assert path[..k + 1][0] == path[0];
    }
  }

  lemma DirectoryClaims()
    ensures Claims({Beta(), "docs/in/"}, Gone(), NoGlob)
  {
    assert Gone()[7] == '/' && Gone()[..8] == "docs/in/";
  }

  lemma WhoClaims()
    ensures !Claims({Alpha()}, Gone(), NoGlob)
    ensures Claims({Beta(), "docs/in/"}, Gone(), NoGlob)
    ensures !ReadByNoTest(Gone()) && !ReadByEveryTest(Gone())
  {
    hide Claims, ReadByNoTest, ReadByEveryTest;
    OtherRootIsNotClaimed(Alpha(), Gone());
    DirectoryClaims();
    ReadUnderDocs(Gone());
    NoInputOfEveryTest(Gone());
  }

  lemma TableNow()
    ensures var reach := ReachTable(After(), map[]);
            && reach.Keys == {Alpha(), Beta()}
            && reach[Alpha()] == {Alpha()}
            && reach[Beta()] == {Beta(), "docs/in/"}
  {
    NamesDiffer();
    AlphaNow();
    BetaNow();
    hide Inputs, IsTest, Alpha, Beta, Kept, Gone;
    assert After().files.Keys == {Alpha(), Beta(), Kept()};
    assert ReachTable(After(), map[]).Keys == {Alpha(), Beta()};
  }

  lemma SelectedNow()
    ensures Selects(ReachTable(After(), map[]), [Gone()], NoGlob, Selection(false, {Beta()}, [Claimed(Gone(), 1)]))
  {
    TableNow();
    WhoClaims();
    hide Claims, ReachTable, ReadByNoTest, ReadByEveryTest;
    var reach := ReachTable(After(), map[]);
    assert Claimants(reach, Gone(), NoGlob) == {Beta()};
    assert Picks(reach, Gone(), Beta(), NoGlob) && !Forces(reach, Gone(), NoGlob);
    assert forall path :: path in [Gone()] ==> path == Gone();
  }

  lemma ReadBefore(other: Tree)
    requires forall f :: Claims(ReachedBefore(Deletion()), f, NoGlob) && !ReadByNoTest(f) ==> Agree(Before(), other, f)
    ensures Gone() in other.files
  {
    AlphaBefore();
    WhoClaims();
    NamesDiffer();
    hide ReadByNoTest, ReadByEveryTest, Inputs;
    assert Claims({Alpha(), Gone()}, Gone(), NoGlob);
  }

  predicate Plain(f: string, t: Tree) {
    !IsDirectory(t, f) && !HasPrefix("glob:", f) && !HasSuffix("/", f)
  }

  lemma FilesArePlain(f: string, t: Tree)
    requires t == Before() || t == After()
    requires f in {Alpha(), Beta(), Gone(), Kept()}
    ensures Plain(f, t)
  {
    assert f[0] in ['t', 'd'] && f[|f| - 1] in ['s', 'd'];
    forall g | g in t.files
      ensures !HasPrefix(f + "/", g)
    {
      assert g in {Alpha(), Beta(), Gone(), Kept()};
      assert |f + "/"| <= |g| ==> g[0] != f[0];
    }
  }

  lemma TreesAreWellFormed()
    ensures WellFormed(Before()) && WellFormed(After())
  {
    forall f | f in Before().files
      ensures Plain(f, Before())
    {
      FilesArePlain(f, Before());
    }
    forall f | f in After().files
      ensures Plain(f, After())
    {
      FilesArePlain(f, After());
    }
    hide IsDirectory, HasPrefix, HasSuffix, Alpha, Beta, Gone, Kept;
  }

  lemma OnlyOneFileDiffers()
    ensures Covers([Gone()], Before(), After())
  {
    NamesDiffer();
    hide Alpha, Beta, Gone, Kept, Naming, IsModule, IsTest;
    forall f | f != Gone()
      ensures Agree(Before(), After(), f)
    {
    }
  }

  lemma NothingMatchesNoGlob(q: Question)
    requires q.glob == NoGlob
    ensures GlobsMatchBelow(q)
  {
  }

  lemma NoPackages(was: Tree, now: Tree)
    requires was.packages == [] && now.packages == []
    ensures ListsPackages(was, now) && UniqueNames(was)
  {
  }

  lemma ClosureIsRead()
    ensures UnreadStay(Deletion(), Closure(Before(), Alpha()))
  {
    AlphaBefore();
    NamesDiffer();
    TestIsRead(Alpha());
    hide ReadByNoTest, Inputs, Closure, IsTest, Before, After, Alpha;
  }

  lemma DeletionIsAChange()
    ensures IsChange(Deletion())
  {
    TreesAreWellFormed();
    OnlyOneFileDiffers();
    NothingMatchesNoGlob(Deletion());
    NoPackages(Before(), After());
    ClosureIsRead();
    hide WellFormed, Covers, UnreadStay, Closure, ListsPackages, UniqueNames, GlobsMatchBelow, Before, After, Alpha, Gone;
  }

  /** Deletion is not covered: a test that named the deleted file is skipped, though what it reads has changed. */
  lemma DeletionIsNotCovered()
    ensures IsChange(Deletion()) && Skipped(Deletion())
    ensures ReadsOnlyReach(Deletion(), (t: Tree) => Gone() in t.files)
    ensures (Gone() in Deletion().was.files) != (Gone() in Deletion().now.files)
  {
    NamesDiffer();
    SelectedNow();
    DeletionIsAChange();
    hide IsChange, Claims, ReachTable, ReadByNoTest, Selects, Inputs, IsTest, Before, After, Alpha, Gone;
    forall other | forall f :: Claims(ReachedBefore(Deletion()), f, Deletion().glob) && !ReadByNoTest(f) ==> Agree(Deletion().was, other, f)
      ensures Gone() in other.files
    {
      ReadBefore(other);
    }
  }
}
