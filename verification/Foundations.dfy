/** The recorded foundation archives: which manifests are accepted, and how a bootstrap fills the archive directory. */
module Foundations {
  import opened Options
  import opened Reachability

  /** A recorded package; `edges` are its dependencies by section. */
  datatype Package = Package(name: string, version: string, filename: string, sha256: string, integrity: string,
                             files: map<string, string>, edges: map<string, map<string, string>>)
  datatype Manifest = Manifest(version: string, packages: seq<Package>)

  type Bytes = seq<int>

  /** The two digests an archive is checked by. */
  datatype Digests = Digests(sha256: Bytes -> string, sha512: Bytes -> string)

  const SCOPE := "@jarenjs/"
  const LEGACY := "@jarenjs/ai"
  const SECTIONS := {"dependencies", "devDependencies", "optionalDependencies", "peerDependencies"}

  // The manifest.

  predicate IsPackageName(name: string) {
    && |name| > |SCOPE| && SCOPE <= name
    && forall i :: |SCOPE| <= i < |name| ==> 'a' <= name[i] <= 'z' || name[i] == '-'
  }

  function FilenameOf(name: string, version: string): string
    requires |SCOPE| <= |name|
  {
    "jarenjs-" + name[|SCOPE|..] + "-" + version + ".tgz"
  }

  function Names(packages: seq<Package>): set<string> {
    set p | p in packages :: p.name
  }

  /** A dependency that may be recorded: a foundation package of the manifest, at the manifest's version. */
  predicate DependencyAccepted(m: Manifest, name: string, range: string) {
    && SCOPE <= name && name != LEGACY && name in Names(m.packages)
    && (range == m.version || range == "^" + m.version)
  }

  predicate PackageAccepted(m: Manifest, p: Package) {
    && IsPackageName(p.name) && p.name != LEGACY
    && p.filename == FilenameOf(p.name, p.version) && p.version == m.version
    && "package.json" in p.files
    && (forall section :: section in p.edges ==> section in SECTIONS)
    && forall section :: section in p.edges ==> forall name :: name in p.edges[section] ==> DependencyAccepted(m, name, p.edges[section][name])
  }

  /** The manifest checks, in the order they are made. */
  method ReadManifest(m: Manifest) returns (accepted: bool)
    ensures accepted <==> Accepted(m)
  {
    if m.packages == [] || exists i, j :: 0 <= i < j < |m.packages| && m.packages[i].name == m.packages[j].name {
      return false;
    }
    for k := 0 to |m.packages|
      invariant forall i :: 0 <= i < k ==> PackageAccepted(m, m.packages[i])
    {
      if !PackageAccepted(m, m.packages[k]) {
        return false;
      }
    }
    accepted := true;
  }

  predicate Accepted(m: Manifest) {
    && m.packages != []
    && (forall i, j :: 0 <= i < j < |m.packages| ==> m.packages[i].name != m.packages[j].name)
    && forall i :: 0 <= i < |m.packages| ==> PackageAccepted(m, m.packages[i])
  }

  /** What each package depends on, in any section. */
  function DependencyGraph(m: Manifest): Graph<string> {
    map p | p in Names(m.packages) ::
      set k, section, name |
        0 <= k < |m.packages| && m.packages[k].name == p && section in m.packages[k].edges && name in m.packages[k].edges[section] :: name
  }

  /** An accepted manifest is closed: following dependencies from its packages never leaves it, nor finds the legacy package. */
  lemma AcceptedIsClosed(m: Manifest, roots: set<string>)
    requires Accepted(m) && roots <= Names(m.packages)
    ensures Reach(DependencyGraph(m), roots) <= Names(m.packages)
    ensures LEGACY !in Reach(DependencyGraph(m), roots)
  {
    var g, names := DependencyGraph(m), Names(m.packages);
    forall p | p in names
      ensures Successors(g, p) <= names
    {
      forall name | name in g[p]
        ensures name in names
      {
        var k, section :| 0 <= k < |m.packages| && m.packages[k].name == p && section in m.packages[k].edges && name in m.packages[k].edges[section];
        assert PackageAccepted(m, m.packages[k]);
        assert DependencyAccepted(m, name, m.packages[k].edges[section][name]);
      }
    }
    assert Closed(g, names);
    ReachIsLeast(g, roots);
    assert LEGACY !in names by {
      forall p | p in m.packages
        ensures p.name != LEGACY
      {
        var k :| 0 <= k < |m.packages| && m.packages[k] == p;
        assert PackageAccepted(m, m.packages[k]);
      }
    }
  }

  /** A package's name is the scope and then small letters and hyphens, one at least. */
  lemma PackageNamesAre(name: string)
    ensures IsPackageName(name) <==>
              exists rest :: name == "@jarenjs/" + rest && rest != "" && forall i :: 0 <= i < |rest| ==> rest[i] == '-' || 'a' <= rest[i] <= 'z'
  {
    assert SCOPE == "@jarenjs/" && |SCOPE| == 9;
    if IsPackageName(name) {
      var rest := name[9..];
      assert name == "@jarenjs/" + rest;
      assert forall i :: 0 <= i < |rest| ==> rest[i] == name[9 + i];
    }
  }

  /** What an accepted manifest records, package by package: a scoped name in small letters, the manifest's version, and dependencies on packages of the manifest at that version, exact or with a caret. */
  lemma AcceptedRecordsOneVersion(m: Manifest, p: Package)
    requires Accepted(m) && p in m.packages
    ensures "@jarenjs/" <= p.name && p.name != "@jarenjs/ai" && p.version == m.version
    ensures p.filename == "jarenjs-" + p.name[9..] + "-" + m.version + ".tgz"
    ensures "package.json" in p.files
    ensures forall section :: section in p.edges ==> section in {"dependencies", "devDependencies", "optionalDependencies", "peerDependencies"}
    ensures forall section, name :: section in p.edges && name in p.edges[section] ==>
              && name != "@jarenjs/ai" && (exists q :: q in m.packages && q.name == name)
              && (p.edges[section][name] == m.version || p.edges[section][name] == ['^'] + m.version)
  {
    var k :| 0 <= k < |m.packages| && m.packages[k] == p;
    assert PackageAccepted(m, p);
    assert |SCOPE| == 9 && SCOPE == "@jarenjs/" && "^" == ['^'];
    hide IsPackageName, FilenameOf;
    forall section, name | section in p.edges && name in p.edges[section]
      ensures DependencyAccepted(m, name, p.edges[section][name])
    {
    }
  }

  function Core(): Package {
    Package("@jarenjs/core", "1.0.0", "jarenjs-core-1.0.0.tgz", "", "", map["package.json" := ""], map[])
  }

  function Tree(range: string): Package {
    Package("@jarenjs/tree", "1.0.0", "jarenjs-tree-1.0.0.tgz", "", "", map["package.json" := ""], map["dependencies" := map["@jarenjs/core" := range]])
  }

  lemma ScopedName(rest: string)
    requires rest != "" && forall i :: 0 <= i < |rest| ==> 'a' <= rest[i] <= 'z'
    ensures SCOPE <= SCOPE + rest && IsPackageName(SCOPE + rest) && (SCOPE + rest)[|SCOPE|..] == rest
    ensures FilenameOf(SCOPE + rest, "1.0.0") == "jarenjs-" + rest + "-" + "1.0.0" + ".tgz"
  {
    assert (SCOPE + rest)[|SCOPE|..] == rest;
  }

  lemma NamesOfPair()
    ensures IsPackageName("@jarenjs/core") && IsPackageName("@jarenjs/tree") && SCOPE <= "@jarenjs/core"
    ensures FilenameOf("@jarenjs/core", "1.0.0") == "jarenjs-core-1.0.0.tgz" && FilenameOf("@jarenjs/tree", "1.0.0") == "jarenjs-tree-1.0.0.tgz"
    ensures "@jarenjs/core" != "@jarenjs/tree" && "@jarenjs/core" != LEGACY && "@jarenjs/tree" != LEGACY
  {
    ScopedName("core");
    ScopedName("tree");
    hide IsPackageName, FilenameOf;
    assert SCOPE + "core" == "@jarenjs/core" && SCOPE + "tree" == "@jarenjs/tree";
    assert "jarenjs-" + "core" + "-" + "1.0.0" + ".tgz" == "jarenjs-core-1.0.0.tgz";
    assert "jarenjs-" + "tree" + "-" + "1.0.0" + ".tgz" == "jarenjs-tree-1.0.0.tgz";
    assert "@jarenjs/core"[9] == 'c' && "@jarenjs/tree"[9] == 't' && |LEGACY| == 11;
  }

  lemma DependenciesOfTree(m: Manifest, range: string)
    requires "@jarenjs/core" in Names(m.packages) && m.version == "1.0.0"
    ensures PackageAccepted(m, Tree(range)) <==> range == "1.0.0" || range == "^1.0.0"
  {
    NamesOfPair();
    var p := Tree(range);
    assert p.edges.Keys == {"dependencies"} && p.edges["dependencies"].Keys == {"@jarenjs/core"} && p.edges["dependencies"]["@jarenjs/core"] == range;
    assert "dependencies" in p.edges && "@jarenjs/core" in p.edges["dependencies"];
    assert "^" + "1.0.0" == "^1.0.0";
    hide IsPackageName, FilenameOf, Names, Tree;
    TreeIs(range);
    assert DependencyAccepted(m, "@jarenjs/core", range) <==> range == "1.0.0" || range == "^1.0.0";
  }

  lemma TreeIs(range: string)
    ensures var p := Tree(range);
            p.name == "@jarenjs/tree" && p.version == "1.0.0" && p.filename == "jarenjs-tree-1.0.0.tgz" && "package.json" in p.files
  {
  }

  /** Two packages, one on the other: accepted at the exact version and with a caret, refused at any other range. */
  lemma RangeDecides(range: string)
    ensures Accepted(Manifest("1.0.0", [Core(), Tree(range)])) <==> range == "1.0.0" || range == "^1.0.0"
  {
    var m := Manifest("1.0.0", [Core(), Tree(range)]);
    NamesOfPair();
    assert Core() in m.packages && Core().name == "@jarenjs/core";
    assert PackageAccepted(m, Core());
    DependenciesOfTree(m, range);
    TreeIs(range);
    hide PackageAccepted, Tree, Core;
    assert m.packages[0] == Core() && m.packages[1] == Tree(range);
  }

  lemma FilenameTellsName(a: string, b: string, version: string)
    requires SCOPE <= a && SCOPE <= b && FilenameOf(a, version) == FilenameOf(b, version)
    ensures a == b
  {
    var x, y := a[|SCOPE|..], b[|SCOPE|..];
    var f := FilenameOf(a, version);
    var tail := "-" + version + ".tgz";
    assert f == ("jarenjs-" + x) + tail && f == ("jarenjs-" + y) + tail;
    assert |x| == |y|;
    assert x == f[8..8 + |x|] && y == f[8..8 + |x|];
    assert a == SCOPE + x && b == SCOPE + y;
  }

  /** No two packages of an accepted manifest share an archive. */
  lemma FilenamesAreDistinct(m: Manifest)
    requires Accepted(m)
    ensures forall i, j :: 0 <= i < j < |m.packages| ==> m.packages[i].filename != m.packages[j].filename
  {
    forall i, j | 0 <= i < j < |m.packages|
      ensures m.packages[i].filename != m.packages[j].filename
    {
      var p, q := m.packages[i], m.packages[j];
      assert PackageAccepted(m, p) && PackageAccepted(m, q);
      if p.filename == q.filename {
        FilenameTellsName(p.name, q.name, m.version);
      }
    }
  }

  // The archives.

  function Filenames(packages: seq<Package>): set<string> {
    set p | p in packages :: p.filename
  }

  predicate Matches(d: Digests, p: Package, bytes: Bytes) {
    d.sha256(bytes) == p.sha256 && d.sha512(bytes) == p.integrity
  }

  /** Every archive present is recorded and matches; with `all`, every recorded one is present. */
  predicate Verified(d: Digests, packages: seq<Package>, files: map<string, Bytes>, all: bool) {
    && files.Keys <= Filenames(packages)
    && forall i :: 0 <= i < |packages| ==>
         && (packages[i].filename in files ==> Matches(d, packages[i], files[packages[i].filename]))
         && (all ==> packages[i].filename in files)
  }

  predicate Complete(packages: seq<Package>, files: map<string, Bytes>) {
    forall i :: 0 <= i < |packages| ==> packages[i].filename in files
  }

  /** A package as it is packed. */
  datatype Packed = Packed(name: string, version: string, filename: string, bytes: Bytes, files: map<string, string>, edges: map<string, map<string, string>>)

  function Recorded(d: Digests, p: Packed): Package {
    Package(p.name, p.version, p.filename, d.sha256(p.bytes), d.sha512(p.bytes), p.files, p.edges)
  }

  predicate RecordsOf(d: Digests, packed: seq<Packed>, packages: seq<Package>) {
    |packages| == |packed| && forall k :: 0 <= k < |packed| ==> packages[k] == Recorded(d, packed[k])
  }

  /** Packs into a temporary directory; a later archive replaces an earlier one of the same name. */
  method Pack(d: Digests, packed: seq<Packed>) returns (packages: seq<Package>, temporary: map<string, Bytes>)
    ensures RecordsOf(d, packed, packages)
    ensures (forall i, j :: 0 <= i < j < |packages| ==> packages[i].filename != packages[j].filename) ==>
              forall k :: 0 <= k < |packages| ==> packages[k].filename in temporary && temporary[packages[k].filename] == packed[k].bytes
  {
    packages, temporary := [], map[];
    for k := 0 to |packed|
      invariant |packages| == k && forall i :: 0 <= i < k ==> packages[i] == Recorded(d, packed[i])
      invariant forall i :: 0 <= i < k ==> packed[i].filename in temporary
      invariant (forall i, j :: 0 <= i < j < k ==> packages[i].filename != packages[j].filename) ==>
                  forall i :: 0 <= i < k ==> temporary[packed[i].filename] == packed[i].bytes
    {
      temporary := temporary[packed[k].filename := packed[k].bytes];
      packages := packages + [Recorded(d, packed[k])];
    }
  }

  /** What rebuilding the source came to. */
  datatype Build = Failed | Built(packed: seq<Packed>)

  /** A copy that fails, at one package, leaving nothing or some bytes. */
  datatype Fault = NoFault | Fault(at: nat, left: Option<Bytes>)

  datatype Outcome = Refused | Unchanged | Reconstructed

  /** Whether a bootstrap may begin at all. */
  predicate Begins(d: Digests, m: Option<Manifest>, pinned: bool, files: map<string, Bytes>) {
    m.Some? && Accepted(m.value) && pinned && Verified(d, m.value.packages, files, false)
  }

  /** Whether the rebuilt closure is the recorded one. */
  predicate Rebuilds(d: Digests, m: Manifest, build: Build) {
    build.Built? && RecordsOf(d, build.packed, m.packages)
  }

  /** The archive directory once the first `count` archives are copied. */
  function CopiedTo(files: map<string, Bytes>, packed: seq<Packed>, count: nat): map<string, Bytes>
    requires count <= |packed|
  {
    if count == 0 then files else CopiedTo(files, packed, count - 1)[packed[count - 1].filename := packed[count - 1].bytes]
  }

  lemma MatchingCopyKeepsVerified(d: Digests, packages: seq<Package>, files: map<string, Bytes>, i: nat, bytes: Bytes)
    requires Verified(d, packages, files, false) && i < |packages|
    requires forall i, j :: 0 <= i < j < |packages| ==> packages[i].filename != packages[j].filename
    ensures Verified(d, packages, files[packages[i].filename := bytes], false) <==> Matches(d, packages[i], bytes)
  {
    hide Matches;
    assert packages[i] in packages;
  }

  lemma RecordedMatches(d: Digests, packages: seq<Package>, packed: seq<Packed>, i: nat)
    requires RecordsOf(d, packed, packages) && i < |packages|
    ensures |packed| == |packages| && Matches(d, packages[i], packed[i].bytes) && packages[i].filename == packed[i].filename
  {
    assert packages[i] == Recorded(d, packed[i]);
  }

  /** Copies of the recorded archives keep the directory verified, and hold the first ones. */
  lemma {:induction false} CopiesMatch(d: Digests, packages: seq<Package>, packed: seq<Packed>, files: map<string, Bytes>, count: nat)
    requires RecordsOf(d, packed, packages) && Verified(d, packages, files, false) && count <= |packed|
    requires forall i, j :: 0 <= i < j < |packages| ==> packages[i].filename != packages[j].filename
    ensures Verified(d, packages, CopiedTo(files, packed, count), false)
    ensures |packages| == |packed| && forall i :: 0 <= i < count ==> packages[i].filename in CopiedTo(files, packed, count)
  {
    hide Verified, Matches;
    if count > 0 {
      CopiesMatch(d, packages, packed, files, count - 1);
      RecordedMatches(d, packages, packed, count - 1);
      MatchingCopyKeepsVerified(d, packages, CopiedTo(files, packed, count - 1), count - 1, packed[count - 1].bytes);
    }
  }

  /** Whether a bootstrap comes as far as copying: nothing before this writes an archive. */
  predicate Copies(d: Digests, m: Option<Manifest>, pinned: bool, runtime: bool, build: Build, files: map<string, Bytes>) {
    Begins(d, m, pinned, files) && !Complete(m.value.packages, files) && runtime && Rebuilds(d, m.value, build)
  }

  lemma IncompleteLacksOne(packages: seq<Package>, files: map<string, Bytes>)
    requires !Complete(packages, files)
    ensures exists p :: p in packages && p.filename !in files
  {
    var i :| 0 <= i < |packages| && packages[i].filename !in files;
    assert packages[i] in packages;
  }

  class ArchiveDirectory {
    var files: map<string, Bytes>
    /** How many archives were written. */
    var writes: nat

    constructor (files: map<string, Bytes>)
      ensures this.files == files && writes == 0
    {
      this.files, writes := files, 0;
    }

    method VerifyArchives(d: Digests, packages: seq<Package>, all: bool) returns (ok: bool)
      ensures ok <==> Verified(d, packages, files, all)
    {
      if !(files.Keys <= Filenames(packages)) {
        return false;
      }
      for k := 0 to |packages|
        invariant forall i :: 0 <= i < k ==>
                    && (packages[i].filename in files ==> Matches(d, packages[i], files[packages[i].filename]))
                    && (all ==> packages[i].filename in files)
      {
        var name := packages[k].filename;
        if name in files {
          if !Matches(d, packages[k], files[name]) {
            return false;
          }
        } else if all {
          return false;
        }
      }
      ok := true;
    }

    /** Copies the rebuilt archives, up to a fault. */
    method CopyAll(d: Digests, packages: seq<Package>, packed: seq<Packed>, temporary: map<string, Bytes>, fault: Fault) returns (copied: bool)
      requires RecordsOf(d, packed, packages) && Verified(d, packages, files, false)
      requires forall i, j :: 0 <= i < j < |packages| ==> packages[i].filename != packages[j].filename
      requires forall k :: 0 <= k < |packages| ==> packages[k].filename in temporary && temporary[packages[k].filename] == packed[k].bytes
      modifies this
      ensures copied <==> fault.NoFault? || fault.at >= |packages|
      ensures copied ==> Verified(d, packages, files, true) && files.Keys == Filenames(packages)
      ensures copied || fault.left.None? ==> Verified(d, packages, files, false)
    {
      hide Verified, Matches, Filenames;
      for k := 0 to |packages|
        invariant |packed| == |packages| && files == CopiedTo(old(files), packed, k)
        invariant fault.NoFault? || fault.at >= k
      {
        RecordedMatches(d, packages, packed, k);
        CopiesMatch(d, packages, packed, old(files), k);
        if fault.Fault? && fault.at == k {
          if fault.left.Some? {
            files, writes := files[packages[k].filename := fault.left.value], writes + 1;
          }
          return false;
        }
        files, writes := files[packages[k].filename := temporary[packages[k].filename]], writes + 1;
      }
      CopiesMatch(d, packages, packed, old(files), |packages|);
      KeysAreFilenames(d, packages, files);
      copied := true;
    }

    /** One bootstrap: no archive is written before the rebuilt closure equals the manifest, and success leaves exactly the recorded archives. */
    method Bootstrap(d: Digests, manifest: Option<Manifest>, pinned: bool, runtime: bool, build: Build, fault: Fault) returns (outcome: Outcome)
      modifies this
      ensures !Copies(d, manifest, pinned, runtime, build, old(files)) ==> files == old(files) && writes == old(writes)
      ensures outcome.Unchanged? <==> Begins(d, manifest, pinned, old(files)) && Complete(manifest.value.packages, old(files))
      ensures outcome.Reconstructed? <==>
                Copies(d, manifest, pinned, runtime, build, old(files)) && (fault.NoFault? || fault.at >= |manifest.value.packages|)
      ensures !outcome.Refused? ==> Verified(d, manifest.value.packages, files, true) && files.Keys == Filenames(manifest.value.packages)
      ensures writes != old(writes) ==>
                && manifest.Some? && Accepted(manifest.value) && pinned && runtime
                && build.Built? && RecordsOf(d, build.packed, manifest.value.packages)
                && exists p :: p in manifest.value.packages && p.filename !in old(files)
      ensures Begins(d, manifest, pinned, old(files)) && (fault.NoFault? || fault.left.None?) ==> Verified(d, manifest.value.packages, files, false)
    {
      hide Accepted, Matches, Verified, Complete, RecordsOf, Filenames;
      if manifest.None? {
        return Refused;
      }
      var accepted := ReadManifest(manifest.value);
      if !accepted || !pinned {
        return Refused;
      }
      var packages := manifest.value.packages;
      FilenamesAreDistinct(manifest.value);
      var started := VerifyArchives(d, packages, false);
      if !started {
        return Refused;
      }
      if Complete(packages, files) {
        KeysAreFilenames(d, packages, files);
        var whole := VerifyArchives(d, packages, true);
        return if whole then Unchanged else Refused;
      }
      if !runtime || build.Failed? {
        return Refused;
      }
      IncompleteLacksOne(packages, files);
      var rebuilt, temporary := Pack(d, build.packed);
      RecordsAreUnique(d, build.packed, rebuilt, packages);
      if rebuilt != packages {
        return Refused;
      }
      var copied := CopyAll(d, packages, build.packed, temporary, fault);
      if !copied {
        return Refused;
      }
      var finished := VerifyArchives(d, packages, true);
      outcome := if finished then Reconstructed else Refused;
    }
  }

  /** The directory a success leaves: any further bootstrap of that manifest finds it complete and comes nowhere near copying. */
  lemma SuccessSettles(d: Digests, m: Manifest, runtime: bool, build: Build, files: map<string, Bytes>)
    requires Accepted(m) && Verified(d, m.packages, files, true)
    ensures Begins(d, Some(m), true, files) && Complete(m.packages, files) && !Copies(d, Some(m), true, runtime, build, files)
  {
    VerifiedIsComplete(d, m.packages, files);
    hide Accepted, Verified, Complete, Rebuilds;
  }

  lemma VerifiedIsComplete(d: Digests, packages: seq<Package>, files: map<string, Bytes>)
    requires Verified(d, packages, files, true)
    ensures Complete(packages, files) && Verified(d, packages, files, false)
  {
  }

  lemma RecordsAreUnique(d: Digests, packed: seq<Packed>, a: seq<Package>, b: seq<Package>)
    requires RecordsOf(d, packed, a)
    ensures RecordsOf(d, packed, b) <==> a == b
  {
  }

  lemma KeysAreFilenames(d: Digests, packages: seq<Package>, files: map<string, Bytes>)
    requires Verified(d, packages, files, false) && Complete(packages, files)
    ensures Verified(d, packages, files, true) && files.Keys == Filenames(packages)
  {
    forall f | f in Filenames(packages)
      ensures f in files
    {
      var p :| p in packages && p.filename == f;
      var i :| 0 <= i < |packages| && packages[i] == p;
    }
  }

  /** What a copy leaves behind when it breaks off decides the next bootstrap: bytes that do not match are never overwritten, they block it. */
  lemma TornArchiveBlocks(d: Digests, m: Option<Manifest>, files: map<string, Bytes>, i: nat, left: Bytes)
    requires Begins(d, m, true, files) && i < |m.value.packages|
    ensures Begins(d, m, true, files[m.value.packages[i].filename := left]) <==> Matches(d, m.value.packages[i], left)
  {
    FilenamesAreDistinct(m.value);
    hide Accepted, Matches, Verified;
    MatchingCopyKeepsVerified(d, m.value.packages, files, i, left);
  }

  /** A verified directory, said of bytes and digests: every file is a recorded archive with both recorded digests, and all are there when all are asked for. */
  lemma VerifiedHoldsRecordedBytes(d: Digests, packages: seq<Package>, files: map<string, Bytes>, all: bool)
    requires Verified(d, packages, files, all)
    ensures forall name :: name in files ==> exists p :: p in packages && p.filename == name
    ensures forall p :: p in packages && p.filename in files ==> d.sha256(files[p.filename]) == p.sha256 && d.sha512(files[p.filename]) == p.integrity
    ensures all ==> forall p :: p in packages ==> p.filename in files
  {
    forall name | name in files
      ensures exists p :: p in packages && p.filename == name
    {
      assert name in Filenames(packages);
    }
    forall p | p in packages
      ensures p.filename in files ==> d.sha256(files[p.filename]) == p.sha256 && d.sha512(files[p.filename]) == p.integrity
      ensures all ==> p.filename in files
    {
      var i :| 0 <= i < |packages| && packages[i] == p;
    }
  }

  /** What is recorded of a packed archive: its own digests, name, version, files and dependencies. */
  lemma RecordSays(d: Digests, packed: seq<Packed>, packages: seq<Package>, k: nat)
    requires RecordsOf(d, packed, packages) && k < |packed|
    ensures |packages| == |packed|
    ensures packages[k].sha256 == d.sha256(packed[k].bytes) && packages[k].integrity == d.sha512(packed[k].bytes)
    ensures packages[k].name == packed[k].name && packages[k].version == packed[k].version && packages[k].filename == packed[k].filename
    ensures packages[k].files == packed[k].files && packages[k].edges == packed[k].edges
  {
    assert packages[k] == Recorded(d, packed[k]);
  }
}
