/** The projector: copies what a value needs from one schema into another, under a prefix, through cyclic references. */
module GroundProjection {
  import opened Options
  import opened Reachability
  import opened SchemaJson
  import opened SchemaReach

  const OWNER := "groundOwner_"

  function Target(name: string): string {
    OWNER + name
  }

  /** A value with every local reference led to the prefixed name. */
  function Renamed(j: Json): Json
    decreases j, 0
  {
    match j
    case List(items) => List(seq(|items|, i requires 0 <= i < |items| => Renamed(items[i])))
    case Object(m) => Object(map k | k in m :: RenamedAt(k, m[k]))
    case _ => j
  }

  function RenamedAt(key: string, value: Json): Json
    decreases value, 1
  {
    if IsRef(key, value) && DEFS <= value.s then Text(DEFS + Target(value.s[|DEFS|..])) else Renamed(value)
  }

  /** The copy of a definition; a name the ground schema does not define is copied as undefined. */
  function CopyOf(ground: map<string, Json>, name: string): Option<Json> {
    if name in ground then Some(Renamed(ground[name])) else None
  }

  function Placed(defs: map<string, Option<Json>>): set<string> {
    set k | k in defs && OWNER <= k :: k[|OWNER|..]
  }

  lemma PlacedIff(defs: map<string, Option<Json>>, name: string)
    ensures name in Placed(defs) <==> Target(name) in defs
  {
    assert Target(name)[|OWNER|..] == name;
    if name in Placed(defs) {
      var k :| k in defs && OWNER <= k && k[|OWNER|..] == name;
      assert k == Target(name);
    }
  }

  /** Every name that can be referred to, in the ground schema or in the value at hand. */
  ghost predicate Bounds(universe: set<string>, ground: map<string, Json>, value: Json) {
    NamesOf(value) <= universe && forall n :: n in ground ==> NamesOf(ground[n]) <= universe
  }

  ghost predicate AllPlaced(defs: map<string, Option<Json>>, names: set<string>) {
    forall n :: n in names ==> Target(n) in defs
  }

  /** Nothing that was there has changed, and only copies were added. */
  ghost predicate Keeps(before: map<string, Option<Json>>, now: map<string, Option<Json>>) {
    && (forall k :: k in before ==> k in now && now[k] == before[k])
    && (forall k :: k in now && k !in before ==> OWNER <= k)
  }

  /** What was added is the copy of a definition, and the names of that definition are placed too. */
  ghost predicate Complete(ground: map<string, Json>, before: map<string, Option<Json>>, now: map<string, Option<Json>>) {
    forall n :: Target(n) in now && Target(n) !in before ==>
      now[Target(n)] == CopyOf(ground, n) && (n in ground ==> AllPlaced(now, NamesOf(ground[n])))
  }

  /** Nothing was added that `names` do not need. */
  ghost predicate Minimal(ground: map<string, Json>, before: map<string, Option<Json>>, now: map<string, Option<Json>>, names: set<string>) {
    forall n :: Target(n) in now && Target(n) !in before ==> n in Needed(ground, names)
  }

  ghost predicate Projected(ground: map<string, Json>, before: map<string, Option<Json>>, now: map<string, Option<Json>>, names: set<string>) {
    Keeps(before, now) && Complete(ground, before, now) && Minimal(ground, before, now, names) && AllPlaced(now, names)
  }

  lemma ProjectedNothing(ground: map<string, Json>, defs: map<string, Option<Json>>)
    ensures Projected(ground, defs, defs, {})
  {
  }

  lemma MinimalThen(ground: map<string, Json>, a: map<string, Option<Json>>, b: map<string, Option<Json>>, c: map<string, Option<Json>>, few: set<string>, more: set<string>)
    requires Minimal(ground, a, b, few) && Minimal(ground, b, c, more)
    ensures Minimal(ground, a, c, few + more)
  {
    ReachOfPart(ground, few, few + more);
    ReachOfPart(ground, more, few + more);
    hide Needed, Target;
  }

  lemma CompleteThen(ground: map<string, Json>, a: map<string, Option<Json>>, b: map<string, Option<Json>>, c: map<string, Option<Json>>)
    requires Keeps(b, c) && Complete(ground, a, b) && Complete(ground, b, c)
    ensures Complete(ground, a, c)
  {
    hide NamesOf, CopyOf, Target;
    forall n | Target(n) in c && Target(n) !in a
      ensures c[Target(n)] == CopyOf(ground, n) && (n in ground ==> AllPlaced(c, NamesOf(ground[n])))
    {
      if Target(n) in b {
        assert c[Target(n)] == b[Target(n)];
        if n in ground {
          PlacedStays(b, c, NamesOf(ground[n]));
        }
      }
    }
  }

  lemma PlacedStays(b: map<string, Option<Json>>, c: map<string, Option<Json>>, names: set<string>)
    requires Keeps(b, c) && AllPlaced(b, names)
    ensures AllPlaced(c, names)
  {
    hide Target;
  }

  lemma ProjectedThen(ground: map<string, Json>, a: map<string, Option<Json>>, b: map<string, Option<Json>>, c: map<string, Option<Json>>, few: set<string>, more: set<string>)
    requires Projected(ground, a, b, few) && Projected(ground, b, c, more)
    ensures Projected(ground, a, c, few + more)
  {
    hide Minimal, Complete, Keeps, AllPlaced;
    MinimalThen(ground, a, b, c, few, more);
    CompleteThen(ground, a, b, c);
    KeepsThen(a, b, c);
    PlacedStays(b, c, few);
    PlacedSum(c, few, more);
  }

  lemma KeepsThen(a: map<string, Option<Json>>, b: map<string, Option<Json>>, c: map<string, Option<Json>>)
    requires Keeps(a, b) && Keeps(b, c)
    ensures Keeps(a, c)
  {
  }

  lemma PlacedSum(defs: map<string, Option<Json>>, few: set<string>, more: set<string>)
    requires AllPlaced(defs, few) && AllPlaced(defs, more)
    ensures AllPlaced(defs, few + more)
  {
    hide Target;
  }

  lemma ProjectedMeasure(ground: map<string, Json>, before: map<string, Option<Json>>, now: map<string, Option<Json>>, names: set<string>, universe: set<string>)
    requires Projected(ground, before, now, names)
    ensures universe - Placed(now) <= universe - Placed(before)
  {
    hide Complete, Minimal, Placed, Target;
    forall n | n in Placed(before)
      ensures n in Placed(now)
    {
      PlacedIff(before, n);
      PlacedIff(now, n);
    }
  }

  class Projector {
    const ground: map<string, Json>
    var defs: map<string, Option<Json>>

    constructor (ground: map<string, Json>, defs: map<string, Option<Json>>)
      ensures this.ground == ground && this.defs == defs
    {
      this.ground := ground;
      this.defs := defs;
    }

    /** Copies a value, placing what it needs on the way. */
    method Project(value: Json, ghost universe: set<string>) returns (r: Json)
      requires Bounds(universe, ground, value)
      modifies this`defs
      ensures r == Renamed(value)
      ensures Projected(ground, old(defs), defs, NamesOf(value))
      decreases universe - Placed(defs), value, 1
    {
      hide Projected, NamesOf, Bounds;
      match value
      case List(_) => r := ProjectItems(value, universe);
      case Object(_) => r := ProjectMembers(value, universe);
      case _ =>
        NamesOfScalar(value);
        ProjectedNothing(ground, defs);
        r := value;
    }

    method ProjectItems(value: Json, ghost universe: set<string>) returns (r: Json)
      requires value.List? && Bounds(universe, ground, value)
      modifies this`defs
      ensures r == Renamed(value)
      ensures Projected(ground, old(defs), defs, NamesOf(value))
      decreases universe - Placed(defs), value, 0
    {
      hide Projected, NamesOf, Needed, Placed;
      ghost var before := defs;
      var items, out := value.items, [];
      ghost var names: set<string> := {};
      ProjectedNothing(ground, defs);
      for i := 0 to |items|
        invariant |out| == i && forall k :: 0 <= k < i ==> out[k] == Renamed(items[k])
        invariant Projected(ground, before, defs, names)
        invariant names <= NamesOf(value) && forall k :: 0 <= k < i ==> NamesOf(items[k]) <= names
      {
        NamesOfItem(items, i);
        ProjectedMeasure(ground, before, defs, names, universe);
        ghost var b := defs;
        var one := Project(items[i], universe);
        ProjectedThen(ground, before, b, defs, names, NamesOf(items[i]));
        names := names + NamesOf(items[i]);
        out := out + [one];
      }
      NamesOfParts(value, names);
      assert names == NamesOf(value);
      r := List(out);
    }

    method ProjectMembers(value: Json, ghost universe: set<string>) returns (r: Json)
      requires value.Object? && Bounds(universe, ground, value)
      modifies this`defs
      ensures r == Renamed(value)
      ensures Projected(ground, old(defs), defs, NamesOf(value))
      decreases universe - Placed(defs), value, 0
    {
      hide Projected, NamesOf, NamesAt, Needed, Placed, Renamed, Bounds;
      ghost var before := defs;
      var m := value.members;
      var left, out := m.Keys, map[];
      ghost var names: set<string> := {};
      ProjectedNothing(ground, defs);
      while left != {}
        invariant left <= m.Keys
        invariant out.Keys == m.Keys - left && forall k :: k in out ==> out[k] == RenamedAt(k, m[k])
        invariant Projected(ground, before, defs, names)
        invariant names <= NamesOf(value) && forall k :: k in m && k !in left ==> NamesAt(k, m[k]) <= names
        decreases left
      {
        var key :| key in left;
        left := left - {key};
        NamesOfMember(m, key);
        ProjectedMeasure(ground, before, defs, names, universe);
        ghost var b := defs;
        BoundsOfMember(universe, ground, value, key);
        var one := ProjectMember(key, m[key], universe);
        ProjectedThen(ground, before, b, defs, names, NamesAt(key, m[key]));
        names := names + NamesAt(key, m[key]);
        out := out[key := one];
      }
      NamesOfParts(value, names);
      assert names == NamesOf(value);
      r := Object(out);
      RenamedMembers(m, out);
    }

    method ProjectMember(key: string, child: Json, ghost universe: set<string>) returns (r: Json)
      requires NamesAt(key, child) <= universe && Bounds(universe, ground, Null)
      modifies this`defs
      ensures r == RenamedAt(key, child)
      ensures Projected(ground, old(defs), defs, NamesAt(key, child))
      decreases universe - Placed(defs), child, 2
    {
      hide Projected, NamesOf, Placed;
      NamesOfRef(key, child);
      if key == REF && child.Text? && DEFS <= child.s {
        Place(child, universe);
        r := Text(DEFS + Target(child.s[|DEFS|..]));
      } else {
        if IsRef(key, child) {
          assert NamesAt(key, child) == NamesOf(child) == {};
        }
        r := Project(child, universe);
      }
    }

    /** Places the definition a reference names, unless it is placed or under way. */
    method Place(ref: Json, ghost universe: set<string>)
      requires ref.Text? && DEFS <= ref.s && ref.s[|DEFS|..] in universe
      requires Bounds(universe, ground, Null)
      modifies this`defs
      ensures Projected(ground, old(defs), defs, {ref.s[|DEFS|..]})
      decreases universe - Placed(defs), ref, 0
    {
      hide Needed, NamesOf, Placed, Target, Renamed, Projected;
      var name := ref.s[|DEFS|..];
      var target := Target(name);
      ghost var before := defs;
      if target !in defs {
        defs := defs[target := Some(Object(map[]))];
        ghost var marked := defs;
        if name in ground {
          PlacingShrinks(before, marked, name, universe);
          var body := Project(ground[name], universe);
          ghost var grown := defs;
          defs := defs[target := Some(body)];
          PlacedIsProjected(ground, before, marked, grown, name);
        } else {
          defs := defs[target := None];
          assert defs == before[target := None];
          MissingIsProjected(ground, before, name);
        }
      } else {
        KnownIsProjected(ground, before, name);
      }
    }
  }

  lemma KnownIsProjected(ground: map<string, Json>, before: map<string, Option<Json>>, name: string)
    requires Target(name) in before
    ensures Projected(ground, before, before, {name})
  {
  }

  lemma MissingIsProjected(ground: map<string, Json>, before: map<string, Option<Json>>, name: string)
    requires Target(name) !in before && name !in ground
    ensures Projected(ground, before, before[Target(name) := None], {name})
  {
    NeededItself(ground, name);
    TargetIsInjective(name);
    hide Needed, NamesOf, Target;
  }

  /** Once the body behind a placeholder is projected, filling the placeholder completes the copy. */
  lemma PlacedIsProjected(ground: map<string, Json>, before: map<string, Option<Json>>, marked: map<string, Option<Json>>, grown: map<string, Option<Json>>, name: string)
    requires Target(name) !in before && name in ground
    requires marked == before[Target(name) := Some(Object(map[]))]
    requires Projected(ground, marked, grown, NamesOf(ground[name]))
    ensures Projected(ground, before, grown[Target(name) := Some(Renamed(ground[name]))], {name})
  {
    NeededItself(ground, name);
    TargetIsInjective(name);
    hide Needed, NamesOf, Target, Renamed;
  }

  lemma TargetIsInjective(name: string)
    ensures OWNER <= Target(name)
    ensures forall n :: Target(n) == Target(name) ==> n == name
  {
    forall n | Target(n) == Target(name)
      ensures n == name
    {
      assert Target(n)[|OWNER|..] == n && Target(name)[|OWNER|..] == name;
    }
  }

  lemma BoundsOfMember(universe: set<string>, ground: map<string, Json>, value: Json, key: string)
    requires Bounds(universe, ground, value) && value.Object? && key in value.members
    ensures NamesAt(key, value.members[key]) <= universe && Bounds(universe, ground, Null)
  {
    NamesOfMember(value.members, key);
    NamesOfScalar(Null);
  }

  lemma RenamedMembers(m: map<string, Json>, out: map<string, Json>)
    requires out.Keys == m.Keys && forall k :: k in m ==> out[k] == RenamedAt(k, m[k])
    ensures Object(out) == Renamed(Object(m))
  {
    assert Renamed(Object(m)).members == out;
  }

  lemma PlacingShrinks(before: map<string, Option<Json>>, after: map<string, Option<Json>>, name: string, universe: set<string>)
    requires name in universe && Target(name) !in before && after.Keys == before.Keys + {Target(name)}
    ensures universe - Placed(after) < universe - Placed(before)
  {
    PlacedIff(before, name);
    PlacedIff(after, name);
    assert name in universe - Placed(before) && name !in universe - Placed(after);
  }

  // The script: old copies deleted, the attempt and the summary projected and finished, both stored.

  const ATTEMPT := "lightLiveAttempt"
  const SUMMARY := "lightLiveSummary"
  const RESULT := "liveQuestionResult"
  const ROW := "liveRow"

  /** The edits the script makes to the two projected records after projecting them. */
  datatype Finish = Finish(attempt: Json -> Json, summary: Json -> Json)

  function Foreign(defs: map<string, Option<Json>>): map<string, Option<Json>> {
    map k | k in defs && !(OWNER <= k) :: defs[k]
  }

  ghost function Roots(ground: map<string, Json>): set<string>
    requires RESULT in ground && ROW in ground
  {
    NamesOf(ground[RESULT]) + NamesOf(ground[ROW])
  }

  /** What the script leaves: everything that was no copy, a copy of exactly what the two records need, and the two records. */
  ghost predicate IsRebuilt(defs: map<string, Option<Json>>, ground: map<string, Json>, finish: Finish, r: map<string, Option<Json>>)
    requires RESULT in ground && ROW in ground
  {
    && (forall k :: k in r <==> k == ATTEMPT || k == SUMMARY || k in Foreign(defs) || (OWNER <= k && k[|OWNER|..] in Needed(ground, Roots(ground))))
    && (forall n :: Target(n) in r ==> r[Target(n)] == CopyOf(ground, n))
    && (forall k :: k in Foreign(defs) && k != ATTEMPT && k != SUMMARY ==> r[k] == defs[k])
    && r[ATTEMPT] == Some(finish.attempt(Renamed(ground[RESULT])))
    && r[SUMMARY] == Some(finish.summary(Renamed(ground[ROW])))
  }

  function AllNames(ground: map<string, Json>): set<string> {
    set n, m | n in ground && m in NamesOf(ground[n]) :: m
  }

  method Rebuild(defs: map<string, Option<Json>>, ground: map<string, Json>, finish: Finish) returns (r: map<string, Option<Json>>)
    requires RESULT in ground && ROW in ground
    ensures IsRebuilt(defs, ground, finish, r)
  {
    var p := new Projector(ground, Foreign(defs));
    ghost var universe := AllNames(ground);
    ghost var start := p.defs;
    BoundsOfAll(ground);
    hide NamesOf, Needed, Renamed, CopyOf, Target, Projected, AllNames, Bounds;
    var attempt := p.Project(ground[RESULT], universe);
    ghost var first := p.defs;
    p.defs := p.defs[ATTEMPT := Some(finish.attempt(attempt))];
    ghost var stored := p.defs;
    var summary := p.Project(ground[ROW], universe);
    ghost var second := p.defs;
    p.defs := p.defs[SUMMARY := Some(finish.summary(summary))];
    r := p.defs;
    RebuildIsRebuilt(defs, ground, finish, first, second);
  }

  lemma BoundsOfAll(ground: map<string, Json>)
    requires RESULT in ground && ROW in ground
    ensures Bounds(AllNames(ground), ground, ground[RESULT]) && Bounds(AllNames(ground), ground, ground[ROW])
  {
    hide NamesOf;
  }

  lemma StoredIsNoCopy()
    ensures !(OWNER <= ATTEMPT) && !(OWNER <= SUMMARY)
  {
    assert OWNER[0] == 'g' && ATTEMPT[0] == 'l' && SUMMARY[0] == 'l';
  }

  /** Projected since a state without copies: the placed names are closed, and so are exactly the needed ones. */
  lemma PlacedAreNeeded(ground: map<string, Json>, start: map<string, Option<Json>>, now: map<string, Option<Json>>, names: set<string>)
    requires Projected(ground, start, now, names) && forall k :: k in start ==> !(OWNER <= k)
    ensures Placed(now) == Needed(ground, names)
  {
    hide CopyOf, NamesOf, Target, Placed, Keeps;
    forall n
      ensures n in Placed(now) <==> Target(n) in now
      ensures Target(n) !in start
    {
      PlacedIff(now, n);
      TargetIsInjective(n);
    }
    var g := RefGraph(ground);
    forall n, m | n in Placed(now) && m in Successors(g, n)
      ensures m in Placed(now)
    {
      assert AllPlaced(now, NamesOf(ground[n]));
    }
    hide RefGraph;
    ReachIsLeast(g, names);
    assert Closed(g, Placed(now));
  }

  lemma CopiesAreNeeded(ground: map<string, Json>, start: map<string, Option<Json>>, now: map<string, Option<Json>>, names: set<string>)
    requires Projected(ground, start, now, names) && forall k :: k in start ==> !(OWNER <= k)
    ensures forall n :: Target(n) in now <==> n in Needed(ground, names)
    ensures forall n :: Target(n) in now ==> now[Target(n)] == CopyOf(ground, n)
  {
    PlacedAreNeeded(ground, start, now, names);
    hide CopyOf, NamesOf, Needed, Target, Placed, Minimal, Keeps;
    forall n
      ensures n in Placed(now) <==> Target(n) in now
      ensures Target(n) !in start
    {
      PlacedIff(now, n);
      TargetIsInjective(n);
    }
  }

  lemma RebuildIsRebuilt(defs: map<string, Option<Json>>, ground: map<string, Json>, finish: Finish, first: map<string, Option<Json>>, second: map<string, Option<Json>>)
    requires RESULT in ground && ROW in ground
    requires Projected(ground, Foreign(defs), first, NamesOf(ground[RESULT]))
    requires Projected(ground, first[ATTEMPT := Some(finish.attempt(Renamed(ground[RESULT])))], second, NamesOf(ground[ROW]))
    ensures IsRebuilt(defs, ground, finish, second[SUMMARY := Some(finish.summary(Renamed(ground[ROW])))])
  {
    StoredIsNoCopy();
    var attempt := Some(finish.attempt(Renamed(ground[RESULT])));
    var start := Foreign(defs)[ATTEMPT := attempt];
    StoringKeepsProjected(ground, Foreign(defs), first, NamesOf(ground[RESULT]), attempt);
    ProjectedThen(ground, start, first[ATTEMPT := attempt], second, NamesOf(ground[RESULT]), NamesOf(ground[ROW]));
    assert NamesOf(ground[RESULT]) + NamesOf(ground[ROW]) == Roots(ground);
    CopiesAreNeeded(ground, start, second, Roots(ground));
    RebuiltFrom(defs, ground, finish, second);
  }

  lemma RebuiltFrom(defs: map<string, Option<Json>>, ground: map<string, Json>, finish: Finish, second: map<string, Option<Json>>)
    requires RESULT in ground && ROW in ground
    requires Keeps(Foreign(defs)[ATTEMPT := Some(finish.attempt(Renamed(ground[RESULT])))], second)
    requires forall n :: Target(n) in second <==> n in Needed(ground, Roots(ground))
    requires forall n :: Target(n) in second ==> second[Target(n)] == CopyOf(ground, n)
    ensures IsRebuilt(defs, ground, finish, second[SUMMARY := Some(finish.summary(Renamed(ground[ROW])))])
  {
    StoredIsNoCopy();
    hide CopyOf, Needed, Target, Renamed, Roots;
    forall k
      ensures OWNER <= k ==> k == Target(k[|OWNER|..])
    {
      TargetOf(k);
    }
    forall n
      ensures OWNER <= Target(n) && Target(n) != SUMMARY
    {
      TargetIsInjective(n);
    }
  }

  lemma TargetOf(k: string)
    ensures OWNER <= k ==> k == Target(k[|OWNER|..])
  {
  }

  lemma StoringKeepsProjected(ground: map<string, Json>, a: map<string, Option<Json>>, b: map<string, Option<Json>>, names: set<string>, value: Option<Json>)
    requires Projected(ground, a, b, names)
    ensures Projected(ground, a[ATTEMPT := value], b[ATTEMPT := value], names)
  {
    StoredIsNoCopy();
    hide CopyOf, NamesOf, Needed, Target;
    forall n
      ensures Target(n) != ATTEMPT
    {
      TargetIsInjective(n);
    }
    var a', b' := a[ATTEMPT := value], b[ATTEMPT := value];
    assert Keeps(a', b');
    forall n | Target(n) in b' && Target(n) !in a'
      ensures b'[Target(n)] == CopyOf(ground, n) && (n in ground ==> AllPlaced(b', NamesOf(ground[n])))
    {
      assert Target(n) in b && Target(n) !in a;
    }
    assert Complete(ground, a', b');
  }

  // What the script's output is worth.

  /** Running the script on its own output changes nothing. */
  lemma RebuildingIsAFixpoint(defs: map<string, Option<Json>>, ground: map<string, Json>, finish: Finish, once: map<string, Option<Json>>, twice: map<string, Option<Json>>)
    requires RESULT in ground && ROW in ground
    requires IsRebuilt(defs, ground, finish, once) && IsRebuilt(once, ground, finish, twice)
    ensures twice == once
  {
    StoredIsNoCopy();
    hide CopyOf, Needed, Target, Renamed, Roots;
    forall k
      ensures OWNER <= k ==> k == Target(k[|OWNER|..])
    {
      TargetOf(k);
    }
    assert forall k :: k in twice <==> k in once;
    forall k | k in once
      ensures twice[k] == once[k]
    {
      if OWNER <= k {
        assert k == Target(k[|OWNER|..]);
      }
    }
  }

  /** Every reference in a copy leads to a copy, which is defined exactly when the ground schema defines the name. */
  lemma CopiesResolve(defs: map<string, Option<Json>>, ground: map<string, Json>, finish: Finish, r: map<string, Option<Json>>, n: string, m: string)
    requires RESULT in ground && ROW in ground && IsRebuilt(defs, ground, finish, r)
    requires n in ground && Target(n) in r && m in NamesOf(ground[n])
    ensures Target(m) in r
    ensures r[Target(m)].Some? <==> m in ground
  {
    StoredIsNoCopy();
    TargetIsInjective(n);
    TargetIsInjective(m);
    var g := RefGraph(ground);
    ReachIsLeast(g, Roots(ground));
    assert m in Successors(g, n);
    NeededKeys(defs, ground, finish, r, n);
    NeededKeys(defs, ground, finish, r, m);
  }

  lemma NeededKeys(defs: map<string, Option<Json>>, ground: map<string, Json>, finish: Finish, r: map<string, Option<Json>>, n: string)
    requires RESULT in ground && ROW in ground && IsRebuilt(defs, ground, finish, r)
    ensures Target(n) in r <==> n in Needed(ground, Roots(ground))
  {
    StoredIsNoCopy();
    TargetIsInjective(n);
    assert Target(n)[|OWNER|..] == n;
    hide CopyOf, Needed, Renamed, Roots;
  }

  /** A reference that stays inside: a needed name that is defined, another document, or the document's own root. */
  ghost predicate Leads(ground: map<string, Json>, needed: set<string>, r: string) {
    DEFS <= r ==> r[|DEFS|..] in needed && r[|DEFS|..] in ground
  }

  ghost predicate AllLead(ground: map<string, Json>, needed: set<string>, j: Json) {
    forall r :: r in RefsOf(j) ==> Leads(ground, needed, r)
  }

  /** The copies of the needed definitions, all of which lead only to needed ones. */
  ghost predicate IsCopy(ground: map<string, Json>, needed: set<string>, copies: map<string, Json>) {
    forall n :: n in needed && n in ground ==>
      Target(n) in copies && copies[Target(n)] == Renamed(ground[n]) && AllLead(ground, needed, ground[n])
  }

  /** A schema document with copies of what is needed of another one; references are by name or to the root as `#`. */
  ghost predicate IsCopyIn(g: Document, needed: set<string>, t: Document) {
    IsCopy(g.defs, needed, t.defs) && g.anchor.None? && t.anchor.None?
  }

  /** Some needed definition refers to its document's own root. */
  ghost predicate NeedsRoot(g: Document, needed: set<string>) {
    exists n :: n in needed && n in g.defs && "#" in RefsOf(g.defs[n])
  }

  /** The two documents' roots unfold alike, to any smaller depth. */
  ghost predicate RootsAlike(world: World, g: Document, t: Document, depth: nat) {
    forall d :: 0 <= d < depth ==> Unfold(world, t, d, Object(t.root)) == Unfold(world, g, d, Object(g.root))
  }

  /** What a reference becomes in a copy. */
  function Led(r: string): string {
    if DEFS <= r then DEFS + Target(r[|DEFS|..]) else r
  }

  lemma RootOpensAlike(world: World, g: Document, t: Document, depth: nat)
    requires RootsAlike(world, g, t, depth)
    ensures Open(world, t, depth, "#") == Open(world, g, depth, "#")
  {
    hide Unfold;
  }

  lemma NameResolves(world: World, g: Document, needed: set<string>, t: Document, n: string)
    requires IsCopyIn(g, needed, t) && n in needed && n in g.defs
    ensures Resolve(world, g, DEFS + n) == Some(Place(g, g.defs[n]))
    ensures Resolve(world, t, DEFS + Target(n)) == Some(Place(t, Renamed(g.defs[n])))
    ensures AllLead(g.defs, needed, g.defs[n])
  {
    hide Renamed, Target, AllLead;
    assert (DEFS + n)[|DEFS|..] == n && (DEFS + Target(n))[|DEFS|..] == Target(n);
    assert "#" != DEFS + n && "#" != DEFS + Target(n);
  }

  lemma ElsewhereOpensTheSame(world: World, g: Document, t: Document, depth: nat, r: string)
    requires g.anchor.None? && t.anchor.None? && !(DEFS <= r) && r != "#"
    ensures Open(world, t, depth, r) == Open(world, g, depth, r)
  {
    assert Resolve(world, t, r) == Resolve(world, g, r);
    hide Resolve, Unfold;
  }

  lemma PlacesOpen(world: World, g: Document, n: string, body: Json, depth: nat)
    requires Resolve(world, g, DEFS + n) == Some(Place(g, body))
    ensures Open(world, g, depth, DEFS + n) == if depth == 0 then Cut else Unfold(world, g, depth - 1, body)
  {
    hide Resolve, Unfold;
  }

  lemma {:induction false} ReferenceOpensTheSame(world: World, g: Document, needed: set<string>, t: Document, depth: nat, r: string)
    requires IsCopyIn(g, needed, t) && Leads(g.defs, needed, r)
    requires NeedsRoot(g, needed) || r == "#" ==> RootsAlike(world, g, t, depth)
    ensures Open(world, t, depth, Led(r)) == Open(world, g, depth, r)
    decreases depth, 0
  {
    if DEFS <= r {
      var n := r[|DEFS|..];
      assert r == DEFS + n;
      assert n in needed && n in g.defs;
      assert "#" in RefsOf(g.defs[n]) ==> NeedsRoot(g, needed);
      hide Renamed, Resolve, AllLead, IsCopyIn, Leads, Target, Open, Unfold, RefsOf, NeedsRoot;
      NameResolves(world, g, needed, t, n);
      PlacesOpen(world, g, n, g.defs[n], depth);
      PlacesOpen(world, t, Target(n), Renamed(g.defs[n]), depth);
      if depth > 0 {
        CopyUnfoldsTheSame(world, g, needed, t, depth - 1, g.defs[n]);
      }
    } else if r == "#" {
      hide Open;
      RootOpensAlike(world, g, t, depth);
    } else {
      hide IsCopy, Open;
      ElsewhereOpensTheSame(world, g, t, depth, r);
    }
  }

  lemma MemberIsLed(k: string, j: Json)
    ensures IsRef(k, j) ==> RenamedAt(k, j) == Text(Led(j.s))
    ensures !IsRef(k, j) ==> RenamedAt(k, j) == Renamed(j) && !IsRef(k, Renamed(j))
  {
  }

  /** The copy is isomorphic: a value renamed unfolds, among the copies, to what it unfolds to in the ground schema, to any depth and through any cycle, as long as a reference to the own root finds the same there. */
  lemma {:induction false} CopyUnfoldsTheSame(world: World, g: Document, needed: set<string>, t: Document, depth: nat, j: Json)
    requires IsCopyIn(g, needed, t) && AllLead(g.defs, needed, j)
    requires NeedsRoot(g, needed) || "#" in RefsOf(j) ==> RootsAlike(world, g, t, depth)
    ensures Unfold(world, t, depth, Renamed(j)) == Unfold(world, g, depth, j)
    decreases depth, 1, j
  {
    RefsOfParts(j);
    match j
    case List(items) =>
      var renamed := Renamed(j).items;
      hide IsCopyIn, Leads, Unfold, RefsOf, NeedsRoot, RootsAlike;
      forall i | 0 <= i < |items|
        ensures Unfold(world, t, depth, renamed[i]) == Unfold(world, g, depth, items[i])
      {
        CopyUnfoldsTheSame(world, g, needed, t, depth, items[i]);
      }
      UnfoldsByItems(world, depth, t, renamed, g, items);
    case Object(m) =>
      var renamed := Renamed(j).members;
      hide IsCopyIn, Leads, Unfold, RefsOf, NeedsRoot, RootsAlike, Open, Led;
      forall k | k in m
        ensures UnfoldMember(world, t, depth, k, renamed[k]) == UnfoldMember(world, g, depth, k, m[k])
      {
        MemberIsLed(k, m[k]);
        if IsRef(k, m[k]) {
          ReferenceOpensTheSame(world, g, needed, t, depth, m[k].s);
        } else {
          CopyUnfoldsTheSame(world, g, needed, t, depth, m[k]);
        }
      }
      UnfoldsByMembers(world, depth, t, renamed, g, m);
    case _ =>
  }

  /** Every reference of a needed definition opens in its copy as it did in the ground schema. */
  ghost predicate CopiesMean(world: World, g: Document, needed: set<string>, t: Document, depth: nat) {
    forall n, r, d :: n in needed && n in g.defs && r in RefsOf(g.defs[n]) && 0 <= d <= depth ==>
      Open(world, t, d, Led(r)) == Open(world, g, d, r)
  }

  lemma RootsOpen(world: World, d: Document, depth: nat)
    ensures Open(world, d, depth + 1, "#") == Unfold(world, d, depth, Object(d.root))
  {
  }

  /** Copies keep the meaning of what they refer to exactly when none refers to its own root, or the two roots unfold alike. */
  lemma CopiesMeanTheSameIff(world: World, g: Document, needed: set<string>, t: Document, depth: nat)
    requires IsCopyIn(g, needed, t)
    ensures CopiesMean(world, g, needed, t, depth) <==> (NeedsRoot(g, needed) ==> RootsAlike(world, g, t, depth))
  {
    if NeedsRoot(g, needed) ==> RootsAlike(world, g, t, depth) {
      forall n, r, d | n in needed && n in g.defs && r in RefsOf(g.defs[n]) && 0 <= d <= depth
        ensures Open(world, t, d, Led(r)) == Open(world, g, d, r)
      {
        assert AllLead(g.defs, needed, g.defs[n]);
        hide IsCopyIn, Open, Led, Unfold, RefsOf;
        ReferenceOpensTheSame(world, g, needed, t, d, r);
      }
    }
    if CopiesMean(world, g, needed, t, depth) && NeedsRoot(g, needed) {
      assert Led("#") == "#";
      hide IsCopyIn, Open, Led, Unfold, RefsOf;
      var n :| n in needed && n in g.defs && "#" in RefsOf(g.defs[n]);
      forall d | 0 <= d < depth
        ensures Unfold(world, t, d, Object(t.root)) == Unfold(world, g, d, Object(g.root))
      {
        RootsOpen(world, t, d);
        RootsOpen(world, g, d);
        assert Open(world, t, d + 1, Led("#")) == Open(world, g, d + 1, "#");
      }
    }
  }

  function Defined(r: map<string, Option<Json>>): map<string, Json> {
    map k | k in r && r[k].Some? :: r[k].value
  }

  /** What the script writes is such a copy, whenever the ground schema defines all it needs. */
  lemma RebuiltIsCopy(defs: map<string, Option<Json>>, ground: map<string, Json>, finish: Finish, r: map<string, Option<Json>>)
    requires RESULT in ground && ROW in ground && IsRebuilt(defs, ground, finish, r)
    requires Needed(ground, Roots(ground)) <= ground.Keys
    ensures IsCopy(ground, Needed(ground, Roots(ground)), Defined(r))
  {
    var needed := Needed(ground, Roots(ground));
    var g := RefGraph(ground);
    ReachIsLeast(g, Roots(ground));
    forall n | n in needed
      ensures Target(n) in Defined(r) && Defined(r)[Target(n)] == Renamed(ground[n]) && AllLead(ground, needed, ground[n])
    {
      NeededKeys(defs, ground, finish, r, n);
      assert r[Target(n)] == CopyOf(ground, n);
      assert Successors(g, n) == NamesOf(ground[n]);
      forall q | q in RefsOf(ground[n]) && DEFS <= q
        ensures q[|DEFS|..] in needed
      {
        assert q[|DEFS|..] in NamesOf(ground[n]);
      }
    }
  }

  /** The two records the script stores are the attempt of the live question result and the summary of the live row, each renamed and finished; what was under any other name and is no copy stays. */
  lemma StoredRecordsAre(defs: map<string, Option<Json>>, ground: map<string, Json>, finish: Finish, r: map<string, Option<Json>>, k: string)
    requires RESULT in ground && ROW in ground && IsRebuilt(defs, ground, finish, r)
    ensures "liveQuestionResult" in ground && "liveRow" in ground
    ensures "lightLiveAttempt" in r && r["lightLiveAttempt"] == Some(finish.attempt(Renamed(ground["liveQuestionResult"])))
    ensures "lightLiveSummary" in r && r["lightLiveSummary"] == Some(finish.summary(Renamed(ground["liveRow"])))
    ensures k != "lightLiveAttempt" && k != "lightLiveSummary" && !("groundOwner_" <= k) ==> (k in r <==> k in defs) && (k in defs ==> r[k] == defs[k])
    ensures "groundOwner_" <= k && k in r ==> k[12..] in Needed(ground, NamesOf(ground["liveQuestionResult"]) + NamesOf(ground["liveRow"]))
  {
    StoredIsNoCopy();
    assert |OWNER| == 12;
    hide CopyOf, Needed, Renamed, NamesOf;
  }
}
