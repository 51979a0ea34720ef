/** The training contract's definitions: the closure of the operations under references. */
module ContractClosure {
  import opened Options
  import opened Reachability
  import opened SchemaJson
  import opened SchemaReach

  /** The collector: definitions are added the first time something refers to them. */
  class Collector {
    const schema: map<string, Json>
    var defs: map<string, Json>

    constructor (schema: map<string, Json>)
      ensures this.schema == schema && defs == map[]
    {
      this.schema := schema;
      defs := map[];
    }

    /** Every definition collected since `before` is the schema's own, and all it refers to is collected. */
    ghost predicate Extends(before: map<string, Json>)
      reads this
    {
      && before.Keys <= defs.Keys
      && (forall n :: n in before ==> defs[n] == before[n])
      && forall n :: n in defs && n !in before ==> n in schema && defs[n] == schema[n] && NamesOf(schema[n]) <= defs.Keys
    }

    /** `names` are collected since `before`, with nothing they do not need. */
    ghost predicate Collected(before: map<string, Json>, names: set<string>)
      reads this
    {
      Extends(before) && names <= defs.Keys && defs.Keys <= before.Keys + Needed(schema, names)
    }

    /** Collects what a value needs; false stands for the error on an unknown name. */
    method Include(value: Json) returns (ok: bool)
      modifies this`defs
      ensures ok ==> Collected(old(defs), NamesOf(value))
      ensures !ok ==> !(Needed(schema, NamesOf(value)) <= schema.Keys)
      ensures defs.Keys >= old(defs.Keys)
      decreases schema.Keys - defs.Keys, value, 1
    {
      hide Needed, NamesOf;
      match value
      case List(_) => ok := IncludeItems(value);
      case Object(_) => ok := IncludeMembers(value);
      case _ =>
        NamesOfScalar(value);
        ok := true;
    }

    method IncludeItems(value: Json) returns (ok: bool)
      requires value.List?
      modifies this`defs
      ensures ok ==> Collected(old(defs), NamesOf(value))
      ensures !ok ==> !(Needed(schema, NamesOf(value)) <= schema.Keys)
      ensures defs.Keys >= old(defs.Keys)
      decreases schema.Keys - defs.Keys, value, 0
    {
      hide Needed, NamesOf, NamesAt, RefsOf;
      ghost var before := defs;
      var items := value.items;
      for i := 0 to |items|
        invariant Extends(before)
        invariant forall k :: 0 <= k < i ==> NamesOf(items[k]) <= defs.Keys
        invariant defs.Keys <= before.Keys + Needed(schema, NamesOf(value))
      {
        NamesOfItem(items, i);
        ReachOfPart(schema, NamesOf(items[i]), NamesOf(value));
        ok := Include(items[i]);
        if !ok { return false; }
      }
      NamesOfParts(value, defs.Keys);
      ok := true;
    }

    method IncludeMembers(value: Json) returns (ok: bool)
      requires value.Object?
      modifies this`defs
      ensures ok ==> Collected(old(defs), NamesOf(value))
      ensures !ok ==> !(Needed(schema, NamesOf(value)) <= schema.Keys)
      ensures defs.Keys >= old(defs.Keys)
      decreases schema.Keys - defs.Keys, value, 0
    {
      hide Needed, NamesOf, NamesAt, RefsOf;
      ghost var before := defs;
      var m := value.members;
      var left := m.Keys;
      while left != {}
        invariant left <= m.Keys
        invariant Extends(before)
        invariant forall k :: k in m && k !in left ==> NamesAt(k, m[k]) <= defs.Keys
        invariant defs.Keys <= before.Keys + Needed(schema, NamesOf(value))
        decreases left
      {
        var key :| key in left;
        left := left - {key};
        var member := m[key];
        NamesOfMember(m, key);
        NamesOfRef(key, member);
        ReachOfPart(schema, NamesAt(key, member), NamesOf(value));
        if key == REF && member.Text? && DEFS <= member.s {
          ok := IncludeReferred(member);
        } else {
          ok := Include(member);
        }
        if !ok { return false; }
      }
      NamesOfParts(value, defs.Keys);
      ok := true;
    }

    method IncludeReferred(ref: Json) returns (ok: bool)
      requires ref.Text? && DEFS <= ref.s
      modifies this`defs
      ensures ok ==> Collected(old(defs), {ref.s[|DEFS|..]})
      ensures !ok ==> !(Needed(schema, {ref.s[|DEFS|..]}) <= schema.Keys)
      ensures defs.Keys >= old(defs.Keys)
      decreases schema.Keys - defs.Keys, ref, 0
    {
      var name := ref.s[|DEFS|..];
      NeededItself(schema, name);
      hide Needed, NamesOf;
      if name !in defs {
        if name !in schema { return false; }
        ghost var before := defs;
        defs := defs[name := schema[name]];
        assert defs.Keys == before.Keys + {name};
        assert name in schema.Keys - before.Keys && name !in schema.Keys - defs.Keys;
        ok := Include(defs[name]);
        if !ok { return false; }
      }
      ok := true;
    }
  }

  /** The definitions of the contract: exactly those the operations need, or an error exactly when a needed one is missing. */
  method Collect(schema: map<string, Json>, operations: Json) returns (r: Option<map<string, Json>>)
    ensures r.Some? <==> Needed(schema, NamesOf(operations)) <= schema.Keys
    ensures r.Some? ==> r.value.Keys == Needed(schema, NamesOf(operations))
    ensures r.Some? ==> forall n :: n in r.value ==> n in schema && r.value[n] == schema[n]
  {
    var c := new Collector(schema);
    var ok := c.Include(operations);
    if !ok { return None; }
    ReachIsLeast(RefGraph(schema), NamesOf(operations));
    assert Closed(RefGraph(schema), c.defs.Keys);
    r := Some(c.defs);
  }

  // What the definitions collected are fit for.

  /** Every name a value refers to, in any form the collector follows, is defined here as in the full schema. */
  ghost predicate IsCollected(schema: map<string, Json>, defs: map<string, Json>) {
    && (forall n :: n in defs ==> n in schema && defs[n] == schema[n])
    && forall n, r :: n in defs && r in RefsOf(defs[n]) && "#/$defs/" <= r ==> r[8..] in defs
  }

  ghost predicate Covers(defs: map<string, Json>, j: Json) {
    forall r :: r in RefsOf(j) && "#/$defs/" <= r ==> r[8..] in defs
  }

  /** What is collected for a value is closed, covers the value, and is the least such part of the schema. */
  lemma NeededIsCollected(schema: map<string, Json>, operations: Json, defs: map<string, Json>)
    requires Needed(schema, NamesOf(operations)) <= schema.Keys && defs.Keys == Needed(schema, NamesOf(operations))
    requires forall n :: n in defs ==> n in schema && defs[n] == schema[n]
    ensures IsCollected(schema, defs) && Covers(defs, operations)
    ensures forall other :: IsCollected(schema, other) && Covers(other, operations) ==> defs.Keys <= other.Keys
  {
    var g, names := RefGraph(schema), NamesOf(operations);
    ReachIsLeast(g, names);
    assert DEFS == "#/$defs/" && |DEFS| == 8;
    forall n, r | n in defs && r in RefsOf(defs[n]) && "#/$defs/" <= r
      ensures r[8..] in defs
    {
      assert r[8..] in NamesOf(schema[n]) && Successors(g, n) == NamesOf(schema[n]);
    }
    forall r | r in RefsOf(operations) && "#/$defs/" <= r
      ensures r[8..] in defs
    {
      assert r[8..] in names;
    }
    forall other | IsCollected(schema, other) && Covers(other, operations)
      ensures defs.Keys <= other.Keys
    {
      assert Closed(g, other.Keys);
      assert names <= other.Keys;
    }
  }

  lemma SameReferenceOpens(world: World, a: Document, b: Document, depth: nat, r: string)
    requires IsCollected(a.defs, b.defs) && a.anchor == b.anchor && a.root == b.root && ("#/$defs/" <= r ==> r[8..] in b.defs)
    requires Covers(b.defs, Object(a.root))
    ensures Open(world, b, depth, r) == Open(world, a, depth, r)
    decreases depth, 0
  {
    assert DEFS == "#/$defs/" && |DEFS| == 8;
    var pa, pb := Resolve(world, a, r), Resolve(world, b, r);
    if depth > 0 && pa.Some? && pb.Some? && pb.value.home == b {
      if DEFS <= r && r != "#" && !(a.anchor.Some? && r == "#" + a.anchor.value) {
        assert pa == Some(Place(a, b.defs[r[8..]]));
        CollectedUnfoldsTheSame(world, a, b, depth - 1, b.defs[r[8..]]);
      } else if pa.value.home == a {
        CollectedUnfoldsTheSame(world, a, b, depth - 1, Object(a.root));
      }
    }
  }

  /** The collected definitions serve as the whole schema does: a value they cover unfolds among them as in the full schema, to any depth and through any cycle. */
  lemma {:induction false} CollectedUnfoldsTheSame(world: World, a: Document, b: Document, depth: nat, j: Json)
    requires IsCollected(a.defs, b.defs) && a.anchor == b.anchor && a.root == b.root && Covers(b.defs, j)
    requires Covers(b.defs, Object(a.root))
    ensures Unfold(world, b, depth, j) == Unfold(world, a, depth, j)
    decreases depth, 1, j
  {
    RefsOfParts(j);
    match j
    case List(items) =>
      hide IsCollected, Unfold, RefsOf;
      forall i | 0 <= i < |items|
        ensures Unfold(world, b, depth, items[i]) == Unfold(world, a, depth, items[i])
      {
        CollectedUnfoldsTheSame(world, a, b, depth, items[i]);
      }
      UnfoldsByItems(world, depth, b, items, a, items);
    case Object(m) =>
      hide IsCollected, Unfold, RefsOf, Open;
      forall k | k in m
        ensures UnfoldMember(world, b, depth, k, m[k]) == UnfoldMember(world, a, depth, k, m[k])
      {
        if IsRef(k, m[k]) {
          SameReferenceOpens(world, a, b, depth, m[k].s);
        } else {
          CollectedUnfoldsTheSame(world, a, b, depth, m[k]);
        }
      }
      UnfoldsByMembers(world, depth, b, m, a, m);
    case _ =>
  }
}
