/** Which definitions a value needs: the names it refers to, closed under what those definitions refer to. */
module SchemaReach {
  import opened Reachability
  import opened SchemaJson

  /** The definition names a value refers to. */
  function NamesOf(j: Json): set<string> {
    set r | r in RefsOf(j) && DEFS <= r :: r[|DEFS|..]
  }

  function NamesAt(key: string, value: Json): set<string> {
    set r | r in RefsAt(key, value) && DEFS <= r :: r[|DEFS|..]
  }

  /** Which definition refers to which. */
  function RefGraph(defs: map<string, Json>): Graph<string> {
    map n | n in defs :: NamesOf(defs[n])
  }

  ghost function Needed(schema: map<string, Json>, names: set<string>): set<string> {
    Reach(RefGraph(schema), names)
  }

  lemma NamesOfItem(items: seq<Json>, i: nat)
    requires i < |items|
    ensures NamesOf(items[i]) <= NamesOf(List(items))
  {
    assert items[i] in items;
  }

  lemma NamesOfMember(m: map<string, Json>, k: string)
    requires k in m
    ensures NamesAt(k, m[k]) <= NamesOf(Object(m))
  {
    forall r | r in RefsAt(k, m[k])
      ensures r in RefsOf(Object(m))
    {
    }
  }

  lemma NamesOfParts(j: Json, names: set<string>)
    requires j.List? ==> forall x :: x in j.items ==> NamesOf(x) <= names
    requires j.Object? ==> forall k :: k in j.members ==> NamesAt(k, j.members[k]) <= names
    requires j.List? || j.Object?
    ensures NamesOf(j) <= names
  {
    forall n | n in NamesOf(j)
      ensures n in names
    {
      var r :| r in RefsOf(j) && DEFS <= r && n == r[|DEFS|..];
      if j.List? {
        var x :| x in j.items && r in RefsOf(x);
        assert n in NamesOf(x);
      } else {
        var k :| k in j.members && r in RefsAt(k, j.members[k]);
        assert n in NamesAt(k, j.members[k]);
      }
    }
  }

  lemma NamesOfScalar(j: Json)
    requires !j.List? && !j.Object?
    ensures NamesOf(j) == {}
  {
  }

  lemma NamesOfRef(key: string, value: Json)
    ensures IsRef(key, value) && DEFS <= value.s ==> NamesAt(key, value) == {value.s[|DEFS|..]}
    ensures !(IsRef(key, value) && DEFS <= value.s) ==> NamesAt(key, value) == if IsRef(key, value) then {} else NamesOf(value)
    ensures IsRef(key, value) ==> NamesOf(value) == {}
  {
    if IsRef(key, value) {
      assert RefsAt(key, value) == {value.s};
    }
  }

  lemma ReachOfPart(schema: map<string, Json>, few: set<string>, many: set<string>)
    requires few <= many
    ensures Needed(schema, few) <= Needed(schema, many)
  {
    ReachIsLeast(RefGraph(schema), few);
    ReachIsLeast(RefGraph(schema), many);
  }

  /** What a reachable definition needs is needed. */
  lemma ReachOfDefinition(schema: map<string, Json>, names: set<string>, n: string)
    requires n in Needed(schema, names) && n in schema
    ensures Needed(schema, NamesOf(schema[n])) <= Needed(schema, names)
  {
    var g := RefGraph(schema);
    ReachIsLeast(g, names);
    ReachIsLeast(g, NamesOf(schema[n]));
    assert Successors(g, n) == NamesOf(schema[n]);
  }

  lemma NeededItself(schema: map<string, Json>, name: string)
    ensures name in Needed(schema, {name})
    ensures name in schema ==> Needed(schema, NamesOf(schema[name])) <= Needed(schema, {name})
  {
    ReachIsLeast(RefGraph(schema), {name});
    if name in schema {
      ReachOfDefinition(schema, {name}, name);
    }
  }
}
