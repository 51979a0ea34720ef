/** JSON Schema documents as trees: their references, their other texts, and what a document means when references are opened. */
module SchemaJson {
  import opened Options

  datatype Json = Null | Bool(b: bool) | Number(n: int) | Text(s: string) | List(items: seq<Json>) | Object(members: map<string, Json>)

  const REF := "$ref"
  const DEFS := "#/$defs/"

  /** A member `$ref` that holds a text is a reference. */
  predicate IsRef(key: string, value: Json) {
    key == REF && value.Text?
  }

  function RefsOf(j: Json): set<string>
    decreases j, 0
  {
    match j
    case List(items) => set x, r | x in items && r in RefsOf(x) :: r
    case Object(m) => set k, r | k in m && r in RefsAt(k, m[k]) :: r
    case _ => {}
  }

  function RefsAt(key: string, value: Json): set<string>
    decreases value, 1
  {
    if IsRef(key, value) then {value.s} else RefsOf(value)
  }

  lemma RefsOfParts(j: Json)
    ensures j.List? ==> forall x :: x in j.items ==> RefsOf(x) <= RefsOf(j)
    ensures j.Object? ==> forall k :: k in j.members ==>
              if IsRef(k, j.members[k]) then j.members[k].s in RefsOf(j) else RefsOf(j.members[k]) <= RefsOf(j)
  {
    if j.List? {
      forall x, r | x in j.items && r in RefsOf(x)
        ensures r in RefsOf(j)
      {
      }
    } else if j.Object? {
      forall k, r | k in j.members && r in RefsAt(k, j.members[k])
        ensures r in RefsOf(j)
      {
      }
      forall k | k in j.members
        ensures IsRef(k, j.members[k]) ==> RefsAt(k, j.members[k]) == {j.members[k].s}
        ensures !IsRef(k, j.members[k]) ==> RefsAt(k, j.members[k]) == RefsOf(j.members[k])
      {
      }
    }
  }

  /** Every text value that is not a reference. */
  function TextsOf(j: Json): set<string> {
    match j
    case Text(s) => {s}
    case List(items) => set x, t | x in items && t in TextsOf(x) :: t
    case Object(m) => set k, t | k in m && !IsRef(k, m[k]) && t in TextsOf(m[k]) :: t
    case _ => {}
  }

  /** Every text value rewritten. */
  function MapTexts(f: string -> string, j: Json): Json {
    match j
    case Text(s) => Text(f(s))
    case List(items) => List(seq(|items|, i requires 0 <= i < |items| => MapTexts(f, items[i])))
    case Object(m) => Object(map k | k in m :: MapTexts(f, m[k]))
    case _ => j
  }

  lemma {:induction false} MapTwice(f: string -> string, g: string -> string, h: string -> string, j: Json)
    requires forall s :: h(s) == g(f(s))
    ensures MapTexts(g, MapTexts(f, j)) == MapTexts(h, j)
  {
    match j
    case List(items) =>
      forall x | x in items { MapTwice(f, g, h, x); }
      assert MapTexts(g, MapTexts(f, j)).items == MapTexts(h, j).items;
    case Object(m) =>
      forall k | k in m { MapTwice(f, g, h, m[k]); }
      assert MapTexts(g, MapTexts(f, j)).members == MapTexts(h, j).members;
    case _ =>
  }

  lemma {:induction false} MapNothing(f: string -> string, j: Json)
    requires forall s :: f(s) == s
    ensures MapTexts(f, j) == j
  {
    match j
    case List(items) =>
      forall x | x in items { MapNothing(f, x); }
      assert MapTexts(f, j).items == items;
    case Object(m) =>
      forall k | k in m { MapNothing(f, m[k]); }
      assert MapTexts(f, j).members == m;
    case _ =>
  }

  lemma MapByParts(f: string -> string, j: Json)
    ensures j.List? ==> MapTexts(f, j).List? && |MapTexts(f, j).items| == |j.items|
    ensures j.List? ==> forall i :: 0 <= i < |j.items| ==> MapTexts(f, j).items[i] == MapTexts(f, j.items[i])
    ensures j.Object? ==> MapTexts(f, j).Object? && MapTexts(f, j).members.Keys == j.members.Keys
    ensures j.Object? ==> forall k :: k in j.members ==> MapTexts(f, j).members[k] == MapTexts(f, j.members[k])
  {
  }

  lemma MapOfText(f: string -> string, j: Json)
    ensures MapTexts(f, j).Text? <==> j.Text?
    ensures j.Text? ==> MapTexts(f, j) == Text(f(j.s))
  {
  }

  lemma {:induction false} RefsOfMap(f: string -> string, j: Json, r: string) returns (q: string)
    requires r in RefsOf(MapTexts(f, j))
    ensures q in RefsOf(j) && r == f(q)
  {
    match j
    case List(items) =>
      var i :| 0 <= i < |items| && r in RefsOf(MapTexts(f, items[i]));
      q := RefsOfMap(f, items[i], r);
    case Object(m) =>
      var k :| k in m && r in RefsAt(k, MapTexts(f, m[k]));
      MapOfText(f, m[k]);
      if IsRef(k, m[k]) {
        q := m[k].s;
        assert RefsAt(k, MapTexts(f, m[k])) == {f(q)};
      } else {
        assert RefsAt(k, MapTexts(f, m[k])) == RefsOf(MapTexts(f, m[k]));
        q := RefsOfMap(f, m[k], r);
      }
      assert q in RefsAt(k, m[k]);
    case _ =>
      assert false;
      q := "";
  }

  lemma {:induction false} TextsOfMap(f: string -> string, j: Json, t: string) returns (q: string)
    requires t in TextsOf(MapTexts(f, j))
    ensures q in TextsOf(j) && t == f(q)
  {
    match j
    case Text(s) =>
      q := s;
    case List(items) =>
      var i :| 0 <= i < |items| && t in TextsOf(MapTexts(f, items[i]));
      q := TextsOfMap(f, items[i], t);
    case Object(m) =>
      var k :| k in m && !IsRef(k, MapTexts(f, m[k])) && t in TextsOf(MapTexts(f, m[k]));
      MapOfText(f, m[k]);
      assert IsRef(k, m[k]) == IsRef(k, MapTexts(f, m[k]));
      q := TextsOfMap(f, m[k], t);
      assert k in m && !IsRef(k, m[k]) && q in TextsOf(m[k]);
    case _ =>
      assert false;
      q := "";
  }

  /** A schema document: its identity, its anchor, its definitions, and all other members. */
  datatype Document = Document(id: Option<string>, anchor: Option<string>, defs: map<string, Json>, root: map<string, Json>)

  /** The documents a resolver knows, by identity. */
  type World = map<string, Document>

  /** The identity part of a reference: what stands before its first `#`. */
  function Base(r: string): (b: string)
    ensures |b| <= |r|
  {
    if r == "" || r[0] == '#' then "" else [r[0]] + Base(r[1..])
  }

  datatype Place = Place(home: Document, body: Json)

  /** What a reference in a document denotes: a definition or the root, here or in a document known by identity. */
  function Resolve(world: World, home: Document, r: string): Option<Place> {
    if r == "#" || (home.anchor.Some? && r == "#" + home.anchor.value) then Some(Place(home, Object(home.root)))
    else if DEFS <= r then
      if r[|DEFS|..] in home.defs then Some(Place(home, home.defs[r[|DEFS|..]])) else None
    else if Base(r) in world then
      var there, fragment := world[Base(r)], r[|Base(r)|..];
      if fragment == "" then Some(Place(there, Object(there.root)))
      else if DEFS <= fragment && fragment[|DEFS|..] in there.defs then Some(Place(there, there.defs[fragment[|DEFS|..]]))
      else None
    else None
  }

  /** A document with its references opened to a depth. */
  datatype Tree = Leaf(j: Json) | Row(items: seq<Tree>) | Branch(members: map<string, Tree>) | Opaque(ref: string) | Cut

  function Unfold(world: World, home: Document, depth: nat, j: Json): Tree
    decreases depth, 1, j
  {
    match j
    case List(items) => Row(seq(|items|, i requires 0 <= i < |items| => Unfold(world, home, depth, items[i])))
    case Object(m) => Branch(map k | k in m ::
        if IsRef(k, m[k]) then Open(world, home, depth, m[k].s) else Unfold(world, home, depth, m[k]))
    case _ => Leaf(j)
  }

  /** A reference opened: what it denotes, unfolded one level less. */
  function Open(world: World, home: Document, depth: nat, r: string): Tree
    decreases depth, 0
  {
    match Resolve(world, home, r)
    case None => Opaque(r)
    case Some(p) => if depth == 0 then Cut else Unfold(world, p.home, depth - 1, p.body)
  }

  /** Unfolding acts on the items of a list one by one. */
  lemma UnfoldsByItems(world: World, depth: nat, a: Document, xs: seq<Json>, b: Document, ys: seq<Json>)
    requires |xs| == |ys|
    requires forall i :: 0 <= i < |xs| ==> Unfold(world, a, depth, xs[i]) == Unfold(world, b, depth, ys[i])
    ensures Unfold(world, a, depth, List(xs)) == Unfold(world, b, depth, List(ys))
  {
    assert Unfold(world, a, depth, List(xs)).items == Unfold(world, b, depth, List(ys)).items;
  }

  /** What one member of an object unfolds to. */
  function UnfoldMember(world: World, home: Document, depth: nat, k: string, j: Json): Tree {
    if IsRef(k, j) then Open(world, home, depth, j.s) else Unfold(world, home, depth, j)
  }

  /** Unfolding acts on the members of an object one by one. */
  lemma UnfoldsByMembers(world: World, depth: nat, a: Document, mx: map<string, Json>, b: Document, my: map<string, Json>)
    requires mx.Keys == my.Keys
    requires forall k :: k in mx ==> UnfoldMember(world, a, depth, k, mx[k]) == UnfoldMember(world, b, depth, k, my[k])
    ensures Unfold(world, a, depth, Object(mx)) == Unfold(world, b, depth, Object(my))
  {
    var now, was := Unfold(world, a, depth, Object(mx)).members, Unfold(world, b, depth, Object(my)).members;
    forall k | k in mx
      ensures now[k] == was[k]
    {
      assert now[k] == UnfoldMember(world, a, depth, k, mx[k]);
      assert was[k] == UnfoldMember(world, b, depth, k, my[k]);
    }
    assert now == was;
  }

  lemma {:induction false} BasePrefixes(r: string)
    ensures r[..|Base(r)|] == Base(r)
    ensures |Base(r)| < |r| ==> r[|Base(r)|] == '#'
    ensures forall i :: 0 <= i < |Base(r)| ==> Base(r)[i] != '#'
  {
    if r != "" && r[0] != '#' {
      BasePrefixes(r[1..]);
    }
  }

  lemma {:induction false} BaseOfSum(id: string, rest: string)
    requires forall i :: 0 <= i < |id| ==> id[i] != '#'
    requires rest == "" || rest[0] == '#'
    ensures Base(id + rest) == id
  {
    if id != "" {
      assert (id + rest)[1..] == id[1..] + rest;
      BaseOfSum(id[1..], rest);
    }
  }
}
