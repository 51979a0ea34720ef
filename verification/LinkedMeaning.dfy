/** What linking keeps: every reference, opened to any depth, shows what it showed in the separate documents. */
module LinkedMeaning {
  import opened Options
  import opened SchemaJson
  import opened OwnerLinking

  /** A link to judge: the document, its owners, and the documents a resolver knows. */
  datatype Linkage = Linkage(input: Document, owners: seq<Owner>, world: World)

  /** Where a part of the linked document came from: the input itself, or the owner at an index. */
  datatype Home = Own | Of(i: nat)

  predicate IsHome(l: Linkage, h: Home) {
    h.Own? || h.i < |l.owners|
  }

  function HomeDoc(l: Linkage, h: Home): Document
    requires IsHome(l, h)
  {
    if h.Own? then l.input else l.owners[h.i].doc
  }

  function Out(l: Linkage): Document {
    Linked(l.input, l.owners)
  }

  function Rewrite(l: Linkage, h: Home, s: string): string
    requires IsHome(l, h)
  {
    RedirectAll(l.owners, if h.Own? then s else Localize(l.owners[h.i], s))
  }

  function Rewriting(l: Linkage, h: Home): string -> string
    requires IsHome(l, h)
  {
    s => Rewrite(l, h, s)
  }

  predicate PlainId(id: string) {
    id != "" && '#' !in id
  }

  /** Anchors as section 8.2.2 of JSON Schema Core 2020-12 spells them start with a letter or an underscore. */
  predicate PlainAnchor(d: Document) {
    d.anchor.Some? ==> d.anchor.value != "" && d.anchor.value[0] != '/'
  }

  function Ids(owners: seq<Owner>): set<string> {
    set o | o in owners :: Identity(o)
  }

  /** Identities that can be told apart, and from any fragment. */
  ghost predicate GoodIds(owners: seq<Owner>) {
    && (forall o :: o in owners ==> PlainId(Identity(o)))
    && (forall i, j :: 0 <= i < j < |owners| ==> Identity(owners[i]) != Identity(owners[j]))
  }

  ghost predicate IdsOk(l: Linkage) {
    && GoodIds(l.owners)
    && (forall o :: o in l.owners ==> PlainAnchor(o.doc))
    && (forall o :: o in l.owners ==> Identity(o) in l.world && l.world[Identity(o)] == o.doc)
    && PlainAnchor(l.input)
    && (l.input.anchor.Some? ==> Base(l.input.anchor.value) !in Ids(l.owners))
  }

  /** Prefixed owner names collide neither with each other nor with the document's own, and no owner defines `Root`. */
  ghost predicate NamesOk(l: Linkage) {
    && (forall o :: o in l.owners ==> "Root" !in o.doc.defs && Copied(o).Keys !! l.input.defs.Keys)
    && (forall i, j :: 0 <= i < j < |l.owners| ==> Copied(l.owners[i]).Keys !! Copied(l.owners[j]).Keys)
  }

  predicate HashFree(s: string) {
    s == "" || s[0] != '#'
  }

  /** A document that refers somewhere to its own root by a bare `#`. */
  ghost predicate HoldsBare(d: Document) {
    "#" in RefsOf(Object(d.root)) || exists k :: k in d.defs && "#" in RefsOf(d.defs[k])
  }

  /** A reference of a form the linker knows: to the root, to a definition that is there, to the anchor, or to another document as a whole or by definition. */
  ghost predicate Known(l: Linkage, h: Home, r: string)
    requires IsHome(l, h)
  {
    var d := HomeDoc(l, h);
    || (r == "#" && (h.Own? || HoldsBare(d)))
    || (d.anchor.Some? && r == "#" + d.anchor.value)
    || (DEFS <= r && r[|DEFS|..] in d.defs)
    || (HashFree(r) && forall o :: o in l.owners && Base(r) == Identity(o) ==>
          r == Identity(o) || (Identity(o) + DEFS <= r && r[|Identity(o) + DEFS|..] in o.doc.defs))
  }

  /** A text that reads like a reference to one of the documents involved. */
  ghost predicate Spelled(l: Linkage, h: Home, s: string)
    requires IsHome(l, h)
  {
    || Base(s) in Ids(l.owners)
    || (h.Of? && (DEFS <= s || (HomeDoc(l, h).anchor.Some? && s == "#" + HomeDoc(l, h).anchor.value)))
  }

  ghost predicate Clean(l: Linkage, h: Home, j: Json)
    requires IsHome(l, h)
  {
    && (forall r :: r in RefsOf(j) ==> Known(l, h, r))
    && (forall s :: s in TextsOf(j) ==> !Spelled(l, h, s))
  }

  ghost predicate CleanHome(l: Linkage, h: Home)
    requires IsHome(l, h)
  {
    && (forall k :: k in HomeDoc(l, h).defs ==> Clean(l, h, HomeDoc(l, h).defs[k]))
    && Clean(l, h, Object(HomeDoc(l, h).root))
  }

  ghost predicate Linkable(l: Linkage) {
    IdsOk(l) && NamesOk(l) && forall h :: IsHome(l, h) ==> CleanHome(l, h)
  }

  // How the replacements act on one text.

  lemma BaseOfId(id: string, rest: string)
    requires PlainId(id) && (rest == "" || rest[0] == '#')
    ensures Base(id + rest) == id
  {
    BaseOfSum(id, rest);
  }

  lemma OtherStays(o: Owner, s: string)
    requires PlainId(Identity(o)) && Base(s) != Identity(o)
    ensures Redirect(o, s) == s
  {
    var id := Identity(o);
    if id + DEFS <= s {
      assert s == id + s[|id|..];
      BaseOfId(id, s[|id|..]);
    }
    if s == id {
      assert id + "" == id;
      BaseOfId(id, "");
    }
  }

  /** A text based on no owner's identity is left alone. */
  lemma {:induction false} OthersStay(owners: seq<Owner>, s: string)
    requires forall o :: o in owners ==> PlainId(Identity(o))
    requires Base(s) !in Ids(owners)
    ensures RedirectAll(owners, s) == s
  {
    hide Redirect, PlainId, Base, Identity;
    if owners != [] {
      var before, o := owners[..|owners| - 1], owners[|owners| - 1];
      assert forall b :: b in before ==> b in owners;
      assert Identity(o) in Ids(owners);
      OthersStay(before, s);
      OtherStays(o, s);
    }
  }

  /** Where an owner's reference goes: a definition to its prefixed name, the whole document to the prefixed root. */
  function Aim(o: Owner, r: string): string {
    if r == Identity(o) then DEFS + o.prefix + "Root"
    else if Identity(o) + DEFS <= r then DEFS + o.prefix + r[|Identity(o) + DEFS|..]
    else r
  }

  lemma RedirectAims(o: Owner, r: string)
    requires PlainId(Identity(o)) && Base(r) == Identity(o)
    ensures Redirect(o, r) == Aim(o, r)
  {
    var id := Identity(o);
    if id + DEFS <= r {
      assert (DEFS + o.prefix)[0] == '#' && id[0] != '#';
    }
  }

  lemma AimIsLocal(o: Owner, r: string)
    requires Aim(o, r) != r
    ensures Aim(o, r)[0] == '#' && Base(Aim(o, r)) == ""
  {
  }

  lemma IdsBefore(owners: seq<Owner>)
    requires GoodIds(owners) && owners != []
    ensures GoodIds(owners[..|owners| - 1])
    ensures Identity(owners[|owners| - 1]) !in Ids(owners[..|owners| - 1])
  {
    hide Identity, PlainId;
    assert forall b :: b in owners[..|owners| - 1] ==> b in owners;
  }

  lemma PlainIds(owners: seq<Owner>)
    requires GoodIds(owners)
    ensures forall o :: o in owners ==> PlainId(Identity(o)) && Identity(o) != ""
  {
  }

  lemma RedirectedByLast(owners: seq<Owner>, r: string)
    requires GoodIds(owners) && owners != [] && Base(r) == Identity(owners[|owners| - 1])
    ensures RedirectAll(owners, r) == Aim(owners[|owners| - 1], r)
  {
    hide Redirect, Aim, Base, Identity, PlainId, GoodIds, Ids;
    IdsBefore(owners);
    PlainIds(owners);
    PlainIds(owners[..|owners| - 1]);
    OthersStay(owners[..|owners| - 1], r);
    RedirectAims(owners[|owners| - 1], r);
  }

  lemma {:induction false} OwnerIsRedirected(owners: seq<Owner>, i: nat, r: string)
    requires GoodIds(owners)
    requires i < |owners| && Base(r) == Identity(owners[i]) && Aim(owners[i], r) != r
    ensures RedirectAll(owners, r) == Aim(owners[i], r)
  {
    hide Redirect, Aim, Base, Identity, PlainId, GoodIds, Ids;
    var last := |owners| - 1;
    if i == last {
      RedirectedByLast(owners, r);
    } else {
      IdsBefore(owners);
      PlainIds(owners);
      OwnerIsRedirected(owners[..last], i, r);
      AimIsLocal(owners[i], r);
      OtherStays(owners[last], Aim(owners[i], r));
    }
  }

  // What is found under each name of the linked document.

  lemma {:induction false} CopiedIsFound(owners: seq<Owner>, i: nat, k: string)
    requires forall a, b :: 0 <= a < b < |owners| ==> Copied(owners[a]).Keys !! Copied(owners[b]).Keys
    requires i < |owners| && k in Copied(owners[i])
    ensures k in CopiedAll(owners) && CopiedAll(owners)[k] == Copied(owners[i])[k]
  {
    hide Copied;
    var last := |owners| - 1;
    if i < last {
      CopiedIsFound(owners[..last], i, k);
      assert owners[..last][i] == owners[i];
      assert k !in Copied(owners[last]);
    }
  }

  lemma CopyOfDefinition(o: Owner, name: string)
    requires "Root" !in o.doc.defs && name in o.doc.defs
    ensures o.prefix + name in Copied(o) && Copied(o)[o.prefix + name] == MapTexts(Localizing(o), o.doc.defs[name])
  {
    assert (o.prefix + name)[|o.prefix|..] == name;
    assert o.prefix + name in Prefixed(o);
  }

  lemma CopyOfRoot(o: Owner)
    requires "Root" !in o.doc.defs
    ensures o.prefix + "Root" in Copied(o) && Copied(o)[o.prefix + "Root"] == MapTexts(Localizing(o), Object(o.doc.root))
  {
    assert (o.prefix + "Root")[|o.prefix|..] == "Root";
    assert MapTexts(Localizing(o), Object(o.doc.root)) == Object(MapDefs(Localizing(o), o.doc.root));
  }

  lemma OutOfOwner(l: Linkage, i: nat, k: string, j: Json)
    requires NamesOk(l) && i < |l.owners|
    requires k in Copied(l.owners[i]) && Copied(l.owners[i])[k] == MapTexts(Localizing(l.owners[i]), j)
    ensures k in Out(l).defs && Out(l).defs[k] == MapTexts(Rewriting(l, Of(i)), j)
  {
    hide Copied, MapTexts, RedirectAll, Localize;
    CopiedIsFound(l.owners, i, k);
    assert k !in l.input.defs;
    MapTwice(Localizing(l.owners[i]), RedirectingAll(l.owners), Rewriting(l, Of(i)), j);
  }

  lemma OutOfInput(l: Linkage, k: string)
    requires k in l.input.defs
    ensures k in Out(l).defs && Out(l).defs[k] == MapTexts(Rewriting(l, Own), l.input.defs[k])
  {
    hide Copied, MapTexts, RedirectAll;
    SameMap(RedirectingAll(l.owners), Rewriting(l, Own), l.input.defs[k]);
  }

  lemma RootOfInput(l: Linkage)
    ensures Object(Out(l).root) == MapTexts(Rewriting(l, Own), Object(l.input.root))
  {
    hide Copied, RedirectAll;
    var j := Object(l.input.root);
    SameMap(RedirectingAll(l.owners), Rewriting(l, Own), j);
    assert MapTexts(RedirectingAll(l.owners), j) == Object(MapDefs(RedirectingAll(l.owners), l.input.root));
  }

  lemma SameMap(f: string -> string, g: string -> string, j: Json)
    requires forall s :: f(s) == g(s)
    ensures MapTexts(f, j) == MapTexts(g, j)
  {
    var identity := (s: string) => s;
    MapTwice(identity, f, g, j);
    MapNothing(identity, j);
  }

  // Where references lead.

  lemma AnchorStays(l: Linkage)
    requires IdsOk(l)
    ensures Out(l).anchor == l.input.anchor
  {
    hide Copied, MapDefs;
    if l.input.anchor.Some? {
      PlainIds(l.owners);
      OthersStay(l.owners, l.input.anchor.value);
    }
  }

  /** A definition name of a document whose anchor is plain is found by its local reference. */
  lemma LocalResolves(world: World, d: Document, k: string)
    requires PlainAnchor(d) && k in d.defs
    ensures Resolve(world, d, DEFS + k) == Some(Place(d, d.defs[k]))
  {
    assert (DEFS + k)[1] == '/';
    assert (DEFS + k)[|DEFS|..] == k;
    if d.anchor.Some? {
      assert ("#" + d.anchor.value)[1] == d.anchor.value[0];
    }
  }

  /** Both sides denote the same place: a body, and that body rewritten. */
  ghost predicate SamePlace(l: Linkage, a: Option<Place>, b: Option<Place>, h: Home) {
    && IsHome(l, h) && a.Some? && b.Some?
    && a.value.home == HomeDoc(l, h)
    && b.value == Place(Out(l), MapTexts(Rewriting(l, h), a.value.body))
    && Clean(l, h, a.value.body)
  }

  /** A reference denotes the same place before linking and, rewritten, after; or it is untouched and leads out of the link. */
  ghost predicate Corresponds(l: Linkage, h: Home, r: string)
    requires IsHome(l, h)
  {
    var a, b := Resolve(l.world, HomeDoc(l, h), r), Resolve(l.world, Out(l), Rewrite(l, h, r));
    (a == b && Rewrite(l, h, r) == r) || exists h' :: SamePlace(l, a, b, h')
  }

  lemma HashStays(l: Linkage, s: string)
    requires IdsOk(l) && s != "" && s[0] == '#'
    ensures RedirectAll(l.owners, s) == s
  {
    PlainIds(l.owners);
    OthersStay(l.owners, s);
  }

  lemma PlainHome(l: Linkage, h: Home)
    requires IdsOk(l) && IsHome(l, h)
    ensures PlainAnchor(HomeDoc(l, h))
  {
  }

  /** What a name of a part is called in the linked document. */
  function Renamed(l: Linkage, h: Home, name: string): string
    requires IsHome(l, h)
  {
    if h.Own? then name else l.owners[h.i].prefix + name
  }

  lemma LocalTextIsRenamed(l: Linkage, h: Home, name: string)
    requires IdsOk(l) && IsHome(l, h)
    ensures Rewrite(l, h, DEFS + name) == DEFS + Renamed(l, h, name)
  {
    hide IdsOk, Renamed, Out;
    HashStays(l, DEFS + Renamed(l, h, name));
    if h.Of? {
      PlainHome(l, h);
      LocalizesDefinition(l.owners[h.i], name);
    }
    assert Renamed(l, h, name) == if h.Own? then name else l.owners[h.i].prefix + name by {
      RenamedIs(l, h, name);
    }
  }

  lemma RenamedIs(l: Linkage, h: Home, name: string)
    requires IsHome(l, h)
    ensures Renamed(l, h, name) == if h.Own? then name else l.owners[h.i].prefix + name
  {
  }

  lemma LocalizesDefinition(o: Owner, name: string)
    requires PlainAnchor(o.doc)
    ensures Localize(o, DEFS + name) == DEFS + (o.prefix + name)
  {
    assert (DEFS + name)[|DEFS|..] == name;
    assert DEFS + o.prefix + name == DEFS + (o.prefix + name);
    assert (DEFS + o.prefix + name)[1] == '/';
    if o.doc.anchor.Some? {
      assert ("#" + o.doc.anchor.value)[1] == o.doc.anchor.value[0];
    }
  }

  lemma DefinitionIsOut(l: Linkage, h: Home, name: string)
    requires Linkable(l) && IsHome(l, h) && name in HomeDoc(l, h).defs
    ensures var k := Renamed(l, h, name);
            && k in Out(l).defs
            && Out(l).defs[k] == MapTexts(Rewriting(l, h), HomeDoc(l, h).defs[name])
    ensures Clean(l, h, HomeDoc(l, h).defs[name])
  {
    hide Out, Copied, IdsOk, Clean, Rewriting, MapTexts;
    assert CleanHome(l, h);
    if h.Own? {
      OutOfInput(l, name);
    } else {
      CopyOfDefinition(l.owners[h.i], name);
      OutOfOwner(l, h.i, l.owners[h.i].prefix + name, l.owners[h.i].doc.defs[name]);
    }
  }

  /** The definition `name` of a part, reached by the linked document's own reference to it. */
  lemma DefinitionCorresponds(l: Linkage, h: Home, name: string)
    requires Linkable(l) && IsHome(l, h) && name in HomeDoc(l, h).defs
    ensures var b := Resolve(l.world, Out(l), DEFS + Renamed(l, h, name));
            SamePlace(l, Some(Place(HomeDoc(l, h), HomeDoc(l, h).defs[name])), b, h)
  {
    hide IdsOk, NamesOk, CleanHome, Out, Clean, Rewriting, MapTexts, Resolve;
    DefinitionIsOut(l, h, name);
    AnchorStays(l);
    OutIsPlain(l);
    LocalResolves(l.world, Out(l), Renamed(l, h, name));
  }

  lemma OutIsPlain(l: Linkage)
    requires IdsOk(l)
    ensures PlainAnchor(Out(l))
  {
    hide Out;
    AnchorStays(l);
  }

  /** The root of an owner, reached by the linked document's reference to its copy. */
  lemma RootCorresponds(l: Linkage, i: nat)
    requires Linkable(l) && i < |l.owners|
    ensures var o := l.owners[i]; var b := Resolve(l.world, Out(l), DEFS + o.prefix + "Root");
            SamePlace(l, Some(Place(o.doc, Object(o.doc.root))), b, Of(i))
  {
    hide IdsOk, Out, Clean, Rewriting, MapTexts, Resolve, Copied;
    var o := l.owners[i];
    assert CleanHome(l, Of(i));
    CopyOfRoot(o);
    OutOfOwner(l, i, o.prefix + "Root", Object(o.doc.root));
    OutIsPlain(l);
    LocalResolves(l.world, Out(l), o.prefix + "Root");
    assert DEFS + (o.prefix + "Root") == DEFS + o.prefix + "Root";
  }

  lemma LocalReferenceCorresponds(l: Linkage, h: Home, r: string)
    requires Linkable(l) && IsHome(l, h) && DEFS <= r && r[|DEFS|..] in HomeDoc(l, h).defs
    ensures Corresponds(l, h, r)
  {
    hide NamesOk, CleanHome, Out, SamePlace, Resolve, Rewrite, Renamed;
    var name := r[|DEFS|..];
    assert r == DEFS + name;
    PlainHome(l, h);
    LocalResolves(l.world, HomeDoc(l, h), name);
    LocalTextIsRenamed(l, h, name);
    DefinitionCorresponds(l, h, name);
  }

  /** The document's own root, by `#` or by its anchor. */
  lemma OwnRootCorresponds(l: Linkage, r: string)
    requires Linkable(l) && (r == "#" || (l.input.anchor.Some? && r == "#" + l.input.anchor.value))
    ensures Corresponds(l, Own, r)
  {
    assert CleanHome(l, Own);
    hide NamesOk, CleanHome, Out, Clean, MapTexts, Rewriting;
    HashStays(l, r);
    AnchorStays(l);
    RootOfInput(l);
    var a, b := Resolve(l.world, l.input, r), Resolve(l.world, Out(l), Rewrite(l, Own, r));
    assert SamePlace(l, a, b, Own);
  }

  lemma AnchorResolves(world: World, d: Document, r: string)
    requires d.anchor.Some? && r == "#" + d.anchor.value
    ensures Resolve(world, d, r) == Some(Place(d, Object(d.root)))
  {
  }

  lemma AnchorIsRewritten(l: Linkage, i: nat, r: string)
    requires IdsOk(l) && i < |l.owners|
    requires l.owners[i].doc.anchor.Some? && r == "#" + l.owners[i].doc.anchor.value
    ensures Rewrite(l, Of(i), r) == DEFS + l.owners[i].prefix + "Root"
  {
    var o := l.owners[i];
    PlainHome(l, Of(i));
    assert r[1] == o.doc.anchor.value[0];
    HashStays(l, DEFS + o.prefix + "Root");
    hide RedirectAll, IdsOk;
  }

  /** An owner's own anchor leads to the copy of its root. */
  lemma OwnerAnchorCorresponds(l: Linkage, i: nat, r: string)
    requires Linkable(l) && i < |l.owners|
    requires l.owners[i].doc.anchor.Some? && r == "#" + l.owners[i].doc.anchor.value
    ensures Corresponds(l, Of(i), r)
  {
    LinkableIds(l);
    hide Linkable, IdsOk, Out, Rewrite, Resolve, SamePlace;
    AnchorResolves(l.world, l.owners[i].doc, r);
    AnchorIsRewritten(l, i, r);
    RootCorresponds(l, i);
  }

  lemma HashFreeIsNotLocal(o: Owner, r: string)
    requires HashFree(r)
    ensures Localize(o, r) == r
  {
  }

  /** A reference to an owner as a document. */
  lemma OwnerReferenceResolves(l: Linkage, home: Document, o: Owner, r: string)
    requires IdsOk(l) && o in l.owners && HashFree(r) && Base(r) == Identity(o)
    ensures r == Identity(o) ==> Resolve(l.world, home, r) == Some(Place(o.doc, Object(o.doc.root)))
    ensures Identity(o) + DEFS <= r && r[|Identity(o) + DEFS|..] in o.doc.defs ==>
              Resolve(l.world, home, r) == Some(Place(o.doc, o.doc.defs[r[|Identity(o) + DEFS|..]]))
  {
    var id := Identity(o);
    if id + DEFS <= r {
      var fragment := r[|id|..];
      assert fragment[..|DEFS|] == DEFS;
      assert fragment[|DEFS|..] == r[|id + DEFS|..];
    }
  }

  lemma RewriteOfHashFree(l: Linkage, h: Home, r: string)
    requires IsHome(l, h) && HashFree(r)
    ensures Rewrite(l, h, r) == RedirectAll(l.owners, r)
  {
    hide RedirectAll, Localize;
    if h.Of? {
      HashFreeIsNotLocal(l.owners[h.i], r);
    }
  }

  lemma OwnerRootReferenceCorresponds(l: Linkage, h: Home, i: nat, r: string)
    requires Linkable(l) && IsHome(l, h) && i < |l.owners|
    requires HashFree(r) && Base(r) == Identity(l.owners[i]) == r
    ensures Corresponds(l, h, r)
  {
    var o := l.owners[i];
    LinkableIds(l);
    RootCorresponds(l, i);
    hide Linkable, Out, SamePlace, Resolve, Rewrite, Identity, Base, RedirectAll, HashFree, HomeDoc;
    OwnerReferenceResolves(l, HomeDoc(l, h), o, r);
    RewriteOfHashFree(l, h, r);
    AimMoves(o, r);
    OwnerIsRedirected(l.owners, i, r);
    assert Rewrite(l, h, r) == DEFS + o.prefix + "Root";
  }

  lemma RewriteOfOwnerReference(l: Linkage, h: Home, i: nat, r: string)
    requires IdsOk(l) && IsHome(l, h) && i < |l.owners|
    requires HashFree(r) && Base(r) == Identity(l.owners[i])
    requires r == Identity(l.owners[i]) || Identity(l.owners[i]) + DEFS <= r
    ensures Rewrite(l, h, r) == Aim(l.owners[i], r)
  {
    hide Identity, Base, RedirectAll, HashFree, Rewrite, Aim, Ids, PlainId;
    RewriteOfHashFree(l, h, r);
    AimMoves(l.owners[i], r);
    OwnerIsRedirected(l.owners, i, r);
  }

  lemma AimOfDefinition(o: Owner, r: string, name: string)
    requires Identity(o) + DEFS <= r && r[|Identity(o) + DEFS|..] == name
    ensures Aim(o, r) == DEFS + (o.prefix + name)
  {
    assert DEFS + (o.prefix + name) == DEFS + o.prefix + name;
  }

  lemma OwnerDefinitionReferenceCorresponds(l: Linkage, h: Home, i: nat, r: string, name: string)
    requires Linkable(l) && IsHome(l, h) && i < |l.owners|
    requires HashFree(r) && Base(r) == Identity(l.owners[i]) && name in l.owners[i].doc.defs
    requires Identity(l.owners[i]) + DEFS <= r && r[|Identity(l.owners[i]) + DEFS|..] == name
    ensures Corresponds(l, h, r)
  {
    hide Linkable, Out, SamePlace, Resolve, Rewrite, Identity, Base, HashFree, Renamed, Aim;
    var o := l.owners[i];
    LinkableIds(l);
    DefinitionCorresponds(l, Of(i), name);
    RenamedIs(l, Of(i), name);
    OwnerReferenceResolves(l, HomeDoc(l, h), o, r);
    RewriteOfOwnerReference(l, h, i, r);
    AimOfDefinition(o, r, name);
  }

  lemma AimMoves(o: Owner, r: string)
    requires HashFree(r) && (r == Identity(o) || Identity(o) + DEFS <= r)
    ensures Aim(o, r) != r
  {
    assert Aim(o, r)[0] == '#';
  }

  lemma OtherReferenceCorresponds(l: Linkage, h: Home, r: string)
    requires IdsOk(l) && IsHome(l, h) && HashFree(r) && Base(r) !in Ids(l.owners)
    ensures Corresponds(l, h, r)
  {
    hide Out, SamePlace, Base, Rewrite, RedirectAll;
    RewriteOfHashFree(l, h, r);
    PlainIds(l.owners);
    OthersStay(l.owners, r);
  }

  lemma KnownCorresponds(l: Linkage, h: Home, r: string)
    requires Linkable(l) && IsHome(l, h) && Known(l, h, r) && (h.Own? || r != "#")
    ensures Corresponds(l, h, r)
  {
    hide Linkable, Out, Corresponds, Base, Identity;
    if HashFree(r) {
      if Base(r) in Ids(l.owners) {
        var o :| o in l.owners && Base(r) == Identity(o);
        var i :| 0 <= i < |l.owners| && l.owners[i] == o;
        if r == Identity(o) {
          OwnerRootReferenceCorresponds(l, h, i, r);
        } else {
          OwnerDefinitionReferenceCorresponds(l, h, i, r, r[|Identity(o) + DEFS|..]);
        }
      } else {
        assert IdsOk(l) by { LinkableIds(l); }
        OtherReferenceCorresponds(l, h, r);
      }
    } else if DEFS <= r && r[|DEFS|..] in HomeDoc(l, h).defs {
      LocalReferenceCorresponds(l, h, r);
    } else if h.Own? {
      OwnRootCorresponds(l, r);
    } else {
      OwnerAnchorCorresponds(l, h.i, r);
    }
  }

  lemma LinkableIds(l: Linkage)
    requires Linkable(l)
    ensures IdsOk(l)
  {
  }

  // The main result.

  lemma UnspelledStays(l: Linkage, h: Home, s: string)
    requires IdsOk(l) && IsHome(l, h) && !Spelled(l, h, s)
    ensures Rewrite(l, h, s) == s
  {
    PlainIds(l.owners);
    OthersStay(l.owners, s);
  }

  /** Every owner that refers to its own root by a bare `#` has a root that unfolds as the document's does, to any smaller depth. */
  ghost predicate Alike(l: Linkage, depth: nat) {
    forall i, d :: 0 <= i < |l.owners| && HoldsBare(l.owners[i].doc) && 0 <= d < depth ==>
      Unfold(l.world, l.input, d, Object(l.input.root)) == Unfold(l.world, l.owners[i].doc, d, Object(l.owners[i].doc.root))
  }

  lemma AlikeBelow(l: Linkage, depth: nat, less: nat)
    requires Alike(l, depth) && less <= depth
    ensures Alike(l, less)
  {
    hide HoldsBare, Unfold;
  }

  lemma RootOpens(world: World, d: Document, depth: nat)
    ensures Open(world, d, 0, "#") == Cut
    ensures depth > 0 ==> Open(world, d, depth, "#") == Unfold(world, d, depth - 1, Object(d.root))
  {
  }

  lemma BareStays(l: Linkage, h: Home)
    requires IdsOk(l) && IsHome(l, h)
    ensures Rewrite(l, h, "#") == "#"
  {
    PlainHome(l, h);
    HashStays(l, "#");
  }

  lemma OwnRootIsClean(l: Linkage)
    requires Linkable(l)
    ensures Clean(l, Own, Object(l.input.root))
  {
    assert CleanHome(l, Own);
  }

  /** A bare `#` is left as it is, and opens the root of the linking document. */
  lemma {:induction false} BareOpensTheDocument(l: Linkage, h: Home, depth: nat)
    requires Linkable(l) && IsHome(l, h) && (depth > 0 ==> Alike(l, depth - 1))
    ensures Open(l.world, Out(l), depth, Rewrite(l, h, "#")) == Open(l.world, l.input, depth, "#")
    decreases depth, 0
  {
    LinkableIds(l);
    hide Linkable, IdsOk, Out, Rewrite, Open, Unfold, MapTexts, Rewriting, Alike, Clean, Resolve, Rewriting;
    BareStays(l, h);
    RootOpens(l.world, Out(l), depth);
    RootOpens(l.world, l.input, depth);
    if depth > 0 {
      OwnRootIsClean(l);
      RootOfInput(l);
      UnfoldsTheSame(l, Own, depth - 1, Object(l.input.root));
    }
  }

  lemma {:induction false} BareOpensTheSame(l: Linkage, h: Home, depth: nat)
    requires Linkable(l) && Alike(l, depth) && IsHome(l, h) && Known(l, h, "#")
    ensures Open(l.world, Out(l), depth, Rewrite(l, h, "#")) == Open(l.world, HomeDoc(l, h), depth, "#")
    decreases depth, 1
  {
    if h.Of? {
      BareIsHeld(l, h.i);
      RootOpens(l.world, HomeDoc(l, h), depth);
      RootOpens(l.world, l.input, depth);
    }
    hide Linkable, Out, Rewrite, Open, Unfold;
    BareOpensTheDocument(l, h, depth);
  }

  lemma BareIsHeld(l: Linkage, i: nat)
    requires IdsOk(l) && i < |l.owners| && Known(l, Of(i), "#")
    ensures HoldsBare(l.owners[i].doc)
  {
    PlainHome(l, Of(i));
    hide HoldsBare;
    assert |"#"| == 1;
  }

  lemma {:induction false} OpensTheSame(l: Linkage, h: Home, depth: nat, r: string)
    requires Linkable(l) && Alike(l, depth) && IsHome(l, h) && Known(l, h, r)
    ensures Open(l.world, Out(l), depth, Rewrite(l, h, r)) == Open(l.world, HomeDoc(l, h), depth, r)
    decreases depth, 2
  {
    if r == "#" {
      hide Linkable, Alike, Known, Out, Open, Rewrite;
      BareOpensTheSame(l, h, depth);
    } else {
      hide Linkable, Known, Out, Rewrite, Resolve, Clean, MapTexts, Rewriting, Alike, Open, Unfold, HomeDoc;
      KnownCorresponds(l, h, r);
      var a, b := Resolve(l.world, HomeDoc(l, h), r), Resolve(l.world, Out(l), Rewrite(l, h, r));
      if a == b && Rewrite(l, h, r) == r {
        SamePlaceOpensTheSame(l.world, HomeDoc(l, h), Out(l), depth, r);
      } else {
        var h' :| SamePlace(l, a, b, h');
        PlaceOpens(l.world, HomeDoc(l, h), depth, r);
        PlaceOpens(l.world, Out(l), depth, Rewrite(l, h, r));
        if depth > 0 {
          AlikeBelow(l, depth, depth - 1);
          UnfoldsTheSame(l, h', depth - 1, a.value.body);
        }
      }
    }
  }

  lemma PlaceOpens(world: World, d: Document, depth: nat, r: string)
    requires Resolve(world, d, r).Some?
    ensures var p := Resolve(world, d, r).value;
            Open(world, d, depth, r) == if depth == 0 then Cut else Unfold(world, p.home, depth - 1, p.body)
  {
    hide Resolve, Unfold;
  }

  lemma SamePlaceOpensTheSame(world: World, a: Document, b: Document, depth: nat, r: string)
    requires Resolve(world, a, r) == Resolve(world, b, r)
    ensures Open(world, a, depth, r) == Open(world, b, depth, r)
  {
    hide Resolve, Unfold;
  }

  lemma CleanParts(l: Linkage, h: Home, j: Json)
    requires IsHome(l, h) && Clean(l, h, j)
    ensures j.List? ==> forall x :: x in j.items ==> Clean(l, h, x)
    ensures j.Object? ==> forall k :: k in j.members ==>
              if IsRef(k, j.members[k]) then Known(l, h, j.members[k].s) else Clean(l, h, j.members[k])
  {
    hide Known, Spelled;
    match j
    case Object(m) =>
      forall k | k in m
        ensures if IsRef(k, m[k]) then Known(l, h, m[k].s) else Clean(l, h, m[k])
      {
        assert forall r :: r in RefsAt(k, m[k]) ==> r in RefsOf(j);
        if IsRef(k, m[k]) {
          assert m[k].s in RefsAt(k, m[k]);
        }
      }
    case _ =>
  }

  /** Linking preserves meaning: the rewritten part, unfolded in the linked document to any depth, is the part unfolded where it came from. */
  lemma {:induction false} UnfoldsTheSame(l: Linkage, h: Home, depth: nat, j: Json)
    requires Linkable(l) && Alike(l, depth) && IsHome(l, h) && Clean(l, h, j)
    ensures Unfold(l.world, Out(l), depth, MapTexts(Rewriting(l, h), j)) == Unfold(l.world, HomeDoc(l, h), depth, j)
    decreases depth, 3, j
  {
    CleanParts(l, h, j);
    MapByParts(Rewriting(l, h), j);
    match j
    case Text(s) =>
      assert s in TextsOf(j);
      LinkableIds(l);
      UnspelledStays(l, h, s);
    case List(items) =>
      hide Linkable, Alike, Known, Out, Rewriting, Clean, Unfold, MapTexts;
      forall i | 0 <= i < |items|
        ensures Unfold(l.world, Out(l), depth, MapTexts(Rewriting(l, h), items[i])) == Unfold(l.world, HomeDoc(l, h), depth, items[i])
      {
        UnfoldsTheSame(l, h, depth, items[i]);
      }
      UnfoldsByItems(l.world, depth, Out(l), MapTexts(Rewriting(l, h), j).items, HomeDoc(l, h), items);
    case Object(m) =>
      hide Linkable, Alike, Known, Out, Clean, Rewrite, Unfold, MapTexts;
      forall k | k in m
        ensures UnfoldMember(l.world, Out(l), depth, k, MapTexts(Rewriting(l, h), m[k])) == UnfoldMember(l.world, HomeDoc(l, h), depth, k, m[k])
      {
        MapOfText(Rewriting(l, h), m[k]);
        if IsRef(k, m[k]) {
          OpensTheSame(l, h, depth, m[k].s);
        } else {
          UnfoldsTheSame(l, h, depth, m[k]);
        }
      }
      UnfoldsByMembers(l.world, depth, Out(l), MapTexts(Rewriting(l, h), j).members, HomeDoc(l, h), m);
    case _ =>
  }

  // References to the own root.

  /** Every known reference of every part opens in the linked document as it did where it stood. */
  ghost predicate MeaningIsKept(l: Linkage, depth: nat) {
    forall h, d, r :: IsHome(l, h) && 0 <= d <= depth && Known(l, h, r) ==>
      Open(l.world, Out(l), d, Rewrite(l, h, r)) == Open(l.world, HomeDoc(l, h), d, r)
  }

  lemma KeptMeansAlike(l: Linkage, depth: nat, i: nat)
    requires Linkable(l) && MeaningIsKept(l, depth + 1) && Alike(l, depth) && i < |l.owners| && HoldsBare(l.owners[i].doc)
    ensures Unfold(l.world, l.input, depth, Object(l.input.root)) == Unfold(l.world, l.owners[i].doc, depth, Object(l.owners[i].doc.root))
  {
    assert IsHome(l, Of(i)) && Known(l, Of(i), "#") by {
      hide HoldsBare;
    }
    RootOpens(l.world, l.owners[i].doc, depth + 1);
    RootOpens(l.world, l.input, depth + 1);
    assert HomeDoc(l, Of(i)) == l.owners[i].doc;
    hide Linkable, Known, Out, Rewrite, Open, Unfold, Alike, HoldsBare;
    BareOpensTheDocument(l, Of(i), depth + 1);
  }

  lemma {:induction false} KeptIsAlike(l: Linkage, depth: nat)
    requires Linkable(l) && MeaningIsKept(l, depth)
    ensures Alike(l, depth)
  {
    hide Linkable, Known, Out, Rewrite, Open, Unfold, HoldsBare;
    if depth > 0 {
      KeptIsAlike(l, depth - 1);
      forall i | 0 <= i < |l.owners| && HoldsBare(l.owners[i].doc)
        ensures Unfold(l.world, l.input, depth - 1, Object(l.input.root)) == Unfold(l.world, l.owners[i].doc, depth - 1, Object(l.owners[i].doc.root))
      {
        KeptMeansAlike(l, depth - 1, i);
      }
    }
  }

  /** Linking preserves the meaning of every known reference, to a depth, exactly when each owner that refers to its own root by a bare `#` has a root that unfolds as the document's. */
  lemma MeaningIsKeptIff(l: Linkage, depth: nat)
    requires Linkable(l)
    ensures MeaningIsKept(l, depth) <==> Alike(l, depth)
  {
    if MeaningIsKept(l, depth) {
      KeptIsAlike(l, depth);
    }
    hide Linkable, Known, Out, Rewrite, Open, Alike;
    if Alike(l, depth) {
      forall h, d: nat, r | IsHome(l, h) && d <= depth && Known(l, h, r)
        ensures Open(l.world, Out(l), d, Rewrite(l, h, r)) == Open(l.world, HomeDoc(l, h), d, r)
      {
        AlikeBelow(l, depth, d);
        OpensTheSame(l, h, d, r);
      }
    }
  }
}
