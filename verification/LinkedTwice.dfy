/** What a linked document is fit for: no owner is left to resolve, and it can be linked again. */
module LinkedTwice {
  import opened Options
  import opened SchemaJson
  import opened OwnerLinking
  import opened LinkedMeaning

  /** What a known reference becomes: untouched and leading elsewhere, a name that is there, or the document's own root. */
  ghost predicate Settled(l: Linkage, h: Home, r: string, q: string)
    requires IsHome(l, h)
  {
    || (q == r && HashFree(r) && Base(r) !in Ids(l.owners))
    || (DEFS <= q && q[|DEFS|..] in Out(l).defs)
    || (q == r && q == "#")
    || (h.Own? && q == r && l.input.anchor.Some? && q == "#" + l.input.anchor.value)
  }

  lemma DefinitionIsSettled(l: Linkage, h: Home, name: string)
    requires Linkable(l) && IsHome(l, h) && name in HomeDoc(l, h).defs
    ensures Renamed(l, h, name) in Out(l).defs
  {
    hide Linkable, Out, Renamed;
    DefinitionIsOut(l, h, name);
  }

  lemma RootIsSettled(l: Linkage, i: nat)
    requires Linkable(l) && i < |l.owners|
    ensures l.owners[i].prefix + "Root" in Out(l).defs
  {
    hide Out, Copied, IdsOk, MapTexts, Rewriting;
    var o := l.owners[i];
    CopyOfRoot(o);
    OutOfOwner(l, i, o.prefix + "Root", Object(o.doc.root));
  }

  lemma NameSettles(l: Linkage, h: Home, r: string, k: string)
    requires IsHome(l, h) && k in Out(l).defs
    ensures Settled(l, h, r, DEFS + k)
  {
    hide Out;
    assert (DEFS + k)[|DEFS|..] == k;
  }

  lemma OwnerReferenceSettles(l: Linkage, h: Home, i: nat, r: string)
    requires Linkable(l) && IsHome(l, h) && i < |l.owners| && HashFree(r) && Base(r) == Identity(l.owners[i])
    requires var o := l.owners[i]; r == Identity(o) || (Identity(o) + DEFS <= r && r[|Identity(o) + DEFS|..] in o.doc.defs)
    ensures Settled(l, h, r, Rewrite(l, h, r))
  {
    var o := l.owners[i];
    LinkableIds(l);
    hide Linkable, Out, Rewrite, Identity, Base, Settled, HashFree, Renamed, Aim;
    RewriteOfOwnerReference(l, h, i, r);
    if r == Identity(o) {
      RootIsSettled(l, i);
      NameSettles(l, h, r, o.prefix + "Root");
      AimOfRoot(o);
    } else {
      var name := r[|Identity(o) + DEFS|..];
      AimOfDefinition(o, r, name);
      DefinitionIsSettled(l, Of(i), name);
      RenamedIs(l, Of(i), name);
      NameSettles(l, h, r, o.prefix + name);
    }
  }

  lemma AimOfRoot(o: Owner)
    ensures Aim(o, Identity(o)) == DEFS + (o.prefix + "Root")
  {
    assert DEFS + o.prefix + "Root" == DEFS + (o.prefix + "Root");
  }

  lemma LocalizesAnchor(o: Owner)
    requires PlainAnchor(o.doc) && o.doc.anchor.Some?
    ensures Localize(o, "#" + o.doc.anchor.value) == DEFS + (o.prefix + "Root")
  {
    var r := "#" + o.doc.anchor.value;
    assert r[1] == o.doc.anchor.value[0];
    assert DEFS + o.prefix + "Root" == DEFS + (o.prefix + "Root");
  }

  lemma OtherReferenceSettles(l: Linkage, h: Home, r: string)
    requires IdsOk(l) && IsHome(l, h) && HashFree(r) && Base(r) !in Ids(l.owners)
    ensures Settled(l, h, r, Rewrite(l, h, r))
  {
    hide Out, Base, Identity, Rewrite;
    RewriteOfHashFree(l, h, r);
    PlainIds(l.owners);
    OthersStay(l.owners, r);
  }

  lemma LocalReferenceSettles(l: Linkage, h: Home, r: string)
    requires Linkable(l) && IsHome(l, h) && DEFS <= r && r[|DEFS|..] in HomeDoc(l, h).defs
    ensures Settled(l, h, r, Rewrite(l, h, r))
  {
    LinkableIds(l);
    hide Linkable, Out, Rewrite, Renamed, Settled;
    var name := r[|DEFS|..];
    assert r == DEFS + name;
    LocalTextIsRenamed(l, h, name);
    DefinitionIsSettled(l, h, name);
    NameSettles(l, h, r, Renamed(l, h, name));
  }

  lemma BareSettles(l: Linkage, h: Home)
    requires IdsOk(l) && IsHome(l, h)
    ensures Settled(l, h, "#", Rewrite(l, h, "#"))
  {
    hide Out;
    BareStays(l, h);
  }

  lemma OwnAnchorSettles(l: Linkage, r: string)
    requires IdsOk(l) && l.input.anchor.Some? && r == "#" + l.input.anchor.value
    ensures Settled(l, Own, r, Rewrite(l, Own, r))
  {
    hide Out;
    HashStays(l, r);
  }

  lemma OwnerAnchorSettles(l: Linkage, i: nat, r: string)
    requires Linkable(l) && i < |l.owners|
    requires l.owners[i].doc.anchor.Some? && r == "#" + l.owners[i].doc.anchor.value
    ensures Settled(l, Of(i), r, Rewrite(l, Of(i), r))
  {
    LinkableIds(l);
    hide Linkable, Out, Settled, Localize, RedirectAll;
    var o := l.owners[i];
    PlainHome(l, Of(i));
    LocalizesAnchor(o);
    RootIsSettled(l, i);
    NameSettles(l, Of(i), r, o.prefix + "Root");
    StartsWithHash(o.prefix + "Root");
    HashStays(l, DEFS + (o.prefix + "Root"));
  }

  lemma StartsWithHash(k: string)
    ensures (DEFS + k) != "" && (DEFS + k)[0] == '#'
  {
  }

  lemma OwnerOfReference(l: Linkage, h: Home, r: string) returns (i: nat)
    requires IsHome(l, h) && Known(l, h, r) && HashFree(r) && Base(r) in Ids(l.owners)
    ensures i < |l.owners| && Base(r) == Identity(l.owners[i])
    ensures var o := l.owners[i]; r == Identity(o) || (Identity(o) + DEFS <= r && r[|Identity(o) + DEFS|..] in o.doc.defs)
  {
    hide Identity, Base;
    var o :| o in l.owners && Base(r) == Identity(o);
    i :| 0 <= i < |l.owners| && l.owners[i] == o;
  }

  lemma HashFreeSettles(l: Linkage, h: Home, r: string)
    requires Linkable(l) && IsHome(l, h) && Known(l, h, r) && HashFree(r)
    ensures Settled(l, h, r, Rewrite(l, h, r))
  {
    LinkableIds(l);
    hide Linkable, Out, Rewrite, Base, Identity, Settled, HashFree, IdsOk, Known;
    if Base(r) in Ids(l.owners) {
      var i := OwnerOfReference(l, h, r);
      OwnerReferenceSettles(l, h, i, r);
    } else {
      OtherReferenceSettles(l, h, r);
    }
  }

  lemma KnownSettles(l: Linkage, h: Home, r: string)
    requires Linkable(l) && IsHome(l, h) && Known(l, h, r)
    ensures Settled(l, h, r, Rewrite(l, h, r))
  {
    LinkableIds(l);
    hide Linkable, Out, Rewrite, Base, Identity, Settled, HashFree, IdsOk;
    if r == "#" {
      BareSettles(l, h);
    } else if HashFree(r) {
      HashFreeSettles(l, h, r);
    } else if DEFS <= r && r[|DEFS|..] in HomeDoc(l, h).defs {
      LocalReferenceSettles(l, h, r);
    } else if h.Own? {
      OwnAnchorSettles(l, r);
    } else {
      OwnerAnchorSettles(l, h.i, r);
    }
  }

  /** A part of the linked document: a body that was clean where it stood, rewritten. */
  ghost predicate IsPart(l: Linkage, h: Home, body: Json, j: Json) {
    IsHome(l, h) && Clean(l, h, body) && j == MapTexts(Rewriting(l, h), body)
    && ((exists name :: name in HomeDoc(l, h).defs && body == HomeDoc(l, h).defs[name]) || body == Object(HomeDoc(l, h).root))
  }

  lemma {:induction false} CopiedFrom(owners: seq<Owner>, k: string) returns (i: nat)
    requires k in CopiedAll(owners)
    ensures i < |owners| && k in Copied(owners[i])
  {
    hide Copied;
    var last := |owners| - 1;
    if k in Copied(owners[last]) {
      i := last;
    } else {
      i := CopiedFrom(owners[..last], k);
    }
  }

  lemma NamesOfCopied(o: Owner, k: string)
    requires k in Copied(o)
    ensures k == o.prefix + "Root" || (o.prefix <= k && k[|o.prefix|..] in o.doc.defs && k == o.prefix + k[|o.prefix|..])
  {
  }

  lemma DefinitionOfInput(l: Linkage, k: string)
    requires Linkable(l) && k in l.input.defs
    ensures k in Out(l).defs && IsPart(l, Own, l.input.defs[k], Out(l).defs[k])
  {
    assert CleanHome(l, Own);
    hide Linkable, Out, Clean, MapTexts, Rewriting;
    OutOfInput(l, k);
  }

  lemma DefinitionOfOwner(l: Linkage, i: nat, k: string, body: Json)
    requires Linkable(l) && i < |l.owners|
    requires k in Copied(l.owners[i]) && Copied(l.owners[i])[k] == MapTexts(Localizing(l.owners[i]), body)
    requires (exists name :: name in l.owners[i].doc.defs && body == l.owners[i].doc.defs[name]) || body == Object(l.owners[i].doc.root)
    ensures k in Out(l).defs && IsPart(l, Of(i), body, Out(l).defs[k])
  {
    assert CleanHome(l, Of(i));
    LinkableNames(l);
    hide Linkable, Out, Clean, MapTexts, Rewriting, Copied, NamesOk;
    OutOfOwner(l, i, k, body);
  }

  /** Every definition of the linked document is such a part. */
  lemma DefinitionIsPart(l: Linkage, k: string) returns (h: Home, body: Json)
    requires Linkable(l) && k in Out(l).defs
    ensures IsPart(l, h, body, Out(l).defs[k])
  {
    if k in l.input.defs {
      hide Linkable, Out, IsPart;
      h, body := Own, l.input.defs[k];
      DefinitionOfInput(l, k);
    } else {
      LinkableNames(l);
      hide Linkable, Out, IsPart, Copied, MapTexts;
      var i := OwnerOfName(l, k);
      var o := l.owners[i];
      h := Of(i);
      NamesOfCopied(o, k);
      RootIsFree(l, o);
      if k == o.prefix + "Root" {
        body := Object(o.doc.root);
        CopyOfRoot(o);
      } else {
        body := o.doc.defs[k[|o.prefix|..]];
        CopyOfDefinition(o, k[|o.prefix|..]);
      }
      DefinitionOfOwner(l, i, k, body);
    }
  }

  lemma OwnerOfName(l: Linkage, k: string) returns (i: nat)
    requires k in Out(l).defs && k !in l.input.defs
    ensures i < |l.owners| && k in Copied(l.owners[i])
  {
    hide Copied;
    i := CopiedFrom(l.owners, k);
  }

  lemma RootIsFree(l: Linkage, o: Owner)
    requires NamesOk(l) && o in l.owners
    ensures "Root" !in o.doc.defs
  {
  }

  lemma LinkableNames(l: Linkage)
    requires Linkable(l)
    ensures NamesOk(l)
  {
  }

  lemma RootIsPart(l: Linkage)
    requires Linkable(l)
    ensures IsPart(l, Own, Object(l.input.root), Object(Out(l).root))
  {
    assert CleanHome(l, Own);
    hide NamesOk, IdsOk, Out, Clean;
    RootOfInput(l);
  }

  /** A reference of a part comes from a known reference and is settled. */
  lemma PartRefSettles(l: Linkage, h: Home, body: Json, j: Json, q: string) returns (r: string)
    requires Linkable(l) && IsPart(l, h, body, j) && q in RefsOf(j)
    ensures r in RefsOf(body) && q == Rewrite(l, h, r) && Settled(l, h, r, q)
  {
    hide Linkable, Known, Rewrite, Settled;
    r := RefsOfMap(Rewriting(l, h), body, q);
    KnownSettles(l, h, r);
  }

  lemma SettledIsNoOwner(l: Linkage, h: Home, r: string, q: string)
    requires IdsOk(l) && IsHome(l, h) && Settled(l, h, r, q)
    ensures Base(q) !in Ids(l.owners)
  {
    PlainIds(l.owners);
    hide Out;
  }

  /** No reference to a listed owner is left anywhere in the linked document. */
  lemma NoOwnerReferenceRemains(l: Linkage, q: string)
    requires Linkable(l)
    requires q in RefsOf(Object(Out(l).root)) || exists k :: k in Out(l).defs && q in RefsOf(Out(l).defs[k])
    ensures Base(q) !in Ids(l.owners)
  {
    LinkableIds(l);
    hide Linkable, Out, IsPart, Settled, RefsOf;
    if q in RefsOf(Object(Out(l).root)) {
      RootIsPart(l);
      var r := PartRefSettles(l, Own, Object(l.input.root), Object(Out(l).root), q);
      SettledIsNoOwner(l, Own, r, q);
    } else {
      var k :| k in Out(l).defs && q in RefsOf(Out(l).defs[k]);
      var h, body := DefinitionIsPart(l, k);
      var r := PartRefSettles(l, h, body, Out(l).defs[k], q);
      PartHome(l, h, body, Out(l).defs[k]);
      SettledIsNoOwner(l, h, r, q);
    }
  }

  lemma PartHome(l: Linkage, h: Home, body: Json, j: Json)
    requires IsPart(l, h, body, j)
    ensures IsHome(l, h)
  {
  }

  // Linking again.

  function Again(l: Linkage, more: seq<Owner>): Linkage {
    Linkage(Out(l), more, l.world)
  }

  /** Where a reference speaks of an owner of the second pass, it does so in a form that pass knows. */
  ghost predicate KnownAgain(more: seq<Owner>, r: string) {
    HashFree(r) ==> forall o :: o in more && Base(r) == Identity(o) ==>
      r == Identity(o) || (Identity(o) + DEFS <= r && r[|Identity(o) + DEFS|..] in o.doc.defs)
  }

  ghost predicate CleanAgain(l: Linkage, more: seq<Owner>, j: Json) {
    && (forall r :: r in RefsOf(j) ==> KnownAgain(more, r))
    && (forall s :: s in TextsOf(j) ==> Base(s) !in Ids(more))
  }

  /** The second pass has its own owners in order, and the documents of the first pass are clean for it. */
  ghost predicate Ready(l: Linkage, more: seq<Owner>) {
    && IdsOk(Again(l, more)) && NamesOk(Again(l, more))
    && (forall h: Home :: h.Of? && IsHome(Again(l, more), h) ==> CleanHome(Again(l, more), h))
    && (forall h :: IsHome(l, h) ==>
          && (forall k :: k in HomeDoc(l, h).defs ==> CleanAgain(l, more, HomeDoc(l, h).defs[k]))
          && CleanAgain(l, more, Object(HomeDoc(l, h).root)))
  }

  lemma SettledIsKnown(l: Linkage, more: seq<Owner>, h: Home, r: string, q: string)
    requires IdsOk(l) && IsHome(l, h) && Settled(l, h, r, q)
    requires KnownAgain(more, r)
    ensures Known(Again(l, more), Own, q)
  {
    AnchorStays(l);
    hide Out;
  }

  lemma PartIsClean(l: Linkage, more: seq<Owner>, h: Home, body: Json, j: Json)
    requires Linkable(l) && Ready(l, more) && IsPart(l, h, body, j)
    ensures Clean(Again(l, more), Own, j)
  {
    LinkableIds(l);
    assert IsHome(l, h) && CleanAgain(l, more, body) && Clean(l, h, body);
    hide Linkable, Ready, Out, Settled, Rewrite, Spelled, Known, KnownAgain;
    forall q | q in RefsOf(j)
      ensures Known(Again(l, more), Own, q)
    {
      var r := PartRefSettles(l, h, body, j, q);
      SettledIsKnown(l, more, h, r, q);
    }
    forall t | t in TextsOf(j)
      ensures !Spelled(Again(l, more), Own, t)
    {
      var s := TextsOfMap(Rewriting(l, h), body, t);
      UnspelledStays(l, h, s);
      NotSpelledAgain(l, more, s);
    }
  }

  lemma NotSpelledAgain(l: Linkage, more: seq<Owner>, s: string)
    requires Base(s) !in Ids(more)
    ensures !Spelled(Again(l, more), Own, s)
  {
    hide Out;
  }

  /** A linked document is linkable again: the second pass meets only references and texts it knows. */
  lemma SecondPassIsLinkable(l: Linkage, more: seq<Owner>)
    requires Linkable(l) && Ready(l, more)
    ensures Linkable(Again(l, more))
  {
    hide IdsOk, NamesOk, Out, IsPart, Clean;
    forall k | k in Out(l).defs
      ensures Clean(Again(l, more), Own, Out(l).defs[k])
    {
      var h, body := DefinitionIsPart(l, k);
      PartIsClean(l, more, h, body, Out(l).defs[k]);
    }
    RootIsPart(l);
    PartIsClean(l, more, Own, Object(l.input.root), Object(Out(l).root));
    assert CleanHome(Again(l, more), Own);
  }

  /** Meaning survives both passes: a reference rewritten twice opens, in the final document, to what it opened to at first, where the owners that refer to their own root are alike in either pass. */
  lemma OpensTheSameAfterBothPasses(l: Linkage, more: seq<Owner>, h: Home, r: string, depth: nat)
    requires Linkable(l) && Ready(l, more) && IsHome(l, h) && Known(l, h, r)
    requires KnownAgain(more, r) && Alike(l, depth) && Alike(Again(l, more), depth)
    ensures Open(l.world, Out(Again(l, more)), depth, Rewrite(Again(l, more), Own, Rewrite(l, h, r))) == Open(l.world, HomeDoc(l, h), depth, r)
  {
    LinkableIds(l);
    hide Linkable, Ready, KnownAgain, Out, Settled, Rewrite, Known, Open, Alike;
    SecondPassIsLinkable(l, more);
    KnownSettles(l, h, r);
    SettledIsKnown(l, more, h, r, Rewrite(l, h, r));
    OpensTheSame(l, h, depth, r);
    OpensTheSame(Again(l, more), Own, depth, Rewrite(l, h, r));
    assert l.world == Again(l, more).world && HomeDoc(Again(l, more), Own) == Out(l);
  }

  // What both passes leave of the first pass's owners.

  /** A reference anywhere in a document. */
  ghost predicate Refers(d: Document, q: string) {
    q in RefsOf(Object(d.root)) || exists k :: k in d.defs && q in RefsOf(d.defs[k])
  }

  lemma PartOfReference(l: Linkage, q: string) returns (h: Home, body: Json, r: string)
    requires Linkable(l) && Refers(Out(l), q)
    ensures IsHome(l, h) && r in RefsOf(body) && q == Rewrite(l, h, r) && Settled(l, h, r, q)
    ensures (exists name :: name in HomeDoc(l, h).defs && body == HomeDoc(l, h).defs[name]) || body == Object(HomeDoc(l, h).root)
  {
    hide Linkable, Out, IsPart, Settled, RefsOf, Rewrite;
    var j: Json;
    if q in RefsOf(Object(Out(l).root)) {
      RootIsPart(l);
      h, body, j := Own, Object(l.input.root), Object(Out(l).root);
    } else {
      var k :| k in Out(l).defs && q in RefsOf(Out(l).defs[k]);
      j := Out(l).defs[k];
      h, body := DefinitionIsPart(l, k);
    }
    r := PartRefSettles(l, h, body, j, q);
    PartIsOfHome(l, h, body, j);
  }

  lemma PartIsOfHome(l: Linkage, h: Home, body: Json, j: Json)
    requires IsPart(l, h, body, j)
    ensures IsHome(l, h)
    ensures (exists name :: name in HomeDoc(l, h).defs && body == HomeDoc(l, h).defs[name]) || body == Object(HomeDoc(l, h).root)
  {
    hide Clean, MapTexts;
  }

  /** A settled reference with an identity before its fragment was left as it is. */
  lemma BasedIsUntouched(l: Linkage, h: Home, r: string, q: string)
    requires IsHome(l, h) && Settled(l, h, r, q) && Base(q) != ""
    ensures q == r && Base(q) !in Ids(l.owners)
  {
    hide Out, Ids;
  }

  lemma BasedComesFromOwner(l: Linkage, more: seq<Owner>, q: string)
    requires Linkable(l) && Ready(l, more) && Refers(Out(Again(l, more)), q) && Base(q) in Ids(l.owners)
    ensures Base(q) !in Ids(more) && exists i :: 0 <= i < |more| && Refers(more[i].doc, q)
  {
    LinkableIds(l);
    PlainIds(l.owners);
    hide Linkable, Ready, Out, Settled, RefsOf, Rewrite, IsPart, Identity;
    SecondPassIsLinkable(l, more);
    var h, body, r := PartOfReference(Again(l, more), q);
    BasedIsUntouched(Again(l, more), h, r, q);
    if h.Own? {
      NoOwnerReferenceRemains(l, q);
    } else {
      assert Refers(more[h.i].doc, q);
    }
  }

  lemma {:induction false} RefsSurviveMap(f: string -> string, j: Json, r: string)
    requires r in RefsOf(j)
    ensures f(r) in RefsOf(MapTexts(f, j))
  {
    MapByParts(f, j);
    match j
    case List(items) =>
      var x :| x in items && r in RefsOf(x);
      var i :| 0 <= i < |items| && items[i] == x;
      RefsSurviveMap(f, x, r);
      assert MapTexts(f, j).items[i] in MapTexts(f, j).items;
    case Object(m) =>
      var k :| k in m && r in RefsAt(k, m[k]);
      MapOfText(f, m[k]);
      if !IsRef(k, m[k]) {
        RefsSurviveMap(f, m[k], r);
      }
      assert f(r) in RefsAt(k, MapTexts(f, m[k]));
    case _ =>
  }

  lemma OwnerRootIsCopied(l: Linkage, i: nat)
    requires Linkable(l) && i < |l.owners|
    ensures var k := l.owners[i].prefix + "Root";
            && k in Out(l).defs && Out(l).defs[k] == MapTexts(Rewriting(l, Of(i)), Object(l.owners[i].doc.root))
            && Clean(l, Of(i), Object(l.owners[i].doc.root))
  {
    assert CleanHome(l, Of(i));
    hide Out, Copied, IdsOk, MapTexts, Rewriting;
    CopyOfRoot(l.owners[i]);
    OutOfOwner(l, i, l.owners[i].prefix + "Root", Object(l.owners[i].doc.root));
  }

  lemma OwnerReferenceIsCopied(l: Linkage, i: nat, q: string)
    requires Linkable(l) && i < |l.owners| && Refers(l.owners[i].doc, q)
    requires Base(q) != "" && Base(q) !in Ids(l.owners)
    ensures Refers(Out(l), q)
  {
    LinkableIds(l);
    PlainIds(l.owners);
    var o := l.owners[i];
    BasedIsHashFree(q);
    OthersStay(l.owners, q);
    RewriteOfHashFree(l, Of(i), q);
    hide Linkable, Out, RefsOf, Rewrite, Renamed, Ids, IdsOk, Base, Identity;
    if q in RefsOf(Object(o.doc.root)) {
      OwnerRootIsCopied(l, i);
      RefsSurviveMap(Rewriting(l, Of(i)), Object(o.doc.root), q);
    } else {
      var name :| name in o.doc.defs && q in RefsOf(o.doc.defs[name]);
      DefinitionIsOut(l, Of(i), name);
      RefsSurviveMap(Rewriting(l, Of(i)), o.doc.defs[name], q);
    }
  }

  lemma BasedIsHashFree(q: string)
    requires Base(q) != ""
    ensures HashFree(q)
  {
  }

  /** After both passes, a reference to an owner of the first is left exactly where a document of the second makes it and the second does not link that owner as well. */
  lemma FirstOwnersRemainIff(l: Linkage, more: seq<Owner>, q: string)
    requires Linkable(l) && Ready(l, more) && Base(q) in Ids(l.owners)
    ensures Refers(Out(Again(l, more)), q) <==> Base(q) !in Ids(more) && exists i :: 0 <= i < |more| && Refers(more[i].doc, q)
  {
    LinkableIds(l);
    PlainIds(l.owners);
    hide Linkable, Ready, Out, Refers, Identity;
    SecondPassIsLinkable(l, more);
    if Refers(Out(Again(l, more)), q) {
      BasedComesFromOwner(l, more, q);
    }
    if i :| Base(q) !in Ids(more) && 0 <= i < |more| && Refers(more[i].doc, q) {
      OwnerReferenceIsCopied(Again(l, more), i, q);
    }
  }

  lemma OwnDefinitionStays(l: Linkage, k: string)
    requires Linkable(l) && k in l.input.defs
    ensures k in Out(l).defs && Out(l).defs[k] == MapTexts(Rewriting(l, Own), l.input.defs[k])
    ensures Clean(l, Own, l.input.defs[k])
  {
    assert CleanHome(l, Own);
    hide Linkable, Out, MapTexts, Rewriting;
    OutOfInput(l, k);
  }

  /** After both passes an owner of the first stands under its prefixed root, and means what it meant by itself. */
  lemma OwnerRootMeansTheSame(l: Linkage, more: seq<Owner>, i: nat, depth: nat)
    requires Linkable(l) && Ready(l, more) && i < |l.owners|
    ensures var k := l.owners[i].prefix + "Root"; var d := l.owners[i].doc; var out := Out(Again(l, more));
            && k in out.defs
            && (Alike(l, depth) && Alike(Again(l, more), depth) ==>
                  Unfold(l.world, out, depth, out.defs[k]) == Unfold(l.world, d, depth, Object(d.root)))
  {
    hide Linkable, Ready, Out, Alike, Unfold, MapTexts, Rewriting, Clean;
    SecondPassIsLinkable(l, more);
    var k, d := l.owners[i].prefix + "Root", l.owners[i].doc;
    OwnerRootIsCopied(l, i);
    OwnDefinitionStays(Again(l, more), k);
    if Alike(l, depth) && Alike(Again(l, more), depth) {
      UnfoldsTheSame(l, Of(i), depth, Object(d.root));
      UnfoldsTheSame(Again(l, more), Own, depth, Out(l).defs[k]);
    }
  }

  /** So do its definitions, each under its prefixed name. */
  lemma OwnerDefinitionMeansTheSame(l: Linkage, more: seq<Owner>, i: nat, name: string, depth: nat)
    requires Linkable(l) && Ready(l, more) && i < |l.owners| && name in l.owners[i].doc.defs
    ensures var k := l.owners[i].prefix + name; var d := l.owners[i].doc; var out := Out(Again(l, more));
            && k in out.defs
            && (Alike(l, depth) && Alike(Again(l, more), depth) ==>
                  Unfold(l.world, out, depth, out.defs[k]) == Unfold(l.world, d, depth, d.defs[name]))
  {
    hide Linkable, Ready, Out, Alike, Unfold, MapTexts, Rewriting, Clean, Renamed;
    SecondPassIsLinkable(l, more);
    var k, d := l.owners[i].prefix + name, l.owners[i].doc;
    RenamedIs(l, Of(i), name);
    DefinitionIsOut(l, Of(i), name);
    OwnDefinitionStays(Again(l, more), k);
    if Alike(l, depth) && Alike(Again(l, more), depth) {
      UnfoldsTheSame(l, Of(i), depth, d.defs[name]);
      UnfoldsTheSame(Again(l, more), Own, depth, Out(l).defs[k]);
    }
  }

  // What is kept of the document itself.

  /** A document keeps its identity exactly when it is not linked to itself, which is why the lessons document is left out of its own owners. */
  lemma IdentityIsKept(l: Linkage)
    requires GoodIds(l.owners) && l.input.id.Some? && PlainId(l.input.id.value)
    ensures Out(l).id == l.input.id <==> l.input.id.value !in Ids(l.owners)
  {
    var id := l.input.id.value;
    assert id + "" == id;
    BaseOfId(id, "");
    hide GoodIds, MapDefs, Copied;
    PlainIds(l.owners);
    if id in Ids(l.owners) {
      var o :| o in l.owners && Identity(o) == id;
      var i :| 0 <= i < |l.owners| && l.owners[i] == o;
      AimMoves(o, id);
      OwnerIsRedirected(l.owners, i, id);
    } else {
      OthersStay(l.owners, id);
    }
  }

  // A link that changes the meaning of an owner.

  /** An owner whose items are of its own kind: it refers to its own root. */
  function Recursive(): Document {
    Document(Some("owner"), None, map[], map["items" := Object(map["$ref" := Json.Text("#")])])
  }

  /** A report that links it. */
  function Captured(): Linkage {
    Linkage(Document(None, None, map[], map["title" := Json.Text("report")]), [Owner("Owner_", Recursive())], map["owner" := Recursive()])
  }

  lemma BaseOfPlain(s: string)
    requires '#' !in s
    ensures Base(s) == s
  {
    assert s + "" == s;
    BaseOfSum(s, "");
  }

  lemma PlainIsNotSpelled(l: Linkage, h: Home, s: string)
    requires IsHome(l, h) && '#' !in s && s !in Ids(l.owners) && HomeDoc(l, h).anchor.None?
    ensures !Spelled(l, h, s)
  {
    BaseOfPlain(s);
    hide Base, Ids;
    assert DEFS[0] == '#' && forall i :: 0 <= i < |s| ==> s[i] != '#';
  }

  lemma PartsOfMember(k: string, s: string)
    requires k != "$ref"
    ensures TextsOf(Object(map[k := Json.Text(s)])) == {s} && RefsOf(Object(map[k := Json.Text(s)])) == {}
  {
    var m := map[k := Json.Text(s)];
    assert k in m && !IsRef(k, m[k]) && TextsOf(m[k]) == {s} && RefsAt(k, m[k]) == {};
    assert forall t :: t in TextsOf(Object(m)) <==> t == s;
  }

  lemma CleanMember(l: Linkage, h: Home, k: string, s: string)
    requires IsHome(l, h) && k != "$ref" && '#' !in s && s !in Ids(l.owners)
    requires HomeDoc(l, h).anchor.None?
    ensures Clean(l, h, Object(map[k := Json.Text(s)]))
  {
    PartsOfMember(k, s);
    hide Spelled, TextsOf, RefsOf, Known;
    PlainIsNotSpelled(l, h, s);
  }

  lemma RefsOfRecursive()
    ensures RefsOf(Object(Recursive().root)) == {"#"} && TextsOf(Object(Recursive().root)) == {}
  {
    var m, inner := Recursive().root, map["$ref" := Json.Text("#")];
    assert RefsAt("$ref", inner["$ref"]) == {"#"};
    assert forall r :: r in RefsOf(Object(inner)) <==> r == "#";
    assert RefsAt("items", m["items"]) == {"#"};
    assert forall r :: r in RefsOf(Object(m)) <==> r == "#";
    assert TextsOf(Object(inner)) == {};
    assert TextsOf(m["items"]) == {};
  }

  lemma CapturedHasIds()
    ensures Ids(Captured().owners) == {"owner"} && IdsOk(Captured())
  {
    var owners := Captured().owners;
    assert owners[0] in owners && forall o :: o in owners ==> o == owners[0];
  }

  lemma CapturedHasNames()
    ensures NamesOk(Captured())
  {
    hide Copied;
  }

  lemma NoDefinitions(l: Linkage, h: Home)
    requires IsHome(l, h) && HomeDoc(l, h).defs == map[] && Clean(l, h, Object(HomeDoc(l, h).root))
    ensures CleanHome(l, h)
  {
    hide Clean;
  }

  lemma CapturedInputIsClean()
    ensures CleanHome(Captured(), Own)
  {
    CapturedHasIds();
    hide IdsOk, Clean, Ids, CleanHome;
    assert "report"[0] != "owner"[0];
    CleanMember(Captured(), Own, "title", "report");
    NoDefinitions(Captured(), Own);
  }

  lemma RecursiveHoldsBare()
    ensures HoldsBare(Recursive())
  {
    RefsOfRecursive();
    hide RefsOf;
  }

  lemma CapturedOwnerIsClean()
    ensures CleanHome(Captured(), Of(0))
  {
    RefsOfRecursive();
    RecursiveHoldsBare();
    hide RefsOf, TextsOf, HoldsBare, Spelled, Recursive;
    assert HomeDoc(Captured(), Of(0)) == Recursive();
    assert Clean(Captured(), Of(0), Object(Recursive().root));
    RecursiveHasNoDefinitions();
    hide Clean;
    NoDefinitions(Captured(), Of(0));
  }

  lemma RecursiveHasNoDefinitions()
    ensures Recursive().defs == map[]
  {
  }

  lemma CapturedIsLinkable()
    ensures Linkable(Captured())
  {
    assert forall h :: IsHome(Captured(), h) ==> h == Own || h == Of(0);
    hide IdsOk, NamesOk, CleanHome, Captured;
    CapturedHasIds();
    CapturedHasNames();
    CapturedInputIsClean();
    CapturedOwnerIsClean();
  }

  lemma MembersUnfold(world: World, d: Document, depth: nat, m: map<string, Json>)
    ensures Unfold(world, d, depth, Object(m)).Branch? && Unfold(world, d, depth, Object(m)).members.Keys == m.Keys
  {
  }

  lemma RootsOfOtherMembersDiffer(world: World, a: Document, b: Document, depth: nat)
    requires a.root.Keys != b.root.Keys
    ensures Unfold(world, a, depth, Object(a.root)) != Unfold(world, b, depth, Object(b.root))
  {
    MembersUnfold(world, a, depth, a.root);
    MembersUnfold(world, b, depth, b.root);
    hide Unfold;
  }

  lemma OutKeepsMembers(l: Linkage)
    ensures Out(l).root.Keys == l.input.root.Keys
  {
    hide Copied, MapTexts;
  }

  /** The report's root, linked or not, has other members than the owner's. */
  lemma RootsDiffer(depth: nat)
    ensures var l := Captured(); var own := Unfold(l.world, Recursive(), depth, Object(Recursive().root));
            && Unfold(l.world, l.input, depth, Object(l.input.root)) != own
            && Unfold(l.world, Out(l), depth, Object(Out(l).root)) != own
  {
    var l := Captured();
    OutKeepsMembers(l);
    hide Unfold, Out;
    assert "title"[1] != "items"[1];
    assert "title" in l.input.root && "title" !in Recursive().root;
    RootsOfOtherMembersDiffer(l.world, l.input, Recursive(), depth);
    RootsOfOtherMembersDiffer(l.world, Out(l), Recursive(), depth);
  }

  /** What the items of a document with such items unfold to: its root. */
  lemma ItemsUnfold(world: World, d: Document, depth: nat)
    ensures var root := map["items" := Object(map["$ref" := Json.Text("#")])];
            var t := Unfold(world, d, depth + 1, Object(root));
            && t.Branch? && "items" in t.members && t.members["items"].Branch?
            && "$ref" in t.members["items"].members
            && t.members["items"].members["$ref"] == Unfold(world, d, depth, Object(d.root))
  {
    RootOpens(world, d, depth + 1);
    var m := map["$ref" := Json.Text("#")];
    assert IsRef("$ref", m["$ref"]);
    assert !IsRef("items", Object(m));
    hide Open;
    assert Unfold(world, d, depth + 1, Object(m)).members["$ref"] == Unfold(world, d, depth, Object(d.root));
  }

  lemma RewritesNothing()
    ensures MapTexts(Rewriting(Captured(), Of(0)), Object(Recursive().root)) == Object(Recursive().root)
  {
    CapturedHasIds();
    BareStays(Captured(), Of(0));
    var f, inner := Rewriting(Captured(), Of(0)), map["$ref" := Json.Text("#")];
    hide IdsOk, Rewrite;
    assert f("#") == "#";
    assert MapTexts(f, Json.Text("#")) == Json.Text("#");
    assert MapTexts(f, Object(inner)).members == inner;
    assert MapTexts(f, Object(Recursive().root)).members == Recursive().root;
  }

  /** A linkable report and owner: the copy of the owner's root, unfolded one level, is no longer what the owner says, because its items became reports. */
  lemma BareRootReferenceIsCaptured(depth: nat)
    ensures Linkable(Captured()) && HoldsBare(Recursive())
    ensures var l := Captured(); var root := Object(Recursive().root);
            Unfold(l.world, Out(l), depth + 1, MapTexts(Rewriting(l, Of(0)), root)) != Unfold(l.world, Recursive(), depth + 1, root)
    ensures !MeaningIsKept(Captured(), depth + 1)
  {
    var l := Captured();
    CapturedIsLinkable();
    RecursiveHoldsBare();
    RewritesNothing();
    RootsDiffer(depth);
    ItemsUnfold(l.world, Out(l), depth);
    ItemsUnfold(l.world, Recursive(), depth);
    hide Linkable, Unfold, MapTexts, Out, HoldsBare, MeaningIsKept;
    assert !Alike(l, depth + 1) by {
      assert l.owners[0].doc == Recursive();
    }
    MeaningIsKeptIff(l, depth + 1);
  }
}
