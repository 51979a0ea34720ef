/** The multi-owner linker: copies owner documents into one, under prefixed names, and redirects every reference to them. */
module OwnerLinking {
  import opened Options
  import opened SchemaJson

  datatype Owner = Owner(prefix: string, doc: Document)

  function Identity(o: Owner): string {
    if o.doc.id.Some? then o.doc.id.value else ""
  }

  /** An owner's own text: its local references and its anchor are led to the prefixed names. */
  function Localize(o: Owner, s: string): string {
    var t := if DEFS <= s then DEFS + o.prefix + s[|DEFS|..] else s;
    if o.doc.anchor.Some? && o.doc.anchor.value != "" && t == "#" + o.doc.anchor.value then DEFS + o.prefix + "Root" else t
  }

  /** One owner's two replacements over the assembled document. */
  function Redirect(o: Owner, s: string): string {
    var t := if Identity(o) + DEFS <= s then DEFS + o.prefix + s[|Identity(o) + DEFS|..] else s;
    if t == Identity(o) then DEFS + o.prefix + "Root" else t
  }

  /** The replacements of all owners, in order. */
  function RedirectAll(owners: seq<Owner>, s: string): string {
    if owners == [] then s else Redirect(owners[|owners| - 1], RedirectAll(owners[..|owners| - 1], s))
  }

  function Localizing(o: Owner): string -> string {
    s => Localize(o, s)
  }

  function Redirecting(o: Owner): string -> string {
    s => Redirect(o, s)
  }

  function RedirectingAll(owners: seq<Owner>): string -> string {
    s => RedirectAll(owners, s)
  }

  function MapDefs(f: string -> string, defs: map<string, Json>): map<string, Json> {
    map k | k in defs :: MapTexts(f, defs[k])
  }

  function MapDocument(f: string -> string, d: Document): Document {
    Document(if d.id.Some? then Some(f(d.id.value)) else None,
             if d.anchor.Some? then Some(f(d.anchor.value)) else None,
             MapDefs(f, d.defs), MapDefs(f, d.root))
  }

  /** An owner's copy: its root under `Root`, each definition under its prefixed name. */
  function Copied(o: Owner): map<string, Json> {
    var f := Localizing(o);
    map[o.prefix + "Root" := Object(MapDefs(f, o.doc.root))]
      + map k | k in Prefixed(o) :: MapTexts(f, o.doc.defs[k[|o.prefix|..]])
  }

  function Prefixed(o: Owner): (ks: set<string>)
    ensures forall k :: k in ks <==> o.prefix <= k && k[|o.prefix|..] in o.doc.defs
  {
    var ks := set name | name in o.doc.defs :: o.prefix + name;
    assert forall k :: o.prefix <= k ==> k == o.prefix + k[|o.prefix|..];
    ks
  }

  function CopiedAll(owners: seq<Owner>): map<string, Json> {
    if owners == [] then map[] else CopiedAll(owners[..|owners| - 1]) + Copied(owners[|owners| - 1])
  }

  function Assembled(input: Document, owners: seq<Owner>): Document {
    input.(defs := CopiedAll(owners) + input.defs)
  }

  function Linked(input: Document, owners: seq<Owner>): Document {
    MapDocument(RedirectingAll(owners), Assembled(input, owners))
  }

  lemma MapDocumentTwice(f: string -> string, g: string -> string, h: string -> string, d: Document)
    requires forall s :: h(s) == g(f(s))
    ensures MapDocument(g, MapDocument(f, d)) == MapDocument(h, d)
  {
    forall k | k in d.defs { MapTwice(f, g, h, d.defs[k]); }
    forall k | k in d.root { MapTwice(f, g, h, d.root[k]); }
    assert MapDocument(g, MapDocument(f, d)).defs == MapDocument(h, d).defs;
    assert MapDocument(g, MapDocument(f, d)).root == MapDocument(h, d).root;
  }

  lemma MapDocumentNothing(f: string -> string, d: Document)
    requires forall s :: f(s) == s
    ensures MapDocument(f, d) == d
  {
    forall k | k in d.defs { MapNothing(f, d.defs[k]); }
    forall k | k in d.root { MapNothing(f, d.root[k]); }
    assert MapDocument(f, d).defs == d.defs;
    assert MapDocument(f, d).root == d.root;
  }

  /** The linker as it runs: definitions gathered owner by owner, then the replacements one by one over the whole document. */
  method WithOwners(input: Document, owners: seq<Owner>) returns (output: Document)
    ensures output == Linked(input, owners)
  {
    hide MapDocument, Copied;
    var defs: map<string, Json> := map[];
    var replacements: seq<Owner> := [];
    for i := 0 to |owners|
      invariant defs == CopiedAll(owners[..i])
      invariant replacements == owners[..i]
    {
      var owner := owners[i];
      assert owners[..i + 1][..i] == owners[..i];
      defs := defs + Copied(owner);
      replacements := replacements + [owner];
    }
    assert owners[..|owners|] == owners;
    output := input.(defs := defs + input.defs);
    ghost var assembled := output;
    MapDocumentNothing(RedirectingAll(owners[..0]), assembled);
    for i := 0 to |replacements|
      invariant output == MapDocument(RedirectingAll(owners[..i]), assembled)
    {
      var owner := replacements[i];
      assert owners[..i + 1][..i] == owners[..i];
      MapDocumentTwice(RedirectingAll(owners[..i]), Redirecting(owner), RedirectingAll(owners[..i + 1]), assembled);
      output := MapDocument(Redirecting(owner), output);
    }
  }
}
