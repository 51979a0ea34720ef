/** The two declaration documents: which owners they link, why the prefixed names cannot clash, and what a caller may rely on. */
module DeclarationSchemas {
  import opened Options
  import opened SchemaJson
  import opened OwnerLinking
  import opened LinkedMeaning
  import opened LinkedTwice
  import opened Text

  // Prefixes.

  /** A prefix that ends in its only underscore. */
  predicate Stemmed(p: string) {
    p != "" && p[|p| - 1] == '_' && forall i :: 0 <= i < |p| - 1 ==> p[i] != '_'
  }

  /** Different prefixes of that form start no common name. */
  lemma StemIsFirst(p: string, q: string, x: string, y: string)
    requires Stemmed(p) && Stemmed(q) && p + x == q + y
    ensures p == q
  {
    assert (p + x)[|p| - 1] == '_' && (q + y)[|q| - 1] == '_';
    assert (p + x)[..|p|] == p && (q + y)[..|q|] == q;
  }

  ghost predicate PrefixesOk(owners: seq<Owner>) {
    && (forall o :: o in owners ==> o.prefix == "" || Stemmed(o.prefix))
    && (forall i, j :: 0 <= i < j < |owners| ==> owners[i].prefix != owners[j].prefix)
  }

  predicate Starts(prefix: string, names: set<string>) {
    exists k :: k in names && prefix <= k
  }

  /** Names that can be told from the prefixed ones: no owner defines `Root`, and neither the document nor an owner without a prefix uses another's prefix. */
  ghost predicate PlainNames(input: Document, owners: seq<Owner>) {
    && (forall o :: o in owners ==> "Root" !in o.doc.defs)
    && (forall o :: o in owners ==> if o.prefix == "" then "Root" !in input.defs && o.doc.defs.Keys !! input.defs.Keys else !Starts(o.prefix, input.defs.Keys))
    && (forall o, p :: o in owners && p in owners && o.prefix == "" && p.prefix != "" ==> !Starts(p.prefix, o.doc.defs.Keys))
  }

  lemma CopiedIsNoInput(input: Document, owners: seq<Owner>, o: Owner, k: string)
    requires PlainNames(input, owners) && o in owners && k in Copied(o)
    ensures k !in input.defs
  {
    hide Copied;
    NamesOfCopied(o, k);
    assert "" + "Root" == "Root" && k[0..] == k;
    assert o.prefix != "" ==> o.prefix <= k;
  }

  lemma RootIsUnprefixed(p: string)
    requires Stemmed(p)
    ensures !(p <= "Root")
  {
    assert forall i :: 0 <= i < 4 ==> "Root"[i] != '_';
  }

  lemma CopiesAreApart(input: Document, owners: seq<Owner>, o: Owner, p: Owner, k: string)
    requires PlainNames(input, owners) && o in owners && p in owners && o.prefix != p.prefix
    requires (o.prefix == "" || Stemmed(o.prefix)) && (p.prefix == "" || Stemmed(p.prefix))
    ensures !(k in Copied(o) && k in Copied(p))
  {
    if k in Copied(o) && k in Copied(p) {
      NamesOfCopied(o, k);
      NamesOfCopied(p, k);
      hide Copied;
      if o.prefix == "" {
        OnlyOneIsPrefixed(input, owners, o, p, k);
      } else if p.prefix == "" {
        OnlyOneIsPrefixed(input, owners, p, o, k);
      } else {
        StemIsFirst(o.prefix, p.prefix, k[|o.prefix|..], k[|p.prefix|..]);
      }
    }
  }

  lemma OnlyOneIsPrefixed(input: Document, owners: seq<Owner>, o: Owner, p: Owner, k: string)
    requires PlainNames(input, owners) && o in owners && p in owners && o.prefix == "" && Stemmed(p.prefix)
    requires k in Copied(o)
    ensures !(p.prefix <= k)
  {
    NamesOfCopied(o, k);
    RootIsUnprefixed(p.prefix);
    hide Copied, Stemmed;
    assert "" + "Root" == "Root" && k[0..] == k;
    assert k == "Root" || k in o.doc.defs.Keys;
    assert !Starts(p.prefix, o.doc.defs.Keys);
  }

  /** Prefixes of that form are enough for names that do not clash. */
  lemma NamesFromPrefixes(l: Linkage)
    requires PrefixesOk(l.owners) && PlainNames(l.input, l.owners)
    ensures NamesOk(l)
  {
    hide Copied, Stemmed;
    forall o | o in l.owners
      ensures "Root" !in o.doc.defs && Copied(o).Keys !! l.input.defs.Keys
    {
      assert "Root" !in o.doc.defs by {
        assert PlainNames(l.input, l.owners);
      }
      forall k | k in Copied(o)
        ensures k !in l.input.defs
      {
        CopiedIsNoInput(l.input, l.owners, o, k);
      }
    }
    hide PlainNames;
    forall i, j | 0 <= i < j < |l.owners|
      ensures Copied(l.owners[i]).Keys !! Copied(l.owners[j]).Keys
    {
      assert l.owners[i] in l.owners && l.owners[j] in l.owners;
      forall k
        ensures !(k in Copied(l.owners[i]) && k in Copied(l.owners[j]))
      {
        CopiesAreApart(l.input, l.owners, l.owners[i], l.owners[j], k);
      }
    }
  }

  // The numbered references.

  const DEPENDENCY := "ResearchDependency"

  function NumberedPrefix(i: nat): string {
    DEPENDENCY + Decimal(i) + "_"
  }

  function Numbered(references: seq<Document>): seq<Owner> {
    seq(|references|, i requires 0 <= i < |references| => Owner(NumberedPrefix(i), references[i]))
  }

  lemma {:induction false} DecimalHasDigits(n: nat)
    ensures forall i :: 0 <= i < |Decimal(n)| ==> Decimal(n)[i] != '_'
  {
    if n >= 10 {
      DecimalHasDigits(n / 10);
    }
  }

  lemma {:induction false} DecimalTellsNumber(n: nat, m: nat)
    requires Decimal(n) == Decimal(m)
    ensures n == m
  {
    var a, b := Decimal(n), Decimal(m);
    assert a[|a| - 1] == Digit(n % 10) && b[|b| - 1] == Digit(m % 10);
    DecimalGrows(n / 10, n / 10);
    DecimalGrows(m / 10, m / 10);
    if n >= 10 && m >= 10 {
      assert a[..|a| - 1] == Decimal(n / 10) && b[..|b| - 1] == Decimal(m / 10);
      DecimalTellsNumber(n / 10, m / 10);
    }
  }

  lemma NumberedIsStemmed(i: nat)
    ensures Stemmed(NumberedPrefix(i)) && DEPENDENCY <= NumberedPrefix(i)
  {
    DecimalHasDigits(i);
    hide Decimal;
    assert forall k :: 0 <= k < |DEPENDENCY| ==> DEPENDENCY[k] != '_';
  }

  lemma NumberedTellsNumber(i: nat, j: nat)
    requires NumberedPrefix(i) == NumberedPrefix(j)
    ensures i == j
  {
    var p := NumberedPrefix(i);
    assert p[|DEPENDENCY|..|p| - 1] == Decimal(i) && p[|DEPENDENCY|..|p| - 1] == Decimal(j);
    DecimalTellsNumber(i, j);
  }

  /** The numbered prefixes are apart, however many references there are. */
  lemma NumberedPrefixesAreOk(references: seq<Document>)
    ensures PrefixesOk(Numbered(references))
  {
    var owners := Numbered(references);
    hide NumberedPrefix, Stemmed;
    forall o | o in owners
      ensures Stemmed(o.prefix)
    {
      var i :| 0 <= i < |owners| && owners[i] == o;
      NumberedIsStemmed(i);
    }
    forall i, j | 0 <= i < j < |owners|
      ensures owners[i].prefix != owners[j].prefix
    {
      if owners[i].prefix == owners[j].prefix {
        NumberedTellsNumber(i, j);
      }
    }
  }

  ghost predicate NoneDefinesRoot(owners: seq<Owner>) {
    forall o :: o in owners ==> "Root" !in o.doc.defs
  }

  lemma StartsShorter(short: string, long: string, names: set<string>)
    requires short <= long && Starts(long, names)
    ensures Starts(short, names)
  {
    var k :| k in names && long <= k;
    assert k[..|short|] == long[..|short|];
  }

  lemma NumberedNamesArePlain(input: Document, references: seq<Document>)
    requires NoneDefinesRoot(Numbered(references)) && !Starts(DEPENDENCY, input.defs.Keys)
    ensures PlainNames(input, Numbered(references))
  {
    var owners := Numbered(references);
    hide NumberedPrefix;
    forall o | o in owners
      ensures o.prefix != "" && DEPENDENCY <= o.prefix
    {
      var i :| 0 <= i < |owners| && owners[i] == o;
      NumberedIsStemmed(i);
    }
    forall o | o in owners
      ensures !Starts(o.prefix, input.defs.Keys)
    {
      if Starts(o.prefix, input.defs.Keys) {
        StartsShorter(DEPENDENCY, o.prefix, input.defs.Keys);
      }
    }
  }

  // What a caller may rely on.

  /** Every known reference opens in the output as it did in its own document, exactly where the owners that refer to their own root by `#` have a root like the document's; and none of the linked owners is referred to any more. */
  ghost predicate Means(l: Linkage, output: Document) {
    && output == Out(l)
    && (forall depth: nat :: MeaningIsKept(l, depth) <==> Alike(l, depth))
    && (forall k, q :: k in output.defs && q in RefsOf(output.defs[k]) ==> Base(q) !in Ids(l.owners))
    && (forall q :: q in RefsOf(Object(output.root)) ==> Base(q) !in Ids(l.owners))
  }

  lemma LinkedMeans(l: Linkage)
    requires Linkable(l)
    ensures Means(l, Out(l))
  {
    hide Linkable, MeaningIsKept, Alike, Out, RefsOf, Ids;
    forall depth: nat
      ensures MeaningIsKept(l, depth) <==> Alike(l, depth)
    {
      MeaningIsKeptIff(l, depth);
    }
    forall k, q | k in Out(l).defs && q in RefsOf(Out(l).defs[k])
      ensures Base(q) !in Ids(l.owners)
    {
      NoOwnerReferenceRemains(l, q);
    }
    forall q | q in RefsOf(Object(Out(l).root))
      ensures Base(q) !in Ids(l.owners)
    {
      NoOwnerReferenceRemains(l, q);
    }
  }

  ghost predicate CleanHomes(l: Linkage) {
    forall h :: IsHome(l, h) ==> CleanHome(l, h)
  }

  /** A document that can be declared: its identities can be told apart, its references are of known forms, and no name of it looks numbered. */
  ghost predicate Declarable(input: Document, references: seq<Document>, world: World) {
    var l := Linkage(input, Numbered(references), world);
    IdsOk(l) && CleanHomes(l) && NoneDefinesRoot(l.owners) && !Starts(DEPENDENCY, input.defs.Keys)
  }

  lemma DeclarableIsLinkable(input: Document, references: seq<Document>, world: World)
    requires Declarable(input, references, world)
    ensures Linkable(Linkage(input, Numbered(references), world))
  {
    hide IdsOk, NamesOk, CleanHome, PrefixesOk, PlainNames, Numbered, NoneDefinesRoot, Starts;
    NumberedPrefixesAreOk(references);
    NumberedNamesArePlain(input, references);
    NamesFromPrefixes(Linkage(input, Numbered(references), world));
  }

  /** A document stands in the output under a prefix: its root, and each of its definitions, which mean what they mean by themselves. */
  ghost predicate Inlined(d: Document, prefix: string, output: Document, world: World, like: set<nat>) {
    && prefix + "Root" in output.defs
    && (forall depth :: depth in like ==> Unfold(world, output, depth, output.defs[prefix + "Root"]) == Unfold(world, d, depth, Object(d.root)))
    && (forall name :: name in d.defs ==> prefix + name in output.defs)
    && (forall name, depth :: name in d.defs && depth in like ==>
          Unfold(world, output, depth, output.defs[prefix + name]) == Unfold(world, d, depth, d.defs[name]))
  }

  /** Every research reference stands in the output under its number. */
  ghost predicate Dependencies(references: seq<Document>, output: Document, world: World, like: set<nat>) {
    forall i :: 0 <= i < |references| ==> Inlined(references[i], "ResearchDependency" + Decimal(i) + "_", output, world, like)
  }

  lemma OwnerIsInlinedOnce(l: Linkage, i: nat, like: set<nat>)
    requires Linkable(l) && i < |l.owners| && forall depth :: depth in like ==> Alike(l, depth)
    ensures Inlined(l.owners[i].doc, l.owners[i].prefix, Out(l), l.world, like)
  {
    hide Linkable, Out, Alike, Unfold, MapTexts, Rewriting, Clean, Renamed;
    OwnerRootIsCopied(l, i);
    var d := l.owners[i].doc;
    forall depth | depth in like
      ensures Unfold(l.world, Out(l), depth, Out(l).defs[l.owners[i].prefix + "Root"]) == Unfold(l.world, d, depth, Object(d.root))
    {
      UnfoldsTheSame(l, Of(i), depth, Object(d.root));
    }
    forall name | name in d.defs
      ensures l.owners[i].prefix + name in Out(l).defs
      ensures forall depth :: depth in like ==> Unfold(l.world, Out(l), depth, Out(l).defs[l.owners[i].prefix + name]) == Unfold(l.world, d, depth, d.defs[name])
    {
      RenamedIs(l, Of(i), name);
      DefinitionIsOut(l, Of(i), name);
      forall depth | depth in like
        ensures Unfold(l.world, Out(l), depth, Out(l).defs[l.owners[i].prefix + name]) == Unfold(l.world, d, depth, d.defs[name])
      {
        UnfoldsTheSame(l, Of(i), depth, d.defs[name]);
      }
    }
  }

  lemma ReferencesAreInlined(l: Linkage, references: seq<Document>, like: set<nat>)
    requires Linkable(l) && l.owners == Numbered(references) && forall depth :: depth in like ==> Alike(l, depth)
    ensures Dependencies(references, Out(l), l.world, like)
  {
    hide Linkable, Out, Alike, Inlined;
    forall i | 0 <= i < |references|
      ensures Inlined(references[i], "ResearchDependency" + Decimal(i) + "_", Out(l), l.world, like)
    {
      OwnerIsInlinedOnce(l, i, like);
    }
  }

  /** The declaration of one document: its references to the research documents are led inside, and mean what they meant, exactly where the linked owners' own roots are not captured. */
  method ResearchDeclarationSchema(input: Document, references: seq<Document>, ghost world: World) returns (output: Document)
    ensures output == Linked(input, Numbered(references))
    ensures Declarable(input, references, world) ==>
              && Means(Linkage(input, Numbered(references), world), output)
              && forall like :: (forall depth :: depth in like ==> Alike(Linkage(input, Numbered(references), world), depth)) ==>
                   Dependencies(references, output, world, like)
  {
    hide Linked, Numbered, Declarable, Means, Dependencies, Alike;
    output := WithOwners(input, Numbered(references));
    ghost var l := Linkage(input, Numbered(references), world);
    assert Out(l) == output;
    if Declarable(input, references, world) {
      DeclarableIsLinkable(input, references, world);
      LinkedMeans(l);
      forall like: set<nat> | forall depth :: depth in like ==> Alike(l, depth)
        ensures Dependencies(references, output, world, like)
      {
        ReferencesAreInlined(l, references, like);
      }
    }
  }

  // The report.

  /** The schema documents a report may speak of. */
  datatype Catalog = Catalog(research: Document, runIdentity: Document, masRuntime: Document, masWorkflow: Document, masRegistry: Document,
                             lessons: Document, domains: Document, ablation: Document, audit: Document)

  const RESEARCH_ID := "https://tangleai.dev/schemas/research"

  /** A report's owners: never the lessons document for itself, and three more for the research report. */
  function ReportOwners(input: Document, c: Catalog): seq<Owner> {
    [Owner("", c.research), Owner("Config_", c.runIdentity), Owner("MasRuntime_", c.masRuntime),
     Owner("MasWorkflow_", c.masWorkflow), Owner("MasRegistry_", c.masRegistry)]
    + (if input.id != c.lessons.id then [Owner("Lessons_", c.lessons)] else [])
    + (if input.id == Some(RESEARCH_ID) then [Owner("Domains_", c.domains), Owner("Ablation_", c.ablation), Owner("Audit_", c.audit)] else [])
  }

  const PREFIXES := ["", "Config_", "MasRuntime_", "MasWorkflow_", "MasRegistry_", "Lessons_", "Domains_", "Ablation_", "Audit_"]

  lemma ReportPrefixesAreStemmed()
    ensures forall k :: 1 <= k < |PREFIXES| ==> Stemmed(PREFIXES[k]) && PREFIXES[k][0] != 'R'
  {
    assert Stemmed("Config_") && Stemmed("MasRuntime_") && Stemmed("MasWorkflow_") && Stemmed("MasRegistry_");
    assert Stemmed("Lessons_") && Stemmed("Domains_") && Stemmed("Ablation_") && Stemmed("Audit_");
  }

  lemma ReportPrefixesDiffer()
    ensures forall j, k :: 0 <= j < k < |PREFIXES| ==> PREFIXES[j] != PREFIXES[k]
  {
    assert "MasWorkflow_"[3] != "MasRegistry_"[3] && "Lessons_"[0] != "Domains_"[0];
    assert forall k :: 0 <= k < |PREFIXES| ==> |PREFIXES[k]| == [0, 7, 11, 12, 12, 8, 8, 9, 6][k];
  }

  /** Which of the prefixes an owner of the report carries. */
  function PlaceOf(input: Document, c: Catalog, i: nat): (k: nat)
    requires i < |ReportOwners(input, c)|
    ensures k < |PREFIXES| && ReportOwners(input, c)[i].prefix == PREFIXES[k]
    ensures k == 0 <==> i == 0
  {
    if i < 5 then i
    else if input.id != c.lessons.id then i
    else i + 1
  }

  lemma ReportPrefixesAreOk(input: Document, c: Catalog)
    ensures PrefixesOk(ReportOwners(input, c))
    ensures forall o :: o in ReportOwners(input, c) ==> if o.prefix == "" then o == Owner("", c.research) else o.prefix[0] != 'R'
  {
    var owners := ReportOwners(input, c);
    ReportPrefixesAreStemmed();
    ReportPrefixesDiffer();
    assert owners[0] == Owner("", c.research);
    hide ReportOwners, Stemmed;
    forall i | 0 <= i < |owners|
      ensures owners[i].prefix == PREFIXES[PlaceOf(input, c, i)]
    {
    }
    forall o | o in owners
      ensures o.prefix == "" || Stemmed(o.prefix)
      ensures if o.prefix == "" then o == Owner("", c.research) else o.prefix[0] != 'R'
    {
      var i :| 0 <= i < |owners| && owners[i] == o;
    }
    forall i, j | 0 <= i < j < |owners|
      ensures owners[i].prefix != owners[j].prefix
    {
      PlacesDiffer(input, c, i, j);
    }
  }

  lemma PlacesDiffer(input: Document, c: Catalog, i: nat, j: nat)
    requires i < j < |ReportOwners(input, c)|
    ensures PlaceOf(input, c, i) < PlaceOf(input, c, j)
  {
  }

  lemma ReportNamesLookNumberedNowhere(l: Linkage, c: Catalog)
    requires l.owners == ReportOwners(l.input, c)
    requires !Starts(DEPENDENCY, l.input.defs.Keys) && !Starts(DEPENDENCY, c.research.defs.Keys)
    ensures !Starts(DEPENDENCY, Out(l).defs.Keys)
  {
    ReportPrefixesAreOk(l.input, c);
    hide ReportOwners, Copied, PrefixesOk;
    forall k | k in Out(l).defs.Keys
      ensures !(DEPENDENCY <= k)
    {
      if k !in l.input.defs {
        var i := OwnerOfName(l, k);
        NamesOfCopied(l.owners[i], k);
        assert l.owners[i] in l.owners;
        NotNumbered(l.owners[i], c, k);
      }
    }
  }

  lemma NotNumbered(o: Owner, c: Catalog, k: string)
    requires if o.prefix == "" then o == Owner("", c.research) else o.prefix[0] != 'R'
    requires k == o.prefix + "Root" || (o.prefix <= k && k[|o.prefix|..] in o.doc.defs)
    requires !Starts(DEPENDENCY, c.research.defs.Keys)
    ensures !(DEPENDENCY <= k)
  {
    if o.prefix == "" {
      assert k[0..] == k && "" + "Root" == "Root";
      assert |"Root"| < |DEPENDENCY|;
    } else {
      assert k[0] == o.prefix[0] && DEPENDENCY[0] == 'R';
    }
  }

  /** A report that can be declared: both passes can tell their identities and names apart, and meet only references of known forms. */
  ghost predicate Reportable(input: Document, c: Catalog, references: seq<Document>, world: World) {
    var l, more := Linkage(input, ReportOwners(input, c), world), Numbered(references);
    && IdsOk(l) && CleanHomes(l) && PlainNames(input, l.owners)
    && IdsOk(Again(l, more)) && NoneDefinesRoot(more)
    && !Starts(DEPENDENCY, input.defs.Keys) && !Starts(DEPENDENCY, c.research.defs.Keys)
    && CleanSecond(l, more)
  }

  ghost predicate CleanSecond(l: Linkage, more: seq<Owner>) {
    && (forall h: Home :: h.Of? && IsHome(Again(l, more), h) ==> CleanHome(Again(l, more), h))
    && (forall h :: IsHome(l, h) ==>
          && (forall k :: k in HomeDoc(l, h).defs ==> CleanAgain(l, more, HomeDoc(l, h).defs[k]))
          && CleanAgain(l, more, Object(HomeDoc(l, h).root)))
  }

  lemma ReportableIsLinkable(input: Document, c: Catalog, references: seq<Document>, world: World)
    requires Reportable(input, c, references, world)
    ensures var l := Linkage(input, ReportOwners(input, c), world);
            Linkable(l) && Ready(l, Numbered(references))
  {
    var l, more := Linkage(input, ReportOwners(input, c), world), Numbered(references);
    hide IdsOk, NamesOk, CleanHome, CleanAgain, PrefixesOk, PlainNames, Numbered, NoneDefinesRoot, Starts, ReportOwners, Out;
    ReportPrefixesAreOk(input, c);
    NamesFromPrefixes(l);
    NumberedPrefixesAreOk(references);
    ReportNamesLookNumberedNowhere(l, c);
    NumberedNamesArePlain(Out(l), references);
    NamesFromPrefixes(Again(l, more));
  }

  /** Every reference both passes know opens in the output as it did at first, where such owners are alike in either pass, and no owner of the second pass is referred to any more. */
  ghost predicate MeansTwice(l: Linkage, more: seq<Owner>, output: Document) {
    && (forall h, depth: nat, r :: IsHome(l, h) && Known(l, h, r) && KnownAgain(more, r) && Alike(l, depth) && Alike(Again(l, more), depth) ==>
          Open(l.world, output, depth, Rewrite(Again(l, more), Own, Rewrite(l, h, r))) == Open(l.world, HomeDoc(l, h), depth, r))
    && Means(Again(l, more), output)
  }

  lemma LinkedMeansTwice(l: Linkage, more: seq<Owner>)
    requires Linkable(l) && Ready(l, more)
    ensures MeansTwice(l, more, Out(Again(l, more)))
  {
    hide Linkable, Ready, Known, KnownAgain, Open, Rewrite, Out, Means, Alike;
    forall h, depth: nat, r | IsHome(l, h) && Known(l, h, r) && KnownAgain(more, r) && Alike(l, depth) && Alike(Again(l, more), depth)
      ensures Open(l.world, Out(Again(l, more)), depth, Rewrite(Again(l, more), Own, Rewrite(l, h, r))) == Open(l.world, HomeDoc(l, h), depth, r)
    {
      OpensTheSameAfterBothPasses(l, more, h, r, depth);
    }
    SecondPassIsLinkable(l, more);
    LinkedMeans(Again(l, more));
  }

  // What a report's declaration holds, document by document.

  /** A reference to a document is made by the output exactly if a research reference makes it, and the document is none of those. */
  ghost predicate GoneAt(d: Document, references: seq<Document>, output: Document, q: string) {
    Refers(output, q) <==> (forall r :: r in references ==> r.id != d.id) && exists r :: r in references && Refers(r, q)
  }

  ghost predicate GoneBut(d: Document, references: seq<Document>, output: Document) {
    d.id.Some? && forall q :: Base(q) == d.id.value ==> GoneAt(d, references, output, q)
  }

  ghost predicate Linked1(d: Document, prefix: string, references: seq<Document>, output: Document, world: World, like: set<nat>) {
    Inlined(d, prefix, output, world, like) && GoneBut(d, references, output)
  }

  /** Research, run identity and the three MAS documents always; lessons unless the report is the lessons document; domains, ablation and audit for the research report alone. */
  ghost predicate SelfContained(input: Document, c: Catalog, references: seq<Document>, output: Document, world: World, like: set<nat>) {
    && Linked1(c.research, "", references, output, world, like)
    && Linked1(c.runIdentity, "Config_", references, output, world, like)
    && Linked1(c.masRuntime, "MasRuntime_", references, output, world, like)
    && Linked1(c.masWorkflow, "MasWorkflow_", references, output, world, like)
    && Linked1(c.masRegistry, "MasRegistry_", references, output, world, like)
    && (input.id != c.lessons.id ==> Linked1(c.lessons, "Lessons_", references, output, world, like))
    && (input.id == Some("https://tangleai.dev/schemas/research") ==>
          && Linked1(c.domains, "Domains_", references, output, world, like)
          && Linked1(c.ablation, "Ablation_", references, output, world, like)
          && Linked1(c.audit, "Audit_", references, output, world, like))
  }

  /** A root that is not linked is there only if the report or the research document defines that name itself. */
  ghost predicate Unlinked(prefix: string, input: Document, c: Catalog, output: Document) {
    prefix + "Root" in output.defs <==> prefix + "Root" in input.defs || prefix + "Root" in c.research.defs
  }

  /** Nothing else is linked. */
  ghost predicate NoMore(input: Document, c: Catalog, output: Document) {
    && (input.id == c.lessons.id ==> Unlinked("Lessons_", input, c, output))
    && (input.id != Some("https://tangleai.dev/schemas/research") ==>
          Unlinked("Domains_", input, c, output) && Unlinked("Ablation_", input, c, output) && Unlinked("Audit_", input, c, output))
  }

  /** The depths to which the owners that refer to their own root are like the document, in either pass. */
  ghost predicate AreLike(l: Linkage, more: seq<Owner>, like: set<nat>) {
    forall depth :: depth in like ==> Alike(l, depth) && Alike(Again(l, more), depth)
  }

  lemma OwnerIsInlined(l: Linkage, more: seq<Owner>, i: nat, like: set<nat>)
    requires Linkable(l) && Ready(l, more) && i < |l.owners| && AreLike(l, more, like)
    ensures Inlined(l.owners[i].doc, l.owners[i].prefix, Out(Again(l, more)), l.world, like)
  {
    hide Linkable, Ready, Out, Alike, Unfold;
    OwnerRootMeansTheSame(l, more, i, 0);
    var d := l.owners[i].doc;
    forall depth | depth in like
      ensures Unfold(l.world, Out(Again(l, more)), depth, Out(Again(l, more)).defs[l.owners[i].prefix + "Root"]) == Unfold(l.world, d, depth, Object(d.root))
    {
      OwnerRootMeansTheSame(l, more, i, depth);
    }
    forall name | name in d.defs
      ensures l.owners[i].prefix + name in Out(Again(l, more)).defs
    {
      OwnerDefinitionMeansTheSame(l, more, i, name, 0);
    }
    forall name, depth | name in d.defs && depth in like
      ensures Unfold(l.world, Out(Again(l, more)), depth, Out(Again(l, more)).defs[l.owners[i].prefix + name]) == Unfold(l.world, d, depth, d.defs[name])
    {
      OwnerDefinitionMeansTheSame(l, more, i, name, depth);
    }
  }

  lemma IdsOfNumbered(references: seq<Document>, id: string)
    requires id != ""
    ensures id in Ids(Numbered(references)) <==> exists r :: r in references && r.id == Some(id)
  {
    var owners := Numbered(references);
    hide NumberedPrefix;
    forall r | r in references
      ensures exists o :: o in owners && o.doc == r
    {
      var i :| 0 <= i < |references| && references[i] == r;
      assert owners[i] in owners;
    }
  }

  lemma NumberedRefer(references: seq<Document>, q: string)
    ensures (exists j :: 0 <= j < |Numbered(references)| && Refers(Numbered(references)[j].doc, q)) <==> exists r :: r in references && Refers(r, q)
  {
    hide Refers, NumberedPrefix;
    if r :| r in references && Refers(r, q) {
      var j :| 0 <= j < |references| && references[j] == r;
      assert Refers(Numbered(references)[j].doc, q);
    }
  }

  lemma OwnerHasId(l: Linkage, i: nat)
    requires IdsOk(l) && i < |l.owners|
    ensures var d := l.owners[i].doc; d.id.Some? && d.id.value != "" && d.id.value in Ids(l.owners)
  {
    PlainIds(l.owners);
    assert l.owners[i] in l.owners && Identity(l.owners[i]) != "";
  }

  lemma OwnerIsGoneAt(l: Linkage, references: seq<Document>, d: Document, q: string)
    requires Linkable(l) && Ready(l, Numbered(references))
    requires d.id.Some? && d.id.value != "" && d.id.value in Ids(l.owners) && Base(q) == d.id.value
    ensures GoneAt(d, references, Out(Again(l, Numbered(references))), q)
  {
    hide Linkable, Ready, Out, Refers, Ids, Numbered, Base, Again;
    IdsOfNumbered(references, d.id.value);
    FirstOwnersRemainIff(l, Numbered(references), q);
    NumberedRefer(references, q);
    assert d.id == Some(d.id.value);
  }

  lemma OwnerIsGone(l: Linkage, references: seq<Document>, i: nat)
    requires Linkable(l) && Ready(l, Numbered(references)) && i < |l.owners|
    ensures GoneBut(l.owners[i].doc, references, Out(Again(l, Numbered(references))))
  {
    LinkableIds(l);
    OwnerHasId(l, i);
    var d := l.owners[i].doc;
    hide Linkable, IdsOk, Ready, Out, GoneAt, Ids, Numbered, Base, Again;
    forall q | Base(q) == d.id.value
      ensures GoneAt(d, references, Out(Again(l, Numbered(references))), q)
    {
      OwnerIsGoneAt(l, references, d, q);
    }
  }

  lemma OwnerIsLinked(l: Linkage, references: seq<Document>, i: nat, d: Document, prefix: string, like: set<nat>)
    requires Linkable(l) && Ready(l, Numbered(references)) && i < |l.owners| && AreLike(l, Numbered(references), like)
    requires l.owners[i] == Owner(prefix, d)
    ensures Linked1(d, prefix, references, Out(Again(l, Numbered(references))), l.world, like)
  {
    hide Linkable, Ready, Out, AreLike, Inlined, GoneBut;
    OwnerIsInlined(l, Numbered(references), i, like);
    OwnerIsGone(l, references, i);
  }

  lemma ReportOwnersAre(input: Document, c: Catalog)
    ensures var owners := ReportOwners(input, c);
            && |owners| >= 5
            && owners[0] == Owner("", c.research) && owners[1] == Owner("Config_", c.runIdentity) && owners[2] == Owner("MasRuntime_", c.masRuntime)
            && owners[3] == Owner("MasWorkflow_", c.masWorkflow) && owners[4] == Owner("MasRegistry_", c.masRegistry)
            && (input.id != c.lessons.id ==> |owners| >= 6 && owners[5] == Owner("Lessons_", c.lessons))
            && (input.id == Some("https://tangleai.dev/schemas/research") ==>
                  && |owners| >= 8
                  && owners[|owners| - 3] == Owner("Domains_", c.domains)
                  && owners[|owners| - 2] == Owner("Ablation_", c.ablation)
                  && owners[|owners| - 1] == Owner("Audit_", c.audit))
  {
    assert RESEARCH_ID == "https://tangleai.dev/schemas/research";
  }

  lemma ReportPrefixesAre(input: Document, c: Catalog)
    ensures forall o :: o in ReportOwners(input, c) ==>
              || o.prefix in PREFIXES[..5]
              || (input.id != c.lessons.id && o.prefix == PREFIXES[5])
              || (input.id == Some("https://tangleai.dev/schemas/research") && o.prefix in PREFIXES[6..])
  {
    var owners := ReportOwners(input, c);
    hide ReportOwners;
    forall o | o in owners
      ensures o.prefix in PREFIXES[..5] || (input.id != c.lessons.id && o.prefix == PREFIXES[5])
              || (input.id == Some("https://tangleai.dev/schemas/research") && o.prefix in PREFIXES[6..])
    {
      var i :| 0 <= i < |owners| && owners[i] == o;
      PlaceIsListed(input, c, i);
      var k := PlaceOf(input, c, i);
      assert k < 5 ==> PREFIXES[k] == PREFIXES[..5][k];
      assert k > 5 ==> PREFIXES[k] == PREFIXES[6..][k - 6];
    }
  }

  lemma PlaceIsListed(input: Document, c: Catalog, i: nat)
    requires i < |ReportOwners(input, c)|
    ensures PlaceOf(input, c, i) == 5 ==> input.id != c.lessons.id
    ensures PlaceOf(input, c, i) > 5 ==> input.id == Some("https://tangleai.dev/schemas/research")
  {
  }

  lemma ReportIsSelfContained(input: Document, c: Catalog, references: seq<Document>, world: World, like: set<nat>)
    requires Reportable(input, c, references, world)
    requires AreLike(Linkage(input, ReportOwners(input, c), world), Numbered(references), like)
    ensures var l := Linkage(input, ReportOwners(input, c), world);
            SelfContained(input, c, references, Out(Again(l, Numbered(references))), world, like)
  {
    var l := Linkage(input, ReportOwners(input, c), world);
    var n := |l.owners|;
    ReportableIsLinkable(input, c, references, world);
    ReportOwnersAre(input, c);
    hide Reportable, ReportOwners, Linkable, Ready, Out, AreLike, Linked1, Numbered, Again;
    OwnerIsLinked(l, references, 0, c.research, "", like);
    OwnerIsLinked(l, references, 1, c.runIdentity, "Config_", like);
    OwnerIsLinked(l, references, 2, c.masRuntime, "MasRuntime_", like);
    OwnerIsLinked(l, references, 3, c.masWorkflow, "MasWorkflow_", like);
    OwnerIsLinked(l, references, 4, c.masRegistry, "MasRegistry_", like);
    if input.id != c.lessons.id {
      OwnerIsLinked(l, references, 5, c.lessons, "Lessons_", like);
    }
    if input.id == Some("https://tangleai.dev/schemas/research") {
      OwnerIsLinked(l, references, n - 3, c.domains, "Domains_", like);
      OwnerIsLinked(l, references, n - 2, c.ablation, "Ablation_", like);
      OwnerIsLinked(l, references, n - 1, c.audit, "Audit_", like);
    }
  }

  lemma OtherStemIsNotCopied(o: Owner, prefix: string)
    requires Stemmed(prefix) && Stemmed(o.prefix) && o.prefix != prefix
    ensures prefix + "Root" !in Copied(o)
  {
    if prefix + "Root" in Copied(o) {
      NamesOfCopied(o, prefix + "Root");
      hide Copied;
      if prefix + "Root" == o.prefix + "Root" {
        StemIsFirst(prefix, o.prefix, "Root", "Root");
      } else {
        StemIsFirst(prefix, o.prefix, "Root", (prefix + "Root")[|o.prefix|..]);
      }
    }
  }

  lemma PlainIsCopiedAsIs(o: Owner, k: string)
    requires o.prefix == "" && k != "Root"
    ensures k in Copied(o) <==> k in o.doc.defs
  {
    assert "" + "Root" == "Root" && k[0..] == k && "" <= k;
  }

  /** A name of the linked document is the document's own or an owner's copy. */
  lemma NamesOfOut(l: Linkage, k: string)
    requires NamesOk(l)
    ensures k in Out(l).defs <==> k in l.input.defs || exists o :: o in l.owners && k in Copied(o)
  {
    hide Copied;
    if k in Out(l).defs && k !in l.input.defs {
      var i := OwnerOfName(l, k);
      assert l.owners[i] in l.owners;
    }
    if o :| o in l.owners && k in Copied(o) {
      var i :| 0 <= i < |l.owners| && l.owners[i] == o;
      CopiedIsFound(l.owners, i, k);
    }
  }

  lemma NumberedIsNotCopied(references: seq<Document>, prefix: string)
    requires Stemmed(prefix) && prefix[0] != 'R'
    ensures forall o :: o in Numbered(references) ==> prefix + "Root" !in Copied(o)
  {
    forall o | o in Numbered(references)
      ensures prefix + "Root" !in Copied(o)
    {
      var i :| 0 <= i < |references| && Numbered(references)[i] == o;
      NumberedIsStemmed(i);
      assert NumberedPrefix(i)[0] == DEPENDENCY[0] == 'R';
      hide Copied, NumberedPrefix;
      OtherStemIsNotCopied(o, prefix);
    }
  }

  lemma NothingElseIsLinked(l: Linkage, c: Catalog, references: seq<Document>, prefix: string)
    requires NamesOk(l) && NamesOk(Again(l, Numbered(references)))
    requires l.owners != [] && l.owners[0] == Owner("", c.research)
    requires Stemmed(prefix) && prefix[0] != 'R'
    requires forall o :: o in l.owners ==> o == Owner("", c.research) || (Stemmed(o.prefix) && o.prefix != prefix)
    ensures Unlinked(prefix, l.input, c, Out(Again(l, Numbered(references))))
  {
    var k := prefix + "Root";
    NamesOfOut(l, k);
    NamesOfOut(Again(l, Numbered(references)), k);
    NumberedIsNotCopied(references, prefix);
    assert k != "Root" by {
      assert |k| > 4;
    }
    PlainIsCopiedAsIs(Owner("", c.research), k);
    hide Copied, Stemmed, NamesOk, Numbered, Out;
    forall o | o in l.owners && o != Owner("", c.research)
      ensures k !in Copied(o)
    {
      OtherStemIsNotCopied(o, prefix);
    }
    assert Owner("", c.research) in l.owners;
  }

  lemma ReportLinksNoMore(input: Document, c: Catalog, references: seq<Document>, world: World)
    requires Reportable(input, c, references, world)
    ensures NoMore(input, c, Out(Again(Linkage(input, ReportOwners(input, c), world), Numbered(references))))
  {
    var l := Linkage(input, ReportOwners(input, c), world);
    ReportableIsLinkable(input, c, references, world);
    SecondPassIsLinkable(l, Numbered(references));
    LinkableNames(l);
    LinkableNames(Again(l, Numbered(references)));
    ReportOwnersAre(input, c);
    ReportPrefixesAreStemmed();
    ReportPrefixesAreOk(input, c);
    assert Stemmed(PREFIXES[5]) && Stemmed(PREFIXES[6]) && Stemmed(PREFIXES[7]) && Stemmed(PREFIXES[8]);
    PrefixesOfOthers(input, c);
    hide Reportable, ReportOwners, Linkable, Ready, Out, NamesOk, Stemmed, Unlinked, PrefixesOk, Numbered;
    if input.id == c.lessons.id {
      NothingElseIsLinked(l, c, references, "Lessons_");
    }
    if input.id != Some("https://tangleai.dev/schemas/research") {
      NothingElseIsLinked(l, c, references, "Domains_");
      NothingElseIsLinked(l, c, references, "Ablation_");
      NothingElseIsLinked(l, c, references, "Audit_");
    }
  }

  lemma PrefixesOfOthers(input: Document, c: Catalog)
    ensures input.id == c.lessons.id ==> forall o :: o in ReportOwners(input, c) ==> o.prefix != "Lessons_"
    ensures input.id != Some("https://tangleai.dev/schemas/research") ==>
              forall o :: o in ReportOwners(input, c) ==> o.prefix != "Domains_" && o.prefix != "Ablation_" && o.prefix != "Audit_"
  {
    ReportPrefixesAre(input, c);
    ReportPrefixesDiffer();
    hide ReportOwners;
    assert PREFIXES[5] == "Lessons_" && PREFIXES[6] == "Domains_" && PREFIXES[7] == "Ablation_" && PREFIXES[8] == "Audit_";
  }

  /** A report is linked to its owners, and the result to the research references: what it refers to means what it meant. */
  method ResearchReportDeclarationSchema(input: Document, c: Catalog, references: seq<Document>, ghost world: World) returns (output: Document)
    ensures output == Linked(Linked(input, ReportOwners(input, c)), Numbered(references))
    ensures Reportable(input, c, references, world) ==>
              MeansTwice(Linkage(input, ReportOwners(input, c), world), Numbered(references), output)
    ensures Reportable(input, c, references, world) ==>
              && NoMore(input, c, output)
              && forall like :: AreLike(Linkage(input, ReportOwners(input, c), world), Numbered(references), like) ==>
                   SelfContained(input, c, references, output, world, like)
  {
    var owners := [Owner("", c.research), Owner("Config_", c.runIdentity), Owner("MasRuntime_", c.masRuntime),
                   Owner("MasWorkflow_", c.masWorkflow), Owner("MasRegistry_", c.masRegistry)];
    if input.id != c.lessons.id {
      owners := owners + [Owner("Lessons_", c.lessons)];
    }
    if input.id == Some(RESEARCH_ID) {
      owners := owners + [Owner("Domains_", c.domains), Owner("Ablation_", c.ablation), Owner("Audit_", c.audit)];
    }
    assert owners == ReportOwners(input, c);
    hide Linked, Numbered, ReportOwners, Declarable, Reportable, Means, MeansTwice, NoMore, SelfContained, AreLike, Dependencies;
    var linked := WithOwners(input, owners);
    output := ResearchDeclarationSchema(linked, references, world);
    ghost var l := Linkage(input, ReportOwners(input, c), world);
    assert Out(l) == linked && Out(Again(l, Numbered(references))) == output;
    if Reportable(input, c, references, world) {
      ReportableIsLinkable(input, c, references, world);
      LinkedMeansTwice(l, Numbered(references));
      ReportLinksNoMore(input, c, references, world);
      forall like | AreLike(l, Numbered(references), like)
        ensures SelfContained(input, c, references, output, world, like)
      {
        ReportIsSelfContained(input, c, references, world, like);
      }
    }
  }
}
