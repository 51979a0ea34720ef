/** The seeded retrieval corpus: distinct statements, distractors, the shuffle, gold labels and the questions. */
module RetrievalCorpus {
  import opened Options
  import opened DealingOrders
  import opened QuestionGroups
  import opened Sequences
  import opened Text

  datatype Topic = Topic(tag: string, subjects: seq<string>, verbs: seq<string>, objects: seq<string>)

  /** One attempt at a fact, or at a distractor; each number stands for what the generator draws from a list. */
  datatype Words = Words(subject: nat, verb: nat, item: nat)
  datatype Draw = SameTag(topic: nat, subject: nat, verb: nat, item: nat) | Lexical(fact: nat, topic: nat, verb: nat, item: nat)

  datatype Record = Record(text: string, fact: Option<nat>)
  datatype Memory = Memory(id: string, text: string)
  datatype Question = Question(topic: nat, facts: seq<nat>, gold: seq<string>)

  const SMALL: nat := 1000
  const LARGE: nat := 10000

  function Upper(c: char): char {
    if 'a' <= c <= 'z' then c - 32 as char else c
  }

  function Sentence(subject: string, verb: string, item: string): string {
    (if subject == "" then "" else [Upper(subject[0])] + subject[1..]) + " " + verb + " " + item + "."
  }

  function Chosen(list: seq<string>, draw: nat): string {
    if list == [] then "" else list[draw % |list|]
  }

  function Texts(facts: seq<Fact>): set<string> {
    set f | f in facts :: f.text
  }

  predicate DistinctFacts(facts: seq<Fact>) {
    forall i, j :: 0 <= i < j < |facts| ==> facts[i].text != facts[j].text
  }

  predicate DistinctTexts(records: seq<Record>) {
    forall i, j :: 0 <= i < j < |records| ==> records[i].text != records[j].text
  }

  /** Twelve statements for each of the first topics, in their order. */
  predicate InTopicOrder(facts: seq<Fact>) {
    forall i :: 0 <= i < |facts| ==> facts[i].topic == i / FACTS_PER_TOPIC
  }

  /** A statement of a topic's own vocabulary: its subject, then its verb, then its object. */
  predicate Says(topic: Topic, w: Words, f: Fact) {
    && f.subject == Chosen(topic.subjects, w.subject)
    && f.text == Sentence(f.subject, Chosen(topic.verbs, w.verb), Chosen(topic.objects, w.item))
  }

  ghost predicate FromVocabulary(topics: seq<Topic>, facts: seq<Fact>) {
    forall i :: 0 <= i < |facts| ==> facts[i].topic < |topics| && exists w: Words :: Says(topics[facts[i].topic], w, facts[i])
  }

  /** The facts, drawn until every topic has twelve new statements; None when the draws run out. */
  method DrawFacts(topics: seq<Topic>, draws: seq<Words>) returns (facts: Option<seq<Fact>>)
    ensures facts.Some? ==> |facts.value| == FACTS_PER_TOPIC * |topics| && InTopicOrder(facts.value) && DistinctFacts(facts.value)
    ensures facts.Some? ==> FromVocabulary(topics, facts.value)
  {
    var all: seq<Fact>, statements: set<string>, next := [], {}, 0;
    for index := 0 to |topics|
      invariant |all| == FACTS_PER_TOPIC * index && InTopicOrder(all) && DistinctFacts(all) && statements == Texts(all)
      invariant FromVocabulary(topics, all)
    {
      var topic, own := topics[index], 0;
      while own < FACTS_PER_TOPIC
        invariant own <= FACTS_PER_TOPIC && |all| == FACTS_PER_TOPIC * index + own
        invariant InTopicOrder(all) && DistinctFacts(all) && statements == Texts(all)
        invariant FromVocabulary(topics, all)
        decreases |draws| - next
      {
        if next >= |draws| {
          return None;
        }
        var draw := draws[next];
        next := next + 1;
        var subject := Chosen(topic.subjects, draw.subject);
        var text := Sentence(subject, Chosen(topic.verbs, draw.verb), Chosen(topic.objects, draw.item));
        if text !in statements {
          NewFactIsDistinct(all, Fact(index, subject, text));
          assert Says(topic, draw, Fact(index, subject, text));
          all, statements, own := all + [Fact(index, subject, text)], statements + {text}, own + 1;
        }
      }
    }
    facts := Some(all);
  }

  lemma NewFactIsDistinct(facts: seq<Fact>, f: Fact)
    requires DistinctFacts(facts) && f.text !in Texts(facts)
    ensures DistinctFacts(facts + [f]) && Texts(facts + [f]) == Texts(facts) + {f.text}
  {
    var more := facts + [f];
    forall i | 0 <= i < |facts|
      ensures more[i].text != f.text
    {
      assert facts[i] in facts;
    }
    assert forall g :: g in more <==> g in facts || g == f;
  }

  // What a statement says.

  /** A statement of three parts: the subject with its first letter raised, the verb, the object, and a full stop. */
  ghost predicate Composes(text: string, subject: string, verb: string, item: string) {
    && |text| == |subject| + |verb| + |item| + 3
    && (forall i :: 1 <= i < |subject| ==> text[i] == subject[i])
    && (subject != "" ==> text[0] == subject[0] || ('a' <= subject[0] <= 'z' && 'A' <= text[0] <= 'Z' && text[0] as int + 32 == subject[0] as int))
    && (subject != "" && 'a' <= subject[0] <= 'z' ==> text[0] != subject[0])
    && text[|subject|] == ' ' && text[|subject| + 1..|subject| + 1 + |verb|] == verb
    && text[|subject| + 1 + |verb|] == ' ' && text[|subject| + 2 + |verb|..|text| - 1] == item
    && text[|text| - 1] == '.'
  }

  lemma SentenceComposes(subject: string, verb: string, item: string)
    ensures Composes(Sentence(subject, verb, item), subject, verb, item)
  {
    var head := if subject == "" then "" else [Upper(subject[0])] + subject[1..];
    var text := Sentence(subject, verb, item);
    assert |head| == |subject| && text == head + " " + verb + " " + item + ".";
    assert text[..|head|] == head;
    forall i | 1 <= i < |subject|
      ensures text[i] == subject[i]
    {
      assert text[i] == head[i];
    }
    assert subject != "" ==> text[0] == head[0] == Upper(subject[0]);
  }

  /** A topic's vocabulary: none of its lists is empty. */
  predicate Speaks(topic: Topic) {
    topic.subjects != [] && topic.verbs != [] && topic.objects != []
  }

  /** A fact's text is made of a subject, a verb and an object of its own topic. */
  lemma FactComposes(topics: seq<Topic>, facts: seq<Fact>, i: nat)
    requires FromVocabulary(topics, facts) && i < |facts| && forall t :: t in topics ==> Speaks(t)
    ensures facts[i].topic < |topics|
    ensures var topic := topics[facts[i].topic];
            facts[i].subject in topic.subjects && exists verb, item :: verb in topic.verbs && item in topic.objects && Composes(facts[i].text, facts[i].subject, verb, item)
  {
    var topic := topics[facts[i].topic];
    assert topic in topics;
    var w: Words :| Says(topic, w, facts[i]);
    ChosenIsListed(topic.subjects, w.subject);
    ChosenIsListed(topic.verbs, w.verb);
    ChosenIsListed(topic.objects, w.item);
    SentenceComposes(facts[i].subject, Chosen(topic.verbs, w.verb), Chosen(topic.objects, w.item));
    hide Composes;
  }

  lemma ChosenIsListed(list: seq<string>, draw: nat)
    requires list != []
    ensures Chosen(list, draw) in list
  {
  }

  lemma EveryItemIsChosen(list: seq<string>, item: string) returns (draw: nat)
    requires item in list
    ensures Chosen(list, draw) == item
  {
    draw :| 0 <= draw < |list| && list[draw] == item;
    SmallModulo(draw, |list|);
  }

  lemma SmallModulo(a: nat, n: nat)
    requires a < n
    ensures a % n == a
  {
  }

  /** A distractor says one topic's words, or a fact's subject with the words of another topic than the fact's. */
  ghost predicate Distracts(topics: seq<Topic>, facts: seq<Fact>, text: string) {
    || (exists topic, subject, verb, item :: topic in topics && subject in topic.subjects && verb in topic.verbs && item in topic.objects
          && text == Sentence(subject, verb, item))
    || (exists f, k, verb, item :: f in facts && 0 <= k < |topics| && k != f.topic && verb in topics[k].verbs && item in topics[k].objects
          && text == Sentence(f.subject, verb, item))
  }

  lemma DistractorIff(topics: seq<Topic>, facts: seq<Fact>, text: string)
    requires topics != [] && facts != [] && forall t :: t in topics ==> Speaks(t)
    ensures IsDistractor(topics, facts, Record(text, None)) <==> Distracts(topics, facts, text)
  {
    hide Distracts, Attempted;
    if draw: Draw :| Attempted(topics, facts, draw) == Some(text) {
      AttemptDistracts(topics, facts, draw, text);
    }
    if Distracts(topics, facts, text) {
      var draw := DistractorIsAttempted(topics, facts, text);
    }
  }

  lemma TopicIsAttempted(topics: seq<Topic>, facts: seq<Fact>, k: nat, subject: string, verb: string, item: string) returns (draw: Draw)
    requires facts != [] && k < |topics| && subject in topics[k].subjects && verb in topics[k].verbs && item in topics[k].objects
    ensures Attempted(topics, facts, draw) == Some(Sentence(subject, verb, item))
  {
    hide Chosen, Sentence;
    var a := EveryItemIsChosen(topics[k].subjects, subject);
    var b := EveryItemIsChosen(topics[k].verbs, verb);
    var c := EveryItemIsChosen(topics[k].objects, item);
    SmallModulo(k, |topics|);
    draw := SameTag(k, a, b, c);
  }

  lemma SubjectIsAttempted(topics: seq<Topic>, facts: seq<Fact>, n: nat, k: nat, verb: string, item: string) returns (draw: Draw)
    requires n < |facts| && k < |topics| && k != facts[n].topic && verb in topics[k].verbs && item in topics[k].objects
    ensures Attempted(topics, facts, draw) == Some(Sentence(facts[n].subject, verb, item))
  {
    hide Chosen, Sentence;
    var b := EveryItemIsChosen(topics[k].verbs, verb);
    var c := EveryItemIsChosen(topics[k].objects, item);
    SmallModulo(k, |topics|);
    SmallModulo(n, |facts|);
    draw := Lexical(n, k, b, c);
  }

  lemma DistractorIsAttempted(topics: seq<Topic>, facts: seq<Fact>, text: string) returns (draw: Draw)
    requires topics != [] && facts != [] && Distracts(topics, facts, text)
    ensures Attempted(topics, facts, draw) == Some(text)
  {
    hide Attempted, Sentence;
    if topic, subject, verb, item :| topic in topics && subject in topic.subjects && verb in topic.verbs && item in topic.objects && text == Sentence(subject, verb, item) {
      var k :| 0 <= k < |topics| && topics[k] == topic;
      draw := TopicIsAttempted(topics, facts, k, subject, verb, item);
    } else {
      var f, k, verb, item :| f in facts && 0 <= k < |topics| && k != f.topic && verb in topics[k].verbs && item in topics[k].objects && text == Sentence(f.subject, verb, item);
      var n :| 0 <= n < |facts| && facts[n] == f;
      draw := SubjectIsAttempted(topics, facts, n, k, verb, item);
    }
  }

  lemma AttemptDistracts(topics: seq<Topic>, facts: seq<Fact>, draw: Draw, text: string)
    requires topics != [] && facts != [] && (forall t :: t in topics ==> Speaks(t)) && Attempted(topics, facts, draw) == Some(text)
    ensures Distracts(topics, facts, text)
  {
    var k := draw.topic % |topics|;
    var topic := topics[k];
    assert topic in topics;
    ChosenIsListed(topic.verbs, draw.verb);
    ChosenIsListed(topic.objects, draw.item);
    hide Sentence, Chosen;
    if draw.SameTag? {
      ChosenIsListed(topic.subjects, draw.subject);
    } else {
      assert facts[draw.fact % |facts|] in facts;
    }
  }

  function Statements(records: seq<Record>): set<string> {
    set r | r in records :: r.text
  }

  lemma NewRecordIsDistinct(records: seq<Record>, r: Record)
    requires DistinctTexts(records) && r.text !in Statements(records)
    ensures DistinctTexts(records + [r]) && Statements(records + [r]) == Statements(records) + {r.text}
  {
    var more := records + [r];
    forall i | 0 <= i < |records|
      ensures more[i].text != r.text
    {
      assert records[i] in records;
    }
    assert forall g :: g in more <==> g in records || g == r;
  }

  /** What one attempt at a distractor states; None when a lexical one drew its own topic. */
  function Attempted(topics: seq<Topic>, facts: seq<Fact>, draw: Draw): Option<string>
    requires topics != [] && facts != []
  {
    var topic := topics[draw.topic % |topics|];
    var rest := (Chosen(topic.verbs, draw.verb), Chosen(topic.objects, draw.item));
    match draw
    case SameTag(_, subject, _, _) => Some(Sentence(Chosen(topic.subjects, subject), rest.0, rest.1))
    case Lexical(fact, index, _, _) =>
      var f := facts[fact % |facts|];
      if index % |topics| == f.topic then None else Some(Sentence(f.subject, rest.0, rest.1))
  }

  /** A record no fact labels, composed the way a distractor is. */
  ghost predicate IsDistractor(topics: seq<Topic>, facts: seq<Fact>, r: Record)
    requires topics != [] && facts != []
  {
    r.fact.None? && exists draw: Draw :: Attempted(topics, facts, draw) == Some(r.text)
  }

  /** Distractors until there are `size` records, none of them saying what another record says. */
  method AddDistractors(topics: seq<Topic>, facts: seq<Fact>, records: seq<Record>, size: nat, draws: seq<Draw>) returns (more: Option<seq<Record>>)
    requires topics != [] && facts != [] && DistinctTexts(records)
    ensures more.Some? ==>
              && records <= more.value && DistinctTexts(more.value) && |more.value| >= size
              && |more.value| == (if |records| < size then size else |records|)
              && forall i :: |records| <= i < |more.value| ==> more.value[i].fact.None? && IsDistractor(topics, facts, more.value[i])
  {
    var all, statements, next := records, Statements(records), 0;
    while |all| < size
      invariant records <= all && |all| <= (if |records| < size then size else |records|)
      invariant DistinctTexts(all) && statements == Statements(all)
      invariant forall i :: |records| <= i < |all| ==> IsDistractor(topics, facts, all[i])
      decreases |draws| - next
    {
      if next >= |draws| {
        return None;
      }
      var text := Attempted(topics, facts, draws[next]);
      next := next + 1;
      if text.Some? && text.value !in statements {
        assert Attempted(topics, facts, draws[next - 1]) == Some(text.value);
        NewRecordIsDistinct(all, Record(text.value, None));
        all, statements := all + [Record(text.value, None)], statements + {text.value};
      }
    }
    more := Some(all);
  }

  /** A shuffle in place: any run of exchanges. */
  method Shuffle<T>(a: array<T>, swaps: seq<(nat, nat)>)
    modifies a
    ensures a[..] == Swapped(old(a[..]), swaps)
  {
    for k := 0 to |swaps|
      invariant a[..] == Swapped(old(a[..]), swaps[..k])
    {
      var i, j := swaps[k].0, swaps[k].1;
      assert swaps[..k + 1][..k] == swaps[..k];
      if i < a.Length && j < a.Length {
        a[i], a[j] := a[j], a[i];
      }
    }
    assert swaps[..|swaps|] == swaps;
  }

  /** Every fact has exactly one record, which states it, and the labels number the facts. */
  predicate Labelled(facts: seq<Fact>, records: seq<Record>) {
    && (forall i :: 0 <= i < |records| && records[i].fact.Some? ==>
          records[i].fact.value < |facts| && records[i].text == facts[records[i].fact.value].text)
    && (forall f :: 0 <= f < |facts| ==> GoldRecord(facts, f) in records)
  }

  function GoldRecord(facts: seq<Fact>, f: nat): Record
    requires f < |facts|
  {
    Record(facts[f].text, Some(f))
  }

  /** The labels do not depend on the order of the records. */
  lemma ShuffleKeepsLabels(facts: seq<Fact>, records: seq<Record>, shuffled: seq<Record>)
    requires Labelled(facts, records) && multiset(shuffled) == multiset(records)
    ensures Labelled(facts, shuffled)
  {
    SameElements(shuffled, records);
    forall i | 0 <= i < |shuffled| && shuffled[i].fact.Some?
      ensures shuffled[i].fact.value < |facts| && shuffled[i].text == facts[shuffled[i].fact.value].text
    {
      assert shuffled[i] in records;
    }
  }

  /** A shuffle keeps the statements distinct. */
  lemma ShuffleKeepsDistinct(records: seq<Record>, shuffled: seq<Record>)
    requires DistinctTexts(records) && multiset(shuffled) == multiset(records)
    ensures DistinctTexts(shuffled)
  {
    SameElements(shuffled, records);
    forall i, j | 0 <= i < j < |shuffled|
      ensures shuffled[i].text != shuffled[j].text
    {
      assert shuffled[i] in shuffled && shuffled[j] in shuffled;
      OccursOnce(records, shuffled[i]);
      if shuffled[i] == shuffled[j] {
        TwiceIsTwo(shuffled, i, j);
      }
      var k :| 0 <= k < |records| && records[k] == shuffled[i];
      var l :| 0 <= l < |records| && records[l] == shuffled[j];
      assert k != l;
      assert records[k].text != records[l].text;
    }
  }

  /** The gold record of each fact lies among the first records. */
  predicate LabelledWithin(facts: seq<Fact>, records: seq<Record>, size: nat) {
    && size <= |records| && Labelled(facts, records[..size])
    && forall i :: size <= i < |records| ==> records[i].fact.None?
  }

  /** A record either states its fact or is a distractor. */
  ghost predicate Accounted(topics: seq<Topic>, facts: seq<Fact>, records: seq<Record>)
    requires topics != [] && facts != []
  {
    forall i :: 0 <= i < |records| ==> records[i].fact.Some? || IsDistractor(topics, facts, records[i])
  }

  lemma ShuffleKeepsAccounts(topics: seq<Topic>, facts: seq<Fact>, records: seq<Record>, shuffled: seq<Record>)
    requires topics != [] && facts != [] && Accounted(topics, facts, records) && multiset(shuffled) == multiset(records)
    ensures Accounted(topics, facts, shuffled)
  {
    SameElements(shuffled, records);
    hide IsDistractor;
    forall i | 0 <= i < |shuffled|
      ensures shuffled[i].fact.Some? || IsDistractor(topics, facts, shuffled[i])
    {
      assert shuffled[i] in records;
    }
  }

  lemma AccountsExtend(topics: seq<Topic>, facts: seq<Fact>, records: seq<Record>, more: seq<Record>)
    requires topics != [] && facts != [] && Accounted(topics, facts, records) && records <= more
    requires forall i :: |records| <= i < |more| ==> IsDistractor(topics, facts, more[i])
    ensures Accounted(topics, facts, more)
  {
    hide IsDistractor;
    forall i | 0 <= i < |records|
      ensures more[i] == records[i]
    {
    }
  }

  /** The records: the gold ones and distractors shuffled into the small corpus, then more distractors. */
  method DrawRecords(topics: seq<Topic>, facts: seq<Fact>, few: seq<Draw>, swaps: seq<(nat, nat)>, many: seq<Draw>) returns (records: Option<seq<Record>>)
    requires topics != [] && 0 < |facts| <= SMALL && DistinctFacts(facts)
    ensures records.Some? ==> |records.value| == LARGE && DistinctTexts(records.value) && LabelledWithin(facts, records.value, SMALL)
    ensures records.Some? ==> Accounted(topics, facts, records.value)
  {
    hide Labelled, Attempted, IsDistractor, Accounted;
    var gold := seq(|facts|, f requires 0 <= f < |facts| => GoldRecord(facts, f));
    GoldIsLabelled(facts, gold, gold);
    var first := AddDistractors(topics, facts, gold, SMALL, few);
    if first.None? {
      return None;
    }
    GoldIsLabelled(facts, gold, first.value);
    GoldIsAccounted(topics, facts, gold);
    AccountsExtend(topics, facts, gold, first.value);
    var small := new Record[SMALL](i requires 0 <= i < SMALL => first.value[i]);
    assert small[..] == first.value;
    Shuffle(small, swaps);
    ShuffleKeepsLabels(facts, first.value, small[..]);
    ShuffleKeepsDistinct(first.value, small[..]);
    ShuffleKeepsAccounts(topics, facts, first.value, small[..]);
    records := AddDistractors(topics, facts, small[..], LARGE, many);
    if records.Some? {
      assert records.value[..SMALL] == small[..];
      AccountsExtend(topics, facts, small[..], records.value);
    }
  }

  lemma GoldIsAccounted(topics: seq<Topic>, facts: seq<Fact>, gold: seq<Record>)
    requires topics != [] && facts != [] && forall i :: 0 <= i < |gold| ==> gold[i].fact.Some?
    ensures Accounted(topics, facts, gold)
  {
  }

  lemma GoldIsLabelled(facts: seq<Fact>, gold: seq<Record>, more: seq<Record>)
    requires |gold| == |facts| && forall f :: 0 <= f < |facts| ==> gold[f] == GoldRecord(facts, f)
    requires DistinctFacts(facts) && gold <= more && forall i :: |gold| <= i < |more| ==> more[i].fact.None?
    ensures Labelled(facts, more) && DistinctTexts(gold)
  {
    forall f | 0 <= f < |facts|
      ensures GoldRecord(facts, f) in more
    {
      assert more[f] == gold[f];
    }
    forall i | 0 <= i < |more| && more[i].fact.Some?
      ensures more[i].fact.value < |facts| && more[i].text == facts[more[i].fact.value].text
    {
      assert more[i] == gold[i];
    }
  }

  // Memories and gold labels.

  function MemoryId(index: nat, count: nat): string {
    "mem-" + Padded(index + 1, |Decimal(count)|)
  }

  /** Ids compare as text the way positions do, so no two are alike. */
  lemma IdsAreInOrder(i: nat, j: nat, count: nat)
    requires i < j < count
    ensures Less(MemoryId(i, count), MemoryId(j, count)) && MemoryId(i, count) != MemoryId(j, count)
  {
    PaddedOrder(i + 1, j + 1, count);
    CommonPrefix("mem-", Padded(i + 1, |Decimal(count)|), Padded(j + 1, |Decimal(count)|));
    LessIsStrict(MemoryId(i, count), MemoryId(j, count));
  }

  /** The first and the last id of the large corpus. */
  lemma IdsOfTheLargeCorpus()
    ensures MemoryId(0, 10000) == "mem-00001" && MemoryId(9999, 10000) == "mem-10000" && LARGE == 10000 && SMALL == 1000
  {
    assert Decimal(1) == "1" && Decimal(10) == "10" && Decimal(100) == "100" && Decimal(1000) == "1000" && Decimal(10000) == "10000";
    hide Decimal;
    assert "0" + "1" == "01" && "0" + "01" == "001" && "0" + "001" == "0001" && "0" + "0001" == "00001";
    assert PadStart("1", 5) == PadStart("01", 5) == PadStart("001", 5) == PadStart("0001", 5) == PadStart("00001", 5) == "00001";
    assert PadStart("10000", 5) == "10000";
  }

  /** The fact's label is the id of its gold record. */
  predicate IsGold(facts: seq<Fact>, records: seq<Record>, f: nat, id: string) {
    exists i :: 0 <= i < |records| && records[i].fact == Some(f) && id == MemoryId(i, |records|)
  }

  /** The memories in record order, and the label of every fact. */
  method LabelMemories(facts: seq<Fact>, records: seq<Record>) returns (memories: seq<Memory>, gold: map<nat, string>)
    requires Labelled(facts, records)
    ensures |memories| == |records| && forall i :: 0 <= i < |records| ==> memories[i] == Memory(MemoryId(i, |records|), records[i].text)
    ensures forall f :: 0 <= f < |facts| ==> f in gold && IsGold(facts, records, f, gold[f])
  {
    hide MemoryId;
    memories := seq(|records|, i requires 0 <= i < |records| => Memory(MemoryId(i, |records|), records[i].text));
    gold := map[];
    for k := 0 to |records|
      invariant forall i :: 0 <= i < k && records[i].fact.Some? ==> records[i].fact.value in gold
      invariant forall f :: f in gold ==> IsGold(facts, records, f, gold[f])
    {
      if records[k].fact.Some? {
        gold := gold[records[k].fact.value := memories[k].id];
      }
    }
    forall f | 0 <= f < |facts|
      ensures f in gold
    {
      assert GoldRecord(facts, f) in records;
    }
  }

  /** A gold label names one memory: it states the fact and is among the first records. */
  lemma GoldStatesTheFact(facts: seq<Fact>, records: seq<Record>, memories: seq<Memory>, f: nat, id: string, size: nat)
    requires LabelledWithin(facts, records, size) && f < |facts| && IsGold(facts, records, f, id)
    requires |memories| == |records| && forall i :: 0 <= i < |records| ==> memories[i] == Memory(MemoryId(i, |records|), records[i].text)
    ensures exists i :: 0 <= i < size && memories[i] == Memory(id, facts[f].text)
    ensures forall i :: 0 <= i < |memories| && memories[i].id == id ==> i < size && memories[i].text == facts[f].text
  {
    hide MemoryId;
    var g :| 0 <= g < |records| && records[g].fact == Some(f) && id == MemoryId(g, |records|);
    assert records[..size][g] == records[g];
    assert memories[g] == Memory(id, facts[f].text);
    forall i | 0 <= i < |memories| && memories[i].id == id
      ensures i == g
    {
      if i < g {
        IdsAreInOrder(i, g, |records|);
      } else if g < i {
        IdsAreInOrder(g, i, |records|);
      }
    }
  }

  // Questions.

  function Range(lo: nat, count: nat): seq<nat> {
    seq(count, (i: nat) => lo + i)
  }

  /** A topic's facts, as they lie before the shuffle. */
  function Own(topic: nat): seq<nat> {
    Range(FACTS_PER_TOPIC * topic, FACTS_PER_TOPIC)
  }

  /** Whether a topic is dealt under one shuffle. */
  predicate IsDealt(facts: seq<Fact>, topic: nat, swaps: seq<(nat, nat)>) {
    Grouped(Swapped(Own(topic), swaps), facts, LARGEST_FIRST).Some?
  }

  /** No shuffle makes a topic fail exactly when it is dealable; otherwise one that does is among those the generator may draw. */
  lemma DealtUnderEveryShuffleIff(facts: seq<Fact>, topic: nat)
    ensures (forall swaps :: IsDealt(facts, topic, swaps)) <==> Dealable(Own(topic), facts)
  {
    var own := Own(topic);
    assert NoRepeats(own);
    DealtInEveryOrderIff(own, facts);
    hide Dealable, Grouped, NoRepeats, Own, Swapped;
    if AlwaysDealt(own, facts) {
      forall swaps
        ensures IsDealt(facts, topic, swaps)
      {
        assert multiset(Swapped(own, swaps)) == multiset(own);
      }
    } else {
      var order: seq<nat> :| multiset(order) == multiset(own) && Grouped(order, facts, LARGEST_FIRST).None?;
      var swaps := SwapsTo(own, order, 0);
      assert !IsDealt(facts, topic, swaps);
    }
  }

  lemma DealableIsDealt(facts: seq<Fact>, topic: nat, swaps: seq<(nat, nat)>)
    requires Dealable(Own(topic), facts)
    ensures IsDealt(facts, topic, swaps)
  {
    hide Dealable, IsDealt;
    DealtUnderEveryShuffleIff(facts, topic);
  }

  /** The positions of a topic's facts. */
  method OfTopic(facts: seq<Fact>, topic: nat) returns (own: seq<nat>)
    requires InTopicOrder(facts) && FACTS_PER_TOPIC * (topic + 1) <= |facts|
    ensures own == Range(FACTS_PER_TOPIC * topic, FACTS_PER_TOPIC)
  {
    own := [];
    var lo := FACTS_PER_TOPIC * topic;
    for i := 0 to |facts|
      invariant own == if i < lo then [] else Range(lo, if i - lo < FACTS_PER_TOPIC then i - lo else FACTS_PER_TOPIC)
    {
      if facts[i].topic == topic {
        own := own + [i];
      }
    }
  }

  function Asked(questions: seq<Question>): seq<nat> {
    if questions == [] then [] else Asked(questions[..|questions| - 1]) + questions[|questions| - 1].facts
  }

  /** The k-th question: its topic, its size, distinct subjects, and the label of each of its facts. */
  predicate WellAsked(facts: seq<Fact>, gold: map<nat, string>, q: Question, k: nat) {
    && q.topic == k / |QUESTION_SHAPE| && |q.facts| == QUESTION_SHAPE[k % |QUESTION_SHAPE|] && Distinct(q.facts, facts)
    && |q.gold| == |q.facts|
    && forall j :: 0 <= j < |q.facts| ==>
         q.facts[j] < |facts| && facts[q.facts[j]].topic == q.topic && q.facts[j] in gold && q.gold[j] == gold[q.facts[j]]
  }

  lemma InFlat(groups: seq<seq<nat>>, k: nat, j: nat)
    requires k < |groups| && j < |groups[k]|
    ensures groups[k][j] in Flat(groups)
  {
    if k > 0 {
      InFlat(groups[1..], k - 1, j);
    }
  }

  lemma AskedOfOneMore(questions: seq<Question>, q: Question)
    ensures Asked(questions + [q]) == Asked(questions) + q.facts
  {
    assert (questions + [q])[..|questions|] == questions;
  }

  predicate Askable(facts: seq<Fact>, gold: map<nat, string>, topic: nat, asked: seq<nat>) {
    forall i :: i in asked ==> i < |facts| && facts[i].topic == topic && i in gold
  }

  lemma GroupIsAskable(facts: seq<Fact>, gold: map<nat, string>, topic: nat, groups: seq<seq<nat>>, g: nat)
    requires Askable(facts, gold, topic, Flat(groups)) && g < |groups|
    ensures Askable(facts, gold, topic, groups[g])
  {
    forall j | 0 <= j < |groups[g]|
      ensures groups[g][j] in Flat(groups)
    {
      InFlat(groups, g, j);
    }
  }

  lemma GroupIsWellAsked(facts: seq<Fact>, gold: map<nat, string>, topic: nat, g: nat, q: Question)
    requires g < |QUESTION_SHAPE| && Askable(facts, gold, topic, q.facts)
    requires |q.facts| == QUESTION_SHAPE[g] && Distinct(q.facts, facts) && q.topic == topic && |q.gold| == |q.facts|
    requires forall j :: 0 <= j < |q.facts| ==> q.facts[j] in gold && q.gold[j] == gold[q.facts[j]]
    ensures WellAsked(facts, gold, q, |QUESTION_SHAPE| * topic + g)
  {
    hide Distinct;
    PositionOfQuestion(topic, g);
  }

  predicate AllWellAsked(facts: seq<Fact>, gold: map<nat, string>, questions: seq<Question>) {
    forall k :: 0 <= k < |questions| ==> WellAsked(facts, gold, questions[k], k)
  }

  /** One more group asked: the questions stay well asked. */
  lemma AskableHasGold(facts: seq<Fact>, gold: map<nat, string>, topic: nat, asked: seq<nat>)
    requires Askable(facts, gold, topic, asked)
    ensures forall j :: 0 <= j < |asked| ==> asked[j] in gold
  {
  }

  lemma OneMoreQuestion(facts: seq<Fact>, gold: map<nat, string>, topic: nat, g: nat, before: seq<Question>, q: Question)
    requires |before| == |QUESTION_SHAPE| * topic + g && AllWellAsked(facts, gold, before) && Askable(facts, gold, topic, q.facts)
    requires g < |QUESTION_SHAPE| && |q.facts| == QUESTION_SHAPE[g] && Distinct(q.facts, facts)
    requires q.topic == topic && |q.gold| == |q.facts|
    requires forall j :: 0 <= j < |q.facts| ==> q.facts[j] in gold && q.gold[j] == gold[q.facts[j]]
    ensures AllWellAsked(facts, gold, before + [q])
  {
    GroupIsWellAsked(facts, gold, topic, g, q);
    hide Distinct, WellAsked, Askable;
  }

  lemma OneMoreAsked(groups: seq<seq<nat>>, g: nat, before: seq<Question>, q: Question)
    requires g < |groups| && q.facts == groups[g]
    ensures multiset(Asked(before + [q])) == multiset(Asked(before)) + multiset(groups[g])
    ensures multiset(Flat(groups[..g + 1])) == multiset(Flat(groups[..g])) + multiset(groups[g])
  {
    hide Flat, Asked;
    AskedOfOneMore(before, q);
    FlatOfOneMore(groups[..g], groups[g]);
    assert groups[..g + 1] == groups[..g] + [groups[g]];
  }

  lemma NothingFlat()
    ensures Flat([]) == [] && Asked([]) == []
  {
  }

  /** Asks one topic's groups in order. */
  method AskTopic(facts: seq<Fact>, gold: map<nat, string>, topic: nat, groups: seq<seq<nat>>, before: seq<Question>) returns (questions: seq<Question>)
    requires |before| == |QUESTION_SHAPE| * topic && AllWellAsked(facts, gold, before)
    requires |groups| == |QUESTION_SHAPE| && forall k :: 0 <= k < |QUESTION_SHAPE| ==> |groups[k]| == QUESTION_SHAPE[k] && Distinct(groups[k], facts)
    requires Askable(facts, gold, topic, Flat(groups))
    ensures |questions| == |QUESTION_SHAPE| * (topic + 1) && AllWellAsked(facts, gold, questions)
    ensures multiset(Asked(questions)) == multiset(Asked(before)) + multiset(Flat(groups))
  {
    questions := before;
    NothingFlat();
    assert groups[..0] == [];
    assert groups[..|groups|] == groups;
    hide Distinct, Flat, Asked, AllWellAsked, Askable;
    for g := 0 to |groups|
      invariant |questions| == |before| + g && AllWellAsked(facts, gold, questions)
      invariant multiset(Asked(questions)) == multiset(Asked(before)) + multiset(Flat(groups[..g]))
    {
      var asked := groups[g];
      hide Distinct, Flat, Asked, AllWellAsked, Askable;
      GroupIsAskable(facts, gold, topic, groups, g);
      AskableHasGold(facts, gold, topic, asked);
      var q := Question(topic, asked, seq(|asked|, j requires 0 <= j < |asked| => gold[asked[j]]));
      OneMoreQuestion(facts, gold, topic, g, questions, q);
      OneMoreAsked(groups, g, questions, q);
      questions := questions + [q];
    }
  }

  lemma PositionOfQuestion(topic: nat, g: nat)
    requires g < |QUESTION_SHAPE|
    ensures (|QUESTION_SHAPE| * topic + g) / |QUESTION_SHAPE| == topic && (|QUESTION_SHAPE| * topic + g) % |QUESTION_SHAPE| == g
  {
    assert |QUESTION_SHAPE| == 8;
  }

  lemma RangeExtends(lo: nat, n: nat, m: nat)
    ensures multiset(Range(lo, n + m)) == multiset(Range(lo, n)) + multiset(Range(lo + n, m))
  {
    assert Range(lo, n + m) == Range(lo, n) + Range(lo + n, m);
  }

  /** One topic shuffled and dealt. */
  method DealTopic(facts: seq<Fact>, topic: nat, swaps: seq<(nat, nat)>) returns (groups: Option<seq<seq<nat>>>)
    requires InTopicOrder(facts) && FACTS_PER_TOPIC * (topic + 1) <= |facts|
    ensures groups.Some? <==> IsDealt(facts, topic, swaps)
    ensures Dealable(Own(topic), facts) ==> groups.Some?
    ensures groups.Some? ==> multiset(Flat(groups.value)) == multiset(Own(topic))
    ensures groups.Some? ==> forall i :: i in Flat(groups.value) ==> i < |facts| && facts[i].topic == topic
    ensures groups.Some? ==> |groups.value| == |QUESTION_SHAPE| && forall k :: 0 <= k < |QUESTION_SHAPE| ==>
              |groups.value[k]| == QUESTION_SHAPE[k] && Distinct(groups.value[k], facts)
  {
    hide Dealable, Distinct, Flat, Grouped, Swapped, InTopicOrder, Own;
    var order := ShuffledOwn(facts, topic, swaps);
    assert multiset(order) == multiset(Own(topic));
    DealableAfterShuffle(Own(topic), order, facts);
    OwnHasTwelve(topic);
    SameElements(order, Own(topic));
    groups := DealGroups(order, facts);
    if groups.Some? {
      OwnAreOfTopic(facts, topic, Flat(groups.value));
    }
  }

  lemma OwnHasTwelve(topic: nat)
    ensures |Own(topic)| == FACTS_PER_TOPIC
  {
  }

  lemma OwnAreOfTopic(facts: seq<Fact>, topic: nat, dealt: seq<nat>)
    requires InTopicOrder(facts) && FACTS_PER_TOPIC * (topic + 1) <= |facts| && multiset(dealt) == multiset(Own(topic))
    ensures forall i :: i in dealt ==> i < |facts| && facts[i].topic == topic
  {
    SameElements(dealt, Own(topic));
  }

  /** The topic's facts, shuffled in place. */
  method ShuffledOwn(facts: seq<Fact>, topic: nat, swaps: seq<(nat, nat)>) returns (order: seq<nat>)
    requires InTopicOrder(facts) && FACTS_PER_TOPIC * (topic + 1) <= |facts|
    ensures order == Swapped(Own(topic), swaps)
  {
    hide Swapped;
    var positions := OfTopic(facts, topic);
    var own := new nat[|positions|](i requires 0 <= i < |positions| => positions[i]);
    assert own[..] == positions;
    Shuffle(own, swaps);
    order := own[..];
  }

  /** Every question of every topic, or None when a topic cannot be dealt: every fact is asked exactly once. */
  method AskAll(facts: seq<Fact>, gold: map<nat, string>, topics: nat, swaps: seq<seq<(nat, nat)>>) returns (questions: Option<seq<Question>>)
    requires |facts| == FACTS_PER_TOPIC * topics && InTopicOrder(facts) && |swaps| == topics
    requires forall f :: 0 <= f < |facts| ==> f in gold
    ensures questions.Some? <==> forall t :: 0 <= t < topics ==> IsDealt(facts, t, swaps[t])
    ensures (forall t :: 0 <= t < topics ==> Dealable(Own(t), facts)) ==> questions.Some?
    ensures questions.Some? ==>
              && |questions.value| == |QUESTION_SHAPE| * topics
              && AllWellAsked(facts, gold, questions.value)
              && multiset(Asked(questions.value)) == multiset(Range(0, |facts|))
  {
    hide WellAsked, Dealable, Asked, Distinct, Flat, IsDealt;
    var all: seq<Question> := [];
    NothingFlat();
    for t := 0 to topics
      invariant |all| == |QUESTION_SHAPE| * t && AllWellAsked(facts, gold, all)
      invariant multiset(Asked(all)) == multiset(Range(0, FACTS_PER_TOPIC * t))
      invariant forall u :: 0 <= u < t ==> IsDealt(facts, u, swaps[u])
    {
      var groups := DealTopic(facts, t, swaps[t]);
      if groups.None? {
        return None;
      }
      assert Askable(facts, gold, t, Flat(groups.value));
      all := AskTopic(facts, gold, t, groups.value, all);
      RangeExtends(0, FACTS_PER_TOPIC * t, FACTS_PER_TOPIC);
    }
    questions := Some(all);
  }

  // The corpus.

  datatype Corpus = Corpus(facts: seq<Fact>, memories: seq<Memory>, gold: map<nat, string>, questions: seq<Question>)
  datatype Outcome = Diverged | Threw | Generated(corpus: Corpus)

  /** A text that states a fact, or is composed the way a distractor is. */
  ghost predicate Explained(topics: seq<Topic>, facts: seq<Fact>, text: string)
    requires topics != [] && facts != []
  {
    text in Texts(facts) || IsDistractor(topics, facts, Record(text, None))
  }

  /** Everything the generator promises of a corpus. */
  ghost predicate IsCorpus(topics: seq<Topic>, c: Corpus) {
    && topics != [] && c.facts != []
    && (forall i :: 0 <= i < |c.memories| ==> Explained(topics, c.facts, c.memories[i].text))
    && |c.facts| == FACTS_PER_TOPIC * |topics| && InTopicOrder(c.facts) && FromVocabulary(topics, c.facts)
    && |c.memories| == LARGE
    && (forall i, j :: 0 <= i < j < LARGE ==> c.memories[i].text != c.memories[j].text && Less(c.memories[i].id, c.memories[j].id))
    && (forall f :: 0 <= f < |c.facts| ==> f in c.gold && Names(c.memories, c.gold[f], c.facts[f].text))
    && |c.questions| == |QUESTION_SHAPE| * |topics|
    && AllWellAsked(c.facts, c.gold, c.questions)
    && multiset(Asked(c.questions)) == multiset(Range(0, |c.facts|))
  }

  /** An id that names a memory of the small corpus, and no memory that says anything else. */
  predicate Names(memories: seq<Memory>, id: string, text: string) {
    && (exists i :: 0 <= i < SMALL && i < |memories| && memories[i] == Memory(id, text))
    && (forall i :: 0 <= i < |memories| && memories[i].id == id ==> i < SMALL && memories[i].text == text)
  }

  /** One generation. It throws only when some topic repeats a subject too often or has too few. */
  method Generate(topics: seq<Topic>, words: seq<Words>, few: seq<Draw>, swaps: seq<(nat, nat)>, many: seq<Draw>, orders: seq<seq<(nat, nat)>>) returns (outcome: Outcome, facts: seq<Fact>)
    requires 0 < |topics| && FACTS_PER_TOPIC * |topics| <= SMALL && |orders| == |topics|
    ensures outcome.Generated? ==> outcome.corpus.facts == facts && IsCorpus(topics, outcome.corpus)
    ensures outcome.Threw? ==> exists t :: 0 <= t < |topics| && !Dealable(Own(t), facts) && !IsDealt(facts, t, orders[t])
  {
    hide InTopicOrder, FromVocabulary, DistinctFacts, WellAsked, Asked, Labelled, Dealable, IsDealt, IsGold, Accounted, Explained;
    facts := [];
    var drawn := DrawFacts(topics, words);
    if drawn.None? {
      return Diverged, [];
    }
    facts := drawn.value;
    var records := DrawRecords(topics, facts, few, swaps, many);
    if records.None? {
      return Diverged, facts;
    }
    WholeIsLabelled(facts, records.value, SMALL);
    var memories, gold := LabelMemories(facts, records.value);
    MemoriesAreDistinct(records.value, memories);
    MemoriesAreExplained(topics, facts, records.value, memories);
    var questions := AskAll(facts, gold, |topics|, orders);
    if questions.None? {
      forall t | 0 <= t < |topics| && Dealable(Own(t), facts)
        ensures IsDealt(facts, t, orders[t])
      {
        DealableIsDealt(facts, t, orders[t]);
      }
      return Threw, facts;
    }
    forall f | 0 <= f < |facts|
      ensures Names(memories, gold[f], facts[f].text)
    {
      GoldStatesTheFact(facts, records.value, memories, f, gold[f], SMALL);
    }
    outcome := Generated(Corpus(facts, memories, gold, questions.value));
  }

  lemma MemoriesAreExplained(topics: seq<Topic>, facts: seq<Fact>, records: seq<Record>, memories: seq<Memory>)
    requires topics != [] && facts != [] && Accounted(topics, facts, records) && Labelled(facts, records)
    requires |memories| == |records| && forall i :: 0 <= i < |records| ==> memories[i] == Memory(MemoryId(i, |records|), records[i].text)
    ensures forall i :: 0 <= i < |memories| ==> Explained(topics, facts, memories[i].text)
  {
    hide MemoryId, IsDistractor;
    forall i | 0 <= i < |memories|
      ensures Explained(topics, facts, memories[i].text)
    {
      if records[i].fact.Some? {
        assert facts[records[i].fact.value] in facts;
      } else {
        assert IsDistractor(topics, facts, records[i]) && records[i] == Record(records[i].text, None);
      }
    }
  }

  lemma WholeIsLabelled(facts: seq<Fact>, records: seq<Record>, size: nat)
    requires LabelledWithin(facts, records, size)
    ensures Labelled(facts, records)
  {
    forall i | 0 <= i < |records| && records[i].fact.Some?
      ensures records[i].fact.value < |facts| && records[i].text == facts[records[i].fact.value].text
    {
      assert records[..size][i] == records[i];
    }
  }

  lemma MemoriesAreDistinct(records: seq<Record>, memories: seq<Memory>)
    requires DistinctTexts(records)
    requires |memories| == |records| && forall i :: 0 <= i < |records| ==> memories[i] == Memory(MemoryId(i, |records|), records[i].text)
    ensures forall i, j :: 0 <= i < j < |memories| ==> memories[i].text != memories[j].text && Less(memories[i].id, memories[j].id)
  {
    hide MemoryId;
    forall i, j | 0 <= i < j < |memories|
      ensures memories[i].text != memories[j].text && Less(memories[i].id, memories[j].id)
    {
      IdsAreInOrder(i, j, |records|);
    }
  }
}
