/** Nested labelled subsets of a retrieval corpus. */
module RelevanceSubset {
  import opened Options
  import opened Sequences
  import opened Text

  datatype Document = Document(id: string, text: string)
  datatype Dataset = Dataset(documents: seq<Document>, gold: seq<seq<string>>)

  const MAX_SAFE := 9007199254740991

  function Gold(d: Dataset): set<string> {
    set q, id | q in d.gold && id in q :: id
  }

  function Filter(documents: seq<Document>, ids: set<string>, judged: bool): seq<Document> {
    if documents == [] then []
    else (if (documents[0].id in ids) == judged then [documents[0]] else []) + Filter(documents[1..], ids, judged)
  }

  /** A key to sort by: the document's digest under a seed, or its id. */
  function Key(digest: Option<string -> string>, d: Document): string {
    if digest.Some? then digest.value(d.id) else d.id
  }

  /** A stable insertion: after every document whose key is not greater. */
  function Insert(digest: Option<string -> string>, d: Document, sorted: seq<Document>): seq<Document> {
    if sorted == [] || Less(Key(digest, d), Key(digest, sorted[0])) then [d] + sorted
    else [sorted[0]] + Insert(digest, d, sorted[1..])
  }

  function Sort(digest: Option<string -> string>, documents: seq<Document>): seq<Document> {
    if documents == [] then [] else Insert(digest, documents[|documents| - 1], Sort(digest, documents[..|documents| - 1]))
  }

  /** The order the subsets are cut from: judged documents first, each part by digest. */
  function Order(d: Dataset, digest: string -> string): seq<Document> {
    Sort(Some(digest), Filter(d.documents, Gold(d), true)) + Sort(Some(digest), Filter(d.documents, Gold(d), false))
  }

  lemma {:induction false} InsertAdds(digest: Option<string -> string>, d: Document, sorted: seq<Document>)
    ensures multiset(Insert(digest, d, sorted)) == multiset(sorted) + multiset{d}
  {
    if sorted != [] && !Less(Key(digest, d), Key(digest, sorted[0])) {
      InsertAdds(digest, d, sorted[1..]);
      assert sorted == [sorted[0]] + sorted[1..];
    }
  }

  lemma {:induction false} SortPermutes(digest: Option<string -> string>, documents: seq<Document>)
    ensures multiset(Sort(digest, documents)) == multiset(documents)
    ensures |Sort(digest, documents)| == |documents|
  {
    if documents != [] {
      var n := |documents| - 1;
      SortPermutes(digest, documents[..n]);
      InsertAdds(digest, documents[n], Sort(digest, documents[..n]));
      assert documents == documents[..n] + [documents[n]];
    }
    assert |multiset(Sort(digest, documents))| == |multiset(documents)|;
  }

  lemma {:induction false} FilterSplits(documents: seq<Document>, ids: set<string>)
    ensures multiset(Filter(documents, ids, true)) + multiset(Filter(documents, ids, false)) == multiset(documents)
    ensures forall d :: d in Filter(documents, ids, true) <==> d in documents && d.id in ids
  {
    if documents != [] {
      FilterSplits(documents[1..], ids);
      assert documents == [documents[0]] + documents[1..];
    }
  }

  lemma OrderPermutes(d: Dataset, digest: string -> string)
    ensures multiset(Order(d, digest)) == multiset(d.documents) && |Order(d, digest)| == |d.documents|
  {
    hide Gold;
    var first, rest := Filter(d.documents, Gold(d), true), Filter(d.documents, Gold(d), false);
    SortPermutes(Some(digest), first);
    SortPermutes(Some(digest), rest);
    FilterSplits(d.documents, Gold(d));
    assert |multiset(Order(d, digest))| == |multiset(d.documents)|;
  }

  function Subset(d: Dataset, size: int, digest: string -> string): Option<seq<Document>> {
    if !(-MAX_SAFE <= size <= MAX_SAFE) || size < |Gold(d)| || size > |d.documents| then None
    else OrderPermutes(d, digest); Some(Sort(None, Order(d, digest)[..size]))
  }

  predicate UniqueIds(documents: seq<Document>) {
    forall i, j :: 0 <= i < j < |documents| ==> documents[i].id != documents[j].id
  }

  predicate InOrder(documents: seq<Document>) {
    forall i, j :: 0 <= i < j < |documents| ==> Less(documents[i].id, documents[j].id)
  }

  lemma {:induction false} InsertOrders(d: Document, sorted: seq<Document>)
    requires InOrder(sorted) && forall s :: s in sorted ==> s.id != d.id
    ensures InOrder(Insert(None, d, sorted))
  {
    if sorted != [] {
      LessIsStrict(d.id, sorted[0].id);
      if Less(d.id, sorted[0].id) {
        forall j | 0 <= j < |sorted|
          ensures Less(d.id, sorted[j].id)
        {
          if j > 0 {
            LessIsTransitive(d.id, sorted[0].id, sorted[j].id);
          }
        }
      } else {
        InsertOrders(d, sorted[1..]);
        InsertAdds(None, d, sorted[1..]);
        var rest := Insert(None, d, sorted[1..]);
        forall j | 0 <= j < |rest|
          ensures Less(sorted[0].id, rest[j].id)
        {
          assert rest[j] in multiset(rest);
          assert rest[j] in sorted[1..] || rest[j] == d;
        }
      }
    }
  }

  lemma {:induction false} SortOrders(documents: seq<Document>)
    requires UniqueIds(documents)
    ensures InOrder(Sort(None, documents))
  {
    if documents != [] {
      var n := |documents| - 1;
      SortOrders(documents[..n]);
      SortPermutes(None, documents[..n]);
      forall s | s in Sort(None, documents[..n])
        ensures s.id != documents[n].id
      {
        assert s in multiset(Sort(None, documents[..n]));
      }
      InsertOrders(documents[n], Sort(None, documents[..n]));
    }
  }

  lemma {:induction false} UniqueAfterShuffle(a: seq<Document>, b: seq<Document>)
    requires multiset(a) == multiset(b) && UniqueIds(a)
    ensures UniqueIds(b)
  {
    forall i, j | 0 <= i < j < |b|
      ensures b[i].id != b[j].id
    {
      assert b[i] in multiset(b) && b[j] in multiset(b);
      var k :| 0 <= k < |a| && a[k] == b[i];
      var l :| 0 <= l < |a| && a[l] == b[j];
      if k == l {
        TwiceIsTwo(b, i, j);
        OccursOnce(a, a[k]);
      }
    }
  }

  lemma {:induction false} JudgedFit(documents: seq<Document>, ids: set<string>)
    requires UniqueIds(documents)
    ensures |Filter(documents, ids, true)| <= |ids|
  {
    if documents != [] {
      var head, tail := documents[0], documents[1..];
      FilterSplits(tail, ids - {head.id});
      JudgedFit(tail, ids - {head.id});
      SameFilter(tail, ids, head.id);
    }
  }

  lemma {:induction false} SameFilter(documents: seq<Document>, ids: set<string>, id: string)
    requires forall i :: 0 <= i < |documents| ==> documents[i].id != id
    ensures Filter(documents, ids - {id}, true) == Filter(documents, ids, true)
  {
    if documents != [] {
      SameFilter(documents[1..], ids, id);
    }
  }

  /** The judged documents come first in the order, and there are no more of them than judged ids. */
  lemma JudgedComeFirst(d: Dataset, size: nat, digest: string -> string, i: nat)
    requires UniqueIds(d.documents) && |Gold(d)| <= size <= |Order(d, digest)|
    requires i < |d.documents| && d.documents[i].id in Gold(d)
    ensures d.documents[i] in Order(d, digest)[..size]
  {
    var judged, others := Filter(d.documents, Gold(d), true), Filter(d.documents, Gold(d), false);
    FilterSplits(d.documents, Gold(d));
    JudgedFit(d.documents, Gold(d));
    hide Gold, Sort, Filter;
    SortedFirst(digest, judged, others, d.documents[i], size);
  }

  lemma SortedFirst(digest: string -> string, judged: seq<Document>, others: seq<Document>, d: Document, size: nat)
    requires d in judged && |judged| <= size <= |Sort(Some(digest), judged) + Sort(Some(digest), others)|
    ensures d in (Sort(Some(digest), judged) + Sort(Some(digest), others))[..size]
  {
    SortPermutes(Some(digest), judged);
    var sorted, all := Sort(Some(digest), judged), Sort(Some(digest), judged) + Sort(Some(digest), others);
    hide Sort;
    assert |multiset(sorted)| == |multiset(judged)|;
    assert d in multiset(sorted);
    var k :| 0 <= k < |sorted| && sorted[k] == d;
    assert all[..size][k] == d;
  }

  lemma {:induction false} UniquePrefix(order: seq<Document>, size: nat)
    requires UniqueIds(order) && size <= |order|
    ensures UniqueIds(order[..size]) && multiset(order[..size]) <= multiset(order)
  {
    assert order == order[..size] + order[size..];
  }

  /** A subset has the asked size, is sorted by id, and holds every judged document. */
  lemma SubsetIsLabelled(d: Dataset, size: int, digest: string -> string)
    requires UniqueIds(d.documents) && Subset(d, size, digest).Some?
    ensures var s := Subset(d, size, digest).value;
            && |s| == size && InOrder(s) && multiset(s) <= multiset(d.documents)
            && forall i :: 0 <= i < |d.documents| && d.documents[i].id in Gold(d) ==> d.documents[i] in s
  {
    var order := Order(d, digest);
    OrderPermutes(d, digest);
    hide Gold, Order, Sort;
    UniqueAfterShuffle(d.documents, order);
    UniquePrefix(order, size);
    SortPermutes(None, order[..size]);
    SortOrders(order[..size]);
    hide UniqueIds, InOrder;
    forall i | 0 <= i < |d.documents| && d.documents[i].id in Gold(d)
      ensures d.documents[i] in Sort(None, order[..size])
    {
      JudgedComeFirst(d, size, digest, i);
      assert d.documents[i] in multiset(order[..size]);
    }
  }

  /** Smaller subsets are contained in larger ones, and the full size is a permutation of the corpus. */
  lemma SubsetsAreNested(d: Dataset, small: int, large: int, digest: string -> string)
    requires Subset(d, small, digest).Some? && Subset(d, large, digest).Some? && small <= large
    ensures multiset(Subset(d, small, digest).value) <= multiset(Subset(d, large, digest).value)
    ensures large == |d.documents| ==> multiset(Subset(d, large, digest).value) == multiset(d.documents)
  {
    hide Gold;
    var order := Order(d, digest);
    OrderPermutes(d, digest);
    hide Order;
    SortPermutes(None, order[..small]);
    SortPermutes(None, order[..large]);
    assert order[..large] == order[..small] + order[small..large];
    assert large == |order| ==> order[..large] == order;
  }

  /** Nothing comes before something with a smaller key. */
  predicate Ascending(digest: Option<string -> string>, documents: seq<Document>) {
    forall i, j :: 0 <= i < j < |documents| ==> !Less(Key(digest, documents[j]), Key(digest, documents[i]))
  }

  lemma NotLessIsTransitive(a: string, b: string, c: string)
    requires !Less(b, a) && !Less(c, b)
    ensures !Less(c, a)
  {
    LessIsStrict(a, b);
    LessIsStrict(b, c);
    LessIsStrict(a, c);
    if Less(c, a) {
      if a == b {
      } else if b == c {
      } else {
        LessIsTransitive(a, b, c);
      }
    }
  }

  lemma {:induction false} InsertAscends(digest: Option<string -> string>, d: Document, sorted: seq<Document>)
    requires Ascending(digest, sorted)
    ensures Ascending(digest, Insert(digest, d, sorted))
  {
    if sorted != [] {
      var key := Key(digest, d);
      if Less(key, Key(digest, sorted[0])) {
        LessIsStrict(key, Key(digest, sorted[0]));
        forall j | 0 <= j < |sorted|
          ensures !Less(Key(digest, sorted[j]), key)
        {
          if j > 0 {
            NotLessIsTransitive(key, Key(digest, sorted[0]), Key(digest, sorted[j]));
          }
        }
      } else {
        InsertAscends(digest, d, sorted[1..]);
        InsertAdds(digest, d, sorted[1..]);
        var rest := Insert(digest, d, sorted[1..]);
        forall j | 0 <= j < |rest|
          ensures !Less(Key(digest, rest[j]), Key(digest, sorted[0]))
        {
          assert rest[j] in multiset(rest);
          assert rest[j] in sorted[1..] || rest[j] == d;
        }
      }
    }
  }

  lemma {:induction false} SortAscends(digest: Option<string -> string>, documents: seq<Document>)
    ensures Ascending(digest, Sort(digest, documents))
  {
    if documents != [] {
      SortAscends(digest, documents[..|documents| - 1]);
      InsertAscends(digest, documents[|documents| - 1], Sort(digest, documents[..|documents| - 1]));
    }
  }

  lemma LaterInOrder(d: Dataset, size: nat, digest: string -> string, i: nat, j: nat)
    requires size <= |Order(d, digest)| && i < size <= j < |Order(d, digest)|
    requires |Filter(d.documents, Gold(d), true)| <= i
    ensures !Less(digest(Order(d, digest)[j].id), digest(Order(d, digest)[i].id))
  {
    var first := Filter(d.documents, Gold(d), true);
    var rest := Sort(Some(digest), Filter(d.documents, Gold(d), false));
    SortPermutes(Some(digest), first);
    SortAscends(Some(digest), Filter(d.documents, Gold(d), false));
    hide Gold, Sort, Filter;
    assert Order(d, digest)[i] == rest[i - |first|] && Order(d, digest)[j] == rest[j - |first|];
  }

  lemma UnjudgedComeLast(d: Dataset, digest: string -> string, i: nat)
    requires i < |Order(d, digest)| && Order(d, digest)[i].id !in Gold(d)
    ensures |Filter(d.documents, Gold(d), true)| <= i
  {
    var first := Filter(d.documents, Gold(d), true);
    SortPermutes(Some(digest), first);
    FilterSplits(d.documents, Gold(d));
    var judged := Sort(Some(digest), first);
    hide Gold, Sort, Filter;
    assert forall k :: 0 <= k < |first| ==> Order(d, digest)[k] == judged[k] && judged[k] in multiset(judged);
  }

  /** A subset keeps the order's first documents, each of them. */
  lemma MembersAreFirst(d: Dataset, size: int, digest: string -> string, doc: Document)
    requires Subset(d, size, digest).Some?
    ensures 0 <= size <= |Order(d, digest)|
    ensures doc in Subset(d, size, digest).value <==> doc in Order(d, digest)[..size]
  {
    OrderPermutes(d, digest);
    hide Gold, Order;
    SortPermutes(None, Order(d, digest)[..size]);
    SameElements(Sort(None, Order(d, digest)[..size]), Order(d, digest)[..size]);
  }

  /** Of the unjudged documents a subset takes those with the smallest digests: none it leaves out comes before one it holds. */
  lemma UnjudgedAreTakenByDigest(d: Dataset, size: int, digest: string -> string, held: Document, leftOut: Document)
    requires Subset(d, size, digest).Some?
    requires held in Subset(d, size, digest).value && held.id !in Gold(d)
    requires leftOut in d.documents && leftOut !in Subset(d, size, digest).value
    ensures !Less(digest(leftOut.id), digest(held.id))
  {
    var order := Order(d, digest);
    OrderPermutes(d, digest);
    MembersAreFirst(d, size, digest, held);
    MembersAreFirst(d, size, digest, leftOut);
    hide Gold, Order, Subset;
    SameElements(order, d.documents);
    var i :| 0 <= i < size && order[..size][i] == held;
    var j :| 0 <= j < |order| && order[j] == leftOut;
    assert forall k :: 0 <= k < size ==> order[..size][k] == order[k] && order[k] in order[..size];
    UnjudgedComeLast(d, digest, i);
    LaterInOrder(d, size, digest, i, j);
  }

  // The smallest subset.

  function Ids(documents: seq<Document>): set<string> {
    set doc | doc in documents :: doc.id
  }

  lemma {:induction false} FewIds(documents: seq<Document>)
    ensures |Ids(documents)| <= |documents|
  {
    if documents == [] {
      assert Ids(documents) == {};
    } else {
      FewIds(documents[1..]);
      assert documents == [documents[0]] + documents[1..];
      assert Ids(documents) == Ids(documents[1..]) + {documents[0].id};
    }
  }

  lemma JudgedAreAsManyAsIds(d: Dataset)
    requires UniqueIds(d.documents) && Gold(d) <= Ids(d.documents)
    ensures |Filter(d.documents, Gold(d), true)| == |Gold(d)| <= |d.documents|
  {
    var first := Filter(d.documents, Gold(d), true);
    JudgedFit(d.documents, Gold(d));
    FilterSplits(d.documents, Gold(d));
    hide Gold, Filter, UniqueIds;
    forall id | id in Gold(d)
      ensures id in Ids(first)
    {
      var doc :| doc in d.documents && doc.id == id;
      assert doc in first;
    }
    assert Ids(first) == Gold(d) + Ids(first);
    assert |Gold(d)| <= |Ids(first)| by {
      assert Ids(first) == Gold(d) + (Ids(first) - Gold(d));
    }
    FewIds(first);
    assert |multiset(d.documents)| == |d.documents|;
  }

  /** When every judged id names a document, the smallest accepted size is their number, and that subset is exactly the judged documents. */
  lemma SmallestSubsetIsTheJudged(d: Dataset, digest: string -> string, doc: Document)
    requires UniqueIds(d.documents) && Gold(d) <= Ids(d.documents) && |d.documents| <= MAX_SAFE
    ensures Subset(d, |Gold(d)|, digest).Some? && forall size :: size < |Gold(d)| ==> Subset(d, size, digest).None?
    ensures doc in Subset(d, |Gold(d)|, digest).value <==> doc in d.documents && doc.id in Gold(d)
  {
    var first := Filter(d.documents, Gold(d), true);
    JudgedAreAsManyAsIds(d);
    MembersAreFirst(d, |Gold(d)|, digest, doc);
    SortPermutes(Some(digest), first);
    FilterSplits(d.documents, Gold(d));
    hide Gold, Sort, Filter;
    assert Order(d, digest)[..|first|] == Sort(Some(digest), first);
    SameElements(Sort(Some(digest), first), first);
  }

  /** An id is judged when some question has it among its labels; a size is refused exactly when it is no safe integer, below the number of judged ids or above the number of documents. */
  lemma RefusedIff(d: Dataset, size: int, digest: string -> string)
    ensures forall id :: id in Gold(d) <==> exists q :: 0 <= q < |d.gold| && id in d.gold[q]
    ensures Subset(d, size, digest).None? <==>
              size < -9007199254740991 || size > 9007199254740991 || size < |set q, id | q in d.gold && id in q :: id| || size > |d.documents|
  {
    forall id
      ensures id in Gold(d) <==> exists q :: 0 <= q < |d.gold| && id in d.gold[q]
    {
    }
    assert Gold(d) == set q, id | q in d.gold && id in q :: id;
  }
}
