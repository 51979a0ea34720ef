/** Which topics are dealt whatever the shuffle: the exact condition, and an order that fails when it does not hold. */
module DealingOrders {
  import opened Options
  import opened QuestionGroups
  import opened Sequences

  /** No shuffle of the pool makes the generator throw. */
  ghost predicate AlwaysDealt(own: seq<nat>, facts: seq<Fact>) {
    forall order: seq<nat> :: multiset(order) == multiset(own) ==> Grouped(order, facts, LARGEST_FIRST).Some?
  }

  predicate AllOf(own: seq<nat>, facts: seq<Fact>, subject: string) {
    forall i :: i in own ==> Subject(facts, i) == subject
  }

  predicate NoneOf(own: seq<nat>, facts: seq<Fact>, subject: string) {
    forall i :: i in own ==> Subject(facts, i) != subject
  }

  lemma OneSubjectFails(own: seq<nat>, facts: seq<Fact>, counts: seq<nat>, subject: string)
    requires counts != [] && counts[0] >= 2 && AllOf(own, facts, subject)
    ensures Grouped(own, facts, counts).None?
  {
    assert Subjects(own, facts) <= {subject};
    Smaller(Subjects(own, facts), {subject});
    hide Subjects;
    PickSucceedsIff(own, facts, counts[0]);
  }

  /** After a group that takes a prefix, the rest decides. */
  lemma PrefixThen(own: seq<nat>, facts: seq<Fact>, count: nat, counts: seq<nat>)
    requires count <= |own| && NoRepeats(own) && Distinct(own[..count], facts)
    requires Grouped(own[count..], facts, counts).None?
    ensures Grouped(own, facts, [count] + counts).None?
  {
    PrefixIsTaken(own, facts, count);
    hide Pick, Without, Distinct, NoRepeats, Subject;
    assert ([count] + counts)[1..] == counts;
  }

  lemma SuffixRepeatsNothing(own: seq<nat>, n: nat)
    requires n <= |own| && NoRepeats(own)
    ensures NoRepeats(own[n..])
  {
  }

  /** The second group takes the one or two others that are left, and then there is one subject for the third. */
  lemma PairFails(others: seq<nat>, many: seq<nat>, facts: seq<Fact>, subject: string, counts: seq<nat>)
    requires |others| <= 2 && Distinct(others, facts) && NoneOf(others, facts, subject)
    requires many != [] && AllOf(many, facts, subject) && NoRepeats(others + many)
    requires counts != [] && counts[0] >= 2
    ensures Grouped(others + many, facts, [2] + counts).None?
  {
    var own := others + many;
    if others == [] {
      assert own == many;
      OneSubjectFails(own, facts, [2] + counts, subject);
    } else {
      var left := own[2..];
      assert |others| == 2 ==> left == many && own[..2] == others;
      assert |others| == 1 ==> left == many[1..] && own[..2] == [others[0], many[0]];
      assert others[0] in others && many[0] in many;
      assert Distinct(own[..2], facts);
      assert AllOf(left, facts, subject);
      OneSubjectFails(left, facts, counts, subject);
      PrefixThen(own, facts, 2, counts);
    }
  }

  /** Three distinct subjects first, then at most two others, then one subject alone: the generator throws. */
  lemma OrderFails(first: seq<nat>, others: seq<nat>, many: seq<nat>, facts: seq<Fact>, subject: string)
    requires |first| == 3 && Distinct(first, facts)
    requires |others| <= 2 && Distinct(others, facts) && NoneOf(others, facts, subject)
    requires many != [] && AllOf(many, facts, subject) && NoRepeats(first + (others + many))
    ensures Grouped(first + (others + many), facts, LARGEST_FIRST).None?
  {
    var own := first + (others + many);
    assert own[..3] == first && own[3..] == others + many;
    SuffixRepeatsNothing(own, 3);
    hide Grouped, Distinct, NoRepeats, AllOf, NoneOf;
    PairFails(others, many, facts, subject, [2, 1, 1, 1, 1, 1]);
    assert [2] + [2, 1, 1, 1, 1, 1] == [2, 2, 1, 1, 1, 1, 1];
    PrefixThen(own, facts, 3, [2, 2, 1, 1, 1, 1, 1]);
    assert [3] + [2, 2, 1, 1, 1, 1, 1] == LARGEST_FIRST;
  }

  // Building the order.

  function Keep(own: seq<nat>, facts: seq<Fact>, subject: string, same: bool): seq<nat> {
    if own == [] then []
    else (if (Subject(facts, own[0]) == subject) == same then [own[0]] else []) + Keep(own[1..], facts, subject, same)
  }

  lemma {:induction false} KeepSplits(own: seq<nat>, facts: seq<Fact>, subject: string)
    ensures multiset(Keep(own, facts, subject, true)) + multiset(Keep(own, facts, subject, false)) == multiset(own)
    ensures |Keep(own, facts, subject, true)| + |Keep(own, facts, subject, false)| == |own|
  {
    if own != [] {
      KeepSplits(own[1..], facts, subject);
      assert own == [own[0]] + own[1..];
    }
  }

  lemma {:induction false} KeepKeeps(own: seq<nat>, facts: seq<Fact>, subject: string)
    ensures AllOf(Keep(own, facts, subject, true), facts, subject) && NoneOf(Keep(own, facts, subject, false), facts, subject)
    ensures |Keep(own, facts, subject, true)| == Uses(own, facts, subject)
  {
    if own != [] {
      KeepKeeps(own[1..], facts, subject);
    }
  }

  lemma {:induction false} OthersKeepTheirUses(own: seq<nat>, facts: seq<Fact>, subject: string, other: string)
    ensures Uses(Keep(own, facts, subject, false), facts, other) == if other == subject then 0 else Uses(own, facts, other)
  {
    if own != [] {
      OthersKeepTheirUses(own[1..], facts, subject, other);
      var head := if Subject(facts, own[0]) != subject then [own[0]] else [];
      UsesOfSum(head, Keep(own[1..], facts, subject, false), facts, other);
    }
  }

  lemma UsesOfHead(pool: seq<nat>, facts: seq<Fact>, subject: string)
    requires pool != []
    ensures Uses(pool, facts, subject) == (if Subject(facts, pool[0]) == subject then 1 else 0) + Uses(pool[1..], facts, subject)
  {
  }

  ghost predicate AtMostTwice(pool: seq<nat>, facts: seq<Fact>) {
    forall subject :: Uses(pool, facts, subject) <= 2
  }

  lemma TailAtMostTwice(pool: seq<nat>, facts: seq<Fact>)
    requires pool != [] && AtMostTwice(pool, facts)
    ensures AtMostTwice(pool[1..], facts)
  {
    hide Uses;
    forall subject
      ensures Uses(pool[1..], facts, subject) <= 2
    {
      UsesOfHead(pool, facts, subject);
    }
  }

  /** Without both its uses a subject is gone. */
  lemma BothRemoved(pool: seq<nat>, facts: seq<Fact>, y: nat)
    requires pool != [] && AtMostTwice(pool, facts) && y in pool[1..] && Subject(facts, y) == Subject(facts, pool[0])
    ensures AtMostTwice(Remove(pool[1..], y), facts) && Uses(Remove(pool[1..], y), facts, Subject(facts, y)) == 0
    ensures multiset(pool) == multiset(Remove(pool[1..], y)) + multiset{pool[0], y} && |Remove(pool[1..], y)| == |pool| - 2
  {
    TailAtMostTwice(pool, facts);
    RemoveTakesOne(pool[1..], y);
    assert pool == [pool[0]] + pool[1..];
    hide Uses, Remove;
    forall subject
      ensures Uses(Remove(pool[1..], y), facts, subject) <= 2
    {
      RemoveCountsOne(pool[1..], facts, y, subject);
    }
    RemoveCountsOne(pool[1..], facts, y, Subject(facts, y));
    UsesOfHead(pool, facts, Subject(facts, y));
  }

  /** Splits a pool in which no subject is used three times into two halves of distinct subjects. */
  lemma {:induction false} Halve(pool: seq<nat>, facts: seq<Fact>) returns (a: seq<nat>, b: seq<nat>)
    requires AtMostTwice(pool, facts)
    ensures multiset(a) + multiset(b) == multiset(pool) && |b| <= |a| <= |b| + 1
    ensures Distinct(a, facts) && Distinct(b, facts)
    decreases |pool|
  {
    if pool == [] {
      a, b := [], [];
    } else {
      var x, rest := pool[0], pool[1..];
      var subject := Subject(facts, x);
      assert subject !in Subjects(rest, facts) || exists y :: y in rest && Subject(facts, y) == subject;
      TailAtMostTwice(pool, facts);
      hide Uses, Subjects, Distinct, AtMostTwice, Remove;
      if y :| y in rest && Subject(facts, y) == subject {
        BothRemoved(pool, facts, y);
        a, b := Halve(Remove(rest, y), facts);
        AddToHalf(Remove(rest, y), a, b, facts, subject, x);
        AddToHalf(Remove(rest, y), b, a, facts, subject, y);
        BothJoin(pool, Remove(rest, y), a, b, x, y);
        a, b := a + [x], b + [y];
      } else {
        UsedIsSubject(rest, facts, subject);
        a, b := Halve(rest, facts);
        if |a| == |b| {
          AddToHalf(rest, a, b, facts, subject, x);
          OneJoins(pool, a, b);
          a := a + [x];
        } else {
          AddToHalf(rest, b, a, facts, subject, x);
          OneJoins(pool, b, a);
          b := b + [x];
        }
      }
    }
  }

  lemma BothJoin(pool: seq<nat>, rest: seq<nat>, a: seq<nat>, b: seq<nat>, x: nat, y: nat)
    requires multiset(pool) == multiset(rest) + multiset{x, y} && multiset(a) + multiset(b) == multiset(rest)
    ensures multiset(a + [x]) + multiset(b + [y]) == multiset(pool)
  {
  }

  lemma OneJoins(pool: seq<nat>, a: seq<nat>, b: seq<nat>)
    requires pool != [] && multiset(a) + multiset(b) == multiset(pool[1..])
    ensures multiset(a + [pool[0]]) + multiset(b) == multiset(pool)
  {
    assert pool == [pool[0]] + pool[1..];
  }

  /** A fact of a subject the rest does not use can join a half. */
  lemma AddToHalf(rest: seq<nat>, half: seq<nat>, other: seq<nat>, facts: seq<Fact>, subject: string, x: nat)
    requires multiset(half) + multiset(other) == multiset(rest) && Distinct(half, facts)
    requires Uses(rest, facts, subject) == 0 && Subject(facts, x) == subject
    ensures Distinct(half + [x], facts)
  {
    UsedIsSubject(rest, facts, subject);
    forall i | i in half
      ensures i in rest
    {
      assert i in multiset(half) && i in multiset(rest);
    }
    assert subject !in Subjects(half, facts);
    OneMoreIsDistinct(half, facts, x);
  }

  lemma Joined(own: seq<nat>, first: seq<nat>, others: seq<nat>, many: seq<nat>)
    requires multiset(first) + multiset(others) + multiset(many) == multiset(own) && NoRepeats(own)
    ensures multiset(first + (others + many)) == multiset(own) && NoRepeats(first + (others + many))
  {
    ShuffleRepeatsNothing(own, first + (others + many));
  }

  lemma OneMoreOfAnother(half: seq<nat>, pool: seq<nat>, facts: seq<Fact>, subject: string, x: nat)
    requires multiset(half) <= multiset(pool) && NoneOf(pool, facts, subject) && Subject(facts, x) == subject && Distinct(half, facts)
    ensures Distinct(half + [x], facts) && NoneOf(half, facts, subject)
  {
    forall i | i in half
      ensures i in pool
    {
      assert i in multiset(half);
    }
    assert subject !in Subjects(half, facts);
    OneMoreIsDistinct(half, facts, x);
  }

  lemma TwoAreDistinct(pool: seq<nat>, facts: seq<Fact>)
    requires |pool| == 2 && |Subjects(pool, facts)| >= 2
    ensures Distinct(pool, facts)
  {
    if Subject(facts, pool[0]) == Subject(facts, pool[1]) {
      Smaller(Subjects(pool, facts), {Subject(facts, pool[0])});
    }
  }

  lemma OtherSubjects(own: seq<nat>, facts: seq<Fact>, subject: string)
    ensures |Subjects(own, facts)| <= |Subjects(Keep(own, facts, subject, false), facts)| + 1
    ensures |Subjects(Keep(own, facts, subject, false), facts)| <= |Keep(own, facts, subject, false)|
  {
    var pool := Keep(own, facts, subject, false);
    hide Subjects, Uses, Keep;
    forall other | other in Subjects(own, facts)
      ensures other in Subjects(pool, facts) + {subject}
    {
      UsedIsSubject(own, facts, other);
      OthersKeepTheirUses(own, facts, subject, other);
      UsedIsSubject(pool, facts, other);
    }
    Smaller(Subjects(own, facts), Subjects(pool, facts) + {subject});
    AtMostOneEach(pool, facts);
  }

  lemma {:induction false} AtMostOneEach(pool: seq<nat>, facts: seq<Fact>)
    ensures |Subjects(pool, facts)| <= |pool|
  {
    if pool == [] {
      assert Subjects(pool, facts) == {};
    } else {
      AtMostOneEach(pool[1..], facts);
      SubjectsOfHead(pool, facts);
    }
  }

  /** A first group of three, the one or two others of the second group, and the rest, of one subject alone. */
  ghost predicate Parts(first: seq<nat>, others: seq<nat>, many: seq<nat>, own: multiset<nat>, facts: seq<Fact>, subject: string) {
    && multiset(first) + multiset(others) + multiset(many) == own
    && |first| == 3 && Distinct(first, facts)
    && |others| <= 2 && Distinct(others, facts) && NoneOf(others, facts, subject)
    && many != [] && AllOf(many, facts, subject)
  }

  lemma PartsOfTwo(pool: seq<nat>, all: seq<nat>, facts: seq<Fact>, subject: string) returns (first: seq<nat>, others: seq<nat>, many: seq<nat>)
    requires |pool| == 2 && |Subjects(pool, facts)| >= 2 && NoneOf(pool, facts, subject)
    requires |all| >= 2 && AllOf(all, facts, subject)
    ensures Parts(first, others, many, multiset(pool) + multiset(all), facts, subject)
  {
    assert all == [all[0]] + all[1..] && all[0] in all;
    assert AllOf(all[1..], facts, subject);
    TwoAreDistinct(pool, facts);
    NothingIsDistinct(facts, subject);
    OneMoreOfAnother(pool, pool, facts, subject, all[0]);
    hide Distinct, AllOf, NoneOf, Subjects;
    first, others, many := pool + [all[0]], [], all[1..];
  }

  lemma PartsOfMore(pool: seq<nat>, all: seq<nat>, facts: seq<Fact>, subject: string) returns (first: seq<nat>, others: seq<nat>, many: seq<nat>)
    requires 3 <= |pool| <= 5 && AtMostTwice(pool, facts) && NoneOf(pool, facts, subject)
    requires |all| >= 2 && AllOf(all, facts, subject)
    ensures Parts(first, others, many, multiset(pool) + multiset(all), facts, subject)
  {
    assert all == [all[0]] + all[1..] && all[0] in all;
    assert AllOf(all[1..], facts, subject) && Subject(facts, all[0]) == subject;
    hide Distinct, AllOf, NoneOf, AtMostTwice, Subject;
    var a, b := Halve(pool, facts);
    assert |multiset(a) + multiset(b)| == |multiset(pool)|;
    OneMoreOfAnother(a, pool, facts, subject, all[0]);
    OneMoreOfAnother(b, pool, facts, subject, all[0]);
    if |a| == 3 {
      first, others, many := a, b, all;
    } else {
      first, others, many := a + [all[0]], b, all[1..];
    }
  }

  lemma FailingParts(own: seq<nat>, facts: seq<Fact>, subject: string) returns (first: seq<nat>, others: seq<nat>, many: seq<nat>)
    requires |own| == FACTS_PER_TOPIC && |Subjects(own, facts)| >= 3 && Uses(own, facts, subject) >= 7
    requires forall other :: other != subject ==> Uses(own, facts, other) <= 2
    ensures Parts(first, others, many, multiset(own), facts, subject)
  {
    var all, pool := Keep(own, facts, subject, true), Keep(own, facts, subject, false);
    KeepSplits(own, facts, subject);
    KeepKeeps(own, facts, subject);
    OtherSubjects(own, facts, subject);
    hide Keep, Uses, Subjects, AllOf, NoneOf, Parts;
    forall other
      ensures Uses(pool, facts, other) <= 2
    {
      OthersKeepTheirUses(own, facts, subject, other);
    }
    assert multiset(pool) + multiset(all) == multiset(own);
    if |pool| == 2 {
      first, others, many := PartsOfTwo(pool, all, facts, subject);
    } else {
      first, others, many := PartsOfMore(pool, all, facts, subject);
    }
  }

  lemma NothingIsDistinct(facts: seq<Fact>, subject: string)
    ensures Distinct([], facts) && NoneOf([], facts, subject)
  {
  }

  /** A pool in which one subject is used seven times or more, and no other three times, has an order for which the generator throws. */
  lemma FailingOrder(own: seq<nat>, facts: seq<Fact>, subject: string) returns (order: seq<nat>)
    requires |own| == FACTS_PER_TOPIC && NoRepeats(own) && |Subjects(own, facts)| >= 3 && Uses(own, facts, subject) >= 7
    requires forall other :: other != subject ==> Uses(own, facts, other) <= 2
    ensures multiset(order) == multiset(own) && Grouped(order, facts, LARGEST_FIRST).None?
  {
    hide Uses, Subjects, Distinct, AllOf, NoneOf, Grouped, NoRepeats;
    var first, others, many := FailingParts(own, facts, subject);
    Joined(own, first, others, many);
    OrderFails(first, others, many, facts, subject);
    order := first + (others + many);
  }

  lemma FewSubjectsFail(own: seq<nat>, facts: seq<Fact>)
    requires |Subjects(own, facts)| < 3
    ensures Grouped(own, facts, LARGEST_FIRST).None?
  {
    hide Subjects;
    PickSucceedsIff(own, facts, 3);
  }

  /** A topic of twelve facts is dealt under every shuffle exactly when it has three subjects, and a rival used three times beside any subject used seven times. */
  lemma DealtInEveryOrderIff(own: seq<nat>, facts: seq<Fact>)
    requires |own| == FACTS_PER_TOPIC && NoRepeats(own)
    ensures AlwaysDealt(own, facts) <==> Dealable(own, facts)
  {
    if Dealable(own, facts) {
      forall order: seq<nat> | multiset(order) == multiset(own)
        ensures Grouped(order, facts, LARGEST_FIRST).Some?
      {
        SameElements(order, own);
        DealableAfterShuffle(own, order, facts);
        DealablePoolsAreDealt(order, facts);
      }
    } else if |Subjects(own, facts)| < 3 {
      FewSubjectsFail(own, facts);
    } else {
      var subject :| subject in Subjects(own, facts) && Uses(own, facts, subject) >= 7 && !HasRival(own, facts, subject);
      forall other | other != subject
        ensures Uses(own, facts, other) <= 2
      {
        UsedIsSubject(own, facts, other);
      }
      var order := FailingOrder(own, facts, subject);
    }
  }
}
