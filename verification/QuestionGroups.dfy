/** One topic's facts, dealt into questions: the largest group first, distinct subjects inside a group. */
module QuestionGroups {
  import opened Options
  import opened Sequences

  datatype Fact = Fact(topic: nat, subject: string, text: string)

  const FACTS_PER_TOPIC: nat := 12

  const QUESTION_SHAPE: seq<nat> := [1, 1, 1, 1, 1, 2, 2, 3]

  const LARGEST_FIRST: seq<nat> := [3, 2, 2, 1, 1, 1, 1, 1]

  function Subject(facts: seq<Fact>, i: nat): string {
    if i < |facts| then facts[i].subject else ""
  }

  function Subjects(own: seq<nat>, facts: seq<Fact>): set<string> {
    set i | i in own :: Subject(facts, i)
  }

  predicate Distinct(asked: seq<nat>, facts: seq<Fact>) {
    forall i, j :: 0 <= i < j < |asked| ==> Subject(facts, asked[i]) != Subject(facts, asked[j])
  }

  /** The scan for one group: the first fact of each new subject, until there are enough. */
  function Pick(own: seq<nat>, facts: seq<Fact>, count: nat, asked: seq<nat>): seq<nat>
    decreases |own|
  {
    if |asked| == count || own == [] then asked
    else if Subject(facts, own[0]) in Subjects(asked, facts) then Pick(own[1..], facts, count, asked)
    else Pick(own[1..], facts, count, asked + [own[0]])
  }

  function Remove(own: seq<nat>, i: nat): seq<nat> {
    if own == [] then [] else if own[0] == i then own[1..] else [own[0]] + Remove(own[1..], i)
  }

  function Without(own: seq<nat>, asked: seq<nat>): seq<nat> {
    if asked == [] then own else Remove(Without(own, asked[..|asked| - 1]), asked[|asked| - 1])
  }

  /** The groups, one of each count in turn, or None when a group cannot be filled. */
  function Grouped(own: seq<nat>, facts: seq<Fact>, counts: seq<nat>): Option<seq<seq<nat>>>
    decreases |counts|
  {
    if counts == [] then Some([]) else
    var asked := Pick(own, facts, counts[0], []);
    if |asked| != counts[0] then None else
    var rest := Grouped(Without(own, asked), facts, counts[1..]);
    if rest.None? then None else Some([asked] + rest.value)
  }

  function Flat(groups: seq<seq<nat>>): seq<nat> {
    if groups == [] then [] else groups[0] + Flat(groups[1..])
  }

  function Total(counts: seq<nat>): nat {
    if counts == [] then 0 else counts[0] + Total(counts[1..])
  }

  /** How many facts of a pool have one subject. */
  function Uses(own: seq<nat>, facts: seq<Fact>, subject: string): nat {
    if own == [] then 0 else (if Subject(facts, own[0]) == subject then 1 else 0) + Uses(own[1..], facts, subject)
  }

  // One pick.

  lemma SubjectsOfHead(own: seq<nat>, facts: seq<Fact>)
    requires own != []
    ensures Subjects(own, facts) == {Subject(facts, own[0])} + Subjects(own[1..], facts)
  {
    assert own == [own[0]] + own[1..];
  }

  lemma SubjectsOfOneMore(asked: seq<nat>, facts: seq<Fact>, i: nat)
    ensures Subjects(asked + [i], facts) == Subjects(asked, facts) + {Subject(facts, i)}
  {
    assert forall j :: j in asked + [i] <==> j in asked || j == i;
  }

  /** A pick is distinct, and stops short only when it has every subject. */
  lemma {:induction false} PickIsDistinct(own: seq<nat>, facts: seq<Fact>, count: nat, asked: seq<nat>)
    requires Distinct(asked, facts) && |asked| <= count
    ensures var all := Pick(own, facts, count, asked);
            && Distinct(all, facts) && |all| <= count
            && (|all| < count ==> Subjects(all, facts) == Subjects(asked, facts) + Subjects(own, facts))
            && Subjects(all, facts) <= Subjects(asked, facts) + Subjects(own, facts)
    decreases |own|
  {
    if own == [] {
      assert Subjects(own, facts) == {};
    } else if |asked| != count {
      SubjectsOfHead(own, facts);
      SubjectsOfOneMore(asked, facts, own[0]);
      hide Subjects;
      if Subject(facts, own[0]) in Subjects(asked, facts) {
        PickIsDistinct(own[1..], facts, count, asked);
      } else {
        OneMoreIsDistinct(asked, facts, own[0]);
        PickIsDistinct(own[1..], facts, count, asked + [own[0]]);
      }
    }
  }

  /** A pick comes from the pool, each fact once. */
  lemma {:induction false} PickComesFromPool(own: seq<nat>, facts: seq<Fact>, count: nat, asked: seq<nat>)
    ensures multiset(Pick(own, facts, count, asked)) <= multiset(asked) + multiset(own)
    decreases |own|
  {
    hide Subjects;
    if |asked| != count && own != [] {
      assert multiset(own) == multiset{own[0]} + multiset(own[1..]) by {
        assert own == [own[0]] + own[1..];
      }
      PickComesFromPool(own[1..], facts, count, asked);
      PickComesFromPool(own[1..], facts, count, asked + [own[0]]);
    }
  }

  lemma OneMoreIsDistinct(asked: seq<nat>, facts: seq<Fact>, i: nat)
    requires Distinct(asked, facts) && Subject(facts, i) !in Subjects(asked, facts)
    ensures Distinct(asked + [i], facts)
  {
    forall k | 0 <= k < |asked|
      ensures Subject(facts, asked[k]) != Subject(facts, i)
    {
      assert asked[k] in asked;
    }
  }

  lemma LastIsNew(asked: seq<nat>, facts: seq<Fact>)
    requires asked != [] && Distinct(asked, facts)
    ensures Distinct(asked[..|asked| - 1], facts)
    ensures Subject(facts, asked[|asked| - 1]) !in Subjects(asked[..|asked| - 1], facts)
  {
  }

  lemma NobodyAsked(facts: seq<Fact>)
    ensures Subjects([], facts) == {}
  {
  }

  lemma {:induction false} DistinctCounts(asked: seq<nat>, facts: seq<Fact>)
    requires Distinct(asked, facts)
    ensures |Subjects(asked, facts)| == |asked|
  {
    NobodyAsked(facts);
    hide Subjects, Distinct, Subject;
    if asked == [] {
      assert |Subjects([], facts)| == 0;
    } else {
      var n := |asked| - 1;
      LastIsNew(asked, facts);
      DistinctCounts(asked[..n], facts);
      SubjectsOfOneMore(asked[..n], facts, asked[n]);
      assert asked == asked[..n] + [asked[n]];
    }
  }

  /** A group can be filled exactly when the pool has that many subjects. */
  lemma PickSucceedsIff(own: seq<nat>, facts: seq<Fact>, count: nat)
    ensures |Pick(own, facts, count, [])| == count <==> |Subjects(own, facts)| >= count
  {
    assert Subjects([], facts) == {};
    hide Subjects;
    PickIsDistinct(own, facts, count, []);
    var all := Pick(own, facts, count, []);
    DistinctCounts(all, facts);
    Smaller(Subjects(all, facts), Subjects(own, facts));
  }

  lemma {:induction false} Smaller<T>(a: set<T>, b: set<T>)
    requires a <= b
    ensures |a| <= |b|
  {
    assert b == a + (b - a);
  }

  // What is left.

  lemma {:induction false} RemoveTakesOne(own: seq<nat>, i: nat)
    requires i in own
    ensures multiset(Remove(own, i)) == multiset(own) - multiset{i}
    ensures |Remove(own, i)| == |own| - 1
  {
    assert own == [own[0]] + own[1..];
    if own[0] != i {
      RemoveTakesOne(own[1..], i);
    }
  }

  lemma {:induction false} WithoutTakesAll(own: seq<nat>, asked: seq<nat>)
    requires multiset(asked) <= multiset(own)
    ensures multiset(Without(own, asked)) == multiset(own) - multiset(asked)
    ensures |Without(own, asked)| == |own| - |asked|
  {
    if asked != [] {
      var n := |asked| - 1;
      assert asked == asked[..n] + [asked[n]];
      assert multiset(asked) == multiset(asked[..n]) + multiset{asked[n]};
      WithoutTakesAll(own, asked[..n]);
      assert asked[n] in multiset(Without(own, asked[..n]));
      RemoveTakesOne(Without(own, asked[..n]), asked[n]);
    }
  }

  lemma {:induction false} RemoveCountsOne(own: seq<nat>, facts: seq<Fact>, i: nat, subject: string)
    requires i in own
    ensures Uses(own, facts, subject) == Uses(Remove(own, i), facts, subject) + (if Subject(facts, i) == subject then 1 else 0)
  {
    assert own == [own[0]] + own[1..];
    if own[0] != i {
      RemoveCountsOne(own[1..], facts, i, subject);
      assert Remove(own, i)[1..] == Remove(own[1..], i);
    }
  }

  lemma {:induction false} UsesOfAShuffle(own: seq<nat>, other: seq<nat>, facts: seq<Fact>, subject: string)
    requires multiset(own) == multiset(other)
    ensures Uses(own, facts, subject) == Uses(other, facts, subject)
    decreases |own|
  {
    SameElements(own, other);
    if own != [] {
      assert own == [own[0]] + own[1..];
      assert own[0] in own;
      RemoveCountsOne(other, facts, own[0], subject);
      RemoveTakesOne(other, own[0]);
      assert multiset(own[1..]) == multiset(own) - multiset{own[0]};
      UsesOfAShuffle(own[1..], Remove(other, own[0]), facts, subject);
    }
  }

  lemma {:induction false} UsesOfSum(a: seq<nat>, b: seq<nat>, facts: seq<Fact>, subject: string)
    ensures Uses(a + b, facts, subject) == Uses(a, facts, subject) + Uses(b, facts, subject)
  {
    if a == [] {
      assert a + b == b;
    } else {
      UsesOfSum(a[1..], b, facts, subject);
      assert (a + b)[1..] == a[1..] + b;
    }
  }

  /** A subject is used exactly when it is a subject of the pool. */
  lemma {:induction false} UsedIsSubject(own: seq<nat>, facts: seq<Fact>, subject: string)
    ensures Uses(own, facts, subject) > 0 <==> subject in Subjects(own, facts)
    ensures Uses(own, facts, subject) <= |own|
  {
    if own == [] {
      assert Subjects(own, facts) == {};
    } else {
      UsedIsSubject(own[1..], facts, subject);
      SubjectsOfHead(own, facts);
    }
  }

  lemma {:induction false} DistinctUsesOnce(asked: seq<nat>, facts: seq<Fact>, subject: string)
    requires Distinct(asked, facts)
    ensures Uses(asked, facts, subject) <= 1
  {
    if asked != [] {
      var n := |asked| - 1;
      LastIsNew(asked, facts);
      assert asked == asked[..n] + [asked[n]];
      hide Distinct, Subjects;
      UsesOfSum(asked[..n], [asked[n]], facts, subject);
      UsedIsSubject(asked[..n], facts, subject);
      DistinctUsesOnce(asked[..n], facts, subject);
    }
  }

  /** A group of distinct subjects takes at most one use of each. */
  lemma GroupTakesOneUse(own: seq<nat>, facts: seq<Fact>, count: nat, subject: string)
    ensures var left := Uses(Without(own, Pick(own, facts, count, [])), facts, subject);
            left <= Uses(own, facts, subject) <= left + 1
  {
    var asked := Pick(own, facts, count, []);
    PickIsDistinct(own, facts, count, []);
    PickComesFromPool(own, facts, count, []);
    hide Pick, Without, Distinct, Subjects, Uses;
    WithoutTakesAll(own, asked);
    assert multiset(own) == multiset(asked + Without(own, asked));
    UsesOfAShuffle(own, asked + Without(own, asked), facts, subject);
    UsesOfSum(asked, Without(own, asked), facts, subject);
    DistinctUsesOnce(asked, facts, subject);
  }

  // All the groups.

  /** The groups have the asked sizes and distinct subjects. */
  lemma {:induction false} GroupsFit(own: seq<nat>, facts: seq<Fact>, counts: seq<nat>)
    requires Grouped(own, facts, counts).Some?
    ensures var groups := Grouped(own, facts, counts).value;
            |groups| == |counts| && forall k :: 0 <= k < |counts| ==> |groups[k]| == counts[k] && Distinct(groups[k], facts)
    decreases |counts|
  {
    if counts != [] {
      var asked := Pick(own, facts, counts[0], []);
      PickIsDistinct(own, facts, counts[0], []);
      hide Distinct, Pick, Without;
      GroupsFit(Without(own, asked), facts, counts[1..]);
    }
  }

  /** The groups together take each fact of the pool at most once. */
  lemma {:induction false} GroupsPartition(own: seq<nat>, facts: seq<Fact>, counts: seq<nat>)
    requires Grouped(own, facts, counts).Some?
    ensures var flat := Flat(Grouped(own, facts, counts).value);
            multiset(flat) <= multiset(own) && |flat| == Total(counts)
    decreases |counts|
  {
    if counts != [] {
      var asked := Pick(own, facts, counts[0], []);
      PickComesFromPool(own, facts, counts[0], []);
      hide Pick, Without;
      WithoutTakesAll(own, asked);
      GroupsPartition(Without(own, asked), facts, counts[1..]);
    }
  }

  lemma WholePool(own: seq<nat>, taken: seq<nat>)
    requires multiset(taken) <= multiset(own) && |taken| == |own|
    ensures multiset(taken) == multiset(own)
  {
    assert multiset(own) == multiset(taken) + (multiset(own) - multiset(taken));
    assert |multiset(own) - multiset(taken)| == 0;
  }

  lemma {:induction false} OneSubjectOnly(own: seq<nat>, facts: seq<Fact>, subject: string)
    requires forall i :: i in own ==> Subject(facts, i) == subject
    ensures Uses(own, facts, subject) == |own|
  {
    if own != [] {
      OneSubjectOnly(own[1..], facts, subject);
    }
  }

  /** A pool larger than any subject's share holds two subjects. */
  lemma TwoSubjects(own: seq<nat>, facts: seq<Fact>)
    requires own != [] && Uses(own, facts, Subject(facts, own[0])) < |own|
    ensures |Subjects(own, facts)| >= 2
  {
    var first := Subject(facts, own[0]);
    if forall i :: i in own ==> Subject(facts, i) == first {
      OneSubjectOnly(own, facts, first);
    } else {
      var i :| i in own && Subject(facts, i) != first;
      assert own[0] in own;
      Smaller({first, Subject(facts, i)}, Subjects(own, facts));
    }
  }

  /** Three subjects or more, and beside any subject used seven times or more another one used three times or more. */
  predicate Dealable(own: seq<nat>, facts: seq<Fact>) {
    && |Subjects(own, facts)| >= 3
    && forall subject :: subject in Subjects(own, facts) && Uses(own, facts, subject) >= 7 ==> HasRival(own, facts, subject)
  }

  predicate HasRival(own: seq<nat>, facts: seq<Fact>, subject: string) {
    exists other :: other in Subjects(own, facts) && other != subject && Uses(own, facts, other) >= 3
  }

  lemma DealableAfterShuffle(own: seq<nat>, other: seq<nat>, facts: seq<Fact>)
    requires multiset(own) == multiset(other)
    ensures Dealable(own, facts) ==> Dealable(other, facts)
  {
    SameElements(own, other);
    assert Subjects(own, facts) == Subjects(other, facts);
    hide Subjects;
    forall subject
      ensures Uses(own, facts, subject) == Uses(other, facts, subject)
    {
      UsesOfAShuffle(own, other, facts, subject);
    }
  }

  /** One group taken from a pool with enough subjects. */
  lemma OneGroup(own: seq<nat>, facts: seq<Fact>, count: nat) returns (rest: seq<nat>)
    requires |Subjects(own, facts)| >= count
    ensures rest == Without(own, Pick(own, facts, count, [])) && |Pick(own, facts, count, [])| == count
    ensures |rest| == |own| - count
    ensures forall subject :: Uses(rest, facts, subject) <= Uses(own, facts, subject) <= Uses(rest, facts, subject) + 1
  {
    var asked := Pick(own, facts, count, []);
    rest := Without(own, asked);
    PickSucceedsIff(own, facts, count);
    PickComesFromPool(own, facts, count, []);
    hide Subjects, Pick, Without, Uses;
    WithoutTakesAll(own, asked);
    forall subject
      ensures Uses(rest, facts, subject) <= Uses(own, facts, subject) <= Uses(rest, facts, subject) + 1
    {
      GroupTakesOneUse(own, facts, count, subject);
    }
  }

  lemma {:induction false} SinglesAlwaysFit(own: seq<nat>, facts: seq<Fact>, counts: seq<nat>)
    requires |own| == |counts| && forall k :: 0 <= k < |counts| ==> counts[k] == 1
    ensures Grouped(own, facts, counts).Some?
  {
    if counts != [] {
      assert own[0] in own;
      Smaller({Subject(facts, own[0])}, Subjects(own, facts));
      var rest := OneGroup(own, facts, 1);
      SinglesAlwaysFit(rest, facts, counts[1..]);
    }
  }

  /** Two groups later a dealable pool still holds two subjects. */
  lemma StillMixed(own: seq<nat>, facts: seq<Fact>, rest: seq<nat>)
    requires Dealable(own, facts) && |rest| >= 7
    requires forall subject :: Uses(rest, facts, subject) <= Uses(own, facts, subject) <= Uses(rest, facts, subject) + 2
    ensures |Subjects(rest, facts)| >= 2
  {
    hide Subjects, Uses, Subject;
    var first := Subject(facts, rest[0]);
    if Uses(rest, facts, first) < |rest| {
      TwoSubjects(rest, facts);
    } else {
      UsedIsSubject(rest, facts, first);
      UsedIsSubject(own, facts, first);
      assert HasRival(own, facts, first);
      var other :| other in Subjects(own, facts) && other != first && Uses(own, facts, other) >= 3;
      UsedIsSubject(rest, facts, first);
      UsedIsSubject(rest, facts, other);
      Smaller({first, other}, Subjects(rest, facts));
    }
  }

  lemma GroupThen(own: seq<nat>, facts: seq<Fact>, count: nat, counts: seq<nat>)
    requires |Pick(own, facts, count, [])| == count
    requires Grouped(Without(own, Pick(own, facts, count, [])), facts, counts).Some?
    ensures Grouped(own, facts, [count] + counts).Some?
  {
    hide Pick, Without;
    assert ([count] + counts)[1..] == counts;
  }

  /** The two pairs and the singles of a pool of nine that holds two subjects, and still does after one pair. */
  lemma NineAreDealt(rest3: seq<nat>, facts: seq<Fact>)
    requires |rest3| == 9 && |Subjects(rest3, facts)| >= 2
    requires |Subjects(Without(rest3, Pick(rest3, facts, 2, [])), facts)| >= 2
    ensures Grouped(rest3, facts, [2, 2, 1, 1, 1, 1, 1]).Some?
  {
    hide Pick, Without, Subjects, Uses, Grouped, Subject;
    var rest2 := OneGroup(rest3, facts, 2);
    var rest1 := OneGroup(rest2, facts, 2);
    SinglesAlwaysFit(rest1, facts, [1, 1, 1, 1, 1]);
    GroupThen(rest2, facts, 2, [1, 1, 1, 1, 1]);
    assert [2] + [1, 1, 1, 1, 1] == [2, 1, 1, 1, 1, 1];
    GroupThen(rest3, facts, 2, [2, 1, 1, 1, 1, 1]);
    assert [2] + [2, 1, 1, 1, 1, 1] == [2, 2, 1, 1, 1, 1, 1];
  }

  lemma NineOfDealable(own: seq<nat>, facts: seq<Fact>) returns (rest3: seq<nat>)
    requires |own| == FACTS_PER_TOPIC && Dealable(own, facts)
    ensures rest3 == Without(own, Pick(own, facts, 3, [])) && |Pick(own, facts, 3, [])| == 3
    ensures |rest3| == 9 && |Subjects(rest3, facts)| >= 2 && |Subjects(Without(rest3, Pick(rest3, facts, 2, [])), facts)| >= 2
  {
    assert |Subjects(own, facts)| >= 3;
    hide Pick, Without, Subjects, Uses, Grouped, Subject, Dealable;
    rest3 := OneGroup(own, facts, 3);
    StillMixed(own, facts, rest3);
    var rest2 := OneGroup(rest3, facts, 2);
    StillMixed(own, facts, rest2);
  }

  /** A dealable topic is dealt, in whatever order it lies. */
  lemma DealablePoolsAreDealt(own: seq<nat>, facts: seq<Fact>)
    requires |own| == FACTS_PER_TOPIC && Dealable(own, facts)
    ensures Grouped(own, facts, LARGEST_FIRST).Some?
  {
    hide Pick, Without, Subjects, Grouped, Subject, Dealable;
    var rest3 := NineOfDealable(own, facts);
    NineAreDealt(rest3, facts);
    GroupThen(own, facts, 3, [2, 2, 1, 1, 1, 1, 1]);
    assert [3] + [2, 2, 1, 1, 1, 1, 1] == LARGEST_FIRST;
  }

  /** Twelve facts over three subjects or more, none of them used more than six times, are always dealt, in any order. */
  lemma FairPoolsAreDealt(own: seq<nat>, facts: seq<Fact>)
    requires |own| == FACTS_PER_TOPIC && |Subjects(own, facts)| >= 3 && forall subject :: Uses(own, facts, subject) <= 6
    ensures Grouped(own, facts, LARGEST_FIRST).Some?
  {
    hide Subjects, Uses, Grouped;
    DealablePoolsAreDealt(own, facts);
  }

  // Picks of a prefix.

  lemma {:induction false} PickTakesAPrefix(own: seq<nat>, facts: seq<Fact>, count: nat, asked: seq<nat>)
    requires |asked| <= count && count - |asked| <= |own| && Distinct(asked + own[..count - |asked|], facts)
    ensures Pick(own, facts, count, asked) == asked + own[..count - |asked|]
    decreases |own|
  {
    if |asked| != count {
      var all := asked + own[..count - |asked|];
      forall k | 0 <= k < |asked|
        ensures Subject(facts, asked[k]) != Subject(facts, own[0])
      {
        assert all[k] == asked[k] && all[|asked|] == own[0];
      }
      assert (asked + [own[0]]) + own[1..][..count - |asked| - 1] == all;
      PickTakesAPrefix(own[1..], facts, count, asked + [own[0]]);
    }
  }

  lemma {:induction false} WithoutAPrefix(own: seq<nat>, n: nat)
    requires n <= |own| && NoRepeats(own)
    ensures Without(own, own[..n]) == own[n..]
  {
    if n > 0 {
      WithoutAPrefix(own, n - 1);
      assert own[..n][..n - 1] == own[..n - 1];
      assert own[n - 1..][1..] == own[n..];
    }
  }

  lemma PrefixIsTaken(own: seq<nat>, facts: seq<Fact>, n: nat)
    requires n <= |own| && NoRepeats(own) && Distinct(own[..n], facts)
    ensures Pick(own, facts, n, []) == own[..n] && Without(own, own[..n]) == own[n..]
  {
    assert [] + own[..n] == own[..n];
    PickTakesAPrefix(own, facts, n, []);
    WithoutAPrefix(own, n);
  }

  // The generator's loops.

  /** One group: the scan, then the picked facts spliced out of the pool. */
  method TakeGroup(own: seq<nat>, facts: seq<Fact>, count: nat) returns (asked: seq<nat>, rest: seq<nat>)
    ensures asked == Pick(own, facts, count, [])
    ensures |asked| == count ==> rest == Without(own, asked)
  {
    asked, rest := [], own;
    var at := 0;
    while at < |own| && |asked| != count
      invariant 0 <= at <= |own|
      invariant Pick(own[at..], facts, count, asked) == Pick(own, facts, count, [])
    {
      assert own[at..][1..] == own[at + 1..];
      if Subject(facts, own[at]) !in Subjects(asked, facts) {
        asked := asked + [own[at]];
      }
      at := at + 1;
    }
    if |asked| == count {
      for k := 0 to count
        invariant rest == Without(own, asked[..k])
      {
        assert asked[..k + 1][..k] == asked[..k];
        rest := Splice(rest, asked[k]);
      }
      assert asked[..count] == asked;
    }
  }

  lemma {:induction false} RemoveAt(own: seq<nat>, i: nat, at: nat)
    requires at <= |own| && (forall j :: 0 <= j < at ==> own[j] != i) && (at < |own| ==> own[at] == i)
    ensures Remove(own, i) == if at < |own| then own[..at] + own[at + 1..] else own
  {
    if at > 0 {
      RemoveAt(own[1..], i, at - 1);
      assert own == [own[0]] + own[1..];
    }
  }

  /** Removes the first occurrence. */
  method Splice(own: seq<nat>, i: nat) returns (rest: seq<nat>)
    ensures rest == Remove(own, i)
  {
    hide Remove;
    var at := 0;
    while at < |own| && own[at] != i
      invariant 0 <= at <= |own|
      invariant forall j :: 0 <= j < at ==> own[j] != i
    {
      at := at + 1;
    }
    RemoveAt(own, i, at);
    rest := if at < |own| then own[..at] + own[at + 1..] else own;
  }

  /** The groups in the order they are asked are the registered shape. */
  lemma ReversedFit(own: seq<nat>, facts: seq<Fact>, dealt: seq<seq<nat>>, groups: seq<seq<nat>>)
    requires Grouped(own, facts, LARGEST_FIRST) == Some(dealt)
    requires |groups| == |dealt| && forall k :: 0 <= k < |dealt| ==> groups[k] == dealt[|dealt| - 1 - k]
    ensures |groups| == |QUESTION_SHAPE| && forall k :: 0 <= k < |QUESTION_SHAPE| ==>
              |groups[k]| == QUESTION_SHAPE[k] && Distinct(groups[k], facts)
  {
    GroupsFit(own, facts, LARGEST_FIRST);
    hide Grouped, Distinct;
    assert forall k :: 0 <= k < 8 ==> QUESTION_SHAPE[k] == LARGEST_FIRST[7 - k];
  }

  lemma DealtIsThePool(own: seq<nat>, facts: seq<Fact>, dealt: seq<seq<nat>>)
    requires |own| == FACTS_PER_TOPIC && Grouped(own, facts, LARGEST_FIRST) == Some(dealt)
    ensures multiset(Flat(dealt)) == multiset(own)
  {
    GroupsPartition(own, facts, LARGEST_FIRST);
    hide Grouped;
    TotalOfShape();
    WholePool(own, Flat(dealt));
  }

  lemma GroupedStep(own: seq<nat>, facts: seq<Fact>, counts: seq<nat>)
    requires counts != []
    ensures var asked := Pick(own, facts, counts[0], []);
            Grouped(own, facts, counts) == if |asked| != counts[0] then None else Prepend([asked], Grouped(Without(own, asked), facts, counts[1..]))
  {
    hide Pick, Without;
  }

  /** A topic's groups, in the order they are asked: the sizes are the registered shape, and a dealable pool is dealt completely. */
  method DealGroups(own: seq<nat>, facts: seq<Fact>) returns (groups: Option<seq<seq<nat>>>)
    ensures |own| == FACTS_PER_TOPIC && Dealable(own, facts) ==> groups.Some?
    ensures groups.Some? <==> Grouped(own, facts, LARGEST_FIRST).Some?
    ensures |own| == FACTS_PER_TOPIC && groups.Some? ==> multiset(Flat(groups.value)) == multiset(own)
    ensures groups.Some? ==> |groups.value| == |QUESTION_SHAPE| && forall k :: 0 <= k < |QUESTION_SHAPE| ==>
              |groups.value[k]| == QUESTION_SHAPE[k] && Distinct(groups.value[k], facts)
  {
    hide Dealable, Grouped, Pick, Without, Flat, Distinct, Prepend;
    if |own| == FACTS_PER_TOPIC && Dealable(own, facts) {
      DealablePoolsAreDealt(own, facts);
    }
    var pool, dealt := own, [];
    assert LARGEST_FIRST[0..] == LARGEST_FIRST;
    PrependNothing(Grouped(own, facts, LARGEST_FIRST));
    for k := 0 to |LARGEST_FIRST|
      invariant Grouped(own, facts, LARGEST_FIRST) == Prepend(dealt, Grouped(pool, facts, LARGEST_FIRST[k..]))
    {
      GroupedStep(pool, facts, LARGEST_FIRST[k..]);
      assert LARGEST_FIRST[k..][1..] == LARGEST_FIRST[k + 1..];
      var asked, rest := TakeGroup(pool, facts, LARGEST_FIRST[k]);
      PrependTwice(dealt, asked, Grouped(rest, facts, LARGEST_FIRST[k + 1..]));
      if |asked| != LARGEST_FIRST[k] {
        return None;
      }
      dealt, pool := dealt + [asked], rest;
    }
    PrependEmpty(dealt, pool, facts);
    var reversed := Reversed(dealt);
    ReversedFit(own, facts, dealt, reversed);
    if |own| == FACTS_PER_TOPIC {
      DealtIsThePool(own, facts, dealt);
    }
    groups := Some(reversed);
  }

  function Prepend(dealt: seq<seq<nat>>, rest: Option<seq<seq<nat>>>): Option<seq<seq<nat>>> {
    if rest.None? then None else Some(dealt + rest.value)
  }

  lemma PrependEmpty(dealt: seq<seq<nat>>, pool: seq<nat>, facts: seq<Fact>)
    ensures Prepend(dealt, Grouped(pool, facts, LARGEST_FIRST[8..])) == Some(dealt)
  {
    assert dealt + [] == dealt;
  }

  lemma PrependNothing(rest: Option<seq<seq<nat>>>)
    ensures Prepend([], rest) == rest
  {
    if rest.Some? {
      assert [] + rest.value == rest.value;
    }
  }

  lemma PrependTwice(dealt: seq<seq<nat>>, asked: seq<nat>, rest: Option<seq<seq<nat>>>)
    ensures Prepend(dealt, Prepend([asked], rest)) == Prepend(dealt + [asked], rest)
    ensures Prepend(dealt, None) == None
  {
    if rest.Some? {
      assert dealt + ([asked] + rest.value) == (dealt + [asked]) + rest.value;
    }
  }

  lemma TotalOfShape()
    ensures Total(LARGEST_FIRST) == 12
  {
    assert LARGEST_FIRST[1..] == [2, 2, 1, 1, 1, 1, 1];
    assert [2, 2, 1, 1, 1, 1, 1][1..] == [2, 1, 1, 1, 1, 1];
    assert [2, 1, 1, 1, 1, 1][1..] == [1, 1, 1, 1, 1];
    assert [1, 1, 1, 1, 1][1..] == [1, 1, 1, 1];
    assert [1, 1, 1, 1][1..] == [1, 1, 1];
    assert [1, 1, 1][1..] == [1, 1];
    assert Total([1, 1]) == 2;
    assert Total([2, 2, 1, 1, 1, 1, 1]) == 2 + Total([2, 1, 1, 1, 1, 1]);
  }

  method Reversed(dealt: seq<seq<nat>>) returns (groups: seq<seq<nat>>)
    ensures |groups| == |dealt| && forall k :: 0 <= k < |dealt| ==> groups[k] == dealt[|dealt| - 1 - k]
    ensures multiset(Flat(groups)) == multiset(Flat(dealt))
  {
    hide Flat;
    groups := [];
    for n := 0 to |dealt|
      invariant |groups| == n && forall k :: 0 <= k < n ==> groups[k] == dealt[n - 1 - k]
      invariant multiset(Flat(groups)) == multiset(Flat(dealt[..n]))
    {
      FlatOfFront(groups, dealt[n]);
      FlatOfOneMore(dealt[..n], dealt[n]);
      assert dealt[..n + 1] == dealt[..n] + [dealt[n]];
      groups := [dealt[n]] + groups;
    }
    assert dealt[..|dealt|] == dealt;
  }

  lemma FlatOfFront(groups: seq<seq<nat>>, first: seq<nat>)
    ensures Flat([first] + groups) == first + Flat(groups)
  {
    assert ([first] + groups)[1..] == groups;
  }

  lemma {:induction false} FlatOfOneMore(groups: seq<seq<nat>>, last: seq<nat>)
    ensures Flat(groups + [last]) == Flat(groups) + last
  {
    if groups == [] {
      assert groups + [last] == [last];
    } else {
      FlatOfOneMore(groups[1..], last);
      assert (groups + [last])[1..] == groups[1..] + [last];
    }
  }
}
