/** Facts about sequences and the multisets of their elements. */
module Sequences {
  predicate NoRepeats<T(==)>(s: seq<T>) {
    forall i, j :: 0 <= i < j < |s| ==> s[i] != s[j]
  }

  lemma SameElements<T>(a: seq<T>, b: seq<T>)
    requires multiset(a) == multiset(b)
    ensures |a| == |b| && forall x :: x in a <==> x in b
  {
    assert |multiset(a)| == |a| && |multiset(b)| == |b|;
    forall x
      ensures x in a <==> x in b
    {
      assert x in a <==> x in multiset(a);
      assert x in b <==> x in multiset(b);
    }
  }

  lemma TwiceIsTwo<T>(s: seq<T>, i: nat, j: nat)
    requires i < j < |s| && s[i] == s[j]
    ensures multiset(s)[s[i]] >= 2
  {
    assert s == s[..j] + s[j..];
    assert s[i] in s[..j] && s[j] in s[j..];
    assert multiset(s) == multiset(s[..j]) + multiset(s[j..]);
  }

  lemma OccursOnce<T>(s: seq<T>, x: T)
    requires x in s && NoRepeats(s)
    ensures multiset(s)[x] == 1
  {
    var k :| 0 <= k < |s| && s[k] == x;
    assert s == s[..k] + [s[k]] + s[k + 1..];
    assert x !in s[..k] && x !in s[k + 1..];
    assert multiset(s) == multiset(s[..k]) + multiset{s[k]} + multiset(s[k + 1..]);
  }

  lemma ShuffleRepeatsNothing<T>(s: seq<T>, t: seq<T>)
    requires multiset(s) == multiset(t) && NoRepeats(s)
    ensures NoRepeats(t)
  {
    forall i, j | 0 <= i < j < |t|
      ensures t[i] != t[j]
    {
      assert t[i] in multiset(t);
      OccursOnce(s, t[i]);
      if t[i] == t[j] {
        TwiceIsTwo(t, i, j);
      }
    }
  }

  /** A sequence after exchanges of two positions each; an exchange outside it does nothing. */
  function Swapped<T>(s: seq<T>, swaps: seq<(nat, nat)>): (t: seq<T>)
    ensures |t| == |s| && multiset(t) == multiset(s)
  {
    if swaps == [] then s else
    var before, last := Swapped(s, swaps[..|swaps| - 1]), swaps[|swaps| - 1];
    if last.0 < |before| && last.1 < |before| then Exchanged(before, last.0, last.1) else before
  }

  function Exchanged<T>(s: seq<T>, i: nat, j: nat): (t: seq<T>)
    requires i < |s| && j < |s|
    ensures |t| == |s| && multiset(t) == multiset(s)
  {
    s[i := s[j]][j := s[i]]
  }

  lemma {:induction false} SwappedThen<T>(s: seq<T>, first: seq<(nat, nat)>, second: seq<(nat, nat)>)
    ensures Swapped(s, first + second) == Swapped(Swapped(s, first), second)
  {
    if second == [] {
      assert first + second == first;
    } else {
      SwappedThen(s, first, second[..|second| - 1]);
      assert (first + second)[..|first + second| - 1] == first + second[..|second| - 1];
    }
  }

  /** Exchanges lead to every order. */
  lemma {:induction false} SwapsTo<T>(s: seq<T>, order: seq<T>, done: nat) returns (swaps: seq<(nat, nat)>)
    requires multiset(s) == multiset(order) && done <= |s| && done <= |order| && s[..done] == order[..done]
    ensures Swapped(s, swaps) == order
    decreases |s| - done
  {
    SameElements(s, order);
    if done == |s| {
      swaps := [];
      assert s == s[..done] && order == order[..done];
    } else {
      var at := FoundAfter(s, order, done);
      var next := Exchanged(s, done, at);
      assert next[..done + 1] == order[..done + 1];
      var rest := SwapsTo(next, order, done + 1);
      swaps := [(done, at)] + rest;
      assert Swapped(s, [(done, at)]) == next;
      SwappedThen(s, [(done, at)], rest);
    }
  }

  lemma FoundAfter<T>(s: seq<T>, order: seq<T>, done: nat) returns (at: nat)
    requires multiset(s) == multiset(order) && done < |s| == |order| && s[..done] == order[..done]
    ensures done <= at < |s| && s[at] == order[done]
  {
    assert s == s[..done] + s[done..] && order == order[..done] + order[done..];
    assert multiset(s[done..]) == multiset(s) - multiset(s[..done]);
    assert multiset(order[done..]) == multiset(order) - multiset(order[..done]);
    assert order[done] == order[done..][0];
    assert order[done] in multiset(s[done..]);
    var k :| 0 <= k < |s[done..]| && s[done..][k] == order[done];
    at := done + k;
  }
}
