/** Reachability in a finite directed graph, as the least set that holds the roots and is closed under the edges. */
module Reachability {
  type Graph<T(==)> = map<T, set<T>>

  function Successors<T(!new)>(g: Graph<T>, n: T): set<T> {
    if n in g then g[n] else {}
  }

  ghost predicate Closed<T(!new)>(g: Graph<T>, s: set<T>) {
    forall n :: n in s ==> Successors(g, n) <= s
  }

  /** Every node a walk from the roots can end in. */
  function Universe<T(!new)>(g: Graph<T>, roots: set<T>): set<T> {
    roots + set n, m | n in g && m in g[n] :: m
  }

  ghost predicate Forced<T(!new)>(g: Graph<T>, roots: set<T>, m: T) {
    forall s :: Closed(g, s) && roots <= s ==> m in s
  }

  ghost function Reach<T(!new)>(g: Graph<T>, roots: set<T>): set<T> {
    set m | m in Universe(g, roots) && Forced(g, roots, m)
  }

  lemma ReachIsLeast<T(!new)>(g: Graph<T>, roots: set<T>)
    ensures roots <= Reach(g, roots)
    ensures Closed(g, Reach(g, roots))
    ensures forall s :: Closed(g, s) && roots <= s ==> Reach(g, roots) <= s
  {
    forall n, m | n in Reach(g, roots) && m in Successors(g, n)
      ensures m in Reach(g, roots)
    {
      assert m in Universe(g, roots);
      forall s | Closed(g, s) && roots <= s
        ensures m in s
      {
        assert n in s;
      }
    }
  }

  /** A walk starts in a root and follows one edge per step. */
  ghost predicate IsWalk<T(!new)>(g: Graph<T>, roots: set<T>, walk: seq<T>) {
    && |walk| > 0
    && walk[0] in roots
    && forall i :: 0 < i < |walk| ==> walk[i] in Successors(g, walk[i - 1])
  }

  ghost predicate EndsIn<T(!new)>(g: Graph<T>, roots: set<T>, walk: seq<T>, m: T) {
    IsWalk(g, roots, walk) && walk[|walk| - 1] == m
  }

  lemma {:induction false} WalkStaysInside<T(!new)>(g: Graph<T>, roots: set<T>, walk: seq<T>, s: set<T>)
    requires IsWalk(g, roots, walk) && roots <= s && Closed(g, s)
    ensures walk[|walk| - 1] in s
  {
    if |walk| > 1 {
      WalkStaysInside(g, roots, walk[..|walk| - 1], s);
    }
  }

  /** The least closed set is exactly what a walk can end in. */
  lemma ReachIffWalk<T(!new)>(g: Graph<T>, roots: set<T>, m: T)
    ensures m in Reach(g, roots) <==> exists walk :: EndsIn(g, roots, walk, m)
  {
    ReachIsLeast(g, roots);
    if walk :| EndsIn(g, roots, walk, m) {
      WalkStaysInside(g, roots, walk, Reach(g, roots));
    }
    var walked := set n | n in Universe(g, roots) && exists walk :: EndsIn(g, roots, walk, n);
    forall r | r in roots
      ensures r in walked
    {
      assert EndsIn(g, roots, [r], r);
    }
    forall n, k | n in walked && k in Successors(g, n)
      ensures k in walked
    {
      var walk :| EndsIn(g, roots, walk, n);
      assert EndsIn(g, roots, walk + [k], k);
    }
    assert Closed(g, walked);
  }

  /** A worklist's invariant: what is done and what waits is reachable, and only waiting nodes are unexplored. */
  ghost predicate Walking<T(!new)>(g: Graph<T>, roots: set<T>, done: set<T>, waiting: set<T>) {
    && done + waiting <= Reach(g, roots)
    && roots <= done + waiting
    && forall n :: n in done ==> Successors(g, n) <= done + waiting
  }

  function Unexplored<T(!new)>(g: Graph<T>, roots: set<T>, done: set<T>): set<T> {
    Universe(g, roots) - done
  }

  lemma WalkStarts<T(!new)>(g: Graph<T>, roots: set<T>)
    ensures Walking(g, roots, {}, roots)
  {
    ReachIsLeast(g, roots);
  }

  lemma WalkStep<T(!new)>(g: Graph<T>, roots: set<T>, done: set<T>, waiting: set<T>, n: T)
    requires Walking(g, roots, done, waiting + {n})
    ensures n in done ==> Walking(g, roots, done, waiting)
    ensures Walking(g, roots, done + {n}, waiting + Successors(g, n))
  {
    ReachIsLeast(g, roots);
    assert n in done + (waiting + {n});
    assert Successors(g, n) <= Reach(g, roots);
  }

  lemma WalkShrinks<T(!new)>(g: Graph<T>, roots: set<T>, done: set<T>, waiting: set<T>, n: T)
    requires Walking(g, roots, done, waiting + {n}) && n !in done
    ensures |Unexplored(g, roots, done + {n})| < |Unexplored(g, roots, done)|
  {
    assert n in done + (waiting + {n});
    assert Unexplored(g, roots, done) == Unexplored(g, roots, done + {n}) + {n};
  }

  lemma WalkEnds<T(!new)>(g: Graph<T>, roots: set<T>, done: set<T>)
    requires Walking(g, roots, done, {})
    ensures done == Reach(g, roots)
  {
    ReachIsLeast(g, roots);
    assert Closed(g, done);
  }
}
