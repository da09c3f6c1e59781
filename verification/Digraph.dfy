/** Walks, reachability and cycles of a finite relation, independent of how a graph stores its arcs. */
module Digraph {
  import opened Basics

  ghost predicate IsWalk<T>(rel: set<(T, T)>, p: seq<T>) {
    && |p| > 0
    && forall i, j :: 0 <= i && j == i + 1 && j < |p| ==> (p[i], p[j]) in rel
  }

  ghost predicate WalkFromTo<T>(rel: set<(T, T)>, p: seq<T>, a: T, b: T) {
    IsWalk(rel, p) && p[0] == a && p[|p| - 1] == b
  }

  ghost predicate Reaches<T(!new)>(rel: set<(T, T)>, a: T, b: T) {
    exists p :: WalkFromTo(rel, p, a, b)
  }

  /** Some arc's head reaches back to its tail (a self-loop included). */
  ghost predicate Cyclic<T(!new)>(rel: set<(T, T)>) {
    exists a, b :: (a, b) in rel && Reaches(rel, b, a)
  }

  /** Every arc points forward in `order`, which lists each node once. */
  ghost predicate IsTopoOrder<T>(nodes: set<T>, rel: set<(T, T)>, order: seq<T>) {
    && Distinct(order)
    && ToSet(order) == nodes
    && forall i, j :: 0 <= i < |order| && 0 <= j < |order| && (order[i], order[j]) in rel ==> i < j
  }

  ghost predicate Within<T(!new)>(nodes: set<T>, rel: set<(T, T)>) {
    forall a, b :: (a, b) in rel ==> a in nodes && b in nodes
  }

  lemma ReachesSelf<T(!new)>(rel: set<(T, T)>, a: T)
    ensures Reaches(rel, a, a)
  {
    assert WalkFromTo(rel, [a], a, a);
  }

  lemma ReachesTransitive<T(!new)>(rel: set<(T, T)>, a: T, b: T, c: T)
    requires Reaches(rel, a, b) && Reaches(rel, b, c)
    ensures Reaches(rel, a, c)
  {
    var p :| WalkFromTo(rel, p, a, b);
    var q :| WalkFromTo(rel, q, b, c);
    var w := p + q[1..];
    forall i, j | 0 <= i && j == i + 1 && j < |w| ensures (w[i], w[j]) in rel {
      if j >= |p| {
        assert w[j] == q[j - |p| + 1];
        assert w[i] == q[i - |p| + 1];
      }
    }
    assert WalkFromTo(rel, w, a, c);
  }

  lemma ArcReaches<T(!new)>(rel: set<(T, T)>, a: T, b: T)
    requires (a, b) in rel
    ensures Reaches(rel, a, b)
  {
    assert WalkFromTo(rel, [a, b], a, b);
  }

  lemma ReachesThenArc<T(!new)>(rel: set<(T, T)>, a: T, b: T, c: T)
    requires Reaches(rel, a, b) && (b, c) in rel
    ensures Reaches(rel, a, c)
  {
    ArcReaches(rel, b, c);
    ReachesTransitive(rel, a, b, c);
  }

  /** A set that contains `a` and is closed under arcs contains everything `a` reaches. */
  lemma ClosedContainsReach<T(!new)>(rel: set<(T, T)>, S: set<T>, a: T, b: T)
    requires a in S && Reaches(rel, a, b)
    requires forall x, y :: (x, y) in rel && x in S ==> y in S
    ensures b in S
  {
    var p :| WalkFromTo(rel, p, a, b);
    WalkStaysIn(rel, S, p, |p| - 1);
  }

  lemma WalkStaysIn<T(!new)>(rel: set<(T, T)>, S: set<T>, p: seq<T>, k: nat)
    requires IsWalk(rel, p) && p[0] in S && k < |p|
    requires forall x, y :: (x, y) in rel && x in S ==> y in S
    ensures p[k] in S
  {
    if k > 0 {
      WalkStaysIn(rel, S, p, k - 1);
      assert (p[k - 1], p[k]) in rel;
    }
  }

  /** The last arc of a walk between different nodes. */
  lemma LastArc<T(!new)>(rel: set<(T, T)>, a: T, b: T) returns (c: T)
    requires Reaches(rel, a, b) && a != b
    ensures Reaches(rel, a, c) && (c, b) in rel
  {
    var p :| WalkFromTo(rel, p, a, b);
    c := p[|p| - 2];
    assert (p[|p| - 2], p[|p| - 1]) in rel;
    assert WalkFromTo(rel, p[..|p| - 1], a, c);
  }

  ghost function Ancestors<T(!new)>(nodes: set<T>, rel: set<(T, T)>, v: T): set<T> {
    set a | a in nodes && Reaches(rel, a, v)
  }

  /** Number of nodes that reach `v`, itself included: a topological rank when there is no cycle. */
  ghost function Rank<T(!new)>(nodes: set<T>, rel: set<(T, T)>, v: T): nat {
    |Ancestors(nodes, rel, v)|
  }

  lemma RankBounds<T(!new)>(nodes: set<T>, rel: set<(T, T)>, v: T)
    requires v in nodes
    ensures 1 <= Rank(nodes, rel, v) <= |nodes|
  {
    ReachesSelf(rel, v);
    assert v in Ancestors(nodes, rel, v);
    SubsetSize(Ancestors(nodes, rel, v), nodes);
  }

  lemma RankIncreases<T(!new)>(nodes: set<T>, rel: set<(T, T)>, u: T, v: T)
    requires !Cyclic(rel) && (u, v) in rel && v in nodes
    ensures Rank(nodes, rel, u) < Rank(nodes, rel, v)
  {
    var au, av := Ancestors(nodes, rel, u), Ancestors(nodes, rel, v);
    forall a | a in au ensures a in av {
      ReachesThenArc(rel, a, u, v);
    }
    ReachesSelf(rel, v);
    assert v in av && v !in au;
    SubsetSize(au, av);
  }

  /** Kahn's argument: nodes that all keep a predecessor among themselves lie behind a cycle. */
  lemma {:induction false} NoSourceMeansCycle<T(!new)>(rel: set<(T, T)>, S: set<T>, v: T)
    requires v in S
    requires forall x :: x in S ==> exists u :: u in S && (u, x) in rel
    ensures Cyclic(rel)
    decreases Rank(S, rel, v)
  {
    if !Cyclic(rel) {
      var u :| u in S && (u, v) in rel;
      RankIncreases(S, rel, u, v);
      NoSourceMeansCycle(rel, S, u);
    }
  }

  lemma {:induction false} WalkMovesForward<T(!new)>(nodes: set<T>, rel: set<(T, T)>, order: seq<T>, p: seq<T>)
    requires IsTopoOrder(nodes, rel, order) && Within(nodes, rel)
    requires IsWalk(rel, p) && p[0] in nodes
    ensures forall i, j :: 0 <= i < |order| && 0 <= j < |order| && order[i] == p[0] && order[j] == p[|p| - 1] ==> i <= j
    ensures p[|p| - 1] in nodes
  {
    if |p| > 1 {
      var q := p[..|p| - 1];
      WalkMovesForward(nodes, rel, order, q);
      assert (p[|p| - 2], p[|p| - 1]) in rel;
      assert p[|p| - 2] in ToSet(order);
      var m :| 0 <= m < |order| && order[m] == p[|p| - 2];
    }
  }

  /** A topological order rules out cycles. */
  lemma TopoOrderMeansAcyclic<T(!new)>(nodes: set<T>, rel: set<(T, T)>, order: seq<T>)
    requires IsTopoOrder(nodes, rel, order) && Within(nodes, rel)
    ensures !Cyclic(rel)
  {
    if Cyclic(rel) {
      var a, b :| (a, b) in rel && Reaches(rel, b, a);
      var p :| WalkFromTo(rel, p, b, a);
      WalkMovesForward(nodes, rel, order, p);
    }
  }
}
