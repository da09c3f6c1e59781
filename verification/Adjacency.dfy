/** The value behind the documentation's `Graph` class: an adjacency map, its relation and its degree scans. */
module Adjacency {
  import opened Basics
  import opened Digraph

  /** Node names; only their equality matters. */
  type Name = nat

  type Adj = map<Name, set<Name>>

  /** Reading a Go map: a missing key reads as zero. */
  function Count(m: map<Name, int>, k: Name): int {
    if k in m then m[k] else 0
  }

  function Succ(adj: Adj, u: Name): set<Name> {
    if u in adj then adj[u] else {}
  }

  function Arrows(adj: Adj): set<(Name, Name)> {
    set u, v | u in adj && v in adj[u] :: (u, v)
  }

  function Pred(adj: Adj, v: Name): set<Name> {
    set u | u in adj && v in adj[u]
  }

  ghost predicate Closed(adj: Adj) {
    forall u, v :: u in adj && v in adj[u] ==> v in adj
  }

  function WithNode(adj: Adj, n: Name): Adj {
    if n in adj then adj else adj[n := {}]
  }

  function WithEdge(adj: Adj, a: Name, b: Name): Adj {
    var both := WithNode(WithNode(adj, a), b);
    both[a := both[a] + {b}]
  }

  ghost predicate Degrees(adj: Adj, ins: map<Name, int>, outs: map<Name, int>) {
    && (forall v :: Count(ins, v) == |Pred(adj, v)|)
    && (forall u :: Count(outs, u) == |Succ(adj, u)|)
  }

  lemma NodeKeepsDegrees(adj: Adj, ins: map<Name, int>, outs: map<Name, int>, n: Name)
    requires Closed(adj) && Degrees(adj, ins, outs)
    ensures Closed(WithNode(adj, n)) && Degrees(WithNode(adj, n), ins, outs)
    ensures Arrows(WithNode(adj, n)) == Arrows(adj)
  {
    forall v ensures Pred(WithNode(adj, n), v) == Pred(adj, v) && Succ(WithNode(adj, n), v) == Succ(adj, v) {}
  }

  /** One insertion adds one arrow, so it moves exactly two of the scans by one. */
  lemma EdgeMovesScans(adj: Adj, adj': Adj, a: Name, b: Name)
    requires a in adj && b in adj && b !in adj[a] && adj' == adj[a := adj[a] + {b}]
    ensures forall v :: |Pred(adj', v)| == |Pred(adj, v)| + if v == b then 1 else 0
    ensures forall u :: |Succ(adj', u)| == |Succ(adj, u)| + if u == a then 1 else 0
  {
    assert Pred(adj', b) == Pred(adj, b) + {a} && a !in Pred(adj, b);
    forall v | v != b ensures Pred(adj', v) == Pred(adj, v) {}
    assert Succ(adj', a) == Succ(adj, a) + {b};
    forall u | u != a ensures Succ(adj', u) == Succ(adj, u) {}
  }

  lemma EdgeKeepsDegrees(adj: Adj, adj': Adj, ins: map<Name, int>, outs: map<Name, int>, a: Name, b: Name)
    requires Degrees(adj, ins, outs)
    requires a in adj && b in adj && b !in adj[a] && adj' == adj[a := adj[a] + {b}]
    ensures Degrees(adj', ins[b := Count(ins, b) + 1], outs[a := Count(outs, a) + 1])
  {
    EdgeMovesScans(adj, adj', a, b);
  }

  /** Inserting an edge adds its two ends to the nodes and that one arrow to the relation, nothing else. */
  lemma InsertedArrows(adj: Adj, a: Name, b: Name)
    ensures WithEdge(adj, a, b).Keys == adj.Keys + {a, b}
    ensures Arrows(WithEdge(adj, a, b)) == Arrows(adj) + {(a, b)}
  {
    var both := WithNode(WithNode(adj, a), b);
    assert Arrows(both) == Arrows(adj);
    forall e ensures e in Arrows(WithEdge(adj, a, b)) <==> e in Arrows(adj) || e == (a, b) {}
  }

  /** What a search may conclude from its visited set once nothing is left to expand. */
  lemma VisitedIsReachable(adj: Adj, start: Name, visited: set<Name>, v: Name)
    requires start in visited
    requires forall x :: x in visited ==> Reaches(Arrows(adj), start, x)
    requires forall x :: x in visited ==> Succ(adj, x) <= visited
    ensures v in visited <==> Reaches(Arrows(adj), start, v)
  {
    if Reaches(Arrows(adj), start, v) {
      ClosedContainsReach(Arrows(adj), visited, start, v);
    }
  }

  /** Every listed node comes after its successors: the order in which a depth-first search finishes. */
  ghost predicate FinishOrder(adj: Adj, order: seq<Name>) {
    && Distinct(order)
    && (forall k :: 0 <= k < |order| ==> order[k] in adj && Succ(adj, order[k]) <= ToSet(order[..k]))
  }

  /** Every listed node comes after its predecessors: the order in which Kahn's algorithm peels. */
  ghost predicate PeelOrder(adj: Adj, order: seq<Name>) {
    && Distinct(order)
    && (forall k :: 0 <= k < |order| ==> order[k] in adj && Pred(adj, order[k]) <= ToSet(order[..k]))
  }

  lemma FinishNext(adj: Adj, order: seq<Name>, u: Name)
    requires FinishOrder(adj, order) && u in adj && u !in order && Succ(adj, u) <= ToSet(order)
    ensures FinishOrder(adj, order + [u])
    ensures ToSet(order + [u]) == ToSet(order) + {u}
  {
    var next := order + [u];
    forall k | 0 <= k < |next| ensures Succ(adj, next[k]) <= ToSet(next[..k]) {
      assert next[..k] == order[..k];
      assert order[..|order|] == order;
    }
  }

  lemma PeelNext(adj: Adj, order: seq<Name>, u: Name)
    requires PeelOrder(adj, order) && u in adj && u !in order && Pred(adj, u) <= ToSet(order)
    ensures PeelOrder(adj, order + [u])
    ensures ToSet(order + [u]) == ToSet(order) + {u}
  {
    var next := order + [u];
    forall k | 0 <= k < |next| ensures Pred(adj, next[k]) <= ToSet(next[..k]) {
      assert next[..k] == order[..k];
      assert order[..|order|] == order;
    }
  }

  /** A complete peel order is a topological order. */
  lemma PeelIsTopological(adj: Adj, order: seq<Name>)
    requires Closed(adj) && PeelOrder(adj, order) && ToSet(order) == adj.Keys
    ensures IsTopoOrder(adj.Keys, Arrows(adj), order)
    ensures !Cyclic(Arrows(adj))
  {
    forall i, j | 0 <= i < |order| && 0 <= j < |order| && (order[i], order[j]) in Arrows(adj)
      ensures i < j
    {
      assert order[i] in Pred(adj, order[j]);
      var k :| 0 <= k < j && order[k] == order[i];
    }
    TopoOrderMeansAcyclic(adj.Keys, Arrows(adj), order);
  }

  /** A complete finish order, read backwards, is a topological order. */
  lemma FinishReversedIsTopological(adj: Adj, order: seq<Name>, back: seq<Name>)
    requires Closed(adj) && FinishOrder(adj, order) && ToSet(order) == adj.Keys
    requires |back| == |order| && forall i :: 0 <= i < |back| ==> back[i] == order[|order| - 1 - i]
    ensures IsTopoOrder(adj.Keys, Arrows(adj), back)
    ensures !Cyclic(Arrows(adj))
  {
    forall x ensures x in back <==> x in order {
      if x in order {
        var k :| 0 <= k < |order| && order[k] == x;
        assert back[|order| - 1 - k] == x;
      }
    }
    forall i, j | 0 <= i < |back| && 0 <= j < |back| && (back[i], back[j]) in Arrows(adj)
      ensures i < j
    {
      var n := |order| - 1;
      assert order[n - j] in Succ(adj, order[n - i]);
      assert order[n - j] in ToSet(order[..n - i]);
      var k :| 0 <= k < n - i && order[k] == order[n - j];
    }
    TopoOrderMeansAcyclic(adj.Keys, Arrows(adj), back);
  }

  lemma FinishOrderMeansAcyclic(adj: Adj, order: seq<Name>)
    requires Closed(adj) && FinishOrder(adj, order) && ToSet(order) == adj.Keys
    ensures !Cyclic(Arrows(adj))
  {
    var back := seq(|order|, i requires 0 <= i < |order| => order[|order| - 1 - i]);
    FinishReversedIsTopological(adj, order, back);
  }

  /** The predecessors of `v` that have not been peeled yet. */
  function Pending(adj: Adj, done: set<Name>, v: Name): set<Name> {
    Pred(adj, v) - done
  }

  function PendingCounts(adj: Adj, done: set<Name>): map<Name, nat> {
    map v | v in adj :: |Pending(adj, done, v)|
  }

  lemma PendingStep(adj: Adj, done: set<Name>, u: Name, before: map<Name, nat>, after: map<Name, nat>)
    requires u in adj && u !in done
    requires before == PendingCounts(adj, done) && after == PendingCounts(adj, done + {u})
    ensures forall v :: v in adj ==> before[v] == after[v] + if v in adj[u] then 1 else 0
  {
    forall v | v in adj ensures before[v] == after[v] + if v in adj[u] then 1 else 0 {
      if v in adj[u] {
        assert Pending(adj, done, v) == Pending(adj, done + {u}, v) + {u};
      } else {
        assert Pending(adj, done, v) == Pending(adj, done + {u}, v);
      }
    }
  }

  /** Kahn's invariant: a counter holds the pending predecessors (one more for the nodes in `rest`, which the
      node being peeled has yet to release), and the queue holds the unpeeled zeroes. */
  ghost predicate Peeling(left: map<Name, nat>, done: set<Name>, queue: seq<Name>, ins: map<Name, int>, rest: set<Name>) {
    && ins.Keys == left.Keys
    && (forall v :: v in ins ==> ins[v] == left[v] + if v in rest then 1 else 0)
    && Distinct(queue)
    && (forall v :: v in queue ==> v in ins && v !in done)
    && (forall v :: v in ins ==> (ins[v] == 0 <==> v in queue || v in done))
  }

  ghost predicate KahnState(adj: Adj, done: set<Name>, queue: seq<Name>, ins: map<Name, int>) {
    done <= adj.Keys && Peeling(PendingCounts(adj, done), done, queue, ins, {})
  }

  lemma PendingOfNone(adj: Adj, v: Name)
    ensures |Pending(adj, {}, v)| == |Pred(adj, v)|
  {
    var pred := Pred(adj, v);
    assert pred - {} == pred;
  }

  lemma AllPending(adj: Adj, left: map<Name, nat>)
    requires left == PendingCounts(adj, {})
    ensures left.Keys == adj.Keys
    ensures forall v :: v in adj ==> left[v] == |Pred(adj, v)|
  {
    forall v | v in adj ensures left[v] == |Pred(adj, v)| {
      PendingOfNone(adj, v);
    }
  }

  lemma PeelingStarts(left: map<Name, nat>, queue: seq<Name>)
    requires Distinct(queue) && forall v :: v in queue <==> v in left && left[v] == 0
    ensures Peeling(left, {}, queue, left, {})
  {}

  lemma FrontLeaves(left: map<Name, nat>, after: map<Name, nat>, done: set<Name>, queue: seq<Name>, ins: map<Name, int>, freed: set<Name>)
    requires Peeling(left, done, queue, ins, {}) && queue != [] && after.Keys == left.Keys
    requires forall v :: v in left ==> left[v] == after[v] + if v in freed then 1 else 0
    ensures Peeling(after, done + {queue[0]}, queue[1..], ins, freed)
  {
    assert queue == [queue[0]] + queue[1..];
  }

  lemma FrontIsFree(adj: Adj, done: set<Name>, queue: seq<Name>, ins: map<Name, int>)
    requires KahnState(adj, done, queue, ins) && queue != []
    ensures queue[0] in adj && queue[0] !in done && Pred(adj, queue[0]) <= done
  {
    assert queue[0] in queue && ins[queue[0]] == PendingCounts(adj, done)[queue[0]] == 0;
    assert Pending(adj, done, queue[0]) == {};
  }

  lemma PeelStarts(adj: Adj, done: set<Name>, queue: seq<Name>, ins: map<Name, int>, u: Name)
    requires queue != [] && u == queue[0] && u in adj && u !in done
    requires Peeling(PendingCounts(adj, done), done, queue, ins, {})
    ensures Peeling(PendingCounts(adj, done + {u}), done + {u}, queue[1..], ins, adj[u])
  {
    var before, after := PendingCounts(adj, done), PendingCounts(adj, done + {u});
    PendingStep(adj, done, u, before, after);
    FrontLeaves(before, after, done, queue, ins, adj[u]);
  }

  /** One round of the main loop: the node just peeled extends the order, and fewer nodes remain. */
  lemma Peeled(adj: Adj, order: seq<Name>, done: set<Name>, u: Name)
    requires PeelOrder(adj, order) && done == ToSet(order) <= adj.Keys
    requires u in adj && u !in done && Pred(adj, u) <= done
    ensures PeelOrder(adj, order + [u]) && done + {u} == ToSet(order + [u])
    ensures |order| < |adj|
  {
    PeelNext(adj, order, u);
    DistinctSize(order);
    SubsetSize(done + {u}, adj.Keys);
    assert |adj| == |adj.Keys|;
  }

  lemma PeelContinues(left: map<Name, nat>, done: set<Name>, queue: seq<Name>, ins: map<Name, int>, rest: set<Name>, v: Name)
    requires Peeling(left, done, queue, ins, rest) && v in rest && v in ins
    ensures Peeling(left, done, if ins[v] == 1 then queue + [v] else queue, ins[v := ins[v] - 1], rest - {v})
  {
    assert ins[v] > 0;
  }

  /** An arrow of an acyclic graph never leads back to a node whose visit is still open. */
  lemma OpenNodesReach(adj: Adj, u: Name, v: Name, visited: set<Name>, order: seq<Name>)
    requires !Cyclic(Arrows(adj)) && u in adj && v in adj[u]
    requires forall g :: g in visited && g !in order ==> g == u || Reaches(Arrows(adj), g, u)
    ensures forall g :: g in visited && g !in order ==> g != v && Reaches(Arrows(adj), g, v)
  {
    assert (u, v) in Arrows(adj);
    forall g | g in visited && g !in order ensures g != v && Reaches(Arrows(adj), g, v) {
      ReachesSelf(Arrows(adj), u);
      ReachesThenArc(Arrows(adj), g, u, v);
    }
  }

  lemma WaitsForUnpeeled(adj: Adj, done: set<Name>, ins: map<Name, int>, v: Name) returns (u: Name)
    requires KahnState(adj, done, [], ins) && v in adj && v !in done
    ensures u in adj && u !in done && (u, v) in Arrows(adj)
  {
    assert Pending(adj, done, v) != {};
    u :| u in Pending(adj, done, v);
  }

  /** Unpeeled nodes all wait for one another once the queue is empty. */
  lemma StuckMeansCycle(adj: Adj, done: set<Name>, ins: map<Name, int>, x: Name)
    requires KahnState(adj, done, [], ins) && x in adj && x !in done
    ensures Cyclic(Arrows(adj))
  {
    var left := adj.Keys - done;
    forall v | v in left ensures exists u :: u in left && (u, v) in Arrows(adj) {
      var u := WaitsForUnpeeled(adj, done, ins, v);
      assert u in left;
    }
    NoSourceMeansCycle(Arrows(adj), left, x);
  }

  lemma AllPeeled(adj: Adj, order: seq<Name>)
    requires Closed(adj) && PeelOrder(adj, order) && ToSet(order) == adj.Keys
    ensures |order| == |adj| && !Cyclic(Arrows(adj))
  {
    DistinctSize(order);
    assert |adj| == |adj.Keys|;
    PeelIsTopological(adj, order);
  }

  lemma SomeLeft(adj: Adj, order: seq<Name>, done: set<Name>, ins: map<Name, int>, x: Name)
    requires Distinct(order) && done == ToSet(order) && KahnState(adj, done, [], ins) && x in adj && x !in done
    ensures |order| < |adj| && Cyclic(Arrows(adj))
  {
    StuckMeansCycle(adj, done, ins, x);
    DistinctSize(order);
    SubsetSize(done + {x}, adj.Keys);
    assert |adj| == |adj.Keys|;
  }

  /** When the queue runs dry, everything was peeled exactly if there is no cycle. */
  lemma KahnVerdict(adj: Adj, order: seq<Name>, done: set<Name>, ins: map<Name, int>)
    requires Closed(adj) && PeelOrder(adj, order) && done == ToSet(order) && KahnState(adj, done, [], ins)
    ensures |order| <= |adj|
    ensures |order| == |adj| <==> !Cyclic(Arrows(adj))
    ensures |order| == |adj| ==> done == adj.Keys
  {
    if x :| x in adj && x !in done {
      SomeLeft(adj, order, done, ins, x);
    } else {
      assert done == adj.Keys;
      AllPeeled(adj, order);
    }
  }
}
