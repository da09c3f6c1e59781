/** What an accepted graph looks like under the seeded degree bounds: a tree rooted at Start. */
module PublishTheory {
  import opened Basics
  import opened Digraph
  import opened EdgeList
  import opened PublishValidate

  const API := "api"
  const FUNCTION := "function"
  const RESPONSE := "response"

  /** The node_types rows of the seed migration. */
  ghost predicate SeededBounds(n: PublishNode) {
    || (n.nodeType == START && n.minIn == n.maxIn == 0 && n.minOut == n.maxOut == 1)
    || (n.nodeType == CONDITIONAL && n.minIn == n.maxIn == 1 && n.minOut == n.maxOut == 2)
    || (n.nodeType in {API, FUNCTION} && n.minIn == n.maxIn == 1 && n.minOut == n.maxOut == 1)
    || (n.nodeType == RESPONSE && n.minIn == n.maxIn == 1 && n.minOut == n.maxOut == 0)
  }

  ghost predicate DistinctIds(nodes: seq<PublishNode>) {
    forall i, j :: 0 <= i < j < |nodes| ==> nodes[i].id != nodes[j].id
  }

  /** One Start, node ids unique as the primary key makes them, seeded bounds met, no foreign endpoint. */
  ghost predicate SeededShape(nodes: seq<PublishNode>, edges: seq<PublishEdge>, start: Id) {
    && DistinctIds(nodes)
    && (forall n :: n in nodes ==> SeededBounds(n))
    && StartIds(nodes) == [start]
    && EndpointsIn(Ids(nodes), edges)
    && DegreesOk(nodes, edges)
  }

  /** Start has no predecessor and every other node exactly one. */
  ghost predicate Rooted(ids: set<Id>, rel: set<(Id, Id)>, start: Id) {
    && start in ids
    && Within(ids, rel)
    && (forall u :: (u, start) !in rel)
    && (forall v :: v in ids && v != start ==> exists u :: (u, v) in rel)
    && (forall u, w, v :: (u, v) in rel && (w, v) in rel ==> u == w)
  }

  lemma {:induction false} OneEdgeIn(edges: seq<PublishEdge>, v: Id)
    requires InDegree(edges, v) == 1
    ensures exists u :: (u, v) in Arcs(edges)
    ensures forall u, w :: (u, v) in Arcs(edges) && (w, v) in Arcs(edges) ==> u == w
  {
    var n := |edges| - 1;
    var init, e := edges[..n], edges[n];
    assert edges == init + [e];
    assert Arcs(edges) == Arcs(init) + {(e.from, e.to)};
    if e.to == v {
      RemainingZero(init, {}, v);
      assert (e.from, v) in Arcs(edges);
    } else {
      OneEdgeIn(init, v);
      var u :| (u, v) in Arcs(init);
      assert (u, v) in Arcs(edges);
    }
  }

  lemma SeededShapeIsRooted(nodes: seq<PublishNode>, edges: seq<PublishEdge>, start: Id)
    requires SeededShape(nodes, edges, start)
    ensures Rooted(Ids(nodes), Arcs(edges), start)
  {
    StartIdsAreIds(nodes);
    assert start in StartIds(nodes);
    forall n | n in nodes && n.id == start ensures n.nodeType == START {
      var m :| m in nodes && m.id == start && m.nodeType == START;
    }
    forall n | n in nodes && n.id != start ensures n.nodeType != START {
      assert n.nodeType == START ==> n.id in StartIds(nodes);
    }
    RemainingZero(edges, {}, start);
    forall v | v in Ids(nodes) && v != start
      ensures exists u :: (u, v) in Arcs(edges)
      ensures forall u, w :: (u, v) in Arcs(edges) && (w, v) in Arcs(edges) ==> u == w
    {
      OneEdgeIn(edges, v);
    }
  }

  lemma AcyclicMeansReachable(ids: set<Id>, rel: set<(Id, Id)>, start: Id, v: Id)
    requires Rooted(ids, rel, start) && !Cyclic(rel) && v in ids
    ensures Reaches(rel, start, v)
  {
    var lost := set x | x in ids && !Reaches(rel, start, x);
    if v in lost {
      ReachesSelf(rel, start);
      forall x | x in lost ensures exists u :: u in lost && (u, x) in rel {
        var u :| (u, x) in rel;
        if Reaches(rel, start, u) {
          ReachesThenArc(rel, start, u, x);
        }
      }
      NoSourceMeansCycle(rel, lost, v);
    }
  }

  /** With unique predecessors the nodes behind a cycle form a set that Start cannot enter. */
  lemma ReachableMeansAcyclic(ids: set<Id>, rel: set<(Id, Id)>, start: Id)
    requires Rooted(ids, rel, start)
    requires forall v :: v in ids ==> Reaches(rel, start, v)
    ensures !Cyclic(rel)
  {
    if Cyclic(rel) {
      var a, b :| (a, b) in rel && Reaches(rel, b, a);
      // Nodes outside the cycle's own ancestry are closed under arcs, and Start is one of them.
      var outside := set x | x in ids && !Reaches(rel, b, x);
      if Reaches(rel, b, start) {
        if b != start {
          var c := LastArc(rel, b, start);
        }
      } else {
        forall x, y | (x, y) in rel && x in outside ensures y in outside {
          if Reaches(rel, b, y) {
            if y != b {
              var c := LastArc(rel, b, y);
            }
          }
        }
        ClosedContainsReach(rel, outside, start, b);
        ReachesSelf(rel, b);
      }
    }
  }

  /** Out-tree theorem, part one: the publisher's cycle check and its reachability check accept the same graphs. */
  lemma AcyclicIffReachable(nodes: seq<PublishNode>, edges: seq<PublishEdge>, start: Id)
    requires SeededShape(nodes, edges, start)
    ensures !Cyclic(Arcs(edges)) <==> AllReachable(nodes, edges, start)
  {
    SeededShapeIsRooted(nodes, edges, start);
    var ids, rel := Ids(nodes), Arcs(edges);
    if !Cyclic(rel) {
      forall v | v in ids ensures Reaches(rel, start, v) {
        AcyclicMeansReachable(ids, rel, start, v);
      }
    } else if AllReachable(nodes, edges, start) {
      ReachableMeansAcyclic(ids, rel, start);
    }
  }

  /** Out-tree theorem, part two: at most one walk leads from Start to a node. */
  lemma {:induction false} UniqueWalk(ids: set<Id>, rel: set<(Id, Id)>, start: Id, v: Id, p: seq<Id>, q: seq<Id>)
    requires Rooted(ids, rel, start) && WalkFromTo(rel, p, start, v) && WalkFromTo(rel, q, start, v)
    ensures p == q
    decreases |p|
  {
    if |p| > 1 {
      assert (p[|p| - 2], v) in rel;
    }
    if |q| > 1 {
      assert (q[|q| - 2], v) in rel;
    }
    if |p| > 1 && |q| > 1 {
      var u := p[|p| - 2];
      assert WalkFromTo(rel, p[..|p| - 1], start, u);
      assert WalkFromTo(rel, q[..|q| - 1], start, u);
      UniqueWalk(ids, rel, start, u, p[..|p| - 1], q[..|q| - 1]);
      assert p == p[..|p| - 1] + [v] && q == q[..|q| - 1] + [v];
    }
  }

  /** Every accepted graph has exactly one walk from Start to each node. */
  lemma AcceptedGraphIsTree(nodes: seq<PublishNode>, edges: seq<PublishEdge>, start: Id, v: Id) returns (p: seq<Id>)
    requires SeededShape(nodes, edges, start) && Accepts(nodes, edges) && v in Ids(nodes)
    ensures WalkFromTo(Arcs(edges), p, start, v)
    ensures forall q :: WalkFromTo(Arcs(edges), q, start, v) ==> q == p
  {
    LiveKeepsAll(Ids(nodes), edges);
    SeededShapeIsRooted(nodes, edges, start);
    assert Reaches(Arcs(edges), start, v);
    p :| WalkFromTo(Arcs(edges), p, start, v);
    forall q | WalkFromTo(Arcs(edges), q, start, v) ensures q == p {
      UniqueWalk(Ids(nodes), Arcs(edges), start, v, q, p);
    }
  }

  // ---------------------------------------------------------------- counting

  ghost function SumIn(nodes: seq<PublishNode>, edges: seq<PublishEdge>): nat {
    if nodes == [] then 0
    else SumIn(nodes[..|nodes| - 1], edges) + InDegree(edges, nodes[|nodes| - 1].id)
  }

  ghost function SumOut(nodes: seq<PublishNode>, edges: seq<PublishEdge>): nat {
    if nodes == [] then 0
    else SumOut(nodes[..|nodes| - 1], edges) + OutDegree(edges, nodes[|nodes| - 1].id)
  }

  ghost function CountType(nodes: seq<PublishNode>, t: string): nat {
    if nodes == [] then 0
    else CountType(nodes[..|nodes| - 1], t) + if nodes[|nodes| - 1].nodeType == t then 1 else 0
  }

  lemma {:induction false} SumInGrows(nodes: seq<PublishNode>, edges: seq<PublishEdge>, e: PublishEdge)
    requires DistinctIds(nodes)
    ensures SumIn(nodes, edges + [e]) == SumIn(nodes, edges) + if e.to in Ids(nodes) then 1 else 0
  {
    if nodes != [] {
      var k := |nodes| - 1;
      SumInGrows(nodes[..k], edges, e);
      SnocRemaining(edges, {}, e, nodes[k].id);
      LastIdIsNew(nodes);
    }
  }

  lemma {:induction false} SumOutGrows(nodes: seq<PublishNode>, edges: seq<PublishEdge>, e: PublishEdge)
    requires DistinctIds(nodes)
    ensures SumOut(nodes, edges + [e]) == SumOut(nodes, edges) + if e.from in Ids(nodes) then 1 else 0
  {
    if nodes != [] {
      var k := |nodes| - 1;
      SumOutGrows(nodes[..k], edges, e);
      SnocTargets(edges, e, nodes[k].id);
      LastIdIsNew(nodes);
    }
  }

  lemma LastIdIsNew(nodes: seq<PublishNode>)
    requires nodes != [] && DistinctIds(nodes)
    ensures Ids(nodes) == Ids(nodes[..|nodes| - 1]) + {nodes[|nodes| - 1].id}
    ensures nodes[|nodes| - 1].id !in Ids(nodes[..|nodes| - 1])
  {
    assert nodes == nodes[..|nodes| - 1] + [nodes[|nodes| - 1]];
  }

  /** Both degree sums count each edge once. */
  lemma {:induction false} DegreeSums(nodes: seq<PublishNode>, edges: seq<PublishEdge>)
    requires DistinctIds(nodes) && EndpointsIn(Ids(nodes), edges)
    ensures SumIn(nodes, edges) == SumOut(nodes, edges) == |edges|
    decreases |edges|
  {
    if edges == [] {
      NoEdgesNoDegree(nodes);
    } else {
      var k := |edges| - 1;
      DegreeSums(nodes, edges[..k]);
      SumInGrows(nodes, edges[..k], edges[k]);
      SumOutGrows(nodes, edges[..k], edges[k]);
      assert edges == edges[..k] + [edges[k]];
    }
  }

  lemma {:induction false} NoEdgesNoDegree(nodes: seq<PublishNode>)
    ensures SumIn(nodes, []) == SumOut(nodes, []) == 0
  {
    if nodes != [] {
      NoEdgesNoDegree(nodes[..|nodes| - 1]);
    }
  }

  /** The degree sums by node type. */
  lemma {:induction false} SumsByType(nodes: seq<PublishNode>, edges: seq<PublishEdge>)
    requires forall n :: n in nodes ==> SeededBounds(n)
    requires DegreesOk(nodes, edges)
    ensures SumIn(nodes, edges) == |nodes| - CountType(nodes, START)
    ensures SumOut(nodes, edges) == |nodes| + CountType(nodes, CONDITIONAL) - CountType(nodes, RESPONSE)
    ensures CountType(nodes, START) == |StartIds(nodes)|
  {
    if nodes != [] {
      var k := |nodes| - 1;
      SumsByType(nodes[..k], edges);
      assert nodes[k] in nodes;
      assert InBounds(nodes[k], edges) && OutBounds(nodes[k], edges);
    }
  }

  /** Tree size and the counting law: one edge less than nodes, one Response more than Conditionals. */
  lemma CountingLaw(nodes: seq<PublishNode>, edges: seq<PublishEdge>, start: Id)
    requires SeededShape(nodes, edges, start)
    ensures |edges| == |nodes| - 1
    ensures CountType(nodes, RESPONSE) == CountType(nodes, CONDITIONAL) + 1
  {
    DegreeSums(nodes, edges);
    SumsByType(nodes, edges);
  }
}
