/** Edges as the publisher reads them: a list that may hold parallel edges and self-loops. */
module EdgeList {
  import opened Basics

  datatype PublishEdge = PublishEdge(from: Id, to: Id, edgeLabel: string)

  /** The relation the list stands for; multiplicity and labels are forgotten. */
  ghost function Arcs(edges: seq<PublishEdge>): set<(Id, Id)> {
    set e | e in edges :: (e.from, e.to)
  }

  /** The edges whose two endpoints are known nodes; the others are skipped. */
  ghost function Live(ids: set<Id>, edges: seq<PublishEdge>): seq<PublishEdge> {
    if edges == [] then []
    else
      var e := edges[|edges| - 1];
      Live(ids, edges[..|edges| - 1]) + if e.from in ids && e.to in ids then [e] else []
  }

  ghost function Targets(edges: seq<PublishEdge>, u: Id): seq<Id> {
    if edges == [] then []
    else
      var e := edges[|edges| - 1];
      Targets(edges[..|edges| - 1], u) + if e.from == u then [e.to] else []
  }

  ghost function OutLabels(edges: seq<PublishEdge>, u: Id): seq<string> {
    if edges == [] then []
    else
      var e := edges[|edges| - 1];
      OutLabels(edges[..|edges| - 1], u) + if e.from == u then [e.edgeLabel] else []
  }

  /** Edges into `v` whose source has not been removed, counted with multiplicity. */
  ghost function Remaining(edges: seq<PublishEdge>, removed: set<Id>, v: Id): nat {
    if edges == [] then 0
    else
      var e := edges[|edges| - 1];
      Remaining(edges[..|edges| - 1], removed, v) + if e.to == v && e.from !in removed then 1 else 0
  }

  ghost function InDegree(edges: seq<PublishEdge>, v: Id): nat {
    Remaining(edges, {}, v)
  }

  ghost function OutDegree(edges: seq<PublishEdge>, u: Id): nat {
    |Targets(edges, u)|
  }

  ghost predicate EndpointsIn(ids: set<Id>, edges: seq<PublishEdge>) {
    forall e :: e in edges ==> e.from in ids && e.to in ids
  }

  lemma SnocTargets(edges: seq<PublishEdge>, e: PublishEdge, u: Id)
    ensures Targets(edges + [e], u) == if e.from == u then Targets(edges, u) + [e.to] else Targets(edges, u)
  {
    assert (edges + [e])[..|edges|] == edges;
  }

  lemma SnocLabels(edges: seq<PublishEdge>, e: PublishEdge, u: Id)
    ensures OutLabels(edges + [e], u) == if e.from == u then OutLabels(edges, u) + [e.edgeLabel] else OutLabels(edges, u)
  {
    assert (edges + [e])[..|edges|] == edges;
  }

  lemma SnocRemaining(edges: seq<PublishEdge>, removed: set<Id>, e: PublishEdge, v: Id)
    ensures Remaining(edges + [e], removed, v) == Remaining(edges, removed, v) + if e.to == v && e.from !in removed then 1 else 0
  {
    assert (edges + [e])[..|edges|] == edges;
  }

  lemma {:induction false} LiveIsFilter(ids: set<Id>, edges: seq<PublishEdge>)
    ensures forall e :: e in Live(ids, edges) <==> e in edges && e.from in ids && e.to in ids
  {
    if edges != [] {
      LiveIsFilter(ids, edges[..|edges| - 1]);
      assert edges == edges[..|edges| - 1] + [edges[|edges| - 1]];
    }
  }

  lemma {:induction false} LiveKeepsAll(ids: set<Id>, edges: seq<PublishEdge>)
    requires EndpointsIn(ids, edges)
    ensures Live(ids, edges) == edges
  {
    if edges != [] {
      LiveKeepsAll(ids, edges[..|edges| - 1]);
    }
  }

  lemma {:induction false} TargetsAreArcs(edges: seq<PublishEdge>, u: Id)
    ensures forall v :: v in Targets(edges, u) <==> (u, v) in Arcs(edges)
  {
    if edges != [] {
      var n := |edges| - 1;
      TargetsAreArcs(edges[..n], u);
      assert edges == edges[..n] + [edges[n]];
      assert Arcs(edges) == Arcs(edges[..n]) + {(edges[n].from, edges[n].to)};
    }
  }

  lemma {:induction false} LabelPerTarget(edges: seq<PublishEdge>, u: Id)
    ensures |OutLabels(edges, u)| == |Targets(edges, u)|
    ensures forall l :: l in OutLabels(edges, u) <==> exists e :: e in edges && e.from == u && e.edgeLabel == l
  {
    if edges != [] {
      var n := |edges| - 1;
      LabelPerTarget(edges[..n], u);
      assert edges == edges[..n] + [edges[n]];
    }
  }

  lemma {:induction false} RemainingZero(edges: seq<PublishEdge>, removed: set<Id>, v: Id)
    ensures Remaining(edges, removed, v) == 0 <==> forall u :: (u, v) in Arcs(edges) ==> u in removed
  {
    if edges != [] {
      var n := |edges| - 1;
      RemainingZero(edges[..n], removed, v);
      assert edges == edges[..n] + [edges[n]];
      assert Arcs(edges) == Arcs(edges[..n]) + {(edges[n].from, edges[n].to)};
    }
  }

  /** Removing `u` takes away exactly the occurrences of `v` among its targets. */
  lemma {:induction false} RemainingSplit(edges: seq<PublishEdge>, removed: set<Id>, u: Id, v: Id)
    requires u !in removed
    ensures Remaining(edges, removed, v) == Remaining(edges, removed + {u}, v) + multiset(Targets(edges, u))[v]
  {
    if edges != [] {
      RemainingSplit(edges[..|edges| - 1], removed, u, v);
    }
  }
}
