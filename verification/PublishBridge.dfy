/** The publisher's verdict on any listing of the rows is the row-level notion of a publishable graph. */
module PublishBridge {
  import opened Basics
  import opened Digraph
  import opened EdgeList
  import opened PublishValidate
  import PublishTheory
  import opened Tables

  function PublishNodeOf(id: Id, row: NodeRow): PublishNode {
    var t := row.nodeType;
    PublishNode(id, TypeName(t), InBound(t), InBound(t), OutBound(t), OutBound(t))
  }

  function PublishEdgeOf(row: EdgeRow): PublishEdge {
    PublishEdge(row.from, row.to, LabelName(row.edgeLabel))
  }

  ghost function ListNodes(g: Graph, ids: seq<Id>): seq<PublishNode>
    requires forall n :: n in ids ==> n in g.nodes
  {
    seq(|ids|, i requires 0 <= i < |ids| => PublishNodeOf(ids[i], g.nodes[ids[i]]))
  }

  ghost function ListEdges(g: Graph, ids: seq<Id>): seq<PublishEdge>
    requires forall e :: e in ids ==> e in g.edges
  {
    seq(|ids|, i requires 0 <= i < |ids| => PublishEdgeOf(g.edges[ids[i]]))
  }

  /** `ids` lists a table's keys in some order, each once. */
  ghost predicate Lists<V>(ids: seq<Id>, table: map<Id, V>) {
    Distinct(ids) && ToSet(ids) == table.Keys
  }

  lemma ListedNode(g: Graph, ids: seq<Id>, n: Id)
    requires (forall n :: n in ids ==> n in g.nodes) && n in ids
    ensures PublishNodeOf(n, g.nodes[n]) in ListNodes(g, ids)
  {
    var i :| 0 <= i < |ids| && ids[i] == n;
    assert ListNodes(g, ids)[i] == PublishNodeOf(n, g.nodes[n]);
  }

  lemma ListedIds(g: Graph, ids: seq<Id>)
    requires forall n :: n in ids ==> n in g.nodes
    ensures Ids(ListNodes(g, ids)) == ToSet(ids)
  {
    forall n | n in ids ensures n in Ids(ListNodes(g, ids)) {
      ListedNode(g, ids, n);
    }
  }

  lemma SnocStarts(g: Graph, ids: seq<Id>)
    requires ids != [] && forall n :: n in ids ==> n in g.nodes
    ensures var k := |ids| - 1;
            StartIds(ListNodes(g, ids)) == StartIds(ListNodes(g, ids[..k])) + if g.nodes[ids[k]].nodeType == Start then [ids[k]] else []
  {
    assert ListNodes(g, ids)[..|ids| - 1] == ListNodes(g, ids[..|ids| - 1]);
  }

  lemma {:induction false} ListedStarts(g: Graph, ids: seq<Id>)
    requires Distinct(ids) && forall n :: n in ids ==> n in g.nodes
    ensures var starts := StartIds(ListNodes(g, ids));
            && Distinct(starts)
            && forall n :: n in starts <==> n in ids && g.nodes[n].nodeType == Start
  {
    if ids != [] {
      var k := |ids| - 1;
      ListedStarts(g, ids[..k]);
      assert ids == ids[..k] + [ids[k]];
      SnocStarts(g, ids);
    }
  }

  ghost function Into(g: Graph, ids: seq<Id>, v: Id): set<Id>
    requires forall e :: e in ids ==> e in g.edges
  {
    set e | e in ids && g.edges[e].to == v
  }

  ghost function OutOf(g: Graph, ids: seq<Id>, u: Id): set<Id>
    requires forall e :: e in ids ==> e in g.edges
  {
    set e | e in ids && g.edges[e].from == u
  }

  lemma SnocListing(g: Graph, ids: seq<Id>)
    requires ids != [] && forall e :: e in ids ==> e in g.edges
    ensures ListEdges(g, ids) == ListEdges(g, ids[..|ids| - 1]) + [PublishEdgeOf(g.edges[ids[|ids| - 1]])]
    ensures forall e :: e in ids <==> e in ids[..|ids| - 1] || e == ids[|ids| - 1]
  {
    assert ids == ids[..|ids| - 1] + [ids[|ids| - 1]];
  }

  lemma {:induction false} ListedInDegree(g: Graph, ids: seq<Id>, v: Id)
    requires Distinct(ids) && forall e :: e in ids ==> e in g.edges
    ensures InDegree(ListEdges(g, ids), v) == |Into(g, ids, v)|
  {
    if ids != [] {
      var k := |ids| - 1;
      var init, e := ids[..k], ids[k];
      ListedInDegree(g, init, v);
      SnocListing(g, ids);
      SnocRemaining(ListEdges(g, init), {}, PublishEdgeOf(g.edges[e]), v);
      assert Into(g, ids, v) == Into(g, init, v) + if g.edges[e].to == v then {e} else {};
    }
  }

  lemma {:induction false} ListedOutDegree(g: Graph, ids: seq<Id>, u: Id)
    requires Distinct(ids) && forall e :: e in ids ==> e in g.edges
    ensures OutDegree(ListEdges(g, ids), u) == |OutOf(g, ids, u)|
  {
    if ids != [] {
      var k := |ids| - 1;
      var init, e := ids[..k], ids[k];
      ListedOutDegree(g, init, u);
      SnocListing(g, ids);
      SnocTargets(ListEdges(g, init), PublishEdgeOf(g.edges[e]), u);
      assert OutOf(g, ids, u) == OutOf(g, init, u) + if g.edges[e].from == u then {e} else {};
    }
  }

  lemma ListedEdge(g: Graph, ids: seq<Id>, e: Id)
    requires (forall e :: e in ids ==> e in g.edges) && e in ids
    ensures PublishEdgeOf(g.edges[e]) in ListEdges(g, ids)
  {
    var i :| 0 <= i < |ids| && ids[i] == e;
    assert ListEdges(g, ids)[i] == PublishEdgeOf(g.edges[e]);
  }

  lemma ListedArcs(g: Graph, ids: seq<Id>)
    requires (forall e :: e in ids <==> e in g.edges)
    ensures Arcs(ListEdges(g, ids)) == GraphArcs(g)
  {
    forall a | a in GraphArcs(g) ensures a in Arcs(ListEdges(g, ids)) {
      var e :| e in g.edges && (g.edges[e].from, g.edges[e].to) == a;
      ListedEdge(g, ids, e);
    }
  }

  lemma ListedLabels(g: Graph, ids: seq<Id>, u: Id)
    requires (forall e :: e in ids <==> e in g.edges)
    ensures |OutLabels(ListEdges(g, ids), u)| == OutDegree(ListEdges(g, ids), u)
    ensures forall l :: l in OutLabels(ListEdges(g, ids), u) <==>
                        exists e :: e in OutEdges(g, u) && LabelName(g.edges[e].edgeLabel) == l
  {
    LabelPerTarget(ListEdges(g, ids), u);
    forall e | e in OutEdges(g, u) ensures LabelName(g.edges[e].edgeLabel) in OutLabels(ListEdges(g, ids), u) {
      ListedEdge(g, ids, e);
    }
  }

  /** Labels, node by node. */
  lemma LabelsAgree(g: Graph, ids: seq<Id>, n: Id)
    requires (forall e :: e in ids <==> e in g.edges) && n in g.nodes
    requires OutDegree(ListEdges(g, ids), n) == |OutEdges(g, n)| == OutBound(g.nodes[n].nodeType)
    ensures LabelsFit(PublishNodeOf(n, g.nodes[n]), ListEdges(g, ids)) <==> RowLabelsFit(g, n)
  {
    ListedLabels(g, ids, n);
    var labels := OutLabels(ListEdges(g, ids), n);
    assert LABEL_TRUE == LabelName(True) && LABEL_FALSE == LabelName(False) && LABEL_DEFAULT == LabelName(Default);
    assert forall a, b :: LabelName(a) == LabelName(b) ==> a == b;
    forall l ensures LabelName(l) in labels <==> exists e :: e in OutEdges(g, n) && g.edges[e].edgeLabel == l {}
  }

  lemma NodeAgrees(g: Graph, ids: seq<Id>, n: Id)
    requires Distinct(ids) && (forall e :: e in ids <==> e in g.edges) && n in g.nodes
    ensures var edges := ListEdges(g, ids);
            var node := PublishNodeOf(n, g.nodes[n]);
            NodePublishable(g, n) <==> InBounds(node, edges) && OutBounds(node, edges) && LabelsFit(node, edges)
  {
    ListedInDegree(g, ids, n);
    ListedOutDegree(g, ids, n);
    assert Into(g, ids, n) == InEdges(g, n);
    assert OutOf(g, ids, n) == OutEdges(g, n);
    if |OutEdges(g, n)| == OutBound(g.nodes[n].nodeType) {
      LabelsAgree(g, ids, n);
    }
  }

  lemma ListedKeys<V>(ids: seq<Id>, table: map<Id, V>)
    requires Lists(ids, table)
    ensures Distinct(ids) && forall x :: x in ids <==> x in table
  {
    assert forall x :: x in ToSet(ids) <==> x in ids;
  }

  lemma NodesAgree(g: Graph, nids: seq<Id>, eids: seq<Id>)
    requires Distinct(eids) && (forall e :: e in eids <==> e in g.edges) && (forall n :: n in nids <==> n in g.nodes)
    ensures DegreesOk(ListNodes(g, nids), ListEdges(g, eids)) && LabelsOk(ListNodes(g, nids), ListEdges(g, eids)) <==>
            forall n :: n in g.nodes ==> NodePublishable(g, n)
  {
    var nodes, edges := ListNodes(g, nids), ListEdges(g, eids);
    forall n | n in g.nodes
      ensures PublishNodeOf(n, g.nodes[n]) in nodes
      ensures var node := PublishNodeOf(n, g.nodes[n]);
              NodePublishable(g, n) <==> InBounds(node, edges) && OutBounds(node, edges) && LabelsFit(node, edges)
    {
      ListedNode(g, nids, n);
      NodeAgrees(g, eids, n);
    }
  }

  lemma StartsAgree(g: Graph, nids: seq<Id>)
    requires Distinct(nids) && forall n :: n in nids <==> n in g.nodes
    ensures |StartIds(ListNodes(g, nids))| == |Starts(g)|
    ensures forall s :: s in StartIds(ListNodes(g, nids)) <==> s in Starts(g)
  {
    ListedStarts(g, nids);
    DistinctSize(StartIds(ListNodes(g, nids)));
    assert ToSet(StartIds(ListNodes(g, nids))) == Starts(g);
  }

  lemma ListingIsLive(g: Graph, nids: seq<Id>, eids: seq<Id>)
    requires EdgesAttached(g) && (forall e :: e in eids <==> e in g.edges) && (forall n :: n in nids <==> n in g.nodes)
    ensures Ids(ListNodes(g, nids)) == g.nodes.Keys && EndpointsIn(g.nodes.Keys, ListEdges(g, eids))
    ensures Live(g.nodes.Keys, ListEdges(g, eids)) == ListEdges(g, eids)
  {
    ListedIds(g, nids);
    LiveKeepsAll(g.nodes.Keys, ListEdges(g, eids));
  }

  lemma ReachAgrees(g: Graph, rel: set<(Id, Id)>, start: Id)
    requires Starts(g) == {start}
    ensures (forall id :: id in g.nodes.Keys ==> Reaches(rel, start, id)) <==>
            (forall s, n :: s in Starts(g) && n in g.nodes ==> Reaches(rel, s, n))
  {
    if forall s, n :: s in Starts(g) && n in g.nodes ==> Reaches(rel, s, n) {
      assert start in Starts(g);
    }
  }

  lemma OneStartListed(g: Graph, nids: seq<Id>) returns (start: Id)
    requires Distinct(nids) && (forall n :: n in nids <==> n in g.nodes) && |Starts(g)| == 1
    ensures StartIds(ListNodes(g, nids)) == [start] && Starts(g) == {start}
  {
    StartsAgree(g, nids);
    start := StartIds(ListNodes(g, nids))[0];
    assert start in StartIds(ListNodes(g, nids));
    SubsetSize({start}, Starts(g));
  }

  /** The two verdicts, once the listing is known to carry the same nodes, edges and starts. */
  lemma SameVerdict(g: Graph, nodes: seq<PublishNode>, edges: seq<PublishEdge>)
    requires Live(Ids(nodes), edges) == edges && Arcs(edges) == GraphArcs(g) && Ids(nodes) == g.nodes.Keys
    requires DegreesOk(nodes, edges) && LabelsOk(nodes, edges) <==> forall n :: n in g.nodes ==> NodePublishable(g, n)
    requires |StartIds(nodes)| == |Starts(g)|
    requires |Starts(g)| == 1 ==> Starts(g) == {StartIds(nodes)[0]}
    ensures Accepts(nodes, edges) <==> Publishable(g)
  {
    if |Starts(g)| == 1 {
      ReachAgrees(g, GraphArcs(g), StartIds(nodes)[0]);
    }
  }

  /** Whatever order the rows come in, the validator accepts them exactly when the graph is publishable. */
  lemma VerdictAgrees(g: Graph, nids: seq<Id>, eids: seq<Id>)
    requires Lists(nids, g.nodes) && Lists(eids, g.edges) && EdgesAttached(g)
    ensures (forall n :: n in nids ==> n in g.nodes) && (forall e :: e in eids ==> e in g.edges)
    ensures Accepts(ListNodes(g, nids), ListEdges(g, eids)) <==> Publishable(g)
  {
    ListedKeys(nids, g.nodes);
    ListedKeys(eids, g.edges);
    ListingIsLive(g, nids, eids);
    ListedArcs(g, eids);
    NodesAgree(g, nids, eids);
    StartsAgree(g, nids);
    if |Starts(g)| == 1 {
      var start := OneStartListed(g, nids);
    }
    SameVerdict(g, ListNodes(g, nids), ListEdges(g, eids));
  }

  lemma ListedBounds(g: Graph, nids: seq<Id>)
    requires Distinct(nids) && forall n :: n in nids ==> n in g.nodes
    ensures PublishTheory.DistinctIds(ListNodes(g, nids))
    ensures forall x :: x in ListNodes(g, nids) ==> PublishTheory.SeededBounds(x)
  {}

  /** So every publishable graph has the seeded tree shape, with one edge less than nodes. */
  lemma PublishableIsSeeded(g: Graph, nids: seq<Id>, eids: seq<Id>) returns (start: Id)
    requires Lists(nids, g.nodes) && Lists(eids, g.edges) && EdgesAttached(g) && Publishable(g)
    ensures (forall n :: n in nids ==> n in g.nodes) && (forall e :: e in eids ==> e in g.edges)
    ensures PublishTheory.SeededShape(ListNodes(g, nids), ListEdges(g, eids), start) && Starts(g) == {start}
    ensures |eids| == |nids| - 1
  {
    ListedKeys(nids, g.nodes);
    ListedKeys(eids, g.edges);
    ListingIsLive(g, nids, eids);
    NodesAgree(g, nids, eids);
    ListedBounds(g, nids);
    start := OneStartListed(g, nids);
    PublishTheory.CountingLaw(ListNodes(g, nids), ListEdges(g, eids), start);
  }
}
