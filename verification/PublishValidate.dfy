/** Publish-time validation of a workflow graph: maps built by loops, then five checks in order. */
module PublishValidate {
  import opened Basics
  import opened Digraph
  import opened EdgeList

  const START := "start"
  const CONDITIONAL := "conditional"
  const LABEL_DEFAULT := "default"
  const LABEL_TRUE := "true"
  const LABEL_FALSE := "false"

  datatype PublishNode = PublishNode(
    id: Id, nodeType: string, minIn: int, maxIn: int, minOut: int, maxOut: int)

  datatype PublishGraph = PublishGraph(
    nodes: seq<PublishNode>,
    byId: map<Id, PublishNode>,
    adj: map<Id, seq<Id>>,
    inDegree: map<Id, nat>,
    outDegree: map<Id, nat>,
    outLabels: map<Id, seq<string>>)

  datatype GraphError =
    | EmptyGraph
    | StartCount(found: nat)
    | InDegreeBounds(node: Id)
    | OutDegreeBounds(node: Id)
    | ConditionalLabels(node: Id)
    | WrongLabel(node: Id, edgeLabel: string)
    | HasCycle
    | NotReachable(node: Id)

  // ---------------------------------------------------------------- specification

  ghost function Ids(nodes: seq<PublishNode>): set<Id> {
    set n | n in nodes :: n.id
  }

  ghost function StartIds(nodes: seq<PublishNode>): seq<Id> {
    if nodes == [] then []
    else
      var n := nodes[|nodes| - 1];
      StartIds(nodes[..|nodes| - 1]) + if n.nodeType == START then [n.id] else []
  }

  /** The node each id stands for: of several with the same id, the last. */
  ghost function ById(nodes: seq<PublishNode>): map<Id, PublishNode> {
    if nodes == [] then map[]
    else
      var n := nodes[|nodes| - 1];
      ById(nodes[..|nodes| - 1])[n.id := n]
  }

  lemma {:induction false} ByIdIsLast(nodes: seq<PublishNode>, id: Id)
    ensures id in ById(nodes) <==> id in Ids(nodes)
    ensures id in ById(nodes) ==>
              exists i :: 0 <= i < |nodes| && nodes[i] == ById(nodes)[id] && nodes[i].id == id
                          && forall k :: i < k < |nodes| ==> nodes[k].id != id
  {
    if nodes != [] {
      var n := |nodes| - 1;
      ByIdIsLast(nodes[..n], id);
      assert nodes == nodes[..n] + [nodes[n]];
      if id in ById(nodes) {
        var i: nat := n;
        if nodes[n].id != id {
          i :| 0 <= i < n && nodes[i] == ById(nodes[..n])[id] && nodes[i].id == id
            && forall k :: i < k < n ==> nodes[..n][k].id != id;
        }
        assert nodes[i] == ById(nodes)[id] && nodes[i].id == id && forall k :: i < k < |nodes| ==> nodes[k].id != id;
      }
    }
  }

  ghost predicate InBounds(n: PublishNode, edges: seq<PublishEdge>) {
    n.minIn <= InDegree(edges, n.id) <= n.maxIn
  }

  ghost predicate OutBounds(n: PublishNode, edges: seq<PublishEdge>) {
    n.minOut <= OutDegree(edges, n.id) <= n.maxOut
  }

  ghost predicate LabelsFit(n: PublishNode, edges: seq<PublishEdge>) {
    var labels := OutLabels(edges, n.id);
    if n.nodeType == CONDITIONAL then
      |labels| == 2 && LABEL_TRUE in labels && LABEL_FALSE in labels
    else
      forall l :: l in labels ==> l == LABEL_DEFAULT
  }

  ghost predicate DegreesOk(nodes: seq<PublishNode>, edges: seq<PublishEdge>) {
    forall n :: n in nodes ==> InBounds(n, edges) && OutBounds(n, edges)
  }

  ghost predicate LabelsOk(nodes: seq<PublishNode>, edges: seq<PublishEdge>) {
    forall n :: n in nodes ==> LabelsFit(n, edges)
  }

  ghost predicate AllReachable(nodes: seq<PublishNode>, edges: seq<PublishEdge>, start: Id) {
    forall id :: id in Ids(nodes) ==> Reaches(Arcs(edges), start, id)
  }

  /** What publishing demands of a graph, stated on the edges between known nodes. */
  ghost predicate Accepts(nodes: seq<PublishNode>, edges: seq<PublishEdge>) {
    var live := Live(Ids(nodes), edges);
    && nodes != []
    && |StartIds(nodes)| == 1
    && DegreesOk(nodes, live)
    && LabelsOk(nodes, live)
    && !Cyclic(Arcs(live))
    && AllReachable(nodes, live, StartIds(nodes)[0])
  }

  ghost function TargetsMap(live: seq<PublishEdge>, ids: set<Id>): map<Id, seq<Id>> {
    map v | v in ids :: Targets(live, v)
  }

  ghost function RemainingMap(live: seq<PublishEdge>, ids: set<Id>, removed: set<Id>): map<Id, nat> {
    map v | v in ids :: Remaining(live, removed, v)
  }

  ghost function OutDegreeMap(live: seq<PublishEdge>, ids: set<Id>): map<Id, nat> {
    map v | v in ids :: OutDegree(live, v)
  }

  ghost function OutLabelsMap(live: seq<PublishEdge>, ids: set<Id>): map<Id, seq<string>> {
    map v | v in ids :: OutLabels(live, v)
  }

  /** `g`'s maps describe the nodes and the live edges. */
  ghost predicate Represents(g: PublishGraph, nodes: seq<PublishNode>, live: seq<PublishEdge>) {
    && g.nodes == nodes
    && g.byId.Keys == Ids(nodes)
    && EndpointsIn(Ids(nodes), live)
    && g.adj == TargetsMap(live, Ids(nodes))
    && g.inDegree == RemainingMap(live, Ids(nodes), {})
    && g.outDegree == OutDegreeMap(live, Ids(nodes))
    && g.outLabels == OutLabelsMap(live, Ids(nodes))
  }

  // ---------------------------------------------------------------- the validator

  method ValidatePublishGraph(nodes: seq<PublishNode>, edges: seq<PublishEdge>) returns (r: Option<GraphError>)
    ensures r.None? <==> Accepts(nodes, edges)
    ensures var live := Live(Ids(nodes), edges);
            match r
            case None => true
            case Some(EmptyGraph) => nodes == []
            case Some(StartCount(k)) => nodes != [] && |StartIds(nodes)| == k != 1
            case Some(InDegreeBounds(id)) => |StartIds(nodes)| == 1 && exists n :: n in nodes && n.id == id && !InBounds(n, live)
            case Some(OutDegreeBounds(id)) => |StartIds(nodes)| == 1 && exists n :: n in nodes && n.id == id && !OutBounds(n, live)
            case Some(ConditionalLabels(id)) =>
              |StartIds(nodes)| == 1 && DegreesOk(nodes, live)
              && exists n :: n in nodes && n.id == id && n.nodeType == CONDITIONAL && !LabelsFit(n, live)
            case Some(WrongLabel(id, l)) =>
              |StartIds(nodes)| == 1 && DegreesOk(nodes, live) && l != LABEL_DEFAULT && l in OutLabels(live, id)
              && exists n :: n in nodes && n.id == id && n.nodeType != CONDITIONAL
            case Some(HasCycle) =>
              |StartIds(nodes)| == 1 && DegreesOk(nodes, live) && LabelsOk(nodes, live) && Cyclic(Arcs(live))
            case Some(NotReachable(id)) =>
              |StartIds(nodes)| == 1 && DegreesOk(nodes, live) && LabelsOk(nodes, live) && !Cyclic(Arcs(live))
              && id in Ids(nodes) && !Reaches(Arcs(live), StartIds(nodes)[0], id)
  {
    if |nodes| == 0 {
      return Some(EmptyGraph);
    }
    var g := NewPublishGraph(nodes, edges);
    ghost var live := Live(Ids(nodes), edges);
    var startId;
    startId, r := UniqueStart(g);
    if r.Some? { return; }
    r := ValidateDegrees(g, live);
    if r.Some? { return; }
    r := ValidateEdgeLabels(g, live);
    if r.Some? { return; }
    var cyclic := HasCycleKahn(g, live);
    if cyclic {
      return Some(HasCycle);
    }
    StartIdsAreIds(nodes);
    r := ReachableFromStart(g, live, startId);
  }

  /** The map entries of a node that has no edge yet. */
  function WithNode(g: PublishGraph, n: PublishNode): PublishGraph {
    g.(byId := g.byId[n.id := n], adj := g.adj[n.id := []], inDegree := g.inDegree[n.id := 0],
       outDegree := g.outDegree[n.id := 0], outLabels := g.outLabels[n.id := []])
  }

  function WithEdge(g: PublishGraph, e: PublishEdge): PublishGraph
    requires e.from in g.adj && e.from in g.outDegree && e.to in g.inDegree && e.from in g.outLabels
  {
    g.(adj := g.adj[e.from := g.adj[e.from] + [e.to]],
       outDegree := g.outDegree[e.from := g.outDegree[e.from] + 1],
       inDegree := g.inDegree[e.to := g.inDegree[e.to] + 1],
       outLabels := g.outLabels[e.from := g.outLabels[e.from] + [e.edgeLabel]])
  }

  lemma OneEntryChanges<V>(before: map<Id, V>, after: map<Id, V>, k: Id, v: V)
    requires after.Keys == before.Keys && k in before && after[k] == v
    requires forall x :: x in before && x != k ==> after[x] == before[x]
    ensures after == before[k := v]
  {}

  lemma SnocTargetsMap(live: seq<PublishEdge>, ids: set<Id>, e: PublishEdge)
    requires e.from in ids
    ensures TargetsMap(live + [e], ids) == TargetsMap(live, ids)[e.from := Targets(live, e.from) + [e.to]]
  {
    var before, after := TargetsMap(live, ids), TargetsMap(live + [e], ids);
    forall v | v in ids ensures after[v] == if e.from == v then before[v] + [e.to] else before[v] {
      SnocTargets(live, e, v);
    }
    OneEntryChanges(before, after, e.from, before[e.from] + [e.to]);
  }

  lemma SnocOutDegreeMap(live: seq<PublishEdge>, ids: set<Id>, e: PublishEdge)
    requires e.from in ids
    ensures OutDegreeMap(live + [e], ids) == OutDegreeMap(live, ids)[e.from := OutDegree(live, e.from) + 1]
  {
    var before, after := OutDegreeMap(live, ids), OutDegreeMap(live + [e], ids);
    forall v | v in ids ensures after[v] == before[v] + if e.from == v then 1 else 0 {
      SnocTargets(live, e, v);
    }
    OneEntryChanges(before, after, e.from, before[e.from] + 1);
  }

  lemma SnocLabelsMap(live: seq<PublishEdge>, ids: set<Id>, e: PublishEdge)
    requires e.from in ids
    ensures OutLabelsMap(live + [e], ids) == OutLabelsMap(live, ids)[e.from := OutLabels(live, e.from) + [e.edgeLabel]]
  {
    var before, after := OutLabelsMap(live, ids), OutLabelsMap(live + [e], ids);
    forall v | v in ids ensures after[v] == if e.from == v then before[v] + [e.edgeLabel] else before[v] {
      SnocLabels(live, e, v);
    }
    OneEntryChanges(before, after, e.from, before[e.from] + [e.edgeLabel]);
  }

  lemma SnocRemainingMap(live: seq<PublishEdge>, ids: set<Id>, e: PublishEdge)
    requires e.to in ids
    ensures RemainingMap(live + [e], ids, {}) == RemainingMap(live, ids, {})[e.to := InDegree(live, e.to) + 1]
  {
    var before, after := RemainingMap(live, ids, {}), RemainingMap(live + [e], ids, {});
    forall v | v in ids ensures after[v] == before[v] + if e.to == v then 1 else 0 {
      SnocRemaining(live, {}, e, v);
    }
    OneEntryChanges(before, after, e.to, before[e.to] + 1);
  }

  lemma WithEdgeRepresents(g: PublishGraph, nodes: seq<PublishNode>, live: seq<PublishEdge>, e: PublishEdge)
    requires Represents(g, nodes, live) && e.from in g.byId && e.to in g.byId
    ensures Represents(WithEdge(g, e), nodes, live + [e])
  {
    SnocTargetsMap(live, g.byId.Keys, e);
    SnocOutDegreeMap(live, g.byId.Keys, e);
    SnocLabelsMap(live, g.byId.Keys, e);
    SnocRemainingMap(live, g.byId.Keys, e);
  }

  /** `g` has an entry for each of `done` and no edge. */
  ghost predicate NoEdges(g: PublishGraph, nodes: seq<PublishNode>, done: set<Id>) {
    && g.nodes == nodes
    && g.byId.Keys == done
    && g.adj == (map id | id in done :: [])
    && g.inDegree == (map id | id in done :: 0)
    && g.outDegree == (map id | id in done :: 0)
    && g.outLabels == (map id | id in done :: [])
  }

  lemma WithNodeNoEdges(g: PublishGraph, nodes: seq<PublishNode>, done: set<Id>, n: PublishNode)
    requires NoEdges(g, nodes, done)
    ensures NoEdges(WithNode(g, n), nodes, done + {n.id})
  {}

  lemma NoEdgesRepresents(g: PublishGraph, nodes: seq<PublishNode>)
    requires NoEdges(g, nodes, Ids(nodes))
    ensures Represents(g, nodes, [])
  {}

  method NewPublishGraph(nodes: seq<PublishNode>, edges: seq<PublishEdge>) returns (g: PublishGraph)
    ensures Represents(g, nodes, Live(Ids(nodes), edges)) && g.byId == ById(nodes)
  {
    g := RegisterNodes(nodes);
    g := RegisterEdges(g, nodes, edges);
  }

  /** First loop of the construction: one entry per node id in each map. */
  method RegisterNodes(nodes: seq<PublishNode>) returns (g: PublishGraph)
    ensures Represents(g, nodes, []) && g.byId == ById(nodes)
  {
    g := PublishGraph(nodes, map[], map[], map[], map[], map[]);
    for i := 0 to |nodes|
      invariant NoEdges(g, nodes, Ids(nodes[..i])) && g.byId == ById(nodes[..i])
    {
      WithNodeNoEdges(g, nodes, Ids(nodes[..i]), nodes[i]);
      assert nodes[..i + 1] == nodes[..i] + [nodes[i]];
      assert Ids(nodes[..i + 1]) == Ids(nodes[..i]) + {nodes[i].id};
      assert nodes[..i + 1][..i] == nodes[..i];
      g := WithNode(g, nodes[i]);
    }
    assert nodes[..|nodes|] == nodes;
    NoEdgesRepresents(g, nodes);
  }

  method AddEdge(g: PublishGraph, ghost nodes: seq<PublishNode>, ghost live: seq<PublishEdge>, e: PublishEdge)
    returns (g': PublishGraph)
    requires Represents(g, nodes, live) && e.from in g.byId && e.to in g.byId
    ensures Represents(g', nodes, live + [e]) && g'.byId == g.byId
  {
    WithEdgeRepresents(g, nodes, live, e);
    g' := WithEdge(g, e);
  }

  /** Second loop: edges with an unknown endpoint are skipped, the others are counted. */
  method RegisterEdges(g0: PublishGraph, nodes: seq<PublishNode>, edges: seq<PublishEdge>) returns (g: PublishGraph)
    requires Represents(g0, nodes, [])
    ensures Represents(g, nodes, Live(Ids(nodes), edges)) && g.byId == g0.byId
  {
    g := g0;
    ghost var live: seq<PublishEdge> := [];
    for i := 0 to |edges|
      invariant live == Live(Ids(nodes), edges[..i])
      invariant Represents(g, nodes, live) && g.byId == g0.byId
    {
      var e := edges[i];
      assert edges[..i + 1][..i] == edges[..i];
      if e.from in g.byId && e.to in g.byId {
        g := AddEdge(g, nodes, live, e);
        live := live + [e];
      }
    }
    assert edges[..|edges|] == edges;
  }

  method UniqueStart(g: PublishGraph) returns (startId: Id, r: Option<GraphError>)
    ensures r == if |StartIds(g.nodes)| == 1 then None else Some(StartCount(|StartIds(g.nodes)|))
    ensures r.None? ==> startId == StartIds(g.nodes)[0]
  {
    var starts: seq<Id> := [];
    for i := 0 to |g.nodes|
      invariant starts == StartIds(g.nodes[..i])
    {
      assert g.nodes[..i + 1][..i] == g.nodes[..i];
      if g.nodes[i].nodeType == START {
        starts := starts + [g.nodes[i].id];
      }
    }
    assert g.nodes[..|g.nodes|] == g.nodes;
    if |starts| == 1 {
      return starts[0], None;
    }
    return NIL, Some(StartCount(|starts|));
  }

  lemma {:induction false} StartIdsAreIds(nodes: seq<PublishNode>)
    ensures forall id :: id in StartIds(nodes) <==> exists n :: n in nodes && n.id == id && n.nodeType == START
    ensures forall id :: id in StartIds(nodes) ==> id in Ids(nodes)
  {
    if nodes != [] {
      var n := nodes[|nodes| - 1];
      StartIdsAreIds(nodes[..|nodes| - 1]);
      assert nodes == nodes[..|nodes| - 1] + [n];
    }
  }

  method ValidateDegrees(g: PublishGraph, ghost live: seq<PublishEdge>) returns (r: Option<GraphError>)
    requires Represents(g, g.nodes, live)
    ensures r.None? <==> DegreesOk(g.nodes, live)
    ensures r.Some? ==>
              || (r.value.InDegreeBounds? && exists n :: n in g.nodes && n.id == r.value.node && !InBounds(n, live))
              || (r.value.OutDegreeBounds? && exists n :: n in g.nodes && n.id == r.value.node && !OutBounds(n, live))
  {
    for i := 0 to |g.nodes|
      invariant forall k :: 0 <= k < i ==> InBounds(g.nodes[k], live) && OutBounds(g.nodes[k], live)
    {
      var n := g.nodes[i];
      assert n in g.nodes && n.id in Ids(g.nodes);
      var in_ := g.inDegree[n.id];
      var out := g.outDegree[n.id];
      if in_ < n.minIn || in_ > n.maxIn {
        return Some(InDegreeBounds(n.id));
      }
      if out < n.minOut || out > n.maxOut {
        return Some(OutDegreeBounds(n.id));
      }
    }
    return None;
  }

  method ValidateEdgeLabels(g: PublishGraph, ghost live: seq<PublishEdge>) returns (r: Option<GraphError>)
    requires Represents(g, g.nodes, live)
    ensures r.None? <==> LabelsOk(g.nodes, live)
    ensures r.Some? ==>
              || (r.value.ConditionalLabels?
                  && exists n :: n in g.nodes && n.id == r.value.node && n.nodeType == CONDITIONAL && !LabelsFit(n, live))
              || (r.value.WrongLabel? && r.value.edgeLabel != LABEL_DEFAULT && r.value.edgeLabel in OutLabels(live, r.value.node)
                  && exists n :: n in g.nodes && n.id == r.value.node && n.nodeType != CONDITIONAL)
  {
    for i := 0 to |g.nodes|
      invariant forall k :: 0 <= k < i ==> LabelsFit(g.nodes[k], live)
    {
      var n := g.nodes[i];
      assert n in g.nodes && n.id in Ids(g.nodes);
      var labels := g.outLabels[n.id];
      if n.nodeType == CONDITIONAL {
        var ok := HasLabels(labels, [LABEL_TRUE, LABEL_FALSE]);
        assert [LABEL_TRUE, LABEL_FALSE][0] == LABEL_TRUE && [LABEL_TRUE, LABEL_FALSE][1] == LABEL_FALSE;
        if !ok {
          return Some(ConditionalLabels(n.id));
        }
      } else {
        for j := 0 to |labels|
          invariant forall k :: 0 <= k < j ==> labels[k] == LABEL_DEFAULT
        {
          if labels[j] != LABEL_DEFAULT {
            assert labels[j] in labels;
            return Some(WrongLabel(n.id, labels[j]));
          }
        }
      }
    }
    return None;
  }

  ghost predicate Covers(got: seq<string>, want: seq<string>) {
    |got| == |want| && forall w :: w in want ==> w in got
  }

  lemma {:induction false} DistinctCount(s: seq<string>, x: string)
    requires Distinct(s)
    ensures multiset(s)[x] == if x in s then 1 else 0
  {
    if s != [] {
      var n := |s| - 1;
      DistinctCount(s[..n], x);
      assert s == s[..n] + [s[n]];
    }
  }

  /** For labels that are all different, covering them with as many means being a permutation of them. */
  lemma CoversIffPermutation(got: seq<string>, want: seq<string>)
    requires Distinct(want)
    ensures Covers(got, want) <==> multiset(got) == multiset(want)
  {
    if Covers(got, want) {
      forall x ensures multiset(want)[x] <= multiset(got)[x] {
        DistinctCount(want, x);
      }
      assert multiset(want) <= multiset(got);
      assert multiset(got) == multiset(want) + (multiset(got) - multiset(want));
    }
    if multiset(got) == multiset(want) {
      assert |got| == |multiset(got)| == |multiset(want)| == |want|;
      forall w | w in want ensures w in got {
        assert w in multiset(want);
      }
    }
  }

  method HasLabels(got: seq<string>, want: seq<string>) returns (ok: bool)
    ensures ok <==> Covers(got, want)
  {
    if |got| != |want| {
      return false;
    }
    var seen: set<string> := {};
    for i := 0 to |got|
      invariant seen == ToSet(got[..i])
    {
      seen := seen + {got[i]};
      assert got[..i + 1] == got[..i] + [got[i]];
    }
    assert got[..|got|] == got;
    for i := 0 to |want|
      invariant forall k :: 0 <= k < i ==> want[k] in got
    {
      if want[i] !in seen {
        return false;
      }
    }
    return true;
  }

  /** Kahn's state: `done` is peeled, `queue` waits, `left[v]` counts the edges into `v` from unpeeled nodes,
      and `pending` are the targets of the last peeled node that still have to be decremented. */
  ghost predicate Peeling(ids: set<Id>, left: map<Id, nat>, done: set<Id>, queue: seq<Id>, in_: map<Id, int>, pending: seq<Id>)
  {
    && in_.Keys == left.Keys == ids
    && done <= ids
    && Distinct(queue)
    && (forall v :: v in queue ==> v in ids && v !in done)
    && (forall v :: v in ids ==> in_[v] == left[v] + multiset(pending)[v])
    && (forall v :: v in ids ==> (in_[v] == 0 <==> v in done || v in queue))
  }

  /** `order` lists the peeled nodes, each after all its predecessors. */
  ghost predicate PeelOrder(rel: set<(Id, Id)>, done: set<Id>, order: seq<Id>) {
    && Distinct(order)
    && ToSet(order) == done
    && forall i, u :: 0 <= i < |order| && (u, order[i]) in rel ==> u in order[..i]
  }

  lemma FrontIsFree(live: seq<PublishEdge>, ids: set<Id>, done: set<Id>, queue: seq<Id>, in_: map<Id, int>)
    requires Peeling(ids, RemainingMap(live, ids, done), done, queue, in_, []) && queue != []
    ensures queue[0] in ids && queue[0] !in done
    ensures forall u :: (u, queue[0]) in Arcs(live) ==> u in done
  {
    assert queue[0] in queue && in_[queue[0]] == RemainingMap(live, ids, done)[queue[0]] == 0;
    RemainingZero(live, done, queue[0]);
  }

  lemma FrontLeaves(ids: set<Id>, left: map<Id, nat>, after: map<Id, nat>, done: set<Id>, queue: seq<Id>, in_: map<Id, int>,
                    targets: seq<Id>)
    requires Peeling(ids, left, done, queue, in_, []) && queue != [] && after.Keys == ids
    requires forall v :: v in ids ==> left[v] == after[v] + multiset(targets)[v]
    ensures Peeling(ids, after, done + {queue[0]}, queue[1..], in_, targets)
  {
    assert queue == [queue[0]] + queue[1..];
  }

  lemma PeelNode(live: seq<PublishEdge>, ids: set<Id>, done: set<Id>, queue: seq<Id>, in_: map<Id, int>)
    requires Peeling(ids, RemainingMap(live, ids, done), done, queue, in_, []) && queue != []
    ensures Peeling(ids, RemainingMap(live, ids, done + {queue[0]}), done + {queue[0]}, queue[1..], in_, Targets(live, queue[0]))
    ensures queue[0] in ids && queue[0] !in done
    ensures forall u :: (u, queue[0]) in Arcs(live) ==> u in done
  {
    var u := queue[0];
    FrontIsFree(live, ids, done, queue, in_);
    var left, after := RemainingMap(live, ids, done), RemainingMap(live, ids, done + {u});
    forall v | v in ids ensures left[v] == after[v] + multiset(Targets(live, u))[v] {
      RemainingSplit(live, done, u, v);
    }
    FrontLeaves(ids, left, after, done, queue, in_, Targets(live, u));
  }

  lemma ExtendOrder(rel: set<(Id, Id)>, ids: set<Id>, done: set<Id>, order: seq<Id>, u: Id)
    requires PeelOrder(rel, done, order) && done <= ids && u in ids && u !in done
    requires forall x :: (x, u) in rel ==> x in done
    ensures PeelOrder(rel, done + {u}, order + [u])
    ensures |order| < |ids|
  {
    var order' := order + [u];
    forall i, x | 0 <= i < |order'| && (x, order'[i]) in rel ensures x in order'[..i] {
      assert order'[..i] == if i == |order| then order else order[..i];
      assert i == |order| ==> x in ToSet(order);
    }
    DistinctSize(order');
    SubsetSize(ToSet(order'), ids);
  }

  lemma DecrementTarget(ids: set<Id>, left: map<Id, nat>, done: set<Id>, queue: seq<Id>, in_: map<Id, int>, pending: seq<Id>)
    requires Peeling(ids, left, done, queue, in_, pending) && pending != [] && pending[0] in ids
    ensures var v := pending[0];
            Peeling(ids, left, done, if in_[v] == 1 then queue + [v] else queue, in_[v := in_[v] - 1], pending[1..])
  {
    assert pending == [pending[0]] + pending[1..];
  }

  /** Invariant of the peeling loop. */
  ghost predicate KahnState(live: seq<PublishEdge>, ids: set<Id>, queue: seq<Id>, in_: map<Id, int>, order: seq<Id>) {
    && EndpointsIn(ids, live)
    && Peeling(ids, RemainingMap(live, ids, ToSet(order)), ToSet(order), queue, in_, [])
    && PeelOrder(Arcs(live), ToSet(order), order)
  }

  lemma KahnComplete(live: seq<PublishEdge>, ids: set<Id>, in_: map<Id, int>, order: seq<Id>)
    requires KahnState(live, ids, [], in_, order)
    ensures |order| != |ids| <==> Cyclic(Arcs(live))
  {
    var rel, done := Arcs(live), ToSet(order);
    DistinctSize(order);
    SubsetSize(done, ids);
    if done == ids {
      forall i, j | 0 <= i < |order| && 0 <= j < |order| && (order[i], order[j]) in rel ensures i < j {
        assert order[i] in order[..j];
      }
      TopoOrderMeansAcyclic(ids, rel, order);
    } else {
      var v :| v in ids && v !in done;
      forall x | x in ids - done ensures exists u :: u in ids - done && (u, x) in rel {
        RemainingZero(live, done, x);
      }
      NoSourceMeansCycle(rel, ids - done, v);
    }
  }

  lemma KahnStarts(g: PublishGraph, live: seq<PublishEdge>, queue: seq<Id>)
    requires Represents(g, g.nodes, live) && Distinct(queue)
    requires forall id :: id in queue <==> id in g.inDegree && g.inDegree[id] == 0
    ensures KahnState(live, g.byId.Keys, queue, g.inDegree, [])
  {
    assert ToSet<Id>([]) == {};
  }

  /** Peels in-degree-0 nodes in whatever order the map iteration yields; leftover nodes mean a cycle. */
  method HasCycleKahn(g: PublishGraph, ghost live: seq<PublishEdge>) returns (cyclic: bool)
    requires Represents(g, g.nodes, live)
    ensures cyclic <==> Cyclic(Arcs(live))
  {
    var in_: map<Id, int> := g.inDegree;
    var queue := ZeroDegree(in_);
    KahnStarts(g, live, queue);
    ghost var order: seq<Id> := [];
    var removed := 0;
    while |queue| > 0
      invariant KahnState(live, g.byId.Keys, queue, in_, order) && removed == |order|
      decreases |g.byId.Keys| - |order|
    {
      var u := queue[0];
      in_, queue := PeelFront(g.adj, live, in_, queue, order);
      order := order + [u];
      removed := removed + 1;
    }
    KahnComplete(live, g.byId.Keys, in_, order);
    assert |g.byId.Keys| == |g.byId|;
    return removed != |g.byId|;
  }

  /** One round of the peeling: pop the front of the queue and decrement its targets. */
  method PeelFront(adj: map<Id, seq<Id>>, ghost live: seq<PublishEdge>, in0: map<Id, int>, queue0: seq<Id>, ghost order: seq<Id>)
    returns (in_: map<Id, int>, queue: seq<Id>)
    requires KahnState(live, adj.Keys, queue0, in0, order) && queue0 != []
    requires adj == TargetsMap(live, adj.Keys)
    ensures KahnState(live, adj.Keys, queue, in_, order + [queue0[0]])
    ensures |order| < |adj.Keys|
  {
    ghost var ids, done := adj.Keys, ToSet(order);
    PeelNode(live, ids, done, queue0, in0);
    var u := queue0[0];
    ExtendOrder(Arcs(live), ids, done, order, u);
    ghost var left := RemainingMap(live, ids, done + {u});
    assert forall v :: v in adj[u] ==> v in ids by {
      TargetsAreArcs(live, u);
    }
    in_, queue := DecrementTargets(adj[u], ids, left, done + {u}, in0, queue0[1..]);
    assert ToSet(order + [u]) == done + {u};
  }

  /** The ids with no incoming edge, in an arbitrary order. */
  method ZeroDegree(in_: map<Id, int>) returns (queue: seq<Id>)
    ensures Distinct(queue)
    ensures forall id :: id in queue <==> id in in_ && in_[id] == 0
  {
    queue := [];
    var todo := in_.Keys;
    while todo != {}
      invariant todo <= in_.Keys && Distinct(queue)
      invariant forall id :: id in queue <==> id in in_.Keys - todo && in_[id] == 0
    {
      var id :| id in todo;
      todo := todo - {id};
      if in_[id] == 0 {
        queue := queue + [id];
      }
    }
  }

  method DecrementFirst(ghost ids: set<Id>, ghost left: map<Id, nat>, ghost done: set<Id>, in0: map<Id, int>, queue0: seq<Id>,
                        pending: seq<Id>)
    returns (in_: map<Id, int>, queue: seq<Id>)
    requires Peeling(ids, left, done, queue0, in0, pending) && pending != [] && pending[0] in ids
    ensures Peeling(ids, left, done, queue, in_, pending[1..])
  {
    var v := pending[0];
    DecrementTarget(ids, left, done, queue0, in0, pending);
    in_, queue := in0[v := in0[v] - 1], queue0;
    if in_[v] == 0 {
      queue := queue + [v];
    }
  }

  /** Inner loop of the peeling: decrement each target, queueing it when it reaches zero. */
  method DecrementTargets(targets: seq<Id>, ghost ids: set<Id>, ghost left: map<Id, nat>, ghost done: set<Id>,
                          in0: map<Id, int>, queue0: seq<Id>)
    returns (in_: map<Id, int>, queue: seq<Id>)
    requires Peeling(ids, left, done, queue0, in0, targets)
    requires forall v :: v in targets ==> v in ids
    ensures Peeling(ids, left, done, queue, in_, [])
  {
    in_, queue := in0, queue0;
    for i := 0 to |targets|
      invariant Peeling(ids, left, done, queue, in_, targets[i..])
    {
      assert targets[i..][1..] == targets[i + 1..];
      in_, queue := DecrementFirst(ids, left, done, in_, queue, targets[i..]);
    }
  }

  /** Breadth-first search state: visited nodes are reachable; all but the queued (and `u`) are expanded. */
  ghost predicate Exploring(rel: set<(Id, Id)>, ids: set<Id>, start: Id, visited: set<Id>, queue: seq<Id>) {
    && start in visited && visited <= ids && ToSet(queue) <= visited
    && forall v :: v in visited ==> Reaches(rel, start, v)
  }

  ghost predicate Expanded(rel: set<(Id, Id)>, nodes: set<Id>, visited: set<Id>) {
    forall u, v :: u in nodes && (u, v) in rel ==> v in visited
  }

  method ReachableFromStart(g: PublishGraph, ghost live: seq<PublishEdge>, start: Id) returns (r: Option<GraphError>)
    requires Represents(g, g.nodes, live) && start in Ids(g.nodes)
    ensures r.None? <==> AllReachable(g.nodes, live, start)
    ensures r.Some? ==> r.value.NotReachable? && r.value.node in Ids(g.nodes) && !Reaches(Arcs(live), start, r.value.node)
  {
    ghost var ids := Ids(g.nodes);
    ghost var rel := Arcs(live);
    var visited: set<Id> := {start};
    var queue := [start];
    ReachesSelf(rel, start);
    while |queue| > 0
      invariant Exploring(rel, ids, start, visited, queue)
      invariant Expanded(rel, visited - ToSet(queue), visited)
      decreases |ids - visited|, |queue|
    {
      var u := queue[0];
      assert queue == [u] + queue[1..] && u in ToSet(queue);
      TargetsAreArcs(live, u);
      visited, queue := VisitTargets(g.adj[u], rel, ids, start, u, visited, queue[1..]);
    }
    forall v | Reaches(rel, start, v) ensures v in visited {
      ClosedContainsReach(rel, visited, start, v);
    }
    SubsetSize(visited, ids);
    assert |g.byId.Keys| == |g.byId|;
    if |visited| == |g.byId| {
      return None;
    }
    for i := 0 to |g.nodes|
      invariant forall k :: 0 <= k < i ==> g.nodes[k].id in visited
    {
      if g.nodes[i].id !in visited {
        return Some(NotReachable(g.nodes[i].id));
      }
    }
    assert false;
    return None;
  }

  /** Inner loop of the search: queue the targets of `u` not seen before. */
  method VisitTargets(targets: seq<Id>, ghost rel: set<(Id, Id)>, ghost ids: set<Id>, ghost start: Id, ghost u: Id,
                      visited0: set<Id>, queue0: seq<Id>)
    returns (visited: set<Id>, queue: seq<Id>)
    requires u in visited0 && ToSet(targets) <= ids
    requires forall v :: v in targets <==> (u, v) in rel
    requires Exploring(rel, ids, start, visited0, queue0)
    requires Expanded(rel, visited0 - ToSet(queue0) - {u}, visited0)
    ensures Exploring(rel, ids, start, visited, queue)
    ensures Expanded(rel, visited - ToSet(queue), visited)
    ensures (visited == visited0 && queue == queue0) || |ids - visited| < |ids - visited0|
  {
    visited, queue := visited0, queue0;
    for i := 0 to |targets|
      invariant Exploring(rel, ids, start, visited, queue) && visited0 <= visited
      invariant Expanded(rel, visited - ToSet(queue) - {u}, visited)
      invariant ToSet(targets[..i]) <= visited
      invariant visited == visited0 ==> queue == queue0
    {
      var v := targets[i];
      assert v in ToSet(targets);
      assert targets[..i + 1] == targets[..i] + [v];
      if v in visited {
        continue;
      }
      ReachesThenArc(rel, start, u, v);
      visited := visited + {v};
      queue := queue + [v];
    }
    assert targets[..|targets|] == targets;
    SubsetSize(ids - visited, ids - visited0);
  }
}
