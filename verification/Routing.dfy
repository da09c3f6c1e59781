/** Routing on a published graph: lookups never miss, ranks grow, every route ends at a Response. */
module Routing {
  import opened Basics
  import opened Digraph
  import opened Tables

  /** What each executor may return on success: the label it names, or completion. */
  predicate Fits(t: NodeType, res: ExecResult) {
    match t
    case Response => res.Finished?
    case Conditional => res.Next? && res.edgeLabel != Default
    case _ => res.Next? && res.edgeLabel == Default
  }

  ghost function NodeRank(g: Graph, n: Id): nat {
    Rank(g.nodes.Keys, GraphArcs(g), n)
  }

  /** `e` is the one edge that leaves `n` under `l`. */
  ghost predicate SoleEdge(g: Graph, n: Id, l: Label, e: Id) {
    && e in g.edges && g.edges[e].from == n && g.edges[e].edgeLabel == l
    && forall d :: d in g.edges && g.edges[d].from == n && g.edges[d].edgeLabel == l ==> d == e
  }

  lemma OneEdgePerLabel(g: Graph, n: Id, l: Label, e: Id)
    requires KeysUnique(g) && e in g.edges && g.edges[e].from == n && g.edges[e].edgeLabel == l
    ensures SoleEdge(g, n, l, e)
    ensures NextNode(g, n, l) == Some(g.edges[e].to)
  {
    forall d | d in g.edges && g.edges[d].from == n && g.edges[d].edgeLabel == l ensures d == e {
      assert SameSlot(g.edges[d], g.edges[e]);
    }
  }

  lemma LabelHasEdge(g: Graph, n: Id, l: Label) returns (e: Id)
    requires n in g.nodes && NodePublishable(g, n) && g.nodes[n].nodeType != Response
    requires g.nodes[n].nodeType == Conditional <==> l != Default
    ensures e in g.edges && g.edges[e].from == n && g.edges[e].edgeLabel == l
  {
    if g.nodes[n].nodeType != Conditional {
      assert OutEdges(g, n) != {};
    }
    e :| e in OutEdges(g, n) && g.edges[e].edgeLabel == l;
  }

  /** A successful executor result never misses: it completes at a Response, or names a label with exactly one
      outgoing edge, whose target lies strictly further from Start. */
  lemma LookupHits(g: Graph, n: Id, res: ExecResult)
    requires GraphOk(g) && Publishable(g) && n in g.nodes && Fits(g.nodes[n].nodeType, res) && res.Next?
    ensures exists e :: SoleEdge(g, n, res.edgeLabel, e) && NextNode(g, n, res.edgeLabel) == Some(g.edges[e].to)
    ensures NextNode(g, n, res.edgeLabel).value in g.nodes
    ensures (n, NextNode(g, n, res.edgeLabel).value) in GraphArcs(g)
    ensures NodeRank(g, n) < NodeRank(g, NextNode(g, n, res.edgeLabel).value)
  {
    assert NodePublishable(g, n);
    var e := LabelHasEdge(g, n, res.edgeLabel);
    OneEdgePerLabel(g, n, res.edgeLabel, e);
    assert (g.edges[e].from, g.edges[e].to) in GraphArcs(g);
    RankIncreases(g.nodes.Keys, GraphArcs(g), n, g.edges[e].to);
  }

  lemma HitEdge(g: Graph, n: Id, res: ExecResult) returns (e: Id)
    requires GraphOk(g) && Publishable(g) && n in g.nodes && Fits(g.nodes[n].nodeType, res) && res.Next?
    ensures SoleEdge(g, n, res.edgeLabel, e) && NextNode(g, n, res.edgeLabel) == Some(g.edges[e].to)
    ensures g.edges[e].to in g.nodes && NodeRank(g, n) < NodeRank(g, g.edges[e].to)
  {
    LookupHits(g, n, res);
    e :| SoleEdge(g, n, res.edgeLabel, e) && NextNode(g, n, res.edgeLabel) == Some(g.edges[e].to);
  }

  /** Each of a Conditional's two branches has exactly one edge. */
  lemma BranchIsRouted(g: Graph, n: Id, l: Label) returns (e: Id)
    requires GraphOk(g) && Publishable(g) && n in g.nodes && g.nodes[n].nodeType == Conditional && l != Default
    ensures SoleEdge(g, n, l, e) && NextNode(g, n, l) == Some(g.edges[e].to)
  {
    e := HitEdge(g, n, Next(Null, l));
  }

  /** The smallest publishable graph: Start and Response. */
  const SMALLEST := Graph(map[1 := NodeRow(Start, "start", Obj(map[])), 2 := NodeRow(Response, "end", Obj(map[]))],
                          map[3 := EdgeRow(1, 2, Default)])

  lemma OneArc(rel: set<(Id, Id)>)
    requires rel == {(1, 2)}
    ensures !Cyclic(rel) && Reaches(rel, 1, 1) && Reaches(rel, 1, 2)
  {
    ReachesSelf(rel, 1);
    ArcReaches(rel, 1, 2);
    if Reaches(rel, 2, 1) {
      ClosedContainsReach(rel, {2}, 2, 1);
    }
  }

  lemma SmallestNodesFit()
    ensures NodePublishable(SMALLEST, 1) && NodePublishable(SMALLEST, 2)
  {
    assert InEdges(SMALLEST, 1) == {} && OutEdges(SMALLEST, 1) == {3};
    assert InEdges(SMALLEST, 2) == {3} && OutEdges(SMALLEST, 2) == {};
  }

  lemma SmallestArcs()
    ensures Starts(SMALLEST) == {1} && GraphArcs(SMALLEST) == {(1, 2)}
  {
    assert SMALLEST.nodes.Keys == {1, 2} && SMALLEST.edges.Keys == {3};
  }

  lemma SmallestIsOk()
    ensures GraphOk(SMALLEST)
  {
    var g := SMALLEST;
    assert g.nodes.Keys == {1, 2} && g.edges.Keys == {3};
    assert |g.nodes[1].name| != |g.nodes[2].name|;
  }

  lemma SmallestIsPublishable()
    ensures GraphOk(SMALLEST) && Publishable(SMALLEST)
  {
    SmallestIsOk();
    SmallestArcs();
    SmallestNodesFit();
    OneArc(GraphArcs(SMALLEST));
    assert SMALLEST.nodes.Keys == {1, 2};
  }

  // ---------------------------------------------------------------- whole routes

  /** Any way of choosing the result of the k-th hop that the executors' contract allows. */
  ghost predicate Allowed(g: Graph, choice: (nat, Id) -> ExecResult) {
    forall k, n :: n in g.nodes ==> Fits(g.nodes[n].nodeType, choice(k, n))
  }

  /** The node reached after k hops from `n`, or None once a hop completes. */
  ghost function Route(g: Graph, choice: (nat, Id) -> ExecResult, n: Id, k: nat): Option<Id> {
    if k == 0 then Some(n)
    else
      var here := Route(g, choice, n, k - 1);
      if here.None? then None
      else
        match choice(k - 1, here.value)
        case Finished(_) => None
        case Next(_, l) => NextNode(g, here.value, l)
  }

  ghost predicate OnRoute(g: Graph, choice: (nat, Id) -> ExecResult, n: Id, i: nat, here: Id) {
    Route(g, choice, n, i) == Some(here) && here in g.nodes && i < NodeRank(g, here) <= |g.nodes|
  }

  lemma RankFits(g: Graph, n: Id)
    requires n in g.nodes
    ensures 1 <= NodeRank(g, n) <= |g.nodes|
  {
    RankBounds(g.nodes.Keys, GraphArcs(g), n);
    assert |g.nodes.Keys| == |g.nodes|;
  }

  lemma NextHop(g: Graph, n: Id, res: ExecResult) returns (next: Id)
    requires GraphOk(g) && Publishable(g) && n in g.nodes && Fits(g.nodes[n].nodeType, res) && res.Next?
    ensures NextNode(g, n, res.edgeLabel) == Some(next) && next in g.nodes
    ensures NodeRank(g, n) < NodeRank(g, next) <= |g.nodes|
  {
    LookupHits(g, n, res);
    next := NextNode(g, n, res.edgeLabel).value;
    RankFits(g, next);
  }

  lemma RouteStep(g: Graph, choice: (nat, Id) -> ExecResult, n: Id, i: nat, here: Id)
    requires OnRoute(g, choice, n, i, here) && Fits(g.nodes[here].nodeType, choice(i, here))
    requires choice(i, here).Next? ==>
               exists next :: NextNode(g, here, choice(i, here).edgeLabel) == Some(next) && next in g.nodes
                 && NodeRank(g, here) < NodeRank(g, next) <= |g.nodes|
    ensures RouteGoesOn(g, choice, n, i, here)
  {
    if g.nodes[here].nodeType != Response {
      var next :| NextNode(g, here, choice(i, here).edgeLabel) == Some(next) && next in g.nodes
        && NodeRank(g, here) < NodeRank(g, next) <= |g.nodes|;
      assert Route(g, choice, n, i + 1) == Some(next);
      assert OnRoute(g, choice, n, i + 1, next);
    }
  }

  ghost predicate HasHop(g: Graph, choice: (nat, Id) -> ExecResult, n: Id, i: nat) {
    exists here :: OnRoute(g, choice, n, i, here)
  }

  /** The route ends here if this is a Response and has a further hop otherwise. */
  ghost predicate RouteGoesOn(g: Graph, choice: (nat, Id) -> ExecResult, n: Id, i: nat, here: Id)
    requires here in g.nodes
  {
    if g.nodes[here].nodeType == Response then Route(g, choice, n, i + 1).None?
    else HasHop(g, choice, n, i + 1)
  }

  lemma {:induction false} RouteContinues(g: Graph, choice: (nat, Id) -> ExecResult, n: Id, i: nat, here: Id) returns (k: nat, last: Id)
    requires forall m, x :: OnRoute(g, choice, n, m, x) ==> RouteGoesOn(g, choice, n, m, x)
    requires OnRoute(g, choice, n, i, here)
    ensures i <= k < |g.nodes| && OnRoute(g, choice, n, k, last)
    ensures g.nodes[last].nodeType == Response && Route(g, choice, n, k + 1).None?
    decreases |g.nodes| - i
  {
    if g.nodes[here].nodeType == Response {
      k, last := i, here;
    } else {
      var next :| OnRoute(g, choice, n, i + 1, next);
      k, last := RouteContinues(g, choice, n, i + 1, next);
    }
  }

  lemma PublishedGoesOn(g: Graph, choice: (nat, Id) -> ExecResult, n: Id, i: nat, here: Id)
    requires GraphOk(g) && Publishable(g) && Allowed(g, choice) && OnRoute(g, choice, n, i, here)
    ensures RouteGoesOn(g, choice, n, i, here)
  {
    if choice(i, here).Next? {
      var next := NextHop(g, here, choice(i, here));
    }
    RouteStep(g, choice, n, i, here);
  }

  lemma AllGoOn(g: Graph, choice: (nat, Id) -> ExecResult, n: Id)
    requires GraphOk(g) && Publishable(g) && Allowed(g, choice)
    ensures forall m, x :: OnRoute(g, choice, n, m, x) ==> RouteGoesOn(g, choice, n, m, x)
  {
    forall m, x | OnRoute(g, choice, n, m, x) ensures RouteGoesOn(g, choice, n, m, x) {
      PublishedGoesOn(g, choice, n, m, x);
    }
  }

  lemma RouteEnds(g: Graph, choice: (nat, Id) -> ExecResult, n: Id) returns (k: nat, last: Id)
    requires n in g.nodes && forall m, x :: OnRoute(g, choice, n, m, x) ==> RouteGoesOn(g, choice, n, m, x)
    ensures k < |g.nodes| && OnRoute(g, choice, n, k, last)
    ensures g.nodes[last].nodeType == Response && Route(g, choice, n, k + 1).None?
  {
    RankFits(g, n);
    assert OnRoute(g, choice, n, 0, n);
    k, last := RouteContinues(g, choice, n, 0, n);
  }

  /** Whatever the executors answer, a route from any node ends at a Response in fewer than |nodes| hops. */
  lemma EveryRouteEndsAtResponse(g: Graph, choice: (nat, Id) -> ExecResult, n: Id) returns (k: nat, last: Id)
    requires GraphOk(g) && Publishable(g) && n in g.nodes && Allowed(g, choice)
    ensures k < |g.nodes| && Route(g, choice, n, k) == Some(last)
    ensures last in g.nodes && g.nodes[last].nodeType == Response && Route(g, choice, n, k + 1).None?
  {
    AllGoOn(g, choice, n);
    k, last := RouteEnds(g, choice, n);
  }
}
