/** The documentation's typed workflow graph: what its `Validate` accepts, and what that leaves open. */
module WorkflowGraphs {
  import opened Basics
  import opened Digraph
  import opened Adjacency
  import opened GraphLibrary

  datatype WorkflowNodeType = StartNode | ConditionalNode | FunctionNode | ApiNode | ResponseNode | UnknownType(text: string)

  datatype WorkflowNode = WorkflowNode(id: Name, nodeType: WorkflowNodeType)

  datatype WorkflowGraphError =
    | UnknownSource(id: Name)
    | UnknownTarget(id: Name)
    | NoMetadata(id: Name)
    | BadDegrees(id: Name)
    | HasACycle

  predicate DegreesFit(t: WorkflowNodeType, ins: int, outs: int) {
    match t
    case StartNode => ins == 0 && outs == 1
    case ResponseNode => ins == 1 && outs == 0
    case ConditionalNode => ins == 1 && outs == 2
    case FunctionNode => ins == 1 && outs == 1
    case ApiNode => ins == 1 && outs == 1
    case UnknownType(_) => false
  }

  ghost predicate NodeFits(adj: Adj, n: WorkflowNode) {
    DegreesFit(n.nodeType, |Pred(adj, n.id)|, |Succ(adj, n.id)|)
  }

  /** Everything `Validate` promises. */
  ghost predicate Validated(adj: Adj, nodes: map<Name, WorkflowNode>) {
    && adj.Keys == nodes.Keys
    && (forall id :: id in nodes ==> nodes[id].id == id && NodeFits(adj, nodes[id]))
    && !Cyclic(Arrows(adj))
  }

  ghost predicate IsStart(nodes: map<Name, WorkflowNode>, id: Name) {
    id in nodes && nodes[id].nodeType == StartNode
  }

  class WorkflowGraph {
    const graph: Graph
    var nodes: map<Name, WorkflowNode>

    ghost predicate Valid()
      reads this, graph
    {
      && graph.Valid()
      && nodes.Keys <= graph.adj.Keys
      && forall id :: id in nodes ==> nodes[id].id == id
    }

    constructor ()
      ensures Valid() && fresh(graph) && graph.adj == map[] && nodes == map[]
    {
      graph := new Graph();
      nodes := map[];
    }

    method AddWorkflowNode(id: Name, t: WorkflowNodeType)
      requires Valid()
      modifies this, graph
      ensures Valid() && graph.adj == WithNode(old(graph.adj), id)
      ensures nodes == old(nodes)[id := WorkflowNode(id, t)]
    {
      graph.AddNode(id);
      nodes := nodes[id := WorkflowNode(id, t)];
    }

    method Connect(from: Name, to: Name) returns (r: Result<(), WorkflowGraphError>)
      requires Valid()
      modifies graph
      ensures Valid() && nodes == old(nodes)
      ensures r.Ok? <==> from in nodes && to in nodes
      ensures r.Ok? ==> graph.adj == WithEdge(old(graph.adj), from, to)
      ensures r.Err? ==> graph.adj == old(graph.adj)
      ensures r.Err? ==> r.error == if from !in nodes then UnknownSource(from) else UnknownTarget(to)
    {
      if from !in nodes {
        return Err(UnknownSource(from));
      }
      if to !in nodes {
        return Err(UnknownTarget(to));
      }
      InsertedArrows(graph.adj, from, to);
      graph.AddDirectedEdge(from, to);
      return Ok(());
    }

    method ValidateNodeDegrees(id: Name) returns (fits: bool)
      requires Valid()
      ensures fits <==> id in nodes && NodeFits(graph.adj, nodes[id])
    {
      if id !in nodes {
        return false;
      }
      fits := DegreesFit(nodes[id].nodeType, Count(graph.inDegrees, id), Count(graph.outDegrees, id));
    }

    method Validate() returns (r: Result<(), WorkflowGraphError>)
      requires Valid()
      ensures r.Ok? <==> Validated(graph.adj, nodes)
      ensures r == Err(HasACycle) ==> Cyclic(Arrows(graph.adj))
      ensures r.Err? && r.error.BadDegrees? ==> r.error.id in nodes && !NodeFits(graph.adj, nodes[r.error.id])
      ensures r.Err? && r.error.NoMetadata? ==> r.error.id in graph.adj && r.error.id !in nodes
      ensures r.Err? ==> !r.error.UnknownSource? && !r.error.UnknownTarget?
    {
      var rest := graph.adj.Keys;
      while rest != {}
        invariant rest <= graph.adj.Keys
        invariant forall id :: id in graph.adj && id !in rest ==> id in nodes
      {
        var id :| id in rest;
        if id !in nodes {
          return Err(NoMetadata(id));
        }
        rest := rest - {id};
      }
      assert graph.adj.Keys == nodes.Keys;
      rest := nodes.Keys;
      while rest != {}
        invariant rest <= nodes.Keys
        invariant forall id :: id in nodes && id !in rest ==> NodeFits(graph.adj, nodes[id])
      {
        var id :| id in rest;
        var fits := ValidateNodeDegrees(id);
        if !fits {
          return Err(BadDegrees(id));
        }
        rest := rest - {id};
      }
      var cycle := graph.HasCycle();
      if cycle {
        return Err(HasACycle);
      }
      return Ok(());
    }

    method ExecutionOrder() returns (r: Result<seq<Name>, WorkflowGraphError>)
      requires Valid()
      ensures r.Ok? <==> !Cyclic(Arrows(graph.adj))
      ensures r.Ok? ==> IsTopoOrder(graph.adj.Keys, Arrows(graph.adj), r.value)
      ensures r.Err? ==> r.error == HasACycle
    {
      var order := graph.TopoSortKahn();
      if order.None? {
        return Err(HasACycle);
      }
      return Ok(order.value);
    }
  }

  lemma SinglePred(adj: Adj, v: Name, u: Name, w: Name)
    requires |Pred(adj, v)| <= 1 && u in Pred(adj, v) && w in Pred(adj, v)
    ensures u == w
  {
    if u != w {
      SubsetSize({u, w}, Pred(adj, v));
    }
  }

  lemma AtMostOnePred(adj: Adj, nodes: map<Name, WorkflowNode>, v: Name)
    requires Validated(adj, nodes) && v in nodes
    ensures |Pred(adj, v)| == if IsStart(nodes, v) then 0 else 1
  {
    assert NodeFits(adj, nodes[v]);
  }

  /** A validated graph is a forest: every node hangs below exactly one Start node. */
  lemma {:induction false} EveryNodeHasOneStart(adj: Adj, nodes: map<Name, WorkflowNode>, v: Name) returns (s: Name)
    requires Validated(adj, nodes) && v in nodes
    ensures IsStart(nodes, s) && Reaches(Arrows(adj), s, v)
    ensures forall t :: IsStart(nodes, t) && Reaches(Arrows(adj), t, v) ==> t == s
    decreases Rank(adj.Keys, Arrows(adj), v)
  {
    AtMostOnePred(adj, nodes, v);
    if IsStart(nodes, v) {
      s := v;
      ReachesSelf(Arrows(adj), v);
    } else {
      assert Pred(adj, v) != {};
      var u :| u in Pred(adj, v);
      RankIncreases(adj.Keys, Arrows(adj), u, v);
      s := EveryNodeHasOneStart(adj, nodes, u);
      ReachesThenArc(Arrows(adj), s, u, v);
    }
    forall t | IsStart(nodes, t) && Reaches(Arrows(adj), t, v) ensures t == s {
      if t != v {
        var c := LastArc(Arrows(adj), t, v);
        assert c in Pred(adj, v);
        if !IsStart(nodes, v) {
          var u :| u in Pred(adj, v) && Reaches(Arrows(adj), s, u)
            && forall x :: IsStart(nodes, x) && Reaches(Arrows(adj), x, u) ==> x == s;
          SinglePred(adj, v, c, u);
        }
      }
    }
  }

  /** So everything is reachable from a Start node precisely when that Start is the only one. */
  lemma OneStartMeansReachable(adj: Adj, nodes: map<Name, WorkflowNode>, s: Name)
    requires Validated(adj, nodes) && IsStart(nodes, s)
    ensures (forall v :: v in nodes ==> Reaches(Arrows(adj), s, v)) <==> (forall t :: IsStart(nodes, t) ==> t == s)
  {
    if forall t :: IsStart(nodes, t) ==> t == s {
      forall v | v in nodes ensures Reaches(Arrows(adj), s, v) {
        var t := EveryNodeHasOneStart(adj, nodes, v);
      }
    }
    if forall v :: v in nodes ==> Reaches(Arrows(adj), s, v) {
      forall t | IsStart(nodes, t) ensures t == s {
        var r := EveryNodeHasOneStart(adj, nodes, t);
        ReachesSelf(Arrows(adj), t);
      }
    }
  }

  /** `Validate` does not ask for a unique Start: two disjoint Start-Response chains pass. */
  lemma TwoChainsPass(adj: Adj, nodes: map<Name, WorkflowNode>)
    requires adj == map[1 := {2}, 2 := {}, 3 := {4}, 4 := {}]
    requires nodes == map[1 := WorkflowNode(1, StartNode), 2 := WorkflowNode(2, ResponseNode),
                          3 := WorkflowNode(3, StartNode), 4 := WorkflowNode(4, ResponseNode)]
    ensures Validated(adj, nodes)
    ensures !Reaches(Arrows(adj), 1, 4) && !Reaches(Arrows(adj), 3, 2)
  {
    assert Pred(adj, 1) == {} && Pred(adj, 2) == {1} && Pred(adj, 3) == {} && Pred(adj, 4) == {3};
    if Cyclic(Arrows(adj)) {
      var a, b :| (a, b) in Arrows(adj) && Reaches(Arrows(adj), b, a);
      ClosedContainsReach(Arrows(adj), {b}, b, a);
    }
    if Reaches(Arrows(adj), 1, 4) {
      ClosedContainsReach(Arrows(adj), {1, 2}, 1, 4);
    }
    if Reaches(Arrows(adj), 3, 2) {
      ClosedContainsReach(Arrows(adj), {3, 4}, 3, 2);
    }
  }
}
