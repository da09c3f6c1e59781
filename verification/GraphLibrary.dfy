/** The mutable `Graph` of the data-structure documentation, with its searches, cycle tests and sorts. */
module GraphLibrary {
  import opened Basics
  import opened Digraph
  import opened Adjacency

  datatype Colour = White | Gray | Black

  type Colours = map<Name, Colour>

  function Whites(state: Colours): set<Name> {
    set v | v in state && state[v] == White
  }

  /** Black nodes are the finished ones, and each finished after everything it points to. */
  ghost predicate Coloured(adj: Adj, state: Colours, finished: seq<Name>) {
    && state.Keys == adj.Keys
    && FinishOrder(adj, finished)
    && (forall v :: v in state ==> (state[v] == Black <==> v in finished))
  }

  /** A search keeps the gray nodes and only turns white nodes black. */
  ghost predicate Deepens(before: Colours, after: Colours) {
    && before.Keys == after.Keys
    && (forall v :: v in before ==> (before[v] == Gray <==> after[v] == Gray))
    && (forall v :: v in before && before[v] == Black ==> after[v] == Black)
  }

  lemma FewerWhites(before: Colours, after: Colours, u: Name)
    requires u in before && before[u] == White && Deepens(before[u := Gray], after)
    ensures |Whites(after)| < |Whites(before)|
  {
    assert u in Whites(before) && u !in Whites(after);
    SubsetSize(Whites(after), Whites(before));
  }

  /** Gray nodes reach whatever the node on top of them points to. */
  lemma GraysReachOn(adj: Adj, state: Colours, u: Name, v: Name)
    requires u in adj && v in adj[u]
    requires forall g :: g in state && state[g] == Gray ==> Reaches(Arrows(adj), g, u)
    ensures forall g :: g in state && state[g] == Gray ==> Reaches(Arrows(adj), g, v)
  {
    forall g | g in state && state[g] == Gray ensures Reaches(Arrows(adj), g, v) {
      ReachesThenArc(Arrows(adj), g, u, v);
    }
  }

  /** Once all its successors are black, a gray node turns black and finishes next. */
  lemma Blackened(adj: Adj, before: Colours, state: Colours, u: Name, finished: seq<Name>)
    requires Coloured(adj, state, finished) && u in adj && u in before && before[u] == White
    requires Deepens(before[u := Gray], state)
    requires forall v :: v in adj[u] ==> v in state && state[v] == Black
    ensures Coloured(adj, state[u := Black], finished + [u]) && Deepens(before, state[u := Black])
  {
    FinishNext(adj, finished, u);
  }

  lemma FewerLeft(all: set<Name>, before: set<Name>, u: Name, after: set<Name>)
    requires u in all && u !in before && before + {u} <= after
    ensures |all - after| < |all - before|
  {
    assert all - before == all - (before + {u}) + {u};
    SubsetSize(all - after, all - (before + {u}));
  }

  class Graph {
    var adj: Adj
    var inDegrees: map<Name, int>
    var outDegrees: map<Name, int>

    ghost predicate Valid()
      reads this
    {
      Closed(adj) && Degrees(adj, inDegrees, outDegrees)
    }

    constructor ()
      ensures Valid() && adj == map[] && inDegrees == map[] && outDegrees == map[]
    {
      adj, inDegrees, outDegrees := map[], map[], map[];
      new;
      forall v ensures Pred(adj, v) == {} && Succ(adj, v) == {} {}
    }

    method AddNode(node: Name)
      requires Valid()
      modifies this
      ensures Valid() && adj == WithNode(old(adj), node)
    {
      NodeKeepsDegrees(adj, inDegrees, outDegrees, node);
      if node !in adj {
        adj := adj[node := {}];
      }
    }

    method AddDirectedEdge(node1: Name, node2: Name)
      requires Valid()
      modifies this
      ensures Valid() && adj == WithEdge(old(adj), node1, node2)
    {
      AddNode(node1);
      AddNode(node2);
      if node2 in adj[node1] {
        assert adj[node1] + {node2} == adj[node1];
        SameEntry(adj, node1);
        return;
      }
      ghost var before := adj;
      adj := adj[node1 := adj[node1] + {node2}];
      EdgeKeepsDegrees(before, adj, inDegrees, outDegrees, node1, node2);
      outDegrees := outDegrees[node1 := Count(outDegrees, node1) + 1];
      inDegrees := inDegrees[node2 := Count(inDegrees, node2) + 1];
    }

    method OutDegree(node: Name) returns (d: int)
      requires Valid()
      ensures d == |Succ(adj, node)| == Count(outDegrees, node)
    {
      d := |Succ(adj, node)|;
    }

    /** The scan over all adjacency sets agrees with the cached counter. */
    method InDegree(node: Name) returns (count: int)
      requires Valid()
      ensures count == |Pred(adj, node)| == Count(inDegrees, node)
    {
      count := 0;
      ghost var met: set<Name> := {};
      var rest := adj.Keys;
      while rest != {}
        invariant rest <= adj.Keys
        invariant met == Pred(adj, node) - rest && count == |met|
      {
        var u :| u in rest;
        if node in adj[u] {
          count := count + 1;
          met := met + {u};
        }
        rest := rest - {u};
      }
      assert met == Pred(adj, node);
    }

    method Sources() returns (sources: seq<Name>)
      requires Valid()
      ensures Distinct(sources)
      ensures forall v :: v in sources <==> v in adj && Pred(adj, v) == {}
    {
      sources := [];
      var rest := adj.Keys;
      while rest != {}
        invariant rest <= adj.Keys && Distinct(sources)
        invariant forall v :: v in sources <==> v in adj.Keys - rest && Count(inDegrees, v) == 0
      {
        var u :| u in rest;
        if Count(inDegrees, u) == 0 {
          sources := sources + [u];
        }
        rest := rest - {u};
      }
    }

    method Sinks() returns (sinks: seq<Name>)
      requires Valid()
      ensures Distinct(sinks)
      ensures forall v :: v in sinks <==> v in adj && Succ(adj, v) == {}
    {
      sinks := [];
      var rest := adj.Keys;
      while rest != {}
        invariant rest <= adj.Keys && Distinct(sinks)
        invariant forall v :: v in sinks <==> v in adj.Keys - rest && Count(outDegrees, v) == 0
      {
        var u :| u in rest;
        if Count(outDegrees, u) == 0 {
          sinks := sinks + [u];
        }
        rest := rest - {u};
      }
    }

    method BFS(start: Name, target: Name) returns (found: bool)
      requires Valid()
      ensures found <==> Reaches(Arrows(adj), start, target)
    {
      ReachesSelf(Arrows(adj), start);
      if start == target {
        return true;
      }
      var visited := {start};
      var queue := [start];
      while queue != []
        invariant start in visited && target !in visited && visited <= adj.Keys + {start}
        invariant forall x :: x in visited ==> Reaches(Arrows(adj), start, x)
        invariant forall x :: x in queue ==> x in visited
        invariant forall x :: x in visited && x !in queue ==> Succ(adj, x) <= visited
        decreases |adj.Keys + {start} - visited| + |queue|
      {
        var u := queue[0];
        ghost var effort := |adj.Keys + {start} - visited| + |queue|;
        queue := queue[1..];
        var rest := Succ(adj, u);
        while rest != {}
          invariant rest <= Succ(adj, u) && Succ(adj, u) <= visited + rest
          invariant start in visited && target !in visited && u in visited && visited <= adj.Keys + {start}
          invariant forall x :: x in visited ==> Reaches(Arrows(adj), start, x)
          invariant forall x :: x in queue ==> x in visited
          invariant forall x :: x in visited && x !in queue && x != u ==> Succ(adj, x) <= visited
          invariant |adj.Keys + {start} - visited| + |queue| < effort
          decreases rest
        {
          var v :| v in rest;
          rest := rest - {v};
          ReachesThenArc(Arrows(adj), start, u, v);
          if v == target {
            return true;
          }
          if v !in visited {
            visited := visited + {v};
            queue := queue + [v];
          }
        }
      }
      VisitedIsReachable(adj, start, visited, target);
      return false;
    }

    /** The explicit-stack search: neighbours are collected first, then pushed in reverse order. */
    method DFS(start: Name, target: Name) returns (found: bool)
      requires Valid()
      ensures found <==> Reaches(Arrows(adj), start, target)
    {
      ReachesSelf(Arrows(adj), start);
      var visited := {start};
      var stack := [start];
      while stack != []
        invariant start in visited && visited <= adj.Keys + {start}
        invariant forall x :: x in visited ==> Reaches(Arrows(adj), start, x)
        invariant forall x :: x in stack ==> x in visited
        invariant forall x :: x in visited && x !in stack ==> x != target && Succ(adj, x) <= visited
        decreases |adj.Keys + {start} - visited| + |stack|
      {
        ghost var effort := |adj.Keys + {start} - visited| + |stack|;
        var u := stack[|stack| - 1];
        stack := stack[..|stack| - 1];
        if u == target {
          return true;
        }
        visited, stack := Expand(u, start, visited, stack);
      }
      VisitedIsReachable(adj, start, visited, target);
      return false;
    }

    /** What one iteration adds: the unvisited successors, marked and pushed. */
    method Expand(u: Name, ghost start: Name, visited: set<Name>, stack: seq<Name>)
      returns (marked: set<Name>, pushed: seq<Name>)
      requires Valid() && u in visited && visited <= adj.Keys + {start}
      requires Reaches(Arrows(adj), start, u)
      ensures forall x :: x in pushed <==> x in stack || (x in Succ(adj, u) && x !in visited)
      ensures forall x :: x in marked <==> x in visited || x in Succ(adj, u)
      ensures forall x :: x in marked && x !in visited ==> Reaches(Arrows(adj), start, x)
      ensures marked <= adj.Keys + {start}
      ensures |adj.Keys + {start} - marked| + |pushed| == |adj.Keys + {start} - visited| + |stack|
    {
      var neighbors: seq<Name>;
      marked, neighbors := CollectNeighbors(u, start, visited);
      pushed := PushReversed(stack, neighbors);
    }

    static method PushReversed(base: seq<Name>, neighbors: seq<Name>) returns (stack: seq<Name>)
      ensures |stack| == |base| + |neighbors| && stack[..|base|] == base
      ensures forall k :: 0 <= k < |neighbors| ==> stack[|stack| - 1 - k] == neighbors[k]
      ensures forall x :: x in stack <==> x in base || x in neighbors
    {
      stack := base;
      var i := |neighbors| - 1;
      while i >= 0
        invariant -1 <= i < |neighbors|
        invariant |stack| == |base| + |neighbors| - 1 - i && stack[..|base|] == base
        invariant forall k :: i < k < |neighbors| ==> stack[|base| + |neighbors| - 1 - k] == neighbors[k]
        invariant forall x :: x in stack <==> x in base || x in neighbors[i + 1..]
      {
        stack := stack + [neighbors[i]];
        i := i - 1;
      }
      assert neighbors[0..] == neighbors;
    }

    /** Marks the unvisited successors of `u` and lists each of them once. */
    method CollectNeighbors(u: Name, ghost start: Name, visited: set<Name>)
      returns (marked: set<Name>, neighbors: seq<Name>)
      requires Valid() && u in visited && visited <= adj.Keys + {start}
      requires Reaches(Arrows(adj), start, u)
      ensures forall x :: x in neighbors <==> x in Succ(adj, u) && x !in visited
      ensures forall x :: x in marked <==> x in visited || x in Succ(adj, u)
      ensures forall x :: x in neighbors ==> Reaches(Arrows(adj), start, x)
      ensures marked <= adj.Keys + {start}
      ensures |adj.Keys + {start} - marked| + |neighbors| == |adj.Keys + {start} - visited|
    {
      marked, neighbors := visited, [];
      var rest := Succ(adj, u);
      while rest != {}
        invariant rest <= Succ(adj, u)
        invariant forall x :: x in neighbors <==> x in Succ(adj, u) && x !in rest && x !in visited
        invariant forall x :: x in marked <==> x in visited || x in neighbors
        invariant forall x :: x in neighbors ==> Reaches(Arrows(adj), start, x)
        invariant marked <= adj.Keys + {start}
        invariant |adj.Keys + {start} - marked| + |neighbors| == |adj.Keys + {start} - visited|
      {
        var v :| v in rest;
        rest := rest - {v};
        if v !in marked {
          ReachesThenArc(Arrows(adj), start, u, v);
          assert adj.Keys + {start} - marked == adj.Keys + {start} - (marked + {v}) + {v};
          marked := marked + {v};
          neighbors := neighbors + [v];
        }
      }
    }

    method DFSRecursive(start: Name) returns (visited: set<Name>)
      requires Valid()
      ensures forall v :: v in visited <==> Reaches(Arrows(adj), start, v)
    {
      ReachesSelf(Arrows(adj), start);
      visited := Visit(start, start, {});
      forall v ensures v in visited <==> Reaches(Arrows(adj), start, v) {
        VisitedIsReachable(adj, start, visited, v);
      }
    }

    /** The recursive closure: whatever it newly visits has all its successors visited on return. */
    method Visit(ghost start: Name, u: Name, visited: set<Name>) returns (after: set<Name>)
      requires Valid() && Reaches(Arrows(adj), start, u)
      ensures visited <= after && u in after
      ensures forall x :: x in after && x !in visited ==> Reaches(Arrows(adj), start, x) && Succ(adj, x) <= after
      decreases |adj.Keys + {u} - visited|
    {
      if u in visited {
        return visited;
      }
      after := visited + {u};
      var rest := Succ(adj, u);
      while rest != {}
        invariant visited + {u} <= after && Succ(adj, u) <= after + rest && rest <= Succ(adj, u)
        invariant forall x :: x in after && x !in visited && x != u ==> Succ(adj, x) <= after
        invariant forall x :: x in after && x !in visited ==> Reaches(Arrows(adj), start, x)
      {
        var v :| v in rest;
        rest := rest - {v};
        ReachesThenArc(Arrows(adj), start, u, v);
        FewerLeft(adj.Keys + {u}, visited, u, after);
        assert adj.Keys + {v} == adj.Keys + {u} == adj.Keys;
        after := Visit(start, v, after);
      }
    }

    /** Three-colour search: an arrow into a gray node closes a cycle. */
    method HasCycleDFS() returns (cycle: bool)
      requires Valid()
      ensures cycle <==> Cyclic(Arrows(adj))
    {
      var state: Colours := map u | u in adj :: White;
      ghost var finished := [];
      var rest := adj.Keys;
      while rest != {}
        invariant rest <= adj.Keys
        invariant Coloured(adj, state, finished)
        invariant forall v :: v in state ==> state[v] != Gray
        invariant forall v :: v in state && v !in rest ==> state[v] == Black
      {
        var u :| u in rest;
        rest := rest - {u};
        if state[u] == White {
          cycle, state, finished := Colour(u, state, finished);
          if cycle {
            return true;
          }
        }
      }
      assert ToSet(finished) == adj.Keys;
      FinishOrderMeansAcyclic(adj, finished);
      return false;
    }

    method Colour(u: Name, before: Colours, ghost done: seq<Name>)
      returns (cycle: bool, state: Colours, ghost finished: seq<Name>)
      requires Valid() && u in adj && Coloured(adj, before, done) && before[u] == White
      requires forall g :: g in before && before[g] == Gray ==> Reaches(Arrows(adj), g, u)
      ensures cycle ==> Cyclic(Arrows(adj))
      ensures !cycle ==> Coloured(adj, state, finished) && Deepens(before, state) && state[u] == Black
      decreases |Whites(before)|
    {
      finished := done;
      state := before[u := Gray];
      ReachesSelf(Arrows(adj), u);
      var rest := adj[u];
      while rest != {}
        invariant rest <= adj[u] && Coloured(adj, state, finished)
        invariant Deepens(before[u := Gray], state)
        invariant forall v :: v in adj[u] && v !in rest ==> state[v] == Black
      {
        var v :| v in rest;
        rest := rest - {v};
        match state[v]
        case Gray =>
          assert (u, v) in Arrows(adj) && Reaches(Arrows(adj), v, u);
          return true, state, finished;
        case White =>
          GraysReachOn(adj, state, u, v);
          FewerWhites(before, state, u);
          cycle, state, finished := Colour(v, state, finished);
          if cycle {
            return;
          }
        case Black =>
      }
      Blackened(adj, before, state, u, finished);
      state := state[u := Black];
      finished := finished + [u];
      cycle := false;
    }

    method HasCycleKahn() returns (cycle: bool)
      requires Valid()
      ensures cycle <==> Cyclic(Arrows(adj))
    {
      var queue, ins := ZeroInDegrees();
      var removed := 0;
      ghost var order, done: set<Name> := [], {};
      while queue != []
        invariant KahnState(adj, done, queue, ins)
        invariant PeelOrder(adj, order) && done == ToSet(order)
        invariant removed == |order|
        decreases |adj| - |order|
      {
        ghost var u := queue[0];
        removed := removed + 1;
        queue, ins := Peel(done, queue, ins);
        Peeled(adj, order, done, u);
        order, done := order + [u], done + {u};
      }
      KahnVerdict(adj, order, done, ins);
      cycle := removed != |adj|;
    }

    method HasCycle() returns (cycle: bool)
      requires Valid()
      ensures cycle <==> Cyclic(Arrows(adj))
    {
      cycle := HasCycleKahn();
    }

    method IsDAG() returns (dag: bool)
      requires Valid()
      ensures dag <==> !Cyclic(Arrows(adj))
    {
      var cycle := HasCycle();
      dag := !cycle;
    }

    method TopoSortKahn() returns (sorted: Option<seq<Name>>)
      requires Valid()
      ensures sorted.Some? <==> !Cyclic(Arrows(adj))
      ensures sorted.Some? ==> IsTopoOrder(adj.Keys, Arrows(adj), sorted.value)
    {
      var queue, ins := ZeroInDegrees();
      var order := [];
      ghost var done: set<Name> := {};
      while queue != []
        invariant KahnState(adj, done, queue, ins)
        invariant PeelOrder(adj, order) && done == ToSet(order)
        decreases |adj| - |order|
      {
        var u := queue[0];
        queue, ins := Peel(done, queue, ins);
        Peeled(adj, order, done, u);
        order := order + [u];
        done := done + {u};
      }
      KahnVerdict(adj, order, done, ins);
      if |order| != |adj| {
        return None;
      }
      PeelIsTopological(adj, order);
      return Some(order);
    }

    /** Copies the cached in-degrees and queues the nodes that have none. */
    method ZeroInDegrees() returns (queue: seq<Name>, ins: map<Name, int>)
      requires Valid()
      ensures KahnState(adj, {}, queue, ins)
    {
      ins := map u | u in adj :: Count(inDegrees, u);
      queue := [];
      var rest := adj.Keys;
      while rest != {}
        invariant rest <= adj.Keys && Distinct(queue)
        invariant forall v :: v in queue <==> v in adj && v !in rest && ins[v] == 0
      {
        var u :| u in rest;
        rest := rest - {u};
        if ins[u] == 0 {
          queue := queue + [u];
        }
      }
      AllPending(adj, PendingCounts(adj, {}));
      assert ins == PendingCounts(adj, {});
      PeelingStarts(ins, queue);
    }

    /** Pops the front of the queue and releases its successors, queueing those left without predecessors. */
    method Peel(ghost done: set<Name>, queue: seq<Name>, ins: map<Name, int>)
      returns (queue': seq<Name>, ins': map<Name, int>)
      requires Valid() && queue != [] && KahnState(adj, done, queue, ins)
      ensures queue[0] in adj && queue[0] !in done && Pred(adj, queue[0]) <= done
      ensures KahnState(adj, done + {queue[0]}, queue', ins')
    {
      var u := queue[0];
      FrontIsFree(adj, done, queue, ins);
      PeelStarts(adj, done, queue, ins, u);
      queue', ins' := queue[1..], ins;
      var rest := adj[u];
      ghost var left := PendingCounts(adj, done + {u});
      while rest != {}
        invariant rest <= adj[u] && Peeling(left, done + {u}, queue', ins', rest)
      {
        var v :| v in rest;
        PeelContinues(left, done + {u}, queue', ins', rest, v);
        rest := rest - {v};
        ins' := ins'[v := ins'[v] - 1];
        if ins'[v] == 0 {
          queue' := queue' + [v];
        }
      }
    }

    /** Post-order search followed by the in-place reversal of the finish order. */
    method TopoSortDFS() returns (sorted: Option<seq<Name>>)
      requires Valid()
      ensures sorted.Some? <==> !Cyclic(Arrows(adj))
      ensures sorted.Some? ==> IsTopoOrder(adj.Keys, Arrows(adj), sorted.value)
    {
      var cycle := HasCycleDFS();
      if cycle {
        return None;
      }
      var visited: set<Name>, order: seq<Name> := {}, [];
      var rest := adj.Keys;
      while rest != {}
        invariant rest <= adj.Keys && FinishOrder(adj, order)
        invariant forall v :: v in visited <==> v in order
        invariant forall v :: v in adj ==> v in rest || v in order
      {
        var u :| u in rest;
        rest := rest - {u};
        visited, order := Finish(u, visited, order);
      }
      assert ToSet(order) == adj.Keys;
      ghost var finished := order;
      order := InReverse(order);
      FinishReversedIsTopological(adj, finished, order);
      return Some(order);
    }

    /** The two-index swap loop that closes the sort. */
    static method InReverse(finished: seq<Name>) returns (order: seq<Name>)
      ensures |order| == |finished|
      ensures forall k :: 0 <= k < |order| ==> order[k] == finished[|finished| - 1 - k]
    {
      order := finished;
      var i, j := 0, |order| - 1;
      while i < j
        invariant 0 <= i <= j + 1 && i + j == |finished| - 1 && |order| == |finished|
        invariant forall k :: 0 <= k < |order| && !(i <= k <= j) ==> order[k] == finished[|finished| - 1 - k]
        invariant forall k :: i <= k <= j ==> order[k] == finished[k]
      {
        order := order[i := order[j]][j := order[i]];
        i, j := i + 1, j - 1;
      }
    }

    /** In an acyclic graph, a visited node that has not finished is an ancestor, so it is never met again. */
    method Finish(u: Name, visited: set<Name>, order: seq<Name>)
      returns (visited': set<Name>, order': seq<Name>)
      requires Valid() && !Cyclic(Arrows(adj)) && u in adj && visited <= adj.Keys
      requires FinishOrder(adj, order) && forall v :: v in order ==> v in visited
      requires forall g :: g in visited && g !in order ==> g != u && Reaches(Arrows(adj), g, u)
      ensures FinishOrder(adj, order') && u in order' && visited <= visited' <= adj.Keys
      ensures forall v :: v in order ==> v in order'
      ensures forall v :: v in order' ==> v in visited'
      ensures forall g :: g in visited' && g !in order' ==> g in visited && g !in order
      ensures forall g :: g in visited && g !in order ==> g !in order'
      decreases |adj.Keys - visited|
    {
      if u in visited {
        return visited, order;
      }
      visited', order' := visited + {u}, order;
      var rest := adj[u];
      while rest != {}
        invariant rest <= adj[u] && FinishOrder(adj, order') && u !in order'
        invariant visited + {u} <= visited' <= adj.Keys
        invariant forall v :: v in order ==> v in order'
        invariant forall v :: v in order' ==> v in visited'
        invariant forall g :: g in visited' && g !in order' ==> g == u || (g in visited && g !in order)
        invariant forall g :: g in visited && g !in order ==> g !in order'
        invariant forall v :: v in adj[u] ==> v in rest || v in order'
      {
        var v :| v in rest;
        rest := rest - {v};
        OpenNodesReach(adj, u, v, visited', order');
        FewerLeft(adj.Keys, visited, u, visited');
        visited', order' := Finish(v, visited', order');
      }
      FinishNext(adj, order', u);
      order' := order' + [u];
    }
  }
}
