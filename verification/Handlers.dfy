/** The builder and run handlers over the store: save, publish and start, statement by statement. */
module Handlers {
  import opened Basics
  import opened Tables
  import PublishValidate
  import EdgeList
  import opened PublishBridge
  import opened SaveTheory
  import opened StoreInvariant
  import opened RunInvariant
  import opened Engine
  import opened Outcomes

  /** A table's keys in an arbitrary order, as an unordered SELECT returns them. */
  method SelectKeys<V>(table: map<Id, V>) returns (ids: seq<Id>)
    ensures Lists(ids, table)
  {
    ids := [];
    var todo := table.Keys;
    while todo != {}
      invariant todo <= table.Keys && Distinct(ids)
      invariant ToSet(ids) == table.Keys - todo
    {
      var id :| id in todo;
      assert id !in ToSet(ids);
      assert ToSet(ids + [id]) == ToSet(ids) + {id};
      ids := ids + [id];
      todo := todo - {id};
    }
  }

  lemma MaxIs(s: set<nat>, m: nat)
    requires (forall x :: x in s ==> x <= m) && (m == 0 || m in s)
    ensures MaxOf(s) == m
  {}

  lemma KeptIs(g: Graph, ids: set<Id>, referenced: set<Id>, kept: map<Id, NodeRow>, edges: map<Id, EdgeRow>)
    requires forall n :: n in g.nodes && n !in ids ==> n !in referenced
    requires kept == map n | n in g.nodes && n in ids :: g.nodes[n]
    requires edges == map e | e in g.edges && g.edges[e].from in kept && g.edges[e].to in kept :: g.edges[e]
    ensures DeleteNodesNotIn(g, ids, referenced) == Ok(Graph(kept, edges))
  {
    var ok := DeleteNodesNotIn(g, ids, referenced).value;
    assert ok.nodes == kept;
    assert ok.edges == edges;
  }

  /** Where the sync goes through it leaves what the four statements compute. */
  lemma SyncIsPersist(before: Db, mid: Db, v: Id, p: Payload, cfg: ConfigCheck, after: Db, ok: bool)
    requires PayloadValid(p, cfg) && v in mid.versions && mid.runs == before.runs && mid.outbox == before.outbox
    requires ok <==> forall n :: n in ReferencedNodes(mid, v) && n in mid.versions[v].graph.nodes ==> n in PayloadIds(p.nodes)
    requires ok ==> v in after.versions && HoldsExactly(after.versions[v].graph, p, cfg)
    ensures var g := PersistGraph(mid.versions[v].graph, p, ReferencedNodes(before, v));
            && (ok <==> g.Ok?)
            && (ok ==> g.value == after.versions[v].graph)
  {
    assert ReferencedNodes(before, v) == ReferencedNodes(mid, v);
    SaveIsExactSync(mid.versions[v].graph, p, cfg, ReferencedNodes(mid, v));
    if ok {
      OneGraphHolds(after.versions[v].graph, PersistGraph(mid.versions[v].graph, p, ReferencedNodes(mid, v)).value, p, cfg);
    }
  }

  /** One edge with an unknown end fails the whole upsert, wherever it stands. */
  lemma {:induction false} UpsertStaysBroken(g: Graph, edges: seq<PayloadEdge>, i: nat)
    requires i <= |edges| && forall e :: e in edges ==> ParseLabel(e.edgeLabel).Some?
    requires UpsertEdges(g, edges[..i]).Err?
    ensures UpsertEdges(g, edges).Err?
  {
    if i == |edges| {
      assert edges[..i] == edges;
    } else {
      assert edges[..|edges| - 1][..i] == edges[..i];
      UpsertStaysBroken(g, edges[..|edges| - 1], i);
    }
  }

  class WorkflowHandler {
    const store: Store

    constructor (store: Store)
      ensures this.store == store
    {
      this.store := store;
    }

    method CreateVersion(w: Id, v: Id) returns (ok: bool)
      modifies store
      ensures ok <==> CreateWorkflowVersion(old(store.db), w, v).Ok?
      ensures store.db == Committed(old(store.db), CreateWorkflowVersion(old(store.db), w, v))
      ensures ok ==> v in store.db.versions && IsNextNumber(old(store.db), w, store.db.versions[v].number)
    {
      var db := store.db;
      VersionOutcome(db, w, v, Committed(db, CreateWorkflowVersion(db, w, v)));
      if w !in db.workflows || exists u :: u in db.versions && db.versions[u].workflow == w && !db.versions[u].published {
        return false;
      }
      var top: nat := 0;
      var todo := db.versions.Keys;
      while todo != {}
        invariant todo <= db.versions.Keys
        invariant forall u :: u in db.versions && u !in todo && db.versions[u].workflow == w ==> db.versions[u].number <= top
        invariant top == 0 || top in VersionNumbers(db, w)
      {
        var u :| u in todo;
        if db.versions[u].workflow == w && db.versions[u].number > top {
          top := db.versions[u].number;
        }
        todo := todo - {u};
      }
      MaxIs(VersionNumbers(db, w), top);
      store.db := db.(versions := db.versions[v := Version(w, top + 1, false, EMPTY_GRAPH)]);
      return true;
    }

    /** encodeNodes: one row per node, with its type looked up and a missing config made empty. */
    method EncodeNodes(nodes: seq<PayloadNode>) returns (rows: seq<(Id, NodeRow)>)
      requires forall n :: n in nodes ==> ParseType(n.nodeType).Some?
      ensures |rows| == |nodes| && forall k :: 0 <= k < |nodes| ==> rows[k] == (nodes[k].id, ToNodeRow(nodes[k]))
    {
      rows := [];
      for i := 0 to |nodes|
        invariant |rows| == i && forall k :: 0 <= k < i ==> rows[k] == (nodes[k].id, ToNodeRow(nodes[k]))
      {
        rows := rows + [(nodes[i].id, NodeRow(ParseType(nodes[i].nodeType).value, nodes[i].name, ConfigOf(nodes[i])))];
      }
    }

    /** The upsert of the encoded rows: each is written over whatever has its id. */
    method UpsertNodeRows(g0: Graph, nodes: seq<PayloadNode>) returns (g: Graph)
      requires forall n :: n in nodes ==> ParseType(n.nodeType).Some?
      ensures g == UpsertNodes(g0, nodes)
    {
      var rows := EncodeNodes(nodes);
      g := g0;
      for i := 0 to |rows|
        invariant g == UpsertNodes(g0, nodes[..i])
      {
        assert nodes[..i + 1][..i] == nodes[..i];
        g := g.(nodes := g.nodes[rows[i].0 := rows[i].1]);
      }
      assert nodes[..|nodes|] == nodes;
    }

    /** Deletes the nodes outside `ids`, with their edges; refuses at the first one a run or job references. */
    method DeleteNodeRows(g: Graph, ids: set<Id>, referenced: set<Id>) returns (r: Result<Graph, DbError>)
      ensures r == DeleteNodesNotIn(g, ids, referenced)
    {
      var kept, todo := map[], g.nodes.Keys;
      while todo != {}
        invariant todo <= g.nodes.Keys
        invariant forall n :: n in g.nodes && n !in todo && n !in ids ==> n !in referenced
        invariant kept == map n | n in g.nodes && n !in todo && n in ids :: g.nodes[n]
      {
        var n :| n in todo;
        if n in ids {
          kept := kept[n := g.nodes[n]];
        } else if n in referenced {
          return Err(ForeignKey);
        }
        todo := todo - {n};
      }
      var edges := CascadeEdges(g, kept);
      KeptIs(g, ids, referenced, kept, edges);
      return Ok(Graph(kept, edges));
    }

    /** The edges that survive the deletion of their end nodes. */
    method CascadeEdges(g: Graph, kept: map<Id, NodeRow>) returns (edges: map<Id, EdgeRow>)
      ensures edges == map e | e in g.edges && g.edges[e].from in kept && g.edges[e].to in kept :: g.edges[e]
    {
      edges := map[];
      var todo := g.edges.Keys;
      while todo != {}
        invariant todo <= g.edges.Keys
        invariant edges == map e | e in g.edges && e !in todo && g.edges[e].from in kept && g.edges[e].to in kept :: g.edges[e]
      {
        var e :| e in todo;
        if g.edges[e].from in kept && g.edges[e].to in kept {
          edges := edges[e := g.edges[e]];
        }
        todo := todo - {e};
      }
    }

    /** encodeEdges and its upsert: an edge between unknown nodes breaks the endpoint keys. */
    method UpsertEdgeRows(g0: Graph, edges: seq<PayloadEdge>) returns (r: Result<Graph, DbError>)
      requires forall e :: e in edges ==> ParseLabel(e.edgeLabel).Some?
      ensures r.Ok? <==> UpsertEdges(g0, edges).Ok?
      ensures r.Ok? ==> r == UpsertEdges(g0, edges)
    {
      var g := g0;
      for i := 0 to |edges|
        invariant UpsertEdges(g0, edges[..i]) == Ok(g) && g.nodes == g0.nodes
      {
        var e := edges[i];
        assert edges[..i + 1][..i] == edges[..i];
        if e.from !in g.nodes || e.to !in g.nodes {
          UpsertStaysBroken(g0, edges, i + 1);
          return Err(ForeignKey);
        }
        g := g.(edges := g.edges[e.id := EdgeRow(e.from, e.to, ParseLabel(e.edgeLabel).value)]);
      }
      assert edges[..|edges|] == edges;
      return Ok(g);
    }

    method DeleteEdgeRows(g: Graph, ids: set<Id>) returns (g': Graph)
      ensures g' == DeleteEdgesNotIn(g, ids)
    {
      var kept, todo := map[], g.edges.Keys;
      while todo != {}
        invariant todo <= g.edges.Keys
        invariant kept == map e | e in g.edges && e !in todo && e in ids :: g.edges[e]
      {
        var e :| e in todo;
        if e in ids {
          kept := kept[e := g.edges[e]];
        }
        todo := todo - {e};
      }
      return Graph(g.nodes, kept);
    }

    /** persistGraph on one version: it goes through exactly when no referenced node is missing from the payload, and
        then that version holds exactly the payload; nothing else changes. */
    method SyncGraph(v: Id, p: Payload, ghost cfg: ConfigCheck) returns (ok: bool)
      requires v in store.db.versions && PayloadValid(p, cfg)
      modifies store
      ensures ok <==> forall n :: n in ReferencedNodes(old(store.db), v) && n in old(store.db).versions[v].graph.nodes ==>
                                    n in PayloadIds(p.nodes)
      ensures !ok ==> store.db == old(store.db)
      ensures ok ==>
                && v in store.db.versions && HoldsExactly(store.db.versions[v].graph, p, cfg)
                && HoldsLiterally(store.db.versions[v].graph, p)
                && store.db == old(store.db).(versions := old(store.db).versions[v := old(store.db).versions[v].(
                                                graph := store.db.versions[v].graph)])
    {
      var db := store.db;
      SaveIsExactSync(db.versions[v].graph, p, cfg, ReferencedNodes(db, v));
      NodesSynced(db.versions[v].graph, p, cfg, ReferencedNodes(db, v));
      var g := UpsertNodeRows(db.versions[v].graph, p.nodes);
      var deleted := DeleteNodeRows(g, PayloadIds(p.nodes), ReferencedNodes(db, v));
      if deleted.Err? {
        return false;
      }
      var upserted := UpsertEdgeRows(deleted.value, p.edges);
      if upserted.Err? {
        return false;
      }
      g := DeleteEdgeRows(upserted.value, EdgeIds(p.edges));
      ExactlyIsLiterally(g, p, cfg);
      store.db := db.(versions := db.versions[v := db.versions[v].(graph := g)]);
      return true;
    }

    /** PUT: validate the payload, fork the head when it is live, sync, move the head pointer. */
    method Save(w: Id, p: Payload, newId: Id, cfg: ConfigCheck) returns (ok: bool)
      requires DbInv(store.db) && newId !in store.db.versions
      modifies store
      ensures ok <==> Tables.Save(old(store.db), cfg, w, p, newId).Ok?
      ensures store.db == Committed(old(store.db), Tables.Save(old(store.db), cfg, w, p, newId))
      ensures ok <==> w in old(store.db).workflows && old(store.db).workflows[w].status != Archived && PayloadValid(p, cfg)
      ensures ok ==> old(store.db).workflows[w].latest in old(store.db).versions
                     && HeadHolds(old(store.db), store.db, w, p, newId)
      ensures !ok ==> store.db == old(store.db)
      ensures DbInv(store.db) && Evolves(old(store.db), store.db)
    {
      ghost var start := store.db;
      SaveOutcome(start, cfg, w, p, newId, Committed(start, Tables.Save(start, cfg, w, p, newId)));
      SaveKeeps(start, cfg, w, p, newId, Committed(start, Tables.Save(start, cfg, w, p, newId)));
      if w !in store.db.workflows || store.db.workflows[w].status == Archived {
        return false;
      }
      ok := ValidateGraph(p, cfg);
      if !ok {
        return false;
      }
      ok := SaveInTx(w, p, newId, cfg);
    }

    method SaveInTx(w: Id, p: Payload, newId: Id, ghost cfg: ConfigCheck) returns (ok: bool)
      requires Editable(store.db, w) && PayloadValid(p, cfg) && newId !in store.db.versions
      modifies store
      ensures ok <==> Tables.Save(old(store.db), cfg, w, p, newId).Ok?
      ensures store.db == Committed(old(store.db), Tables.Save(old(store.db), cfg, w, p, newId))
    {
      var before := store.db;
      var wf := store.db.workflows[w];
      var v := wf.latest;
      if NeedsDraftFork(wf) {
        ok := CreateVersion(w, newId);
        if !ok {
          return false;
        }
        v := newId;
      }
      if v !in store.db.versions {
        store.db := before;
        return false;
      }
      ghost var mid := store.db;
      ok := SyncGraph(v, p, cfg);
      SyncIsPersist(before, mid, v, p, cfg, store.db, ok);
      if !ok {
        store.db := before;
        return false;
      }
      store.db := store.db.(workflows := store.db.workflows[w := wf.(latest := v)]);
    }

    method ToPublishNodes(g: Graph, ids: seq<Id>) returns (nodes: seq<PublishValidate.PublishNode>)
      requires forall n :: n in ids ==> n in g.nodes
      ensures nodes == ListNodes(g, ids)
    {
      nodes := [];
      for i := 0 to |ids|
        invariant |nodes| == i && forall k :: 0 <= k < i ==> nodes[k] == PublishNodeOf(ids[k], g.nodes[ids[k]])
      {
        nodes := nodes + [PublishNodeOf(ids[i], g.nodes[ids[i]])];
      }
    }

    method ToPublishEdges(g: Graph, ids: seq<Id>) returns (edges: seq<EdgeList.PublishEdge>)
      requires forall e :: e in ids ==> e in g.edges
      ensures edges == ListEdges(g, ids)
    {
      edges := [];
      for i := 0 to |ids|
        invariant |edges| == i && forall k :: 0 <= k < i ==> edges[k] == PublishEdgeOf(g.edges[ids[k]])
      {
        edges := edges + [PublishEdgeOf(g.edges[ids[i]])];
      }
    }

    /** The checks of a publish: every config, then the graph validator on the rows in whatever order they come. */
    method CheckPublishable(g: Graph, cfg: ConfigCheck) returns (ok: bool)
      requires EdgesAttached(g)
      ensures ok <==> (forall n :: n in g.nodes ==> cfg(g.nodes[n].nodeType, g.nodes[n].config)) && Publishable(g)
    {
      var nids := SelectKeys(g.nodes);
      var eids := SelectKeys(g.edges);
      ListedKeys(nids, g.nodes);
      for i := 0 to |nids|
        invariant forall k :: 0 <= k < i ==> cfg(g.nodes[nids[k]].nodeType, g.nodes[nids[k]].config)
      {
        if !cfg(g.nodes[nids[i]].nodeType, g.nodes[nids[i]].config) {
          return false;
        }
      }
      VerdictAgrees(g, nids, eids);
      var nodes := ToPublishNodes(g, nids);
      var edges := ToPublishEdges(g, eids);
      var error := PublishValidate.ValidatePublishGraph(nodes, edges);
      return error.None?;
    }

    /** POST publish: idempotent on a published head, otherwise check and stamp the draft head. */
    method Publish(w: Id, cfg: ConfigCheck) returns (ok: bool)
      requires DbInv(store.db)
      modifies store
      ensures ok <==> Tables.Publish(old(store.db), cfg, w).Ok?
      ensures store.db == Committed(old(store.db), Tables.Publish(old(store.db), cfg, w))
      ensures w in old(store.db).workflows ==> old(store.db).workflows[w].latest in old(store.db).versions
      ensures ok <==>
              w in old(store.db).workflows && old(store.db).workflows[w].status != Archived
              && var head := old(store.db).versions[old(store.db).workflows[w].latest];
                 head.published || CanGoLive(head.graph, cfg)
      ensures ok && !old(store.db).versions[old(store.db).workflows[w].latest].published ==>
                HeadWentLive(old(store.db), store.db, w)
      ensures !ok || old(store.db).versions[old(store.db).workflows[w].latest].published ==> store.db == old(store.db)
      ensures DbInv(store.db) && Evolves(old(store.db), store.db)
    {
      ghost var start := store.db;
      PublishSucceeds(start, cfg, w, Committed(start, Tables.Publish(start, cfg, w)));
      PublishKeeps(start, cfg, w, Committed(start, Tables.Publish(start, cfg, w)));
      if w !in store.db.workflows || store.db.workflows[w].status == Archived {
        return false;
      }
      assert WorkflowOk(start, w);
      var wf := store.db.workflows[w];
      var head := store.db.versions[wf.latest];
      if head.published {
        return wf.live.Some?;
      }
      assert ContentOk(head);
      ok := CheckPublishable(head.graph, cfg);
      if ok {
        store.db := store.db.(versions := store.db.versions[wf.latest := head.(published := true)],
                              workflows := store.db.workflows[w := wf.(status := Published, live := Some(wf.latest))]);
      }
    }
  }

  class RunHandler {
    const store: Store

    constructor (store: Store)
      ensures this.store == store
    {
      this.store := store;
    }

    /** The Start node of a version, or the nil id that marks a missing one. */
    method SelectStart(g: Graph) returns (s: Id)
      ensures Starts(g) == {} ==> s == NIL
      ensures Starts(g) != {} ==> s in Starts(g)
    {
      var todo := g.nodes.Keys;
      while todo != {}
        invariant todo <= g.nodes.Keys
        invariant forall n :: n in g.nodes && n !in todo ==> g.nodes[n].nodeType != Start
      {
        var n :| n in todo;
        if g.nodes[n].nodeType == Start {
          assert n in Starts(g);
          return n;
        }
        todo := todo - {n};
      }
      return NIL;
    }

    /** POST run: pin the live version and insert the run with its first job, all or nothing. */
    method StartRun(w: Id, r: Id, j: Id, payload: Json) returns (ok: bool)
      requires DbInv(store.db) && r !in store.db.runs
      modifies store
      ensures ok <==> w in old(store.db).workflows && old(store.db).workflows[w].status == Published
      ensures store.db == Committed(old(store.db), Tables.StartRun(old(store.db), w, r, j, payload))
      ensures StartLeaves(old(store.db), store.db, w, r, j, payload, ok)
      ensures DbInv(store.db) && Evolves(old(store.db), store.db)
    {
      ghost var start := store.db;
      StartOutcome(start, w, r, j, payload, Committed(start, Tables.StartRun(start, w, r, j, payload)));
      ghost var run := StartKeeps(start, w, r, j, payload, Committed(start, Tables.StartRun(start, w, r, j, payload)));
      if w !in store.db.workflows || store.db.workflows[w].status != Published {
        return false;
      }
      ok := StartInTx(w, r, j, payload, run);
    }

    /** The transaction: read the live version and its Start node, insert run and job. */
    method StartInTx(w: Id, r: Id, j: Id, payload: Json, ghost run: Run) returns (ok: bool)
      requires StartOf(store.db, w, run.version, run.current) && RunPinned(store.db, run)
      requires run == Run(w, run.version, Pending, run.current, 1, StartOutput(payload))
      modifies store
      ensures ok && store.db == WithRunAndJob(old(store.db), r, run, j)
    {
      var v := store.db.workflows[w].live.value;
      var s := SelectStart(store.db.versions[v].graph);
      assert run.current in Starts(store.db.versions[v].graph);
      ok := InsertRunAndJob(r, Run(w, v, Pending, s, 1, StartOutput(payload)), j);
    }

    /** The two inserts of the transaction; the foreign keys of the job row hold. */
    method InsertRunAndJob(r: Id, run: Run, j: Id) returns (ok: bool)
      requires RunPinned(store.db, run)
      modifies store
      ensures ok && store.db == WithRunAndJob(old(store.db), r, run, j)
    {
      JobInserted(store.db, r, run, j);
      store.db := store.db.(runs := store.db.runs[r := run]);
      ok := store.InsertRunNodeJobOutbox(j, r, run.version, run.current);
    }
  }
}
