/** Saving is an exact sync: payload validation by loops, then the four statements on any earlier graph. */
module SaveTheory {
  import opened Basics
  import opened Tables

  // ---------------------------------------------------------------- payload validation

  method ValidateGraph(p: Payload, cfg: ConfigCheck) returns (ok: bool)
    ensures ok <==> PayloadValid(p, cfg)
  {
    var ids;
    ok, ids := UniqueNodes(p.nodes, cfg);
    if !ok {
      return false;
    }
    ok := UniqueEdges(p.edges, ids);
  }

  /** `at` finds the position of each of the first `k` keys, which are therefore pairwise different. */
  ghost predicate Indexed<K>(keys: seq<K>, k: nat, at: map<K, nat>)
    requires k <= |keys|
  {
    && (forall i :: 0 <= i < k ==> keys[i] in at && at[keys[i]] == i)
    && (forall x :: x in at ==> at[x] < k && keys[at[x]] == x)
  }

  lemma IndexNext<K>(keys: seq<K>, k: nat, at: map<K, nat>)
    requires k < |keys| && Indexed(keys, k, at)
    ensures keys[k] !in at ==> Indexed(keys, k + 1, at[keys[k] := k])
    ensures keys[k] in at ==> at[keys[k]] < k && keys[at[keys[k]]] == keys[k]
  {}

  ghost function NodeIdsOf(nodes: seq<PayloadNode>): seq<Id> {
    seq(|nodes|, i requires 0 <= i < |nodes| => nodes[i].id)
  }

  ghost function NamesOf(nodes: seq<PayloadNode>): seq<string> {
    seq(|nodes|, i requires 0 <= i < |nodes| => nodes[i].name)
  }

  lemma NodeRejected(nodes: seq<PayloadNode>, k: nat, cfg: ConfigCheck, idAt: map<Id, nat>, nameAt: map<string, nat>)
    requires k < |nodes| && Indexed(NodeIdsOf(nodes), k, idAt) && Indexed(NamesOf(nodes), k, nameAt)
    ensures !NodeValid(nodes[k], cfg) || nodes[k].id in idAt || nodes[k].name in nameAt ==> !NodesValid(nodes, cfg)
  {
    IndexNext(NodeIdsOf(nodes), k, idAt);
    IndexNext(NamesOf(nodes), k, nameAt);
    assert nodes[k] in nodes;
  }

  /** What the loop knows after `k` nodes: all are valid, and the two maps index their ids and names. */
  ghost predicate NodesChecked(nodes: seq<PayloadNode>, cfg: ConfigCheck, k: nat, idAt: map<Id, nat>, nameAt: map<string, nat>)
    requires k <= |nodes|
  {
    && (forall i :: 0 <= i < k ==> NodeValid(nodes[i], cfg))
    && Indexed(NodeIdsOf(nodes), k, idAt)
    && Indexed(NamesOf(nodes), k, nameAt)
  }

  lemma NodeAccepted(nodes: seq<PayloadNode>, cfg: ConfigCheck, k: nat, idAt: map<Id, nat>, nameAt: map<string, nat>)
    requires k < |nodes| && NodesChecked(nodes, cfg, k, idAt, nameAt) && NodeValid(nodes[k], cfg)
    requires nodes[k].id !in idAt && nodes[k].name !in nameAt
    ensures NodesChecked(nodes, cfg, k + 1, idAt[nodes[k].id := k], nameAt[nodes[k].name := k])
  {
    IndexNext(NodeIdsOf(nodes), k, idAt);
    IndexNext(NamesOf(nodes), k, nameAt);
  }

  lemma AllNodesChecked(nodes: seq<PayloadNode>, cfg: ConfigCheck, idAt: map<Id, nat>, nameAt: map<string, nat>)
    requires NodesChecked(nodes, cfg, |nodes|, idAt, nameAt)
    ensures NodesValid(nodes, cfg) && idAt.Keys == PayloadIds(nodes)
  {
    IndexedNodes(nodes, idAt, nameAt);
  }

  method UniqueNodes(nodes: seq<PayloadNode>, cfg: ConfigCheck) returns (ok: bool, ids: set<Id>)
    ensures ok <==> NodesValid(nodes, cfg)
    ensures ok ==> ids == PayloadIds(nodes)
  {
    ids := {};
    var names: map<string, Id> := map[];
    ghost var idAt: map<Id, nat> := map[];
    ghost var nameAt: map<string, nat> := map[];
    for k := 0 to |nodes|
      invariant NodesChecked(nodes, cfg, k, idAt, nameAt)
      invariant ids == idAt.Keys && names.Keys == nameAt.Keys
    {
      var n := nodes[k];
      NodeRejected(nodes, k, cfg, idAt, nameAt);
      if n.id == NIL || n.id in ids || Blank(n.name) || n.name in names || ParseType(n.nodeType).None? {
        return false, ids;
      }
      if !cfg(ParseType(n.nodeType).value, ConfigOf(n)) {
        return false, ids;
      }
      NodeAccepted(nodes, cfg, k, idAt, nameAt);
      ids := ids + {n.id};
      names := names[n.name := n.id];
      idAt, nameAt := idAt[n.id := k], nameAt[n.name := k];
    }
    AllNodesChecked(nodes, cfg, idAt, nameAt);
    return true, ids;
  }

  lemma IndexedNodes(nodes: seq<PayloadNode>, idAt: map<Id, nat>, nameAt: map<string, nat>)
    requires Indexed(NodeIdsOf(nodes), |nodes|, idAt) && Indexed(NamesOf(nodes), |nodes|, nameAt)
    ensures idAt.Keys == PayloadIds(nodes)
    ensures forall i, j :: 0 <= i < j < |nodes| ==> nodes[i].id != nodes[j].id
    ensures forall i, j :: 0 <= i < j < |nodes| ==> nodes[i].name != nodes[j].name
  {
    forall i, j | 0 <= i < j < |nodes| ensures nodes[i].id != nodes[j].id && nodes[i].name != nodes[j].name {
      assert idAt[NodeIdsOf(nodes)[i]] == i && idAt[NodeIdsOf(nodes)[j]] == j;
      assert nameAt[NamesOf(nodes)[i]] == i && nameAt[NamesOf(nodes)[j]] == j;
    }
    forall x | x in idAt ensures x in PayloadIds(nodes) {
      assert nodes[idAt[x]] in nodes;
    }
    forall n | n in nodes ensures n.id in idAt {
      var i :| 0 <= i < |nodes| && nodes[i] == n;
      assert NodeIdsOf(nodes)[i] in idAt;
    }
  }

  ghost function EdgeIdsOf(edges: seq<PayloadEdge>): seq<Id> {
    seq(|edges|, i requires 0 <= i < |edges| => edges[i].id)
  }

  ghost function SlotsOf(edges: seq<PayloadEdge>): seq<(Id, Option<Label>)> {
    seq(|edges|, i requires 0 <= i < |edges| => (edges[i].from, ParseLabel(edges[i].edgeLabel)))
  }

  method UniqueEdges(edges: seq<PayloadEdge>, nodes: set<Id>) returns (ok: bool)
    ensures ok <==> EdgesValid(edges, nodes)
  {
    var ids: set<Id> := {};
    var bySourceLabel: map<(Id, Option<Label>), Id> := map[];
    ghost var idAt: map<Id, nat> := map[];
    ghost var slotAt: map<(Id, Option<Label>), nat> := map[];
    for k := 0 to |edges|
      invariant forall i :: 0 <= i < k ==> EdgeValid(edges[i], nodes)
      invariant Indexed(EdgeIdsOf(edges), k, idAt) && ids == idAt.Keys
      invariant Indexed(SlotsOf(edges), k, slotAt) && bySourceLabel.Keys == slotAt.Keys
    {
      var e := edges[k];
      var key := (e.from, ParseLabel(e.edgeLabel));
      IndexNext(EdgeIdsOf(edges), k, idAt);
      IndexNext(SlotsOf(edges), k, slotAt);
      assert e in edges;
      if e.id == NIL || e.id in ids || e.from !in nodes || e.to !in nodes || ParseLabel(e.edgeLabel).None? {
        return false;
      }
      if key in bySourceLabel {
        assert SamePayloadSlot(edges[slotAt[key]], e);
        return false;
      }
      ids := ids + {e.id};
      bySourceLabel := bySourceLabel[key := e.id];
      idAt, slotAt := idAt[e.id := k], slotAt[key := k];
    }
    IndexedEdges(edges, idAt, slotAt);
    return true;
  }

  lemma IndexedEdges(edges: seq<PayloadEdge>, idAt: map<Id, nat>, slotAt: map<(Id, Option<Label>), nat>)
    requires Indexed(EdgeIdsOf(edges), |edges|, idAt) && Indexed(SlotsOf(edges), |edges|, slotAt)
    ensures forall i, j :: 0 <= i < j < |edges| ==> edges[i].id != edges[j].id
    ensures forall i, j :: 0 <= i < j < |edges| ==> !SamePayloadSlot(edges[i], edges[j])
  {
    forall i, j | 0 <= i < j < |edges| ensures edges[i].id != edges[j].id && !SamePayloadSlot(edges[i], edges[j]) {
      assert idAt[EdgeIdsOf(edges)[i]] == i && idAt[EdgeIdsOf(edges)[j]] == j;
      assert slotAt[SlotsOf(edges)[i]] == i && slotAt[SlotsOf(edges)[j]] == j;
    }
  }

  // ---------------------------------------------------------------- the sync

  /** `g` holds exactly the rows of the payload. */
  ghost predicate HoldsExactly(g: Graph, p: Payload, cfg: ConfigCheck)
    requires PayloadValid(p, cfg)
  {
    && g.nodes.Keys == PayloadIds(p.nodes)
    && (forall n :: n in p.nodes ==> g.nodes[n.id] == ToNodeRow(n))
    && g.edges.Keys == EdgeIds(p.edges)
    && (forall e :: e in p.edges ==> g.edges[e.id] == ToEdgeRow(e))
  }

  lemma {:induction false} UpsertedNodes(g: Graph, nodes: seq<PayloadNode>)
    requires forall n :: n in nodes ==> ParseType(n.nodeType).Some?
    ensures UpsertNodes(g, nodes).edges == g.edges
    ensures UpsertNodes(g, nodes).nodes.Keys == g.nodes.Keys + PayloadIds(nodes)
    ensures forall n :: n in g.nodes && n !in PayloadIds(nodes) ==> UpsertNodes(g, nodes).nodes[n] == g.nodes[n]
  {
    if nodes != [] {
      var k := |nodes| - 1;
      UpsertedNodes(g, nodes[..k]);
      assert nodes == nodes[..k] + [nodes[k]];
      assert PayloadIds(nodes) == PayloadIds(nodes[..k]) + {nodes[k].id};
    }
  }

  lemma {:induction false} UpsertedRow(g: Graph, nodes: seq<PayloadNode>, i: nat)
    requires forall n :: n in nodes ==> ParseType(n.nodeType).Some?
    requires forall i, j :: 0 <= i < j < |nodes| ==> nodes[i].id != nodes[j].id
    requires i < |nodes|
    ensures nodes[i].id in UpsertNodes(g, nodes).nodes && UpsertNodes(g, nodes).nodes[nodes[i].id] == ToNodeRow(nodes[i])
  {
    if i < |nodes| - 1 {
      assert nodes[..|nodes| - 1][i] == nodes[i];
      UpsertedRow(g, nodes[..|nodes| - 1], i);
    }
  }

  lemma {:induction false} UpsertedEdges(g: Graph, edges: seq<PayloadEdge>)
    requires EdgesValid(edges, g.nodes.Keys)
    ensures var r := UpsertEdges(g, edges);
            && r.Ok?
            && r.value.nodes == g.nodes
            && r.value.edges.Keys == g.edges.Keys + EdgeIds(edges)
            && (forall e :: e in edges ==> r.value.edges[e.id] == ToEdgeRow(e))
            && (forall e :: e in g.edges && e !in EdgeIds(edges) ==> r.value.edges[e] == g.edges[e])
  {
    if edges != [] {
      var k := |edges| - 1;
      UpsertedEdges(g, edges[..k]);
      assert edges == edges[..k] + [edges[k]];
      assert EdgeIds(edges) == EdgeIds(edges[..k]) + {edges[k].id};
      assert EdgeValid(edges[k], g.nodes.Keys);
    }
  }

  /** Endpoint keys hold after each of the four statements. */
  lemma EndpointsHoldThroughout(g: Graph, p: Payload, cfg: ConfigCheck, referenced: set<Id>)
    requires PayloadValid(p, cfg) && EdgesAttached(g) && referenced <= PayloadIds(p.nodes)
    ensures var g1 := UpsertNodes(g, p.nodes);
            var r2 := DeleteNodesNotIn(g1, PayloadIds(p.nodes), referenced);
            && EdgesAttached(g1)
            && r2.Ok? && EdgesAttached(r2.value) && r2.value.nodes.Keys == PayloadIds(p.nodes)
            && var r3 := UpsertEdges(r2.value, p.edges);
            && r3.Ok? && EdgesAttached(r3.value)
            && EdgesAttached(DeleteEdgesNotIn(r3.value, EdgeIds(p.edges)))
  {
    UpsertedNodes(g, p.nodes);
    var g2 := DeleteNodesNotIn(UpsertNodes(g, p.nodes), PayloadIds(p.nodes), referenced).value;
    UpsertedEdges(g2, p.edges);
    var g3 := UpsertEdges(g2, p.edges).value;
    forall x | x in g3.edges ensures g3.edges[x].from in g3.nodes && g3.edges[x].to in g3.nodes {
      if x in EdgeIds(p.edges) {
        var e :| e in p.edges && e.id == x;
        assert EdgeValid(e, PayloadIds(p.nodes));
      }
    }
  }

  lemma NodeOf(g: Graph, p: Payload, cfg: ConfigCheck, n: Id) returns (i: nat)
    requires PayloadValid(p, cfg) && HoldsExactly(g, p, cfg) && n in g.nodes
    ensures i < |p.nodes| && p.nodes[i].id == n && g.nodes[n].name == p.nodes[i].name && n != NIL
  {
    var m :| m in p.nodes && m.id == n;
    i :| 0 <= i < |p.nodes| && p.nodes[i] == m;
    assert NodeValid(m, cfg);
  }

  lemma EdgeOf(g: Graph, p: Payload, cfg: ConfigCheck, e: Id) returns (i: nat)
    requires PayloadValid(p, cfg) && HoldsExactly(g, p, cfg) && e in g.edges
    ensures i < |p.edges| && p.edges[i].id == e && EdgeValid(p.edges[i], g.nodes.Keys)
    ensures g.edges[e] == ToEdgeRow(p.edges[i])
  {
    var m :| m in p.edges && m.id == e;
    i :| 0 <= i < |p.edges| && p.edges[i] == m;
    assert EdgeValid(m, g.nodes.Keys);
  }

  lemma ExactlyIsUnique(g: Graph, p: Payload, cfg: ConfigCheck)
    requires PayloadValid(p, cfg) && HoldsExactly(g, p, cfg)
    ensures GraphOk(g)
  {
    ExactNodesAreUnique(g, p, cfg);
    ExactEdgesAreUnique(g, p, cfg);
  }

  lemma ExactNodesAreUnique(g: Graph, p: Payload, cfg: ConfigCheck)
    requires PayloadValid(p, cfg) && HoldsExactly(g, p, cfg)
    ensures NIL !in g.nodes
    ensures forall n, m :: n in g.nodes && m in g.nodes && g.nodes[n].name == g.nodes[m].name ==> n == m
  {
    if NIL in g.nodes {
      var i := NodeOf(g, p, cfg, NIL);
    }
    forall n, m | n in g.nodes && m in g.nodes && g.nodes[n].name == g.nodes[m].name ensures n == m {
      var i := NodeOf(g, p, cfg, n);
      var j := NodeOf(g, p, cfg, m);
    }
  }

  lemma SlotNamesEdge(g: Graph, p: Payload, cfg: ConfigCheck, d: Id, e: Id)
    requires PayloadValid(p, cfg) && HoldsExactly(g, p, cfg)
    requires d in g.edges && e in g.edges && SameSlot(g.edges[d], g.edges[e])
    ensures d == e
  {
    var i := EdgeOf(g, p, cfg, d);
    var j := EdgeOf(g, p, cfg, e);
    assert SamePayloadSlot(p.edges[i], p.edges[j]) && SamePayloadSlot(p.edges[j], p.edges[i]);
  }

  lemma ExactEdgesAreUnique(g: Graph, p: Payload, cfg: ConfigCheck)
    requires PayloadValid(p, cfg) && HoldsExactly(g, p, cfg)
    ensures EdgesAttached(g)
    ensures forall d, e :: d in g.edges && e in g.edges && SameSlot(g.edges[d], g.edges[e]) ==> d == e
  {
    forall d, e | d in g.edges && e in g.edges && SameSlot(g.edges[d], g.edges[e]) ensures d == e {
      SlotNamesEdge(g, p, cfg, d, e);
    }
    forall e | e in g.edges ensures g.edges[e].from in g.nodes && g.edges[e].to in g.nodes {
      var i := EdgeOf(g, p, cfg, e);
    }
  }

  lemma NodesSynced(g: Graph, p: Payload, cfg: ConfigCheck, referenced: set<Id>)
    requires PayloadValid(p, cfg)
    ensures var r2 := DeleteNodesNotIn(UpsertNodes(g, p.nodes), PayloadIds(p.nodes), referenced);
            && (r2.Ok? <==> forall n :: n in referenced && n in g.nodes ==> n in PayloadIds(p.nodes))
            && (r2.Ok? ==> r2.value.nodes.Keys == PayloadIds(p.nodes)
                           && forall n :: n in p.nodes ==> r2.value.nodes[n.id] == ToNodeRow(n))
  {
    UpsertedNodes(g, p.nodes);
    forall n | n in p.nodes
      ensures n.id in UpsertNodes(g, p.nodes).nodes && UpsertNodes(g, p.nodes).nodes[n.id] == ToNodeRow(n)
    {
      var i :| 0 <= i < |p.nodes| && p.nodes[i] == n;
      UpsertedRow(g, p.nodes, i);
    }
  }

  /** Whatever the version held, a valid payload replaces it exactly, unless a row outside it is referenced. */
  lemma SaveIsExactSync(g: Graph, p: Payload, cfg: ConfigCheck, referenced: set<Id>)
    requires PayloadValid(p, cfg)
    ensures PersistGraph(g, p, referenced).Ok? <==>
            forall n :: n in referenced && n in g.nodes ==> n in PayloadIds(p.nodes)
    ensures PersistGraph(g, p, referenced).Ok? ==>
              HoldsExactly(PersistGraph(g, p, referenced).value, p, cfg) && GraphOk(PersistGraph(g, p, referenced).value)
  {
    NodesSynced(g, p, cfg, referenced);
    var r2 := DeleteNodesNotIn(UpsertNodes(g, p.nodes), PayloadIds(p.nodes), referenced);
    if r2.Ok? {
      UpsertedEdges(r2.value, p.edges);
      var g4 := DeleteEdgesNotIn(UpsertEdges(r2.value, p.edges).value, EdgeIds(p.edges));
      assert HoldsExactly(g4, p, cfg);
      ExactlyIsUnique(g4, p, cfg);
    }
  }

  /** The payload determines the rows. */
  lemma OneGraphHolds(g: Graph, g': Graph, p: Payload, cfg: ConfigCheck)
    requires PayloadValid(p, cfg) && HoldsExactly(g, p, cfg) && HoldsExactly(g', p, cfg)
    ensures g == g'
  {
    forall n | n in g.nodes ensures g.nodes[n] == g'.nodes[n] {
      var i := NodeOf(g, p, cfg, n);
    }
    forall e | e in g.edges ensures g.edges[e] == g'.edges[e] {
      var i := EdgeOf(g, p, cfg, e);
    }
  }

  // ---------------------------------------------------------------- the rows, field by field

  /** The catalog's names. */
  predicate TypeNamed(t: NodeType, name: string) {
    match t
    case Start => name == "start"
    case Conditional => name == "conditional"
    case Function => name == "function"
    case Api => name == "api"
    case Response => name == "response"
  }

  /** The names of edge labels; an edge without one is default. */
  predicate LabelNamed(l: Label, raw: string) {
    match l
    case Default => raw == "" || raw == "default"
    case True => raw == "true"
    case False => raw == "false"
  }

  /** The config as given, or the empty object for a missing one. */
  predicate ConfigGiven(config: Json, given: Option<Json>) {
    match given
    case Some(c) => config == c
    case None => config == Obj(map[])
  }

  lemma TypesParse(name: string, t: NodeType)
    ensures ParseType(name) == Some(t) <==> TypeNamed(t, name)
    ensures TypeNamed(t, TypeName(t))
  {}

  lemma LabelsParse(raw: string, l: Label)
    ensures ParseLabel(raw) == Some(l) <==> LabelNamed(l, raw)
    ensures LabelNamed(l, LabelName(l)) && LabelName(l) != ""
  {}

  /** A node is valid exactly if its id is not nil, its name is not all space, its type is in the catalog, and the schema
      of that type accepts its config. */
  lemma NodeValidIs(n: PayloadNode, cfg: ConfigCheck)
    ensures NodeValid(n, cfg) <==>
            n.id != NIL && (exists c :: c in n.name && !IsSpace(c))
            && exists t, config :: TypeNamed(t, n.nodeType) && ConfigGiven(config, n.config) && cfg(t, config)
  {
    if NodeValid(n, cfg) {
      var t := ParseType(n.nodeType).value;
      TypesParse(n.nodeType, t);
      assert TypeNamed(t, n.nodeType) && ConfigGiven(ConfigOf(n), n.config) && cfg(t, ConfigOf(n));
    }
    if t, config :| TypeNamed(t, n.nodeType) && ConfigGiven(config, n.config) && cfg(t, config) {
      TypesParse(n.nodeType, t);
      assert config == ConfigOf(n);
    }
  }

  lemma EdgeValidIs(e: PayloadEdge, ids: set<Id>)
    ensures EdgeValid(e, ids) <==> e.id != NIL && e.from in ids && e.to in ids && exists l :: LabelNamed(l, e.edgeLabel)
  {
    if ParseLabel(e.edgeLabel).Some? {
      LabelsParse(e.edgeLabel, ParseLabel(e.edgeLabel).value);
    }
    if l :| LabelNamed(l, e.edgeLabel) {
      LabelsParse(e.edgeLabel, l);
    }
  }

  predicate NodeStored(row: NodeRow, n: PayloadNode) {
    TypeNamed(row.nodeType, n.nodeType) && row.name == n.name && ConfigGiven(row.config, n.config)
  }

  predicate EdgeStored(row: EdgeRow, e: PayloadEdge) {
    row.from == e.from && row.to == e.to && LabelNamed(row.edgeLabel, e.edgeLabel)
  }

  /** One row per node and per edge of the payload, with its fields, and no other row. */
  ghost predicate HoldsLiterally(g: Graph, p: Payload) {
    && (forall n :: n in p.nodes ==> n.id in g.nodes && NodeStored(g.nodes[n.id], n))
    && (forall x :: x in g.nodes ==> exists n :: n in p.nodes && n.id == x)
    && (forall e :: e in p.edges ==> e.id in g.edges && EdgeStored(g.edges[e.id], e))
    && (forall x :: x in g.edges ==> exists e :: e in p.edges && e.id == x)
  }

  lemma NodeRowIs(row: NodeRow, n: PayloadNode)
    requires ParseType(n.nodeType).Some?
    ensures row == ToNodeRow(n) <==> NodeStored(row, n)
  {
    TypesParse(n.nodeType, row.nodeType);
  }

  lemma EdgeRowIs(row: EdgeRow, e: PayloadEdge)
    requires ParseLabel(e.edgeLabel).Some?
    ensures row == ToEdgeRow(e) <==> EdgeStored(row, e)
  {
    LabelsParse(e.edgeLabel, row.edgeLabel);
  }

  /** Holding a payload exactly is holding it field by field. */
  lemma ExactlyIsLiterally(g: Graph, p: Payload, cfg: ConfigCheck)
    requires PayloadValid(p, cfg)
    ensures HoldsExactly(g, p, cfg) <==> HoldsLiterally(g, p)
  {
    forall n, row | n in p.nodes ensures row == ToNodeRow(n) <==> NodeStored(row, n) {
      NodeRowIs(row, n);
    }
    forall e, row | e in p.edges ensures row == ToEdgeRow(e) <==> EdgeStored(row, e) {
      assert EdgeValid(e, PayloadIds(p.nodes));
      EdgeRowIs(row, e);
    }
    forall x ensures x in PayloadIds(p.nodes) <==> exists n :: n in p.nodes && n.id == x {}
    forall x ensures x in EdgeIds(p.edges) <==> exists e :: e in p.edges && e.id == x {}
    if HoldsLiterally(g, p) {
      assert g.nodes.Keys == PayloadIds(p.nodes);
      assert g.edges.Keys == EdgeIds(p.edges);
    }
  }

  /** A node is referenced exactly if a run of that version stands at it or an outbox row of that version names it. */
  lemma ReferencedIs(db: Db, v: Id, n: Id)
    ensures n in ReferencedNodes(db, v) <==>
            (exists r :: r in db.runs && db.runs[r].version == v && db.runs[r].current == n)
            || (exists j :: j in db.outbox && db.outbox[j].version == v && db.outbox[j].node == n)
  {}
}
