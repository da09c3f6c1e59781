/** The PostgreSQL tables and the meaning of each SQL statement, as functions on table contents.
    Node and edge rows are grouped by the leading column of their primary key, the version id. */
module Tables {
  import opened Basics
  import opened Digraph

  datatype NodeType = Start | Conditional | Function | Api | Response

  datatype Label = Default | True | False

  datatype NodeRow = NodeRow(nodeType: NodeType, name: string, config: Json)

  datatype EdgeRow = EdgeRow(from: Id, to: Id, edgeLabel: Label)

  datatype Graph = Graph(nodes: map<Id, NodeRow>, edges: map<Id, EdgeRow>)

  datatype WorkflowStatus = Draft | Published | Archived

  datatype Workflow = Workflow(status: WorkflowStatus, latest: Id, live: Option<Id>)

  datatype Version = Version(workflow: Id, number: nat, published: bool, graph: Graph)

  datatype RunStatus = Pending | Running | Paused | Failed | Completed | Cancelled

  datatype Run = Run(workflow: Id, version: Id, status: RunStatus, current: Id, attempt: int, output: Json)

  datatype Job = Job(run: Id, version: Id, node: Id, attempt: int)

  datatype Db = Db(workflows: map<Id, Workflow>, versions: map<Id, Version>, runs: map<Id, Run>, outbox: map<Id, Job>)

  datatype DbError = NotFound | Conflict | Internal | ForeignKey | UniqueKey | InvalidGraph | MissingStart | MissingVersion

  type DbResult = Result<Db, DbError>

  /** The JSON Schema check of a node's config, as a parameter. */
  type ConfigCheck = (NodeType, Json) -> bool

  const EMPTY_GRAPH := Graph(map[], map[])
  const EMPTY_DB := Db(map[], map[], map[], map[])

  // ---------------------------------------------------------------- graphs

  ghost function InEdges(g: Graph, n: Id): set<Id> {
    set e | e in g.edges && g.edges[e].to == n
  }

  ghost function OutEdges(g: Graph, n: Id): set<Id> {
    set e | e in g.edges && g.edges[e].from == n
  }

  ghost function GraphArcs(g: Graph): set<(Id, Id)> {
    set e | e in g.edges :: (g.edges[e].from, g.edges[e].to)
  }

  ghost function Starts(g: Graph): set<Id> {
    set n | n in g.nodes && g.nodes[n].nodeType == Start
  }

  /** The seeded bounds; minimum and maximum coincide for every type. */
  function InBound(t: NodeType): nat {
    if t == Start then 0 else 1
  }

  function OutBound(t: NodeType): nat {
    match t
    case Conditional => 2
    case Response => 0
    case _ => 1
  }

  /** A Conditional has a true and a false edge; every other edge is default. */
  ghost predicate RowLabelsFit(g: Graph, n: Id)
    requires n in g.nodes
  {
    if g.nodes[n].nodeType == Conditional then
      (exists e :: e in OutEdges(g, n) && g.edges[e].edgeLabel == True)
      && (exists e :: e in OutEdges(g, n) && g.edges[e].edgeLabel == False)
    else
      forall e :: e in OutEdges(g, n) ==> g.edges[e].edgeLabel == Default
  }

  ghost predicate NodePublishable(g: Graph, n: Id)
    requires n in g.nodes
  {
    && |InEdges(g, n)| == InBound(g.nodes[n].nodeType)
    && |OutEdges(g, n)| == OutBound(g.nodes[n].nodeType)
    && RowLabelsFit(g, n)
  }

  /** What a publishable graph is, on the rows themselves. */
  ghost predicate Publishable(g: Graph) {
    && |Starts(g)| == 1
    && (forall n :: n in g.nodes ==> NodePublishable(g, n))
    && !Cyclic(GraphArcs(g))
    && (forall s, n :: s in Starts(g) && n in g.nodes ==> Reaches(GraphArcs(g), s, n))
  }

  /** Edge endpoints are nodes of the same version: the composite foreign keys. */
  ghost predicate EdgesAttached(g: Graph) {
    forall e :: e in g.edges ==> g.edges[e].from in g.nodes && g.edges[e].to in g.nodes
  }

  predicate SameSlot(d: EdgeRow, e: EdgeRow) {
    d.from == e.from && d.edgeLabel == e.edgeLabel
  }

  /** The two deferred unique constraints. */
  predicate KeysUnique(g: Graph) {
    && (forall n, m :: n in g.nodes && m in g.nodes && g.nodes[n].name == g.nodes[m].name ==> n == m)
    && (forall d, e ::
          d in g.edges && e in g.edges && SameSlot(g.edges[d], g.edges[e]) ==> d == e)
  }

  ghost predicate GraphOk(g: Graph) {
    NIL !in g.nodes && EdgesAttached(g) && KeysUnique(g)
  }

  /** GetNextNodeForExecution: the row with this source and label. */
  ghost function NextNode(g: Graph, from: Id, l: Label): Option<Id> {
    if e: Id :| e in g.edges && g.edges[e].from == from && g.edges[e].edgeLabel == l
    then Some(g.edges[e].to)
    else None
  }

  // ---------------------------------------------------------------- saving a graph

  datatype PayloadNode = PayloadNode(id: Id, nodeType: string, name: string, config: Option<Json>)

  datatype PayloadEdge = PayloadEdge(id: Id, from: Id, to: Id, edgeLabel: string)

  datatype Payload = Payload(nodes: seq<PayloadNode>, edges: seq<PayloadEdge>)

  function TypeName(t: NodeType): string {
    match t
    case Start => "start"
    case Conditional => "conditional"
    case Function => "function"
    case Api => "api"
    case Response => "response"
  }

  /** The node-type catalog: the id column by name. */
  function ParseType(s: string): Option<NodeType> {
    if s == "start" then Some(Start)
    else if s == "conditional" then Some(Conditional)
    else if s == "function" then Some(Function)
    else if s == "api" then Some(Api)
    else if s == "response" then Some(Response)
    else None
  }

  function LabelName(l: Label): string {
    match l
    case Default => "default"
    case True => "true"
    case False => "false"
  }

  /** An empty label means default. */
  function ParseLabel(raw: string): Option<Label> {
    if raw == "" || raw == "default" then Some(Default)
    else if raw == "true" then Some(True)
    else if raw == "false" then Some(False)
    else None
  }

  function ConfigOf(n: PayloadNode): Json {
    if n.config.Some? then n.config.value else Obj(map[])
  }

  function ToNodeRow(n: PayloadNode): NodeRow
    requires ParseType(n.nodeType).Some?
  {
    NodeRow(ParseType(n.nodeType).value, n.name, ConfigOf(n))
  }

  function ToEdgeRow(e: PayloadEdge): EdgeRow
    requires ParseLabel(e.edgeLabel).Some?
  {
    EdgeRow(e.from, e.to, ParseLabel(e.edgeLabel).value)
  }

  predicate Blank(name: string) {
    forall c :: c in name ==> IsSpace(c)
  }

  ghost predicate NodeValid(n: PayloadNode, cfg: ConfigCheck) {
    n.id != NIL && !Blank(n.name) && ParseType(n.nodeType).Some? && cfg(ParseType(n.nodeType).value, ConfigOf(n))
  }

  ghost predicate NodesValid(nodes: seq<PayloadNode>, cfg: ConfigCheck) {
    && (forall n :: n in nodes ==> NodeValid(n, cfg))
    && (forall i, j :: 0 <= i < j < |nodes| ==> nodes[i].id != nodes[j].id)
    && (forall i, j :: 0 <= i < j < |nodes| ==> nodes[i].name != nodes[j].name)
  }

  ghost predicate EdgeValid(e: PayloadEdge, ids: set<Id>) {
    e.id != NIL && e.from in ids && e.to in ids && ParseLabel(e.edgeLabel).Some?
  }

  ghost predicate EdgesValid(edges: seq<PayloadEdge>, ids: set<Id>) {
    && (forall e :: e in edges ==> EdgeValid(e, ids))
    && (forall i, j :: 0 <= i < j < |edges| ==> edges[i].id != edges[j].id)
    && (forall i, j :: 0 <= i < j < |edges| ==> !SamePayloadSlot(edges[i], edges[j]))
  }

  predicate SamePayloadSlot(d: PayloadEdge, e: PayloadEdge) {
    d.from == e.from && ParseLabel(d.edgeLabel) == ParseLabel(e.edgeLabel)
  }

  function PayloadIds(nodes: seq<PayloadNode>): set<Id> {
    set n | n in nodes :: n.id
  }

  function EdgeIds(edges: seq<PayloadEdge>): set<Id> {
    set e | e in edges :: e.id
  }

  ghost predicate PayloadValid(p: Payload, cfg: ConfigCheck) {
    NodesValid(p.nodes, cfg) && EdgesValid(p.edges, PayloadIds(p.nodes))
  }

  /** UpsertNodes: insert or overwrite, in payload order. */
  function UpsertNodes(g: Graph, nodes: seq<PayloadNode>): Graph
    requires forall n :: n in nodes ==> ParseType(n.nodeType).Some?
  {
    if nodes == [] then g
    else
      var n := nodes[|nodes| - 1];
      var before := UpsertNodes(g, nodes[..|nodes| - 1]);
      before.(nodes := before.nodes[n.id := ToNodeRow(n)])
  }

  /** DeleteNodesNotIn: edges follow by cascade; a row that a run or job references blocks the statement. */
  function DeleteNodesNotIn(g: Graph, ids: set<Id>, referenced: set<Id>): Result<Graph, DbError> {
    if exists n :: n in referenced && n in g.nodes && n !in ids then Err(ForeignKey)
    else
      var kept := map n | n in g.nodes && n in ids :: g.nodes[n];
      Ok(Graph(kept, map e | e in g.edges && g.edges[e].from in kept && g.edges[e].to in kept :: g.edges[e]))
  }

  /** UpsertEdges: the endpoint keys of the written rows are checked at once. */
  function UpsertEdges(g: Graph, edges: seq<PayloadEdge>): Result<Graph, DbError>
    requires forall e :: e in edges ==> ParseLabel(e.edgeLabel).Some?
  {
    if edges == [] then Ok(g)
    else
      var e := edges[|edges| - 1];
      var before := UpsertEdges(g, edges[..|edges| - 1]);
      if before.Err? then before
      else if e.from !in g.nodes || e.to !in g.nodes then Err(ForeignKey)
      else Ok(before.value.(edges := before.value.edges[e.id := ToEdgeRow(e)]))
  }

  function DeleteEdgesNotIn(g: Graph, ids: set<Id>): Graph {
    g.(edges := map e | e in g.edges && e in ids :: g.edges[e])
  }

  /** The four statements of persistGraph, then the constraints deferred to commit. */
  ghost function PersistGraph(g: Graph, p: Payload, referenced: set<Id>): Result<Graph, DbError>
    requires forall n :: n in p.nodes ==> ParseType(n.nodeType).Some?
    requires forall e :: e in p.edges ==> ParseLabel(e.edgeLabel).Some?
  {
    var g1 := UpsertNodes(g, p.nodes);
    var r2 := DeleteNodesNotIn(g1, PayloadIds(p.nodes), referenced);
    if r2.Err? then r2 else
    var r3 := UpsertEdges(r2.value, p.edges);
    if r3.Err? then r3 else
    var g4 := DeleteEdgesNotIn(r3.value, EdgeIds(p.edges));
    if KeysUnique(g4) then Ok(g4) else Err(UniqueKey)
  }

  // ---------------------------------------------------------------- workflows and versions

  ghost function VersionNumbers(db: Db, w: Id): set<nat> {
    set v | v in db.versions && db.versions[v].workflow == w :: db.versions[v].number
  }

  ghost function MaxOf(s: set<nat>): nat
    ensures forall x :: x in s ==> x <= MaxOf(s)
    ensures MaxOf(s) == 0 || MaxOf(s) in s
  {
    if s == {} then 0
    else
      var x :| x in s;
      var m := MaxOf(s - {x});
      assert s == s - {x} + {x};
      if x > m then x else m
  }

  /** CreateWorkflowVersion: highest number plus one; at most one draft per workflow. */
  ghost function CreateWorkflowVersion(db: Db, w: Id, v: Id): DbResult {
    if w !in db.workflows then Err(ForeignKey)
    else if exists u :: u in db.versions && db.versions[u].workflow == w && !db.versions[u].published then Err(UniqueKey)
    else Ok(db.(versions := db.versions[v := Version(w, MaxOf(VersionNumbers(db, w)) + 1, false, EMPTY_GRAPH)]))
  }

  ghost function CreateWorkflow(db: Db, w: Id, v: Id): Db {
    db.(workflows := db.workflows[w := Workflow(Draft, v, None)],
        versions := db.versions[v := Version(w, 1, false, EMPTY_GRAPH)])
  }

  predicate NeedsDraftFork(wf: Workflow) {
    wf.live.Some? && wf.live.value == wf.latest
  }

  /** Nodes of a version that a run checkpoint or an outbox row references. */
  function ReferencedNodes(db: Db, v: Id): set<Id> {
    (set r | r in db.runs && db.runs[r].version == v :: db.runs[r].current)
    + (set j | j in db.outbox && db.outbox[j].version == v :: db.outbox[j].node)
  }

  ghost predicate Editable(db: Db, w: Id) {
    w in db.workflows && db.workflows[w].status != Archived
  }

  /** PUT: validate, lock the head, fork it when it is live, sync the graph, move the head pointer. */
  ghost function Save(db: Db, cfg: ConfigCheck, w: Id, p: Payload, newId: Id): DbResult {
    if !Editable(db, w) then Err(NotFound)
    else if !PayloadValid(p, cfg) then Err(InvalidGraph)
    else
      var wf := db.workflows[w];
      var fork := NeedsDraftFork(wf);
      var forked := if fork then CreateWorkflowVersion(db, w, newId) else Ok(db);
      if forked.Err? then forked else
      var v := if fork then newId else wf.latest;
      if v !in forked.value.versions then Err(ForeignKey) else
      var ver := forked.value.versions[v];
      var g := PersistGraph(ver.graph, p, ReferencedNodes(db, v));
      if g.Err? then Err(g.error)
      else Ok(forked.value.(
                versions := forked.value.versions[v := ver.(graph := g.value)],
                workflows := db.workflows[w := wf.(latest := v)]))
  }

  /** POST publish: idempotent on a live head, otherwise validate and stamp the draft head. */
  ghost function Publish(db: Db, cfg: ConfigCheck, w: Id): DbResult {
    if !Editable(db, w) || db.workflows[w].latest !in db.versions then Err(NotFound)
    else
      var wf := db.workflows[w];
      var head := db.versions[wf.latest];
      if head.published then (if wf.live.None? then Err(Internal) else Ok(db))
      else if exists n :: n in head.graph.nodes && !cfg(head.graph.nodes[n].nodeType, head.graph.nodes[n].config)
      then Err(InvalidGraph)
      else if !Publishable(head.graph) then Err(InvalidGraph)
      else Ok(db.(versions := db.versions[wf.latest := head.(published := true)],
                  workflows := db.workflows[w := wf.(status := Published, live := Some(wf.latest))]))
  }

  ghost function Archive(db: Db, w: Id): DbResult {
    if w !in db.workflows then Err(NotFound)
    else Ok(db.(workflows := db.workflows[w := db.workflows[w].(status := Archived)]))
  }

  // ---------------------------------------------------------------- runs and the outbox

  predicate Active(s: RunStatus) {
    s == Pending || s == Running
  }

  predicate Pausable(s: RunStatus) {
    s == Pending || s == Running || s == Paused
  }

  predicate Stoppable(s: RunStatus) {
    Pausable(s) || s == Cancelled
  }

  predicate HasNode(db: Db, v: Id, n: Id) {
    v in db.versions && n in db.versions[v].graph.nodes
  }

  /** InsertRunNodeJobOutbox with its two composite foreign keys. */
  function InsertJob(db: Db, j: Id, run: Id, version: Id, node: Id): DbResult {
    if run !in db.runs || db.runs[run].version != version || !HasNode(db, version, node) then Err(ForeignKey)
    else Ok(db.(outbox := db.outbox[j := Job(run, version, node, 1)]))
  }

  function StartOutput(payload: Json): Json {
    Obj(map["data" := Obj(map["payload" := payload])])
  }

  /** Start: pin the live version, insert the run at its Start node together with the first job. */
  ghost function StartRun(db: Db, w: Id, r: Id, j: Id, payload: Json): DbResult {
    if w !in db.workflows || db.workflows[w].status != Published then Err(NotFound)
    else if db.workflows[w].live.None? then Err(MissingVersion)
    else
      var v := db.workflows[w].live.value;
      if v !in db.versions then Err(ForeignKey)
      else if Starts(db.versions[v].graph) == {} then Err(MissingStart)
      else
        var s :| s in Starts(db.versions[v].graph);
        if s == NIL then Err(MissingStart)
        else InsertJob(db.(runs := db.runs[r := Run(w, v, Pending, s, 1, StartOutput(payload))]), j, r, v, s)
  }

  function SetStatus(db: Db, r: Id, s: RunStatus): Db
    requires r in db.runs
  {
    db.(runs := db.runs[r := db.runs[r].(status := s)])
  }

  ghost function Pause(db: Db, r: Id): DbResult {
    if r !in db.runs then Err(NotFound)
    else if Pausable(db.runs[r].status) then Ok(SetStatus(db, r, Paused))
    else Err(Conflict)
  }

  ghost function Resume(db: Db, r: Id, j: Id): DbResult {
    if r !in db.runs then Err(NotFound)
    else if db.runs[r].status == Paused then
      InsertJob(SetStatus(db, r, Running), j, r, db.runs[r].version, db.runs[r].current)
    else Err(Conflict)
  }

  ghost function Stop(db: Db, r: Id): DbResult {
    if r !in db.runs then Err(NotFound)
    else if Stoppable(db.runs[r].status) then Ok(SetStatus(db, r, Cancelled))
    else Err(Conflict)
  }

  ghost function Retry(db: Db, r: Id, j: Id): DbResult {
    if r !in db.runs then Err(NotFound)
    else if db.runs[r].status == Failed then
      InsertJob(db.(runs := db.runs[r := db.runs[r].(status := Running, attempt := 1)]), j, r, db.runs[r].version, db.runs[r].current)
    else Err(Conflict)
  }

  /** What an executor hands back on success: an output with the label to follow, or the final output. */
  datatype ExecResult = Next(output: Json, edgeLabel: Label) | Finished(output: Json)

  /** AdvanceWorkflowRun: unguarded; the checkpoint foreign key is the only check. */
  ghost function AdvanceRun(db: Db, r: Id, node: Id, output: Json): DbResult {
    if r !in db.runs then Ok(db)
    else if !HasNode(db, db.runs[r].version, node) then Err(ForeignKey)
    else Ok(db.(runs := db.runs[r := db.runs[r].(status := Running, current := node, attempt := 1, output := output)]))
  }

  function CompleteRun(db: Db, r: Id, output: Json): Db {
    if r !in db.runs then db
    else db.(runs := db.runs[r := db.runs[r].(status := Completed, output := output)])
  }

  function FailedRun(run: Run): Run {
    run.(status := Failed, attempt := run.attempt + 1)
  }

  function FailRun(db: Db, r: Id): Db {
    if r !in db.runs then db
    else db.(runs := db.runs[r := FailedRun(db.runs[r])])
  }

  /** persistNodeResult: complete, or route, advance and queue the next job in one transaction. */
  ghost function PersistResult(db: Db, r: Id, version: Id, node: Id, res: ExecResult, j: Id): DbResult {
    match res
    case Finished(output) => Ok(CompleteRun(db, r, output))
    case Next(output, l) =>
      if version !in db.versions then Err(NotFound) else
      var next := NextNode(db.versions[version].graph, node, l);
      if next.None? then Err(NotFound) else
      var advanced := AdvanceRun(db, r, next.value, output);
      if advanced.Err? then advanced
      else InsertJob(advanced.value, j, r, version, next.value)
  }
}
