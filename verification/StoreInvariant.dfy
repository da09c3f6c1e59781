/** What every transaction keeps: version history, immutability of published versions, pinned runs. */
module StoreInvariant {
  import opened Basics
  import opened Tables
  import opened SaveTheory

  ghost predicate WorkflowOk(db: Db, w: Id)
    requires w in db.workflows
  {
    var wf := db.workflows[w];
    && wf.latest in db.versions
    && db.versions[wf.latest].workflow == w
    && (wf.live.Some? ==> wf.live.value in db.versions && db.versions[wf.live.value].workflow == w)
    // The head is published exactly when both pointers are equal.
    && (db.versions[wf.latest].published <==> wf.live == Some(wf.latest))
    && (wf.status == Draft ==> wf.live.None?)
    && (wf.status == Published ==> wf.live.Some?)
  }

  ghost predicate VersionOk(db: Db, v: Id)
    requires v in db.versions
  {
    var ver := db.versions[v];
    && ver.workflow in db.workflows
    && db.workflows[ver.workflow].latest in db.versions
    && 1 <= ver.number <= db.versions[db.workflows[ver.workflow].latest].number
    // Only the head may be a draft, and new runs pin the newest published version.
    && (v != db.workflows[ver.workflow].latest ==> ver.published)
    && (ver.published ==> LiveCovers(db, db.workflows[ver.workflow].live, ver.number))
  }

  ghost predicate LiveCovers(db: Db, live: Option<Id>, number: nat) {
    live.Some? && live.value in db.versions && db.versions[live.value].published
    && number <= db.versions[live.value].number
  }

  ghost predicate ContentOk(ver: Version) {
    GraphOk(ver.graph) && (ver.published ==> Publishable(ver.graph))
  }

  ghost predicate HasNumber(db: Db, w: Id, k: nat) {
    exists v :: v in db.versions && db.versions[v].workflow == w && db.versions[v].number == k
  }

  ghost predicate WorkflowsOk(db: Db) {
    forall w :: w in db.workflows ==> WorkflowOk(db, w)
  }

  ghost predicate VersionsOk(db: Db) {
    forall v :: v in db.versions ==> VersionOk(db, v)
  }

  ghost predicate ContentsOk(db: Db) {
    forall v :: v in db.versions ==> ContentOk(db.versions[v])
  }

  predicate SameNumber(a: Version, b: Version) {
    a.workflow == b.workflow && a.number == b.number
  }

  /** Version numbers of one workflow do not repeat ... */
  ghost predicate NumbersDistinct(db: Db) {
    forall u, v :: u in db.versions && v in db.versions && SameNumber(db.versions[u], db.versions[v]) ==> u == v
  }

  /** ... and leave no gap below the head's. */
  ghost predicate NumbersComplete(db: Db)
    requires WorkflowsOk(db)
  {
    forall w, k :: w in db.workflows && 1 <= k <= db.versions[db.workflows[w].latest].number ==> HasNumber(db, w, k)
  }

  ghost predicate StoreInv(db: Db) {
    WorkflowsOk(db) && VersionsOk(db) && ContentsOk(db) && NumbersDistinct(db) && NumbersComplete(db)
  }

  ghost predicate RunPinned(db: Db, run: Run) {
    && run.version in db.versions
    && db.versions[run.version].published
    && db.versions[run.version].workflow == run.workflow
    && run.current in db.versions[run.version].graph.nodes
  }

  ghost predicate JobPinned(db: Db, job: Job) {
    && job.run in db.runs
    && db.runs[job.run].version == job.version
    && HasNode(db, job.version, job.node)
  }

  /** Every run and outbox row refers to a published version and a node of it. */
  ghost predicate Pinned(db: Db) {
    && (forall r :: r in db.runs ==> RunPinned(db, db.runs[r]))
    && (forall j :: j in db.outbox ==> JobPinned(db, db.outbox[j]))
  }

  ghost predicate DbInv(db: Db) {
    StoreInv(db) && Pinned(db)
  }

  /** Published versions are immutable, row and graph. */
  ghost predicate PublishedFrozen(db: Db, db': Db) {
    forall v :: v in db.versions && db.versions[v].published ==> v in db'.versions && db'.versions[v] == db.versions[v]
  }

  /** What no step ever takes back: published versions, existing runs and the version each is pinned to. */
  ghost predicate Evolves(db: Db, db': Db) {
    PublishedFrozen(db, db') && RunsKept(db, db')
  }

  ghost predicate RunsKept(db: Db, db': Db) {
    forall r :: r in db.runs ==> r in db'.runs && db'.runs[r].version == db.runs[r].version
                                 && db'.runs[r].workflow == db.runs[r].workflow
  }

  /** The database after a transaction: committed or rolled back. */
  function Committed(db: Db, r: DbResult): Db {
    if r.Ok? then r.value else db
  }

  lemma PinsSurvive(db: Db, db': Db)
    requires Pinned(db) && PublishedFrozen(db, db') && db'.runs == db.runs && db'.outbox == db.outbox
    ensures Pinned(db')
  {
    forall j | j in db.outbox ensures JobPinned(db', db.outbox[j]) {
      assert RunPinned(db, db.runs[db.outbox[j].run]);
    }
  }

  // ---------------------------------------------------------------- workflow transactions

  function SetHead(db: Db, w: Id, wf: Workflow, v: Id, ver: Version): Db {
    db.(workflows := db.workflows[w := wf], versions := db.versions[v := ver])
  }

  /** The shape of every workflow transaction: write one workflow row and its head version, which is new,
      or the unpublished head, or the published head left as it is. */
  ghost predicate HeadUpdate(db: Db, w: Id, wf: Workflow, v: Id, ver: Version) {
    && ver.workflow == w && wf.latest == v
    && ContentOk(ver)
    && (ver.published <==> wf.live == Some(v))
    && (wf.status == Draft ==> wf.live.None?)
    && (wf.status == Published ==> wf.live.Some?)
    && if w !in db.workflows then
         v !in db.versions && ver.number == 1 && wf.live.None?
       else
         && db.workflows[w].latest in db.versions
         && (!ver.published ==> wf.live == db.workflows[w].live)
         && var head := db.versions[db.workflows[w].latest];
            if v == db.workflows[w].latest then ver.number == head.number && (head.published ==> ver == head)
            else v !in db.versions && head.published && ver.number == head.number + 1
  }

  lemma HeadUpdateWorkflows(db: Db, w: Id, wf: Workflow, v: Id, ver: Version)
    requires WorkflowsOk(db) && VersionsOk(db) && HeadUpdate(db, w, wf, v, ver)
    ensures WorkflowsOk(SetHead(db, w, wf, v, ver))
  {
    var db' := SetHead(db, w, wf, v, ver);
    forall x | x in db'.workflows ensures WorkflowOk(db', x) {
      if x in db.workflows {
        assert WorkflowOk(db, x);
      }
    }
  }

  lemma HeadUpdateVersions(db: Db, w: Id, wf: Workflow, v: Id, ver: Version)
    requires WorkflowsOk(db) && VersionsOk(db) && HeadUpdate(db, w, wf, v, ver)
    ensures VersionsOk(SetHead(db, w, wf, v, ver))
  {
    var db' := SetHead(db, w, wf, v, ver);
    forall x | x in db'.versions ensures VersionOk(db', x) {
      if x in db.versions {
        assert VersionOk(db, x) && WorkflowOk(db, db.versions[x].workflow);
      }
    }
  }

  lemma NewNumberDiffers(db: Db, w: Id, wf: Workflow, v: Id, ver: Version, o: Id)
    requires WorkflowsOk(db) && VersionsOk(db) && NumbersDistinct(db) && HeadUpdate(db, w, wf, v, ver)
    requires o in db.versions && o != v
    ensures !SameNumber(db.versions[o], ver)
  {
    assert VersionOk(db, o);
    if w in db.workflows {
      assert WorkflowOk(db, w);
      assert v in db.versions ==> !SameNumber(db.versions[o], db.versions[v]);
    }
  }

  lemma HeadUpdateNumbers(db: Db, w: Id, wf: Workflow, v: Id, ver: Version)
    requires WorkflowsOk(db) && VersionsOk(db) && NumbersDistinct(db) && HeadUpdate(db, w, wf, v, ver)
    ensures NumbersDistinct(SetHead(db, w, wf, v, ver))
  {
    var db' := SetHead(db, w, wf, v, ver);
    forall x, y | x in db'.versions && y in db'.versions && SameNumber(db'.versions[x], db'.versions[y]) ensures x == y {
      if x != v {
        NewNumberDiffers(db, w, wf, v, ver, x);
      }
      if y != v {
        NewNumberDiffers(db, w, wf, v, ver, y);
      }
    }
  }

  lemma HeadUpdateComplete(db: Db, w: Id, wf: Workflow, v: Id, ver: Version)
    requires WorkflowsOk(db) && NumbersComplete(db) && HeadUpdate(db, w, wf, v, ver)
    requires WorkflowsOk(SetHead(db, w, wf, v, ver))
    ensures NumbersComplete(SetHead(db, w, wf, v, ver))
  {
    var db' := SetHead(db, w, wf, v, ver);
    forall x, k | x in db'.workflows && 1 <= k <= db'.versions[db'.workflows[x].latest].number ensures HasNumber(db', x, k) {
      if x == w && k == ver.number {
        assert v in db'.versions;
      } else {
        assert WorkflowOk(db, x) && WorkflowOk(db', x) && HasNumber(db, x, k);
        var u :| u in db.versions && db.versions[u].workflow == x && db.versions[u].number == k;
        assert u in db'.versions;
      }
    }
  }

  lemma HeadUpdateFreezes(db: Db, w: Id, wf: Workflow, v: Id, ver: Version)
    requires ContentsOk(db) && HeadUpdate(db, w, wf, v, ver)
    ensures ContentsOk(SetHead(db, w, wf, v, ver)) && PublishedFrozen(db, SetHead(db, w, wf, v, ver))
  {}

  lemma HeadUpdateKeeps(db: Db, w: Id, wf: Workflow, v: Id, ver: Version, db': Db)
    requires DbInv(db) && HeadUpdate(db, w, wf, v, ver) && db' == SetHead(db, w, wf, v, ver)
    ensures DbInv(db') && Evolves(db, db') && db'.runs == db.runs && db'.outbox == db.outbox
  {
    HeadUpdateWorkflows(db, w, wf, v, ver);
    HeadUpdateVersions(db, w, wf, v, ver);
    HeadUpdateNumbers(db, w, wf, v, ver);
    HeadUpdateComplete(db, w, wf, v, ver);
    HeadUpdateFreezes(db, w, wf, v, ver);
    PinsSurvive(db, db');
  }

  lemma NewWorkflowIsHeadUpdate(db: Db, w: Id, v: Id)
    requires w !in db.workflows && v !in db.versions
    ensures HeadUpdate(db, w, Workflow(Draft, v, None), v, Version(w, 1, false, EMPTY_GRAPH))
  {}

  lemma CreateKeeps(db: Db, w: Id, v: Id, db': Db)
    requires DbInv(db) && w !in db.workflows && v !in db.versions && db' == CreateWorkflow(db, w, v)
    ensures DbInv(db') && Evolves(db, db') && db'.runs == db.runs && db'.outbox == db.outbox
  {
    NewWorkflowIsHeadUpdate(db, w, v);
    HeadUpdateKeeps(db, w, Workflow(Draft, v, None), v, Version(w, 1, false, EMPTY_GRAPH), db');
  }

  lemma ArchiveKeeps(db: Db, w: Id, db': Db)
    requires DbInv(db) && db' == Committed(db, Archive(db, w))
    ensures DbInv(db') && Evolves(db, db') && db'.runs == db.runs && db'.outbox == db.outbox
    ensures db'.versions == db.versions
  {
    if w in db.workflows {
      assert WorkflowOk(db, w);
      var wf := db.workflows[w].(status := Archived);
      SameEntry(db.versions, wf.latest);
      HeadUpdateKeeps(db, w, wf, wf.latest, db.versions[wf.latest], db');
    }
  }

  lemma PublishKeeps(db: Db, cfg: ConfigCheck, w: Id, db': Db)
    requires DbInv(db) && db' == Committed(db, Publish(db, cfg, w))
    ensures DbInv(db') && Evolves(db, db') && db'.runs == db.runs && db'.outbox == db.outbox
  {
    if Publish(db, cfg, w).Ok? && !db.versions[db.workflows[w].latest].published {
      var wf := db.workflows[w];
      var head := db.versions[wf.latest];
      assert WorkflowOk(db, w);
      HeadUpdateKeeps(db, w, wf.(status := Published, live := Some(wf.latest)), wf.latest, head.(published := true), db');
    }
  }

  /** The head carries the highest number, so the fork gets the next one. */
  lemma HeadIsNewest(db: Db, w: Id)
    requires WorkflowsOk(db) && VersionsOk(db) && w in db.workflows
    ensures MaxOf(VersionNumbers(db, w)) == db.versions[db.workflows[w].latest].number
  {
    assert WorkflowOk(db, w);
    var head := db.versions[db.workflows[w].latest];
    assert head.number in VersionNumbers(db, w);
    forall x | x in VersionNumbers(db, w) ensures x <= head.number {
      var v :| v in db.versions && db.versions[v].workflow == w && db.versions[v].number == x;
      assert VersionOk(db, v);
    }
  }

  /** The shape of a history: versions are numbered from 1 to the head's number without gap or repetition, and every
      version but the head is published. */
  lemma NumbersRunToHead(db: Db, w: Id)
    requires StoreInv(db) && w in db.workflows
    ensures db.workflows[w].latest in db.versions
    ensures forall k :: k in VersionNumbers(db, w) <==> 1 <= k <= db.versions[db.workflows[w].latest].number
    ensures forall u, v :: u in db.versions && v in db.versions && SameNumber(db.versions[u], db.versions[v]) ==> u == v
    ensures forall v :: v in db.versions && db.versions[v].workflow == w && v != db.workflows[w].latest ==> db.versions[v].published
  {
    assert WorkflowOk(db, w);
    NumbersAreComplete(db, w);
    forall v | v in db.versions && db.versions[v].workflow == w && v != db.workflows[w].latest ensures db.versions[v].published {
      assert VersionOk(db, v);
    }
  }

  lemma NumbersAreComplete(db: Db, w: Id)
    requires WorkflowsOk(db) && VersionsOk(db) && NumbersComplete(db) && w in db.workflows && db.workflows[w].latest in db.versions
    ensures forall k :: k in VersionNumbers(db, w) <==> 1 <= k <= db.versions[db.workflows[w].latest].number
  {
    var head := db.versions[db.workflows[w].latest];
    forall k | k in VersionNumbers(db, w) ensures 1 <= k <= head.number {
      var v :| v in db.versions && db.versions[v].workflow == w && db.versions[v].number == k;
      assert VersionOk(db, v);
    }
    forall k: nat | 1 <= k <= head.number ensures k in VersionNumbers(db, w) {
      assert HasNumber(db, w, k);
    }
  }

  /** Nothing references a draft, so the node delete of a save is never blocked. */
  lemma DraftUnreferenced(db: Db, v: Id)
    requires Pinned(db)
    requires v in db.versions ==> !db.versions[v].published
    ensures ReferencedNodes(db, v) == {}
  {
    forall r | r in db.runs ensures db.runs[r].version != v {
      assert RunPinned(db, db.runs[r]);
    }
    forall j | j in db.outbox ensures db.outbox[j].version != v {
      assert JobPinned(db, db.outbox[j]) && RunPinned(db, db.runs[db.outbox[j].run]);
    }
  }

  /** The version a save writes to: a fork when the head is published, the draft head otherwise. */
  ghost function SaveTarget(db: Db, w: Id, newId: Id): Id
    requires w in db.workflows && db.workflows[w].latest in db.versions
  {
    if db.versions[db.workflows[w].latest].published then newId else db.workflows[w].latest
  }

  /** The database after a save: only the workflow's head pointer and the target version are written. */
  ghost function Saved(db: Db, w: Id, newId: Id, g: Graph): Db
    requires w in db.workflows && db.workflows[w].latest in db.versions
  {
    var head := db.versions[db.workflows[w].latest];
    var v := SaveTarget(db, w, newId);
    SetHead(db, w, db.workflows[w].(latest := v), v, Version(w, if head.published then head.number + 1 else head.number, false, g))
  }

  lemma ForkSucceeds(db: Db, w: Id, newId: Id)
    requires WorkflowsOk(db) && VersionsOk(db) && w in db.workflows && db.versions[db.workflows[w].latest].published
    ensures CreateWorkflowVersion(db, w, newId) == Ok(db.(versions := db.versions[newId :=
              Version(w, db.versions[db.workflows[w].latest].number + 1, false, EMPTY_GRAPH)]))
  {
    HeadIsNewest(db, w);
    forall u | u in db.versions && db.versions[u].workflow == w ensures db.versions[u].published {
      assert VersionOk(db, u);
    }
  }

  lemma SaveWrites(db: Db, cfg: ConfigCheck, w: Id, p: Payload, newId: Id) returns (g: Graph)
    requires WorkflowsOk(db) && VersionsOk(db) && Pinned(db)
    requires Editable(db, w) && PayloadValid(p, cfg) && newId !in db.versions
    ensures HoldsExactly(g, p, cfg) && GraphOk(g)
    ensures Save(db, cfg, w, p, newId) == Ok(Saved(db, w, newId, g))
  {
    assert WorkflowOk(db, w);
    var head := db.versions[db.workflows[w].latest];
    var before := if head.published then EMPTY_GRAPH else head.graph;
    SaveIsExactSync(before, p, cfg, {});
    g := PersistGraph(before, p, {}).value;
    if head.published {
      ForkSucceeds(db, w, newId);
    }
    DraftUnreferenced(db, SaveTarget(db, w, newId));
    SaveUnfolds(db, cfg, w, p, newId, g);
  }

  lemma SaveUnfolds(db: Db, cfg: ConfigCheck, w: Id, p: Payload, newId: Id, g: Graph)
    requires Editable(db, w) && PayloadValid(p, cfg) && newId !in db.versions
    requires db.workflows[w].latest in db.versions
    requires var head := db.versions[db.workflows[w].latest];
             && head.workflow == w
             && NeedsDraftFork(db.workflows[w]) == head.published
             && Ok(g) == PersistGraph(if head.published then EMPTY_GRAPH else head.graph, p, {})
             && (head.published ==> CreateWorkflowVersion(db, w, newId) == Ok(db.(versions := db.versions[newId :=
                                      Version(w, head.number + 1, false, EMPTY_GRAPH)])))
    requires ReferencedNodes(db, SaveTarget(db, w, newId)) == {}
    ensures Save(db, cfg, w, p, newId) == Ok(Saved(db, w, newId, g))
  {
    var head := db.versions[db.workflows[w].latest];
    LastWriteWins(db.versions, newId, Version(w, head.number + 1, false, EMPTY_GRAPH), Version(w, head.number + 1, false, g));
  }

  /** A valid payload on an editable workflow is always saved: no key or uniqueness rule can fail. The head is
      forked exactly when it is published; the target holds exactly the payload; no other version is touched. */
  lemma SaveSucceeds(db: Db, cfg: ConfigCheck, w: Id, p: Payload, newId: Id) returns (g: Graph)
    requires DbInv(db) && newId !in db.versions
    ensures Save(db, cfg, w, p, newId).Ok? <==> Editable(db, w) && PayloadValid(p, cfg)
    ensures Save(db, cfg, w, p, newId).Ok? ==>
              && HoldsExactly(g, p, cfg) && GraphOk(g)
              && db.workflows[w].latest in db.versions
              && Save(db, cfg, w, p, newId) == Ok(Saved(db, w, newId, g))
  {
    g := EMPTY_GRAPH;
    if Editable(db, w) && PayloadValid(p, cfg) {
      assert WorkflowOk(db, w);
      g := SaveWrites(db, cfg, w, p, newId);
    }
  }

  lemma SaveKeeps(db: Db, cfg: ConfigCheck, w: Id, p: Payload, newId: Id, db': Db)
    requires DbInv(db) && newId !in db.versions && db' == Committed(db, Save(db, cfg, w, p, newId))
    ensures DbInv(db') && Evolves(db, db') && db'.runs == db.runs && db'.outbox == db.outbox
  {
    var g := SaveSucceeds(db, cfg, w, p, newId);
    if Save(db, cfg, w, p, newId).Ok? {
      assert WorkflowOk(db, w);
      var v := SaveTarget(db, w, newId);
      HeadUpdateKeeps(db, w, db.workflows[w].(latest := v), v, Saved(db, w, newId, g).versions[v], db');
    }
  }
}
