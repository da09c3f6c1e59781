/** What each request leaves in the tables, row by row and field by field: when it answers ok, what it writes, and that
    nothing else changes. */
module Outcomes {
  import opened Basics
  import opened Tables
  import opened SaveTheory
  import opened StoreInvariant
  import opened Routing
  import opened RunInvariant
  import Conditional

  /** The two tables agree on every key but `k`. */
  ghost predicate SameBut<V>(a: map<Id, V>, b: map<Id, V>, k: Id) {
    forall x :: x != k ==> (x in b <==> x in a) && (x in a ==> b[x] == a[x])
  }

  // ---------------------------------------------------------------- workflows

  /** There is a new draft workflow whose head is a new, empty version 1. */
  ghost predicate WorkflowCreated(db: Db, db': Db, w: Id, v: Id) {
    && SameBut(db.workflows, db'.workflows, w) && SameBut(db.versions, db'.versions, v)
    && w in db'.workflows && db'.workflows[w] == Workflow(Draft, v, None)
    && v in db'.versions && db'.versions[v] == Version(w, 1, false, Graph(map[], map[]))
    && db'.runs == db.runs && db'.outbox == db.outbox
  }

  lemma CreateOutcome(db: Db, w: Id, v: Id, db': Db)
    requires db' == CreateWorkflow(db, w, v)
    ensures WorkflowCreated(db, db', w, v)
  {}

  /** A new version is an empty draft; its number is the first that is above all numbers of the workflow's versions. It is
      refused exactly for an unknown workflow and beside another draft. */
  lemma VersionOutcome(db: Db, w: Id, v: Id, db': Db)
    requires db' == Committed(db, CreateWorkflowVersion(db, w, v))
    ensures CreateWorkflowVersion(db, w, v).Ok? <==>
            w in db.workflows && forall u :: u in db.versions && db.versions[u].workflow == w ==> db.versions[u].published
    ensures CreateWorkflowVersion(db, w, v).Err? ==> db' == db
    ensures CreateWorkflowVersion(db, w, v).Ok? ==>
              && SameBut(db.versions, db'.versions, v)
              && db'.workflows == db.workflows && db'.runs == db.runs && db'.outbox == db.outbox
              && v in db'.versions && db'.versions[v] == Version(w, db'.versions[v].number, false, Graph(map[], map[]))
              && IsNextNumber(db, w, db'.versions[v].number)
  {
    var top := MaxOf(VersionNumbers(db, w));
    forall u | u in db.versions && db.versions[u].workflow == w ensures db.versions[u].number < top + 1 {
      assert db.versions[u].number in VersionNumbers(db, w);
    }
  }

  /** Above every number of the workflow's versions, and not farther than needed. */
  ghost predicate IsNextNumber(db: Db, w: Id, number: nat) {
    && (forall u :: u in db.versions && db.versions[u].workflow == w ==> db.versions[u].number < number)
    && (number == 1 || exists u :: u in db.versions && db.versions[u].workflow == w && db.versions[u].number == number - 1)
  }

  /** What a committed save changes: the head draft, or a new version behind a published head, holds the payload and is
      the head; status and live pointer stay. */
  ghost predicate HeadHolds(db: Db, db': Db, w: Id, p: Payload, newId: Id)
    requires w in db.workflows && db.workflows[w].latest in db.versions
  {
    var wf := db.workflows[w];
    var head := db.versions[wf.latest];
    var v := if head.published then newId else wf.latest;
    && SameBut(db.workflows, db'.workflows, w) && SameBut(db.versions, db'.versions, v)
    && db'.runs == db.runs && db'.outbox == db.outbox
    && w in db'.workflows && db'.workflows[w] == Workflow(wf.status, v, wf.live)
    && v in db'.versions && db'.versions[v].workflow == w && !db'.versions[v].published
    && db'.versions[v].number == (if head.published then head.number + 1 else head.number)
    && HoldsLiterally(db'.versions[v].graph, p)
  }

  lemma HeadIsSaved(db: Db, w: Id, p: Payload, newId: Id, g: Graph, db': Db)
    requires w in db.workflows && db.workflows[w].latest in db.versions && HoldsLiterally(g, p)
    requires db' == Saved(db, w, newId, g)
    ensures HeadHolds(db, db', w, p, newId)
  {}

  /** A save answers ok exactly for a valid payload of a workflow that is not archived, and then does that. */
  lemma SaveOutcome(db: Db, cfg: ConfigCheck, w: Id, p: Payload, newId: Id, db': Db)
    requires DbInv(db) && newId !in db.versions && db' == Committed(db, Save(db, cfg, w, p, newId))
    ensures w in db.workflows ==> db.workflows[w].latest in db.versions
    ensures Save(db, cfg, w, p, newId).Ok? <==>
            w in db.workflows && db.workflows[w].status != Archived && PayloadValid(p, cfg)
    ensures Save(db, cfg, w, p, newId).Ok? ==> HeadHolds(db, db', w, p, newId)
    ensures Save(db, cfg, w, p, newId).Err? ==> db' == db
  {
    assert w in db.workflows ==> WorkflowOk(db, w);
    var g := SaveSucceeds(db, cfg, w, p, newId);
    if Save(db, cfg, w, p, newId).Ok? {
      ExactlyIsLiterally(g, p, cfg);
      HeadIsSaved(db, w, p, newId, g, db');
    }
  }

  /** A version that can go live: its configs fit and its graph is publishable. */
  ghost predicate CanGoLive(g: Graph, cfg: ConfigCheck) {
    Publishable(g) && forall n :: n in g.nodes ==> cfg(g.nodes[n].nodeType, g.nodes[n].config)
  }

  /** The draft head was stamped and went live. */
  ghost predicate HeadWentLive(db: Db, db': Db, w: Id)
    requires w in db.workflows && db.workflows[w].latest in db.versions
  {
    var v := db.workflows[w].latest;
    && SameBut(db.workflows, db'.workflows, w) && SameBut(db.versions, db'.versions, v)
    && db'.runs == db.runs && db'.outbox == db.outbox
    && w in db'.workflows && db'.workflows[w] == Workflow(Published, v, Some(v))
    && v in db'.versions && db'.versions[v] == Version(w, db.versions[v].number, true, db.versions[v].graph)
  }

  lemma PublishUnfolds(db: Db, cfg: ConfigCheck, w: Id, db': Db)
    requires db' == Committed(db, Publish(db, cfg, w)) && w in db.workflows && db.workflows[w].latest in db.versions
    requires db.versions[db.workflows[w].latest].workflow == w
    requires db.versions[db.workflows[w].latest].published ==> db.workflows[w].live.Some?
    ensures var head := db.versions[db.workflows[w].latest];
            && (Publish(db, cfg, w).Ok? <==> db.workflows[w].status != Archived && (head.published || CanGoLive(head.graph, cfg)))
            && (Publish(db, cfg, w).Err? || head.published ==> db' == db)
            && (Publish(db, cfg, w).Ok? && !head.published ==> HeadWentLive(db, db', w))
  {}

  /** A publish answers ok exactly for a workflow that is not archived and whose head is published already or can go
      live. On a published head nothing changes; a draft head is stamped and goes live. */
  lemma PublishSucceeds(db: Db, cfg: ConfigCheck, w: Id, db': Db)
    requires DbInv(db) && db' == Committed(db, Publish(db, cfg, w))
    ensures w in db.workflows ==> db.workflows[w].latest in db.versions
    ensures Publish(db, cfg, w).Ok? <==>
            w in db.workflows && db.workflows[w].status != Archived
            && (db.versions[db.workflows[w].latest].published || CanGoLive(db.versions[db.workflows[w].latest].graph, cfg))
    ensures Publish(db, cfg, w).Err? || db.versions[db.workflows[w].latest].published ==> db' == db
    ensures Publish(db, cfg, w).Ok? && !db.versions[db.workflows[w].latest].published ==> HeadWentLive(db, db', w)
  {
    if w in db.workflows {
      assert WorkflowOk(db, w);
      PublishUnfolds(db, cfg, w, db');
    }
  }

  /** The workflow is archived, its pointers are what they were, and nothing else changed. */
  ghost predicate WorkflowArchived(db: Db, db': Db, w: Id)
    requires w in db.workflows
  {
    && SameBut(db.workflows, db'.workflows, w) && w in db'.workflows
    && db'.workflows[w] == Workflow(Archived, db.workflows[w].latest, db.workflows[w].live)
    && db'.versions == db.versions && db'.runs == db.runs && db'.outbox == db.outbox
  }

  /** Archiving answers ok exactly for an existing workflow. */
  lemma ArchiveOutcome(db: Db, w: Id, db': Db)
    requires db' == Committed(db, Archive(db, w))
    ensures Archive(db, w).Ok? <==> w in db.workflows
    ensures if w in db.workflows then WorkflowArchived(db, db', w) else db' == db
  {}

  /** An archived workflow can no longer be saved, published or started. */
  lemma ArchivedIsClosed(db: Db, cfg: ConfigCheck, w: Id, p: Payload, newId: Id, r: Id, j: Id, payload: Json)
    requires DbInv(db) && newId !in db.versions && r !in db.runs && w in db.workflows && db.workflows[w].status == Archived
    ensures Committed(db, Save(db, cfg, w, p, newId)) == db && Save(db, cfg, w, p, newId).Err?
    ensures Committed(db, Publish(db, cfg, w)) == db && Publish(db, cfg, w).Err?
    ensures Committed(db, StartRun(db, w, r, j, payload)) == db && StartRun(db, w, r, j, payload).Err?
  {
    SaveOutcome(db, cfg, w, p, newId, Committed(db, Save(db, cfg, w, p, newId)));
    PublishSucceeds(db, cfg, w, Committed(db, Publish(db, cfg, w)));
    var run := StartKeeps(db, w, r, j, payload, Committed(db, StartRun(db, w, r, j, payload)));
  }

  // ---------------------------------------------------------------- runs

  /** The document {"data": {"payload": payload}}, and nothing more. */
  predicate Carries(output: Json, payload: Json) {
    && output.Obj? && output.fields.Keys == {"data"}
    && output.fields["data"].Obj? && output.fields["data"].fields.Keys == {"payload"}
    && output.fields["data"].fields["payload"] == payload
  }

  lemma StartOutputCarries(payload: Json)
    ensures Carries(StartOutput(payload), payload)
  {}

  /** A condition finds the payload of such a document at the path data.payload. */
  lemma PayloadIsFound(output: Json, payload: Json)
    requires Carries(output, payload)
    ensures Conditional.Resolve(output, ["data", "payload"]) == Some(payload)
  {
    Conditional.ResolveTwo(output, "data", "payload");
  }

  /** A start answers ok exactly for a published workflow; then there is one run more, pending at the only Start node of
      the live version with the wrapped payload as its first input, and one row more that brings it there. */
  ghost predicate StartLeaves(db: Db, db': Db, w: Id, r: Id, j: Id, payload: Json, ok: bool) {
    && (ok <==> w in db.workflows && db.workflows[w].status == Published)
    && (!ok ==> db' == db)
    && (ok ==>
          && db'.workflows == db.workflows && db'.versions == db.versions
          && SameBut(db.runs, db'.runs, r) && SameBut(db.outbox, db'.outbox, j)
          && r in db'.runs && j in db'.outbox
          && var run := db'.runs[r];
             && run.workflow == w && run.status == Pending && run.attempt == 1 && Carries(run.output, payload)
             && db.workflows[w].live == Some(run.version) && run.version in db.versions
             && IsOnlyStart(db.versions[run.version].graph, run.current)
             && db'.outbox[j] == Job(r, run.version, run.current, 1))
  }

  ghost predicate IsOnlyStart(g: Graph, n: Id) {
    n in g.nodes && forall x :: x in g.nodes ==> (g.nodes[x].nodeType == Start <==> x == n)
  }

  lemma OnlyStart(g: Graph, n: Id)
    requires Starts(g) == {n}
    ensures IsOnlyStart(g, n)
  {
    assert n in Starts(g);
    forall x | x in g.nodes ensures g.nodes[x].nodeType == Start <==> x == n {
      assert x in Starts(g) <==> x == n;
    }
  }

  lemma StartedIs(db: Db, w: Id, r: Id, j: Id, payload: Json, run: Run, db': Db)
    requires w in db.workflows && db.workflows[w].status == Published && StartOf(db, w, run.version, run.current)
    requires run == Run(w, run.version, Pending, run.current, 1, StartOutput(payload)) && db' == WithRunAndJob(db, r, run, j)
    ensures StartLeaves(db, db', w, r, j, payload, true)
  {
    WithRunAndJobIs(db, r, run, j, db');
    OnlyStart(db.versions[run.version].graph, run.current);
    StartOutputCarries(payload);
  }

  lemma StartOutcome(db: Db, w: Id, r: Id, j: Id, payload: Json, db': Db)
    requires DbInv(db) && r !in db.runs && db' == Committed(db, StartRun(db, w, r, j, payload))
    ensures StartLeaves(db, db', w, r, j, payload, StartRun(db, w, r, j, payload).Ok?)
  {
    var run := StartKeeps(db, w, r, j, payload, db');
    if StartRun(db, w, r, j, payload).Ok? {
      StartedIs(db, w, r, j, payload, run, db');
    }
  }

  /** A pause answers ok exactly from pending, running and paused. */
  lemma PauseOutcome(db: Db, r: Id, db': Db)
    requires db' == Committed(db, Pause(db, r))
    ensures r !in db.runs ==> Pause(db, r) == Err(NotFound)
    ensures r in db.runs ==>
              var run := db.runs[r];
              if run.status == Pending || run.status == Running || run.status == Paused then
                Pause(db, r).Ok? && r in db'.runs
                && db'.runs[r] == Run(run.workflow, run.version, Paused, run.current, run.attempt, run.output)
              else Pause(db, r) == Err(Conflict)
    ensures Pause(db, r).Err? ==> db' == db
    ensures SameBut(db.runs, db'.runs, r)
    ensures db'.workflows == db.workflows && db'.versions == db.versions && db'.outbox == db.outbox
  {}

  /** A stop answers ok exactly from pending, running, paused and cancelled. */
  lemma StopOutcome(db: Db, r: Id, db': Db)
    requires db' == Committed(db, Stop(db, r))
    ensures r !in db.runs ==> Stop(db, r) == Err(NotFound)
    ensures r in db.runs ==>
              var run := db.runs[r];
              if run.status == Pending || run.status == Running || run.status == Paused || run.status == Cancelled then
                Stop(db, r).Ok? && r in db'.runs
                && db'.runs[r] == Run(run.workflow, run.version, Cancelled, run.current, run.attempt, run.output)
              else Stop(db, r) == Err(Conflict)
    ensures Stop(db, r).Err? ==> db' == db
    ensures SameBut(db.runs, db'.runs, r)
    ensures db'.workflows == db.workflows && db'.versions == db.versions && db'.outbox == db.outbox
  {}

  /** The run row is `run`, the job row `j` brings it to its node, and nothing else changed. */
  ghost predicate Requeued(db: Db, db': Db, r: Id, run: Run, j: Id) {
    && SameBut(db.runs, db'.runs, r) && SameBut(db.outbox, db'.outbox, j)
    && r in db'.runs && db'.runs[r] == run
    && j in db'.outbox && db'.outbox[j] == Job(r, run.version, run.current, 1)
    && db'.workflows == db.workflows && db'.versions == db.versions
  }

  lemma WithRunAndJobIs(db: Db, r: Id, run: Run, j: Id, db': Db)
    requires db' == WithRunAndJob(db, r, run, j)
    ensures Requeued(db, db', r, run, j)
  {}

  lemma ResumeOutcome(db: Db, r: Id, j: Id, db': Db)
    requires DbInv(db) && db' == Committed(db, Resume(db, r, j))
    ensures r !in db.runs ==> Resume(db, r, j) == Err(NotFound)
    ensures r in db.runs ==>
              var run := db.runs[r];
              if run.status == Paused then
                Resume(db, r, j).Ok?
                && Requeued(db, db', r, Run(run.workflow, run.version, Running, run.current, run.attempt, run.output), j)
              else Resume(db, r, j) == Err(Conflict)
    ensures Resume(db, r, j).Err? ==> db' == db
  {
    ResumeKeeps(db, r, j, db');
    if Resume(db, r, j).Ok? {
      WithRunAndJobIs(db, r, db.runs[r].(status := Running), j, db');
    }
  }

  lemma RetryOutcome(db: Db, r: Id, j: Id, db': Db)
    requires DbInv(db) && db' == Committed(db, Retry(db, r, j))
    ensures r !in db.runs ==> Retry(db, r, j) == Err(NotFound)
    ensures r in db.runs ==>
              var run := db.runs[r];
              if run.status == Failed then
                Retry(db, r, j).Ok?
                && Requeued(db, db', r, Run(run.workflow, run.version, Running, run.current, 1, run.output), j)
              else Retry(db, r, j) == Err(Conflict)
    ensures Retry(db, r, j).Err? ==> db' == db
  {
    RetryKeeps(db, r, j, db');
    if Retry(db, r, j).Ok? {
      WithRunAndJobIs(db, r, db.runs[r].(status := Running, attempt := 1), j, db');
    }
  }

  // ---------------------------------------------------------------- the worker's writes

  /** One run row changed, to `run`. */
  ghost predicate RunIsNow(db: Db, db': Db, r: Id, run: Run) {
    && SameBut(db.runs, db'.runs, r) && r in db'.runs && db'.runs[r] == run
    && db'.workflows == db.workflows && db'.versions == db.versions && db'.outbox == db.outbox
  }

  lemma FailOutcome(db: Db, r: Id, db': Db)
    requires r in db.runs && db' == FailRun(db, r)
    ensures var run := db.runs[r];
            RunIsNow(db, db', r, Run(run.workflow, run.version, Failed, run.current, run.attempt + 1, run.output))
  {}

  /** The node a label leads to: the end of an edge that carries it, and none exactly if there is no such edge. */
  lemma NextNodeIs(g: Graph, from: Id, l: Label)
    ensures NextNode(g, from, l).None? <==> forall e :: e in g.edges ==> !(g.edges[e].from == from && g.edges[e].edgeLabel == l)
    ensures NextNode(g, from, l).Some? ==>
              exists e :: e in g.edges && g.edges[e] == EdgeRow(from, NextNode(g, from, l).value, l)
  {}

  /** A result for `node` was saved: a final one completes the run; any other moves it along the one edge with the label
      named, stores the output and queues the job for the node there. */
  ghost predicate ResultIsSaved(db: Db, db': Db, r: Id, node: Id, res: ExecResult, j: Id) {
    && r in db.runs && db.runs[r].version in db.versions
    && var run, g := db.runs[r], db.versions[db.runs[r].version].graph;
       match res
       case Finished(output) => RunIsNow(db, db', r, Run(run.workflow, run.version, Completed, run.current, run.attempt, output))
       case Next(output, l) =>
         exists e :: SoleEdge(g, node, l, e)
                     && Requeued(db, db', r, Run(run.workflow, run.version, Running, g.edges[e].to, 1, output), j)
  }

  lemma NextSaved(db: Db, r: Id, node: Id, res: ExecResult, j: Id, db': Db, g: Graph, e: Id)
    requires r in db.runs && db.runs[r].version in db.versions && g == db.versions[db.runs[r].version].graph && res.Next?
    requires SoleEdge(g, node, res.edgeLabel, e) && NextNode(g, node, res.edgeLabel) == Some(g.edges[e].to)
    requires db' == WithResult(db, r, ResultRun(g, db.runs[r], node, res), res, j)
    ensures ResultIsSaved(db, db', r, node, res, j)
  {
    var run := db.runs[r];
    WithRunAndJobIs(db, r, Run(run.workflow, run.version, Running, g.edges[e].to, 1, res.output), j, db');
  }

  lemma FinalSaved(db: Db, r: Id, node: Id, res: ExecResult, j: Id, db': Db, g: Graph)
    requires r in db.runs && db.runs[r].version in db.versions && res.Finished?
    requires db' == WithResult(db, r, ResultRun(g, db.runs[r], node, res), res, j)
    ensures ResultIsSaved(db, db', r, node, res, j)
  {}

  lemma SavedOutcome(db: Db, r: Id, node: Id, res: ExecResult, j: Id, db': Db)
    requires ContentsOk(db) && Pinned(db) && r in db.runs && HasNode(db, db.runs[r].version, node)
    requires Fits(db.versions[db.runs[r].version].graph.nodes[node].nodeType, res)
    requires db' == Committed(db, PersistResult(db, r, db.runs[r].version, node, res, j))
    ensures PersistResult(db, r, db.runs[r].version, node, res, j).Ok?
    ensures ResultIsSaved(db, db', r, node, res, j)
  {
    var g := PersistSucceeds(db, r, node, res, j);
    if res.Next? {
      PublishedGraph(db, r);
      var e := HitEdge(g, node, res);
      NextSaved(db, r, node, res, j, db', g, e);
    } else {
      FinalSaved(db, r, node, res, j, db', g);
    }
  }
}
