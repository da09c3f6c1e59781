/** The run transactions keep the database invariant, and under it no lookup or foreign key of theirs can fail. */
module RunInvariant {
  import opened Basics
  import opened Tables
  import opened StoreInvariant
  import opened Routing

  lemma RunWriteKeeps(db: Db, r: Id, run: Run, db': Db)
    requires DbInv(db) && RunPinned(db, run) && db' == db.(runs := db.runs[r := run])
    requires r in db.runs ==> SamePin(db.runs[r], run)
    ensures DbInv(db') && Evolves(db, db') && db'.versions == db.versions
  {
    StoreUntouched(db, db');
    RunWritePins(db, r, run, db');
    RunWriteEvolves(db, r, run, db');
  }

  predicate SamePin(a: Run, b: Run) {
    a.version == b.version && a.workflow == b.workflow
  }

  lemma RunWriteEvolves(db: Db, r: Id, run: Run, db': Db)
    requires db'.runs == db.runs[r := run] && db'.versions == db.versions
    requires r in db.runs ==> SamePin(db.runs[r], run)
    ensures Evolves(db, db')
  {}

  lemma RunWritePins(db: Db, r: Id, run: Run, db': Db)
    requires Pinned(db) && RunPinned(db, run) && db' == db.(runs := db.runs[r := run])
    requires r in db.runs ==> db.runs[r].version == run.version
    ensures Pinned(db')
  {
    forall x | x in db'.runs ensures RunPinned(db', db'.runs[x]) {
      assert x in db.runs ==> RunPinned(db, db.runs[x]);
    }
    forall x | x in db'.outbox ensures JobPinned(db', db'.outbox[x]) {
      assert JobPinned(db, db.outbox[x]);
    }
  }

  lemma StoreUntouched(db: Db, db': Db)
    requires StoreInv(db) && db'.workflows == db.workflows && db'.versions == db.versions
    ensures StoreInv(db')
  {
    forall w | w in db'.workflows ensures WorkflowOk(db', w) {
      assert WorkflowOk(db, w);
    }
    forall v | v in db'.versions ensures VersionOk(db', v) {
      assert VersionOk(db, v);
    }
    forall w, k | w in db'.workflows && 1 <= k <= db'.versions[db'.workflows[w].latest].number ensures HasNumber(db', w, k) {
      assert HasNumber(db, w, k);
    }
  }

  /** Any change of the outbox to pinned jobs. */
  lemma OutboxWriteKeeps(db: Db, outbox: map<Id, Job>, db': Db)
    requires DbInv(db) && db' == db.(outbox := outbox)
    requires forall j :: j in outbox ==> JobPinned(db, outbox[j])
    ensures DbInv(db') && Evolves(db, db')
  {
    StoreUntouched(db, db');
    forall x | x in db'.runs ensures RunPinned(db', db'.runs[x]) {
      assert RunPinned(db, db.runs[x]);
    }
    forall x | x in db'.outbox ensures JobPinned(db', db'.outbox[x]) {
      assert JobPinned(db, outbox[x]);
    }
  }

  /** A run row written together with the job for its current node. */
  function WithRunAndJob(db: Db, r: Id, run: Run, j: Id): Db {
    db.(runs := db.runs[r := run], outbox := db.outbox[j := Job(r, run.version, run.current, 1)])
  }

  lemma RunAndJobKeeps(db: Db, r: Id, run: Run, j: Id, db': Db)
    requires DbInv(db) && RunPinned(db, run) && db' == WithRunAndJob(db, r, run, j)
    requires r in db.runs ==> SamePin(db.runs[r], run)
    ensures DbInv(db') && Evolves(db, db') && db'.versions == db.versions
  {
    RunWriteEvolves(db, r, run, db');
    var db1 := db.(runs := db.runs[r := run]);
    RunWriteKeeps(db, r, run, db1);
    forall x | x in db'.outbox ensures JobPinned(db1, db'.outbox[x]) {
      assert x != j ==> JobPinned(db1, db1.outbox[x]);
      assert RunPinned(db1, run);
    }
    OutboxWriteKeeps(db1, db'.outbox, db');
  }

  /** The foreign keys of the job row hold, so the two writes go through. */
  lemma JobInserted(db: Db, r: Id, run: Run, j: Id)
    requires RunPinned(db, run)
    ensures InsertJob(db.(runs := db.runs[r := run]), j, r, run.version, run.current) == Ok(WithRunAndJob(db, r, run, j))
  {}

  lemma StartNodeIsUnique(g: Graph) returns (s: Id)
    requires |Starts(g)| == 1 && NIL !in g.nodes
    ensures Starts(g) == {s} && s in g.nodes && s != NIL
  {
    s :| s in Starts(g);
    SubsetSize({s}, Starts(g));
  }

  lemma LiveIsPublished(db: Db, w: Id) returns (v: Id)
    requires WorkflowsOk(db) && VersionsOk(db) && ContentsOk(db) && w in db.workflows && db.workflows[w].live.Some?
    ensures v == db.workflows[w].live.value
    ensures v in db.versions && db.versions[v].published && db.versions[v].workflow == w
    ensures GraphOk(db.versions[v].graph) && Publishable(db.versions[v].graph)
  {
    v := db.workflows[w].live.value;
    assert WorkflowOk(db, w);
    assert VersionOk(db, v) && ContentOk(db.versions[v]);
  }

  lemma StartUnfolds(db: Db, w: Id, r: Id, j: Id, payload: Json, v: Id, s: Id)
    requires w in db.workflows && db.workflows[w].status == Published && db.workflows[w].live == Some(v)
    requires v in db.versions && Starts(db.versions[v].graph) == {s} && s != NIL
    requires RunPinned(db, Run(w, v, Pending, s, 1, StartOutput(payload)))
    ensures StartRun(db, w, r, j, payload) == Ok(WithRunAndJob(db, r, Run(w, v, Pending, s, 1, StartOutput(payload)), j))
  {
    assert s in Starts(db.versions[v].graph);
    JobInserted(db, r, Run(w, v, Pending, s, 1, StartOutput(payload)), j);
  }

  /** Start of a published workflow always succeeds: the live version exists and has its one Start node. */
  lemma StartSucceeds(db: Db, w: Id, r: Id, j: Id, payload: Json) returns (v: Id, s: Id)
    requires WorkflowsOk(db) && VersionsOk(db) && ContentsOk(db) && w in db.workflows && db.workflows[w].status == Published
    ensures db.workflows[w].live == Some(v) && v in db.versions && Starts(db.versions[v].graph) == {s}
    ensures StartRun(db, w, r, j, payload) == Ok(WithRunAndJob(db, r, Run(w, v, Pending, s, 1, StartOutput(payload)), j))
    ensures RunPinned(db, Run(w, v, Pending, s, 1, StartOutput(payload)))
  {
    assert WorkflowOk(db, w);
    v := LiveIsPublished(db, w);
    s := StartNodeIsUnique(db.versions[v].graph);
    StartUnfolds(db, w, r, j, payload, v, s);
  }

  /** `v` is the live version of `w` and `s` its only Start node. */
  ghost predicate StartOf(db: Db, w: Id, v: Id, s: Id) {
    && w in db.workflows && db.workflows[w].live == Some(v)
    && v in db.versions && Starts(db.versions[v].graph) == {s}
  }

  lemma StartKeeps(db: Db, w: Id, r: Id, j: Id, payload: Json, db': Db) returns (run: Run)
    requires DbInv(db) && r !in db.runs && db' == Committed(db, StartRun(db, w, r, j, payload))
    ensures DbInv(db') && Evolves(db, db') && db'.versions == db.versions
    ensures StartRun(db, w, r, j, payload).Ok? <==> w in db.workflows && db.workflows[w].status == Published
    ensures StartRun(db, w, r, j, payload).Ok? ==>
              && db' == WithRunAndJob(db, r, run, j) && RunPinned(db, run)
              && StartOf(db, w, run.version, run.current)
              && run == Run(w, run.version, Pending, run.current, 1, StartOutput(payload))
  {
    run := Run(w, NIL, Pending, NIL, 1, StartOutput(payload));
    if w in db.workflows && db.workflows[w].status == Published {
      var v, s := StartSucceeds(db, w, r, j, payload);
      run := Run(w, v, Pending, s, 1, StartOutput(payload));
      RunAndJobKeeps(db, r, run, j, db');
    }
  }

  lemma StatusKeeps(db: Db, r: Id, s: RunStatus, db': Db)
    requires DbInv(db) && r in db.runs && db' == SetStatus(db, r, s)
    ensures DbInv(db') && Evolves(db, db') && db'.versions == db.versions
  {
    assert RunPinned(db, db.runs[r]);
    RunWriteKeeps(db, r, db.runs[r].(status := s), db');
  }

  /** Resume and Retry go through exactly from their one source status, and always bring a new job. */
  lemma ResumeKeeps(db: Db, r: Id, j: Id, db': Db)
    requires DbInv(db) && db' == Committed(db, Resume(db, r, j))
    ensures DbInv(db') && Evolves(db, db') && db'.versions == db.versions
    ensures Resume(db, r, j).Ok? <==> r in db.runs && db.runs[r].status == Paused
    ensures Resume(db, r, j).Ok? ==> db' == WithRunAndJob(db, r, db.runs[r].(status := Running), j)
  {
    if r in db.runs && db.runs[r].status == Paused {
      assert RunPinned(db, db.runs[r]);
      JobInserted(db, r, db.runs[r].(status := Running), j);
      RunAndJobKeeps(db, r, db.runs[r].(status := Running), j, db');
    }
  }

  lemma RetryKeeps(db: Db, r: Id, j: Id, db': Db)
    requires DbInv(db) && db' == Committed(db, Retry(db, r, j))
    ensures DbInv(db') && Evolves(db, db') && db'.versions == db.versions
    ensures Retry(db, r, j).Ok? <==> r in db.runs && db.runs[r].status == Failed
    ensures Retry(db, r, j).Ok? ==> db' == WithRunAndJob(db, r, db.runs[r].(status := Running, attempt := 1), j)
  {
    if r in db.runs && db.runs[r].status == Failed {
      assert RunPinned(db, db.runs[r]);
      JobInserted(db, r, db.runs[r].(status := Running, attempt := 1), j);
      RunAndJobKeeps(db, r, db.runs[r].(status := Running, attempt := 1), j, db');
    }
  }

  lemma FailKeeps(db: Db, r: Id, db': Db)
    requires DbInv(db) && r in db.runs && db' == FailRun(db, r)
    ensures DbInv(db') && Evolves(db, db') && db'.versions == db.versions
  {
    assert RunPinned(db, db.runs[r]);
    RunWriteKeeps(db, r, FailedRun(db.runs[r]), db');
  }

  lemma PublishedGraph(db: Db, r: Id)
    requires ContentsOk(db) && Pinned(db) && r in db.runs
    ensures db.runs[r].version in db.versions && RunPinned(db, db.runs[r])
    ensures GraphOk(db.versions[db.runs[r].version].graph) && Publishable(db.versions[db.runs[r].version].graph)
  {
    assert RunPinned(db, db.runs[r]);
    assert ContentOk(db.versions[db.runs[r].version]);
  }

  /** The run row after a result on `node` is saved. */
  ghost function ResultRun(g: Graph, run: Run, node: Id, res: ExecResult): Run
    requires res.Next? ==> NextNode(g, node, res.edgeLabel).Some?
  {
    match res
    case Finished(output) => run.(status := Completed, output := output)
    case Next(output, l) => run.(status := Running, current := NextNode(g, node, l).value, attempt := 1, output := output)
  }

  ghost function WithResult(db: Db, r: Id, run: Run, res: ExecResult, j: Id): Db {
    if res.Finished? then db.(runs := db.runs[r := run]) else WithRunAndJob(db, r, run, j)
  }

  /** Saving a result that fits its node never misses the next node and never violates a key. */
  lemma PersistSucceeds(db: Db, r: Id, node: Id, res: ExecResult, j: Id) returns (g: Graph)
    requires ContentsOk(db) && Pinned(db) && r in db.runs && HasNode(db, db.runs[r].version, node)
    requires Fits(db.versions[db.runs[r].version].graph.nodes[node].nodeType, res)
    ensures g == db.versions[db.runs[r].version].graph
    ensures res.Next? ==> NextNode(g, node, res.edgeLabel).Some?
    ensures RunPinned(db, ResultRun(g, db.runs[r], node, res))
    ensures PersistResult(db, r, db.runs[r].version, node, res, j) == Ok(WithResult(db, r, ResultRun(g, db.runs[r], node, res), res, j))
  {
    PublishedGraph(db, r);
    g := db.versions[db.runs[r].version].graph;
    if res.Next? {
      LookupHits(g, node, res);
      JobInserted(db, r, ResultRun(g, db.runs[r], node, res), j);
    }
  }

  lemma PersistKeeps(db: Db, r: Id, node: Id, res: ExecResult, j: Id, db': Db) returns (g: Graph)
    requires DbInv(db) && r in db.runs && HasNode(db, db.runs[r].version, node)
    requires Fits(db.versions[db.runs[r].version].graph.nodes[node].nodeType, res)
    requires db' == Committed(db, PersistResult(db, r, db.runs[r].version, node, res, j))
    ensures PersistResult(db, r, db.runs[r].version, node, res, j).Ok?
    ensures DbInv(db') && Evolves(db, db') && db'.versions == db.versions
    ensures g == db.versions[db.runs[r].version].graph
    ensures res.Next? ==> NextNode(g, node, res.edgeLabel).Some?
    ensures db' == WithResult(db, r, ResultRun(g, db.runs[r], node, res), res, j)
  {
    g := PersistSucceeds(db, r, node, res, j);
    var run := ResultRun(g, db.runs[r], node, res);
    if res.Finished? {
      RunWriteKeeps(db, r, run, db');
    } else {
      RunAndJobKeeps(db, r, run, j, db');
    }
  }

  /** The relay only deletes outbox rows. */
  lemma RelayKeeps(db: Db, gone: set<Id>, db': Db)
    requires DbInv(db) && db' == db.(outbox := db.outbox - gone)
    ensures DbInv(db') && Evolves(db, db')
  {
    forall j | j in db'.outbox ensures JobPinned(db, db'.outbox[j]) {
      assert JobPinned(db, db.outbox[j]);
    }
    OutboxWriteKeeps(db, db'.outbox, db');
  }
}
