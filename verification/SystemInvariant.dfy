/** Safety of every interleaving: the database invariant, pinned jobs and snapshots, frozen published versions. */
module SystemInvariant {
  import opened Basics
  import opened Tables
  import opened StoreInvariant
  import opened RunInvariant
  import opened Routing
  import opened Protocol

  ghost predicate SnapOk(db: Db, r: Id, snap: Run) {
    && r in db.runs
    && db.runs[r].version == snap.version
    && HasNode(db, snap.version, snap.current)
  }

  ghost function SnapNode(db: Db, snap: Run): NodeRow
    requires HasNode(db, snap.version, snap.current)
  {
    db.versions[snap.version].graph.nodes[snap.current]
  }

  /** What a handler in flight may rely on, however long ago it read. */
  ghost predicate HandlerOk(db: Db, hd: Handler) {
    match hd
    case Received(_, r) => r in db.runs
    case HaveRun(_, r, snap) => SnapOk(db, r, snap)
    case HaveNode(_, r, snap, node) => SnapOk(db, r, snap) && node == SnapNode(db, snap)
    case HaveResult(_, r, snap, res) => SnapOk(db, r, snap) && Fits(SnapNode(db, snap).nodeType, res)
    case HaveError(_, r, snap) => SnapOk(db, r, snap)
    case Deleting(_) => true
  }

  ghost predicate QueueOk(db: Db, q: Queue) {
    forall m :: m in q.msgs ==> m < q.next && JobPinned(db, q.msgs[m].job)
  }

  ghost predicate HandlersOk(db: Db, next: nat, hs: map<Id, Handler>) {
    forall h :: h in hs ==> HandlerOk(db, hs[h]) && hs[h].msg < next
  }

  ghost predicate InputsKnown(db: Db, inputs: map<Id, Json>) {
    forall r :: r in db.runs ==> r in inputs
  }

  ghost predicate Inv(s: System) {
    DbInv(s.db) && QueueOk(s.db, s.queue) && HandlersOk(s.db, s.queue.next, s.handlers) && InputsKnown(s.db, s.inputs)
  }

  lemma PinSurvives(db: Db, db': Db, job: Job)
    requires Pinned(db) && Evolves(db, db') && JobPinned(db, job)
    ensures JobPinned(db', job)
  {
    assert RunPinned(db, db.runs[job.run]);
  }

  lemma HandlerSurvives(db: Db, db': Db, hd: Handler)
    requires Pinned(db) && Evolves(db, db') && HandlerOk(db, hd)
    ensures HandlerOk(db', hd)
  {
    if !hd.Deleting? {
      assert RunPinned(db, db.runs[hd.run]);
    }
  }

  lemma SurroundingsSurvive(db: Db, db': Db, q: Queue, hs: map<Id, Handler>)
    requires Pinned(db) && Evolves(db, db') && QueueOk(db, q) && HandlersOk(db, q.next, hs)
    ensures QueueOk(db', q) && HandlersOk(db', q.next, hs)
  {
    forall m | m in q.msgs ensures JobPinned(db', q.msgs[m].job) {
      PinSurvives(db, db', q.msgs[m].job);
    }
    forall h | h in hs ensures HandlerOk(db', hs[h]) {
      HandlerSurvives(db, db', hs[h]);
    }
  }

  // ---------------------------------------------------------------- the queue

  lemma {:induction false} SentJobs(db: Db, q: Queue, jobs: seq<Job>)
    requires QueueOk(db, q) && forall i :: 0 <= i < |jobs| ==> JobPinned(db, jobs[i])
    ensures QueueOk(db, SendAll(q, jobs)) && SendAll(q, jobs).next >= q.next
  {
    if jobs != [] {
      SentJobs(db, q, jobs[..|jobs| - 1]);
    }
  }

  lemma {:induction false} ActiveJobsPinned(db: Db, rows: seq<Id>)
    requires Pinned(db)
    ensures forall i :: 0 <= i < |ActiveJobs(db, rows)| ==> JobPinned(db, ActiveJobs(db, rows)[i])
  {
    if rows != [] {
      ActiveJobsPinned(db, rows[..|rows| - 1]);
    }
  }

  // ---------------------------------------------------------------- steps

  /** Only the database moved. */
  lemma DbMoved(s: System, s': System)
    requires Inv(s) && DbInv(s'.db) && Evolves(s.db, s'.db)
    requires s'.queue == s.queue && s'.handlers == s.handlers && InputsKnown(s'.db, s'.inputs)
    ensures Inv(s')
  {
    SurroundingsSurvive(s.db, s'.db, s.queue, s.handlers);
  }

  lemma CreateStep(s: System, w: Id, v: Id, s': System)
    requires Inv(s) && w !in s.db.workflows && v !in s.db.versions && s' == s.(db := CreateWorkflow(s.db, w, v))
    ensures Inv(s') && Evolves(s.db, s'.db)
  {
    CreateKeeps(s.db, w, v, s'.db);
    DbMoved(s, s');
  }

  lemma SaveStep(s: System, cfg: ConfigCheck, w: Id, p: Payload, newId: Id, s': System)
    requires Inv(s) && newId !in s.db.versions && s' == Commit(s, Save(s.db, cfg, w, p, newId))
    ensures Inv(s') && Evolves(s.db, s'.db)
  {
    SaveKeeps(s.db, cfg, w, p, newId, s'.db);
    DbMoved(s, s');
  }

  lemma PublishStep(s: System, cfg: ConfigCheck, w: Id, s': System)
    requires Inv(s) && s' == Commit(s, Publish(s.db, cfg, w))
    ensures Inv(s') && Evolves(s.db, s'.db)
  {
    PublishKeeps(s.db, cfg, w, s'.db);
    DbMoved(s, s');
  }

  lemma ArchiveStep(s: System, w: Id, s': System)
    requires Inv(s) && s' == Commit(s, Archive(s.db, w))
    ensures Inv(s') && Evolves(s.db, s'.db)
  {
    ArchiveKeeps(s.db, w, s'.db);
    DbMoved(s, s');
  }

  lemma StartStep(s: System, w: Id, r: Id, j: Id, input: Json, s': System)
    requires Inv(s) && r !in s.db.runs && s' == StartARun(s, w, r, j, input)
    ensures Inv(s') && Evolves(s.db, s'.db)
  {
    var run := StartKeeps(s.db, w, r, j, input, s'.db);
    DbMoved(s, s');
  }

  lemma PauseStep(s: System, r: Id, s': System)
    requires Inv(s) && s' == Commit(s, Pause(s.db, r))
    ensures Inv(s') && Evolves(s.db, s'.db)
  {
    if r in s.db.runs && Pause(s.db, r).Ok? {
      StatusKeeps(s.db, r, Paused, s'.db);
      DbMoved(s, s');
    }
  }

  lemma StopStep(s: System, r: Id, s': System)
    requires Inv(s) && s' == Commit(s, Stop(s.db, r))
    ensures Inv(s') && Evolves(s.db, s'.db)
  {
    if r in s.db.runs && Stop(s.db, r).Ok? {
      StatusKeeps(s.db, r, Cancelled, s'.db);
      DbMoved(s, s');
    }
  }

  lemma ResumeStep(s: System, r: Id, j: Id, s': System)
    requires Inv(s) && s' == Commit(s, Resume(s.db, r, j))
    ensures Inv(s') && Evolves(s.db, s'.db)
  {
    ResumeKeeps(s.db, r, j, s'.db);
    DbMoved(s, s');
  }

  lemma RetryStep(s: System, r: Id, j: Id, s': System)
    requires Inv(s) && s' == Commit(s, Retry(s.db, r, j))
    ensures Inv(s') && Evolves(s.db, s'.db)
  {
    RetryKeeps(s.db, r, j, s'.db);
    DbMoved(s, s');
  }

  lemma RelayStep(s: System, locked: seq<Id>, sent: nat, committed: bool, s': System)
    requires Inv(s) && sent <= |locked| && s' == Relay(s, locked, sent, committed)
    ensures Inv(s') && Evolves(s.db, s'.db)
  {
    ActiveJobsPinned(s.db, locked[..sent]);
    SentJobs(s.db, s.queue, ActiveJobs(s.db, locked[..sent]));
    RelayKeeps(s.db, if committed then ToSet(locked) else {}, s'.db);
    SurroundingsSurvive(s.db, s'.db, s'.queue, s'.handlers);
  }

  /** Only the queue or a handler's place moved. */
  lemma PlaceMoved(s: System, s': System)
    requires Inv(s) && s'.db == s.db && s'.inputs == s.inputs
    requires QueueOk(s.db, s'.queue) && HandlersOk(s.db, s'.queue.next, s'.handlers)
    ensures Inv(s') && Evolves(s.db, s'.db)
  {}

  /** One handler moved to a place that is justified. */
  lemma HandlerMoved(s: System, h: Id, hd: Handler, s': System)
    requires Inv(s) && HandlerOk(s.db, hd) && hd.msg < s.queue.next && s' == SetHandler(s, h, hd)
    ensures Inv(s') && Evolves(s.db, s'.db)
  {
    HandlerSet(s.db, s.queue.next, s.handlers, h, hd);
    PlaceMoved(s, s');
  }

  lemma HandlerSet(db: Db, next: nat, hs: map<Id, Handler>, h: Id, hd: Handler)
    requires HandlersOk(db, next, hs) && HandlerOk(db, hd) && hd.msg < next
    ensures HandlersOk(db, next, hs[h := hd])
  {
    var hs' := hs[h := hd];
    forall x | x in hs' ensures HandlerOk(db, hs'[x]) && hs'[x].msg < next {
      if x != h {
        assert HandlerOk(db, hs[x]);
      }
    }
  }

  lemma HandlerDropped(s: System, h: Id, s': System)
    requires Inv(s) && s' == DropHandler(s, h)
    ensures Inv(s') && Evolves(s.db, s'.db)
  {
    PlaceMoved(s, s');
  }

  lemma QueueExtended(db: Db, q: Queue, hs: map<Id, Handler>, m: nat)
    requires QueueOk(db, q) && HandlersOk(db, q.next, hs) && m in q.msgs
    ensures QueueOk(db, Send(q, q.msgs[m].job)) && HandlersOk(db, q.next + 1, hs)
    ensures QueueOk(db, q.(msgs := q.msgs[m := q.msgs[m].(dead := true)]))
  {}

  lemma DuplicateStep(s: System, m: nat, s': System)
    requires Inv(s) && m in s.queue.msgs && s' == s.(queue := Send(s.queue, s.queue.msgs[m].job))
    ensures Inv(s') && Evolves(s.db, s'.db)
  {
    QueueExtended(s.db, s.queue, s.handlers, m);
    PlaceMoved(s, s');
  }

  lemma DeadLetterStep(s: System, m: nat, s': System)
    requires Inv(s) && m in s.queue.msgs
    requires s' == s.(queue := s.queue.(msgs := s.queue.msgs[m := s.queue.msgs[m].(dead := true)]))
    ensures Inv(s') && Evolves(s.db, s'.db)
  {
    QueueExtended(s.db, s.queue, s.handlers, m);
    PlaceMoved(s, s');
  }

  lemma ReceiveStep(s: System, h: Id, m: nat, s': System)
    requires Inv(s) && m in s.queue.msgs && s' == SetHandler(s, h, Received(m, s.queue.msgs[m].job.run))
    ensures Inv(s') && Evolves(s.db, s'.db)
  {
    HandlerMoved(s, h, Received(m, s.queue.msgs[m].job.run), s');
  }

  lemma ReadRunStep(s: System, h: Id, s': System)
    requires Inv(s) && h in s.handlers && s.handlers[h].Received? && s' == ReadRun(s, h, s.handlers[h])
    ensures Inv(s') && Evolves(s.db, s'.db)
  {
    var hd := s.handlers[h];
    assert HandlerOk(s.db, hd);
    assert RunPinned(s.db, s.db.runs[hd.run]);
    HandlerMoved(s, h, if Active(s.db.runs[hd.run].status) then HaveRun(hd.msg, hd.run, s.db.runs[hd.run]) else Deleting(hd.msg), s');
  }

  lemma LoadNodeStep(s: System, h: Id, s': System)
    requires Inv(s) && h in s.handlers && s.handlers[h].HaveRun? && s' == LoadNode(s, h, s.handlers[h])
    ensures Inv(s') && Evolves(s.db, s'.db)
    ensures s' == SetHandler(s, h, HaveNode(s.handlers[h].msg, s.handlers[h].run, s.handlers[h].snap, SnapNode(s.db, s.handlers[h].snap)))
  {
    var hd := s.handlers[h];
    assert HandlerOk(s.db, hd);
    HandlerMoved(s, h, HaveNode(hd.msg, hd.run, hd.snap, SnapNode(s.db, hd.snap)), s');
  }

  lemma ExecuteStep(s: System, h: Id, outcome: Outcome, s': System)
    requires Inv(s) && h in s.handlers && s.handlers[h].HaveNode? && s' == Execute(s, h, s.handlers[h], outcome)
    requires outcome.Success? ==> Fits(s.handlers[h].node.nodeType, outcome.res)
    ensures Inv(s') && Evolves(s.db, s'.db)
  {
    var hd := s.handlers[h];
    assert HandlerOk(s.db, hd);
    HandlerMoved(s, h, if outcome.Success? then HaveResult(hd.msg, hd.run, hd.snap, outcome.res) else HaveError(hd.msg, hd.run, hd.snap), s');
  }

  /** A result saved from any earlier snapshot never misses its next node. */
  lemma PersistStep(s: System, h: Id, j: Id, s': System) returns (g: Graph)
    requires Inv(s) && h in s.handlers && s.handlers[h].HaveResult? && s' == Persist(s, h, s.handlers[h], j)
    ensures Inv(s') && Evolves(s.db, s'.db)
    ensures var hd := s.handlers[h];
            && SnapOk(s.db, hd.run, hd.snap)
            && g == s.db.versions[hd.snap.version].graph
            && (hd.res.Next? ==> NextNode(g, hd.snap.current, hd.res.edgeLabel).Some?)
            && s' == SetHandler(s.(db := WithResult(s.db, hd.run, ResultRun(g, s.db.runs[hd.run], hd.snap.current, hd.res), hd.res, j)),
                                h, Deleting(hd.msg))
  {
    var hd := s.handlers[h];
    assert HandlerOk(s.db, hd);
    var r := PersistResult(s.db, hd.run, hd.snap.version, hd.snap.current, hd.res, j);
    var mid := s.(db := Committed(s.db, r));
    g := PersistKeeps(s.db, hd.run, hd.snap.current, hd.res, j, mid.db);
    DbMoved(s, mid);
    HandlerMoved(mid, h, Deleting(hd.msg), s');
  }

  lemma FailureStep(s: System, h: Id, s': System)
    requires Inv(s) && h in s.handlers && s.handlers[h].HaveError?
    requires s' == DropHandler(s.(db := FailRun(s.db, s.handlers[h].run)), h)
    ensures Inv(s') && Evolves(s.db, s'.db)
  {
    assert HandlerOk(s.db, s.handlers[h]);
    var mid := s.(db := FailRun(s.db, s.handlers[h].run));
    FailKeeps(s.db, s.handlers[h].run, mid.db);
    DbMoved(s, mid);
    HandlerDropped(mid, h, s');
  }

  lemma DeleteStep(s: System, h: Id, s': System)
    requires Inv(s) && h in s.handlers && s' == DropHandler(s.(queue := s.queue.(msgs := s.queue.msgs - {s.handlers[h].msg})), h)
    ensures Inv(s') && Evolves(s.db, s'.db)
  {
    PlaceMoved(s, s');
  }

  predicate IsRequest(step: Step) {
    step.StepCreate? || step.StepSave? || step.StepPublish? || step.StepArchive? || step.StepStart? || step.StepPause?
    || step.StepResume? || step.StepStop? || step.StepRetry?
  }

  lemma RequestKeeps(s: System, step: Step, cfg: ConfigCheck, s': System)
    requires Inv(s) && Enabled(s, step) && IsRequest(step) && s' == Apply(s, step, cfg)
    ensures Inv(s') && Evolves(s.db, s'.db)
  {
    match step
    case StepCreate(w, v) => CreateStep(s, w, v, s');
    case StepSave(w, p, newId) => SaveStep(s, cfg, w, p, newId, s');
    case StepPublish(w) => PublishStep(s, cfg, w, s');
    case StepArchive(w) => ArchiveStep(s, w, s');
    case StepStart(w, r, j, input) => StartStep(s, w, r, j, input, s');
    case StepPause(r) => PauseStep(s, r, s');
    case StepResume(r, j) => ResumeStep(s, r, j, s');
    case StepStop(r) => StopStep(s, r, s');
    case StepRetry(r, j) => RetryStep(s, r, j, s');
  }

  lemma WorkKeeps(s: System, step: Step, cfg: ConfigCheck, s': System)
    requires Inv(s) && Enabled(s, step) && !IsRequest(step) && s' == Apply(s, step, cfg)
    ensures Inv(s') && Evolves(s.db, s'.db)
  {
    match step
    case StepRelay(locked, sent, committed) => RelayStep(s, locked, sent, committed, s');
    case StepDuplicate(m) => DuplicateStep(s, m, s');
    case StepDeadLetter(m) => DeadLetterStep(s, m, s');
    case StepReceive(h, m) => ReceiveStep(s, h, m, s');
    case StepReadRun(h) => ReadRunStep(s, h, s');
    case StepLoadNode(h) => LoadNodeStep(s, h, s');
    case StepExecute(h, outcome) => ExecuteStep(s, h, outcome, s');
    case StepPersist(h, j) => var g := PersistStep(s, h, j, s');
    case StepRecordFailure(h) => FailureStep(s, h, s');
    case StepDelete(h) => DeleteStep(s, h, s');
    case StepAbandon(h) => HandlerDropped(s, h, s');
  }

  /** Inductive step: every step of every interleaving keeps the invariant and takes nothing pinned back. */
  lemma StepKeeps(s: System, step: Step, cfg: ConfigCheck, s': System)
    requires Inv(s) && Enabled(s, step) && s' == Apply(s, step, cfg)
    ensures Inv(s') && Evolves(s.db, s'.db)
  {
    if IsRequest(step) {
      RequestKeeps(s, step, cfg, s');
    } else {
      WorkKeeps(s, step, cfg, s');
    }
  }

  /** Over any history: what was published stays as it was, and runs stay pinned where they started. */
  lemma {:induction false} HistoryKeeps(s: System, steps: seq<Step>, cfg: ConfigCheck)
    requires Inv(s) && ValidHistory(s, steps, cfg)
    ensures Inv(After(s, steps, cfg)) && Evolves(s.db, After(s, steps, cfg).db)
    decreases |steps|
  {
    if steps != [] {
      var s1 := Apply(s, steps[0], cfg);
      StepKeeps(s, steps[0], cfg, s1);
      HistoryKeeps(s1, steps[1..], cfg);
    }
  }

  /** Every reachable state is safe. */
  lemma ReachableIsSafe(steps: seq<Step>, cfg: ConfigCheck)
    requires ValidHistory(INIT, steps, cfg)
    ensures Inv(After(INIT, steps, cfg))
  {
    HistoryKeeps(INIT, steps, cfg);
  }
}
