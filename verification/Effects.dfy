/** What every step of the system does to the tables, the queue and the handlers, and what handling one message in a
    piece comes to: all of it said outright. */
module Effects {
  import opened Basics
  import opened Tables
  import opened StoreInvariant
  import opened RunInvariant
  import opened Routing
  import opened Protocol
  import opened SystemInvariant
  import opened Outcomes
  import opened Serial

  // ---------------------------------------------------------------- one message, handled in a piece

  /** The run may still be worked on. */
  predicate Alive(run: Run) {
    run.status == Pending || run.status == Running
  }

  /** Nothing in the queue changed but message `m`, which is there or gone. */
  ghost predicate OnlyMessage(q: Queue, q': Queue, m: nat, gone: bool) {
    && q'.next == q.next && SameBut(q.msgs, q'.msgs, m)
    && (m in q'.msgs <==> !gone) && (!gone ==> m in q.msgs && q'.msgs[m] == q.msgs[m])
  }

  /** An active run's message was executed: an error fails the run and leaves the message, a result is saved and, unless
      the delete breaks off, the message goes. */
  ghost predicate Worked(s: System, s': System, m: nat, r: Id, j: Id, outcome: Outcome, fault: Fault)
    requires r in s.db.runs
  {
    var run := s.db.runs[r];
    match outcome
    case Failure =>
      && RunIsNow(s.db, s'.db, r, Run(run.workflow, run.version, Failed, run.current, run.attempt + 1, run.output))
      && OnlyMessage(s.queue, s'.queue, m, false)
    case Success(res) =>
      && ResultIsSaved(s.db, s'.db, r, run.current, res, j)
      && OnlyMessage(s.queue, s'.queue, m, fault == NoFault)
  }

  lemma FailedOutcome(s: System, m: nat, r: Id, j: Id, fault: Fault, s': System)
    requires m in s.queue.msgs && Executes(s.db, r, fault) && fault != BeforeSave && s' == Handled(s, m, r, j, Failure, fault)
    ensures Worked(s, s', m, r, j, Failure, fault)
  {
    FailOutcome(s.db, r, s'.db);
  }

  lemma MessageGoes(s: System, m: nat, r: Id, j: Id, res: ExecResult, fault: Fault, s': System)
    requires m in s.queue.msgs && Executes(s.db, r, fault) && fault != BeforeSave && s' == Handled(s, m, r, j, Success(res), fault)
    requires PersistResult(s.db, r, s.db.runs[r].version, s.db.runs[r].current, res, j).Ok?
    ensures s'.db == Committed(s.db, PersistResult(s.db, r, s.db.runs[r].version, s.db.runs[r].current, res, j))
    ensures OnlyMessage(s.queue, s'.queue, m, fault == NoFault)
  {}

  lemma SucceededOutcome(s: System, m: nat, r: Id, j: Id, res: ExecResult, fault: Fault, s': System)
    requires ContentsOk(s.db) && Pinned(s.db) && m in s.queue.msgs && Executes(s.db, r, fault) && fault != BeforeSave
    requires Fits(SnapNode(s.db, s.db.runs[r]).nodeType, res) && s' == Handled(s, m, r, j, Success(res), fault)
    ensures Worked(s, s', m, r, j, Success(res), fault)
  {
    var db := Committed(s.db, PersistResult(s.db, r, s.db.runs[r].version, s.db.runs[r].current, res, j));
    SavedOutcome(s.db, r, s.db.runs[r].current, res, j, db);
    MessageGoes(s, m, r, j, res, fault, s');
  }

  lemma NothingWorked(s: System, m: nat, r: Id, j: Id, outcome: Outcome, fault: Fault, s': System)
    requires m in s.queue.msgs && r in s.db.runs && s' == Handled(s, m, r, j, outcome, fault)
    requires HasNode(s.db, s.db.runs[r].version, s.db.runs[r].current)
    ensures fault == BeforeRead || (Alive(s.db.runs[r]) && (fault == BeforeLoad || fault == BeforeExecute || fault == BeforeSave)) ==>
              s' == s
    ensures fault != BeforeRead && !Alive(s.db.runs[r]) ==>
              s'.db == s.db && OnlyMessage(s.queue, s'.queue, m, fault != BeforeDelete)
    ensures Executes(s.db, r, fault) <==>
            Alive(s.db.runs[r]) && (fault == NoFault || fault == BeforeSave || fault == BeforeDelete)
  {}

  /** Every way one message can be handled: nothing happens before the read or when a later call breaks off, an inactive
      run's message just goes, and an active run's current node is worked. */
  lemma HandleOutcome(s: System, m: nat, j: Id, outcome: Outcome, fault: Fault, s': System)
    requires SerialInv(s) && SerialEnabled(s, Handle(m, j, outcome, fault)) && s' == HandleMessage(s, m, j, outcome, fault)
    ensures var r := s.queue.msgs[m].job.run;
            && r in s.db.runs && s'.handlers == s.handlers && s'.inputs == s.inputs
            && if fault == BeforeRead then s' == s
               else if !Alive(s.db.runs[r]) then s'.db == s.db && OnlyMessage(s.queue, s'.queue, m, fault != BeforeDelete)
               else if fault == BeforeLoad || fault == BeforeExecute || fault == BeforeSave then s' == s
               else Worked(s, s', m, r, j, outcome, fault)
  {
    var r := s.queue.msgs[m].job.run;
    assert JobPinned(s.db, s.queue.msgs[m].job);
    assert RunPinned(s.db, s.db.runs[r]);
    NothingWorked(s, m, r, j, outcome, fault, s');
    if Executes(s.db, r, fault) && fault != BeforeSave {
      match outcome
      case Failure => FailedOutcome(s, m, r, j, fault, s');
      case Success(res) => SucceededOutcome(s, m, r, j, res, fault, s');
    }
  }

  // ---------------------------------------------------------------- split steps: the queue

  ghost predicate QueueEffect(s: System, step: Step, q': Queue)
    requires Enabled(s, step)
  {
    match step
    case StepRelay(_, _, _) => true
    case StepDuplicate(m) =>
      && q'.next == s.queue.next + 1 && SameBut(s.queue.msgs, q'.msgs, s.queue.next)
      && s.queue.next in q'.msgs && q'.msgs[s.queue.next] == Msg(s.queue.msgs[m].job, false)
    case StepDeadLetter(m) =>
      && q'.next == s.queue.next && SameBut(s.queue.msgs, q'.msgs, m)
      && m in q'.msgs && q'.msgs[m] == Msg(s.queue.msgs[m].job, true)
    case StepDelete(h) =>
      && q'.next == s.queue.next && SameBut(s.queue.msgs, q'.msgs, s.handlers[h].msg) && s.handlers[h].msg !in q'.msgs
    case _ => q' == s.queue
  }

  /** Apart from relay ticks, whose sends are counted elsewhere, only these three steps touch the queue: a duplicate is one
      live message more, dead-lettering marks one, a delete removes one. */
  lemma QueueAfterIsExact(s: System, step: Step, cfg: ConfigCheck, s': System)
    requires Enabled(s, step) && s' == Apply(s, step, cfg)
    ensures QueueEffect(s, step, s'.queue)
  {}

  // ---------------------------------------------------------------- split steps: the handlers

  /** Where a handler that just read the run goes on. */
  ghost function AfterRead(db: Db, hd: Handler): Option<Handler>
    requires hd.Received?
  {
    if hd.run !in db.runs then None
    else if Alive(db.runs[hd.run]) then Some(HaveRun(hd.msg, hd.run, db.runs[hd.run]))
    else Some(Deleting(hd.msg))
  }

  /** The handler a step moves and where it stands afterwards; None if it is gone. */
  ghost function HandlerAfter(s: System, step: Step): Option<(Id, Option<Handler>)>
    requires Enabled(s, step)
  {
    match step
    case StepReceive(h, m) => Some((h, Some(Received(m, s.queue.msgs[m].job.run))))
    case StepReadRun(h) => Some((h, AfterRead(s.db, s.handlers[h])))
    case StepLoadNode(h) =>
      var hd := s.handlers[h];
      Some((h, if HasNode(s.db, hd.snap.version, hd.snap.current)
               then Some(HaveNode(hd.msg, hd.run, hd.snap, s.db.versions[hd.snap.version].graph.nodes[hd.snap.current]))
               else None))
    case StepExecute(h, Success(res)) => Some((h, Some(HaveResult(s.handlers[h].msg, s.handlers[h].run, s.handlers[h].snap, res))))
    case StepExecute(h, Failure) => Some((h, Some(HaveError(s.handlers[h].msg, s.handlers[h].run, s.handlers[h].snap))))
    case StepPersist(h, _) => Some((h, Some(Deleting(s.handlers[h].msg))))
    case StepRecordFailure(h) => Some((h, None))
    case StepDelete(h) => Some((h, None))
    case StepAbandon(h) => Some((h, None))
    case _ => None
  }

  ghost predicate HandlerMovedTo(hs: map<Id, Handler>, hs': map<Id, Handler>, to: Option<(Id, Option<Handler>)>) {
    match to
    case None => hs' == hs
    case Some((h, None)) => SameBut(hs, hs', h) && h !in hs'
    case Some((h, Some(hd))) => SameBut(hs, hs', h) && h in hs' && hs'[h] == hd
  }

  lemma PhaseAfterIsExact(s: System, step: Step, cfg: ConfigCheck, s': System)
    requires Enabled(s, step) && s' == Apply(s, step, cfg) && !step.StepPersist?
    ensures HandlerMovedTo(s.handlers, s'.handlers, HandlerAfter(s, step))
  {}

  lemma SaveGoesOnToDelete(s: System, h: Id, j: Id, s': System)
    requires Inv(s) && h in s.handlers && s.handlers[h].HaveResult? && s' == Persist(s, h, s.handlers[h], j)
    ensures s'.handlers == s.handlers[h := Deleting(s.handlers[h].msg)]
  {
    var g := PersistStep(s, h, j, s');
  }

  lemma SaveStepGoesOn(s: System, step: Step, cfg: ConfigCheck, s': System)
    requires Inv(s) && Enabled(s, step) && s' == Apply(s, step, cfg) && step.StepPersist?
    ensures s'.handlers == s.handlers[step.h := Deleting(s.handlers[step.h].msg)]
  {
    SaveGoesOnToDelete(s, step.h, step.j, s');
  }

  lemma SavePhaseIsExact(s: System, step: Step, s': System)
    requires Enabled(s, step) && step.StepPersist?
    requires s'.handlers == s.handlers[step.h := Deleting(s.handlers[step.h].msg)]
    ensures HandlerMovedTo(s.handlers, s'.handlers, HandlerAfter(s, step))
  {}

  /** A step moves at most one handler, to the next phase with what it has learnt; a save always gets to the delete. */
  lemma HandlersAfterIsExact(s: System, step: Step, cfg: ConfigCheck, s': System)
    requires Inv(s) && Enabled(s, step) && s' == Apply(s, step, cfg)
    ensures HandlerMovedTo(s.handlers, s'.handlers, HandlerAfter(s, step))
  {
    if step.StepPersist? {
      SaveStepGoesOn(s, step, cfg, s');
      SavePhaseIsExact(s, step, s');
    } else {
      PhaseAfterIsExact(s, step, cfg, s');
    }
  }

  // ---------------------------------------------------------------- split steps: the tables

  /** What the worker's and the relay's steps write: a save stores its result, from the snapshot's node; a recorded failure
      fails the run; a committed tick removes the locked rows; nothing else writes. */
  ghost predicate WorkWrites(s: System, step: Step, db': Db)
    requires Enabled(s, step)
  {
    match step
    case StepPersist(h, j) =>
      var hd := s.handlers[h];
      ResultIsSaved(s.db, db', hd.run, hd.snap.current, hd.res, j)
    case StepRecordFailure(h) =>
      var r := s.handlers[h].run;
      && r in s.db.runs
      && var run := s.db.runs[r];
         RunIsNow(s.db, db', r, Run(run.workflow, run.version, Failed, run.current, run.attempt + 1, run.output))
    case StepRelay(locked, _, committed) =>
      && db'.workflows == s.db.workflows && db'.versions == s.db.versions && db'.runs == s.db.runs
      && (forall j :: j in db'.outbox <==> j in s.db.outbox && !(committed && j in locked))
      && (forall j :: j in db'.outbox ==> db'.outbox[j] == s.db.outbox[j])
    case _ => db' == s.db
  }

  lemma WorkWritesExactly(s: System, step: Step, cfg: ConfigCheck, s': System)
    requires Inv(s) && Enabled(s, step) && s' == Apply(s, step, cfg) && !IsRequest(step)
    ensures WorkWrites(s, step, s'.db)
  {
    if step.StepPersist? {
      SaveWritesExactly(s, step.h, step.j, s');
    } else if step.StepRecordFailure? {
      assert HandlerOk(s.db, s.handlers[step.h]);
      FailOutcome(s.db, s.handlers[step.h].run, s'.db);
    }
  }

  lemma SaveWritesExactly(s: System, h: Id, j: Id, s': System)
    requires Inv(s) && h in s.handlers && s.handlers[h].HaveResult? && s' == Persist(s, h, s.handlers[h], j)
    ensures ResultIsSaved(s.db, s'.db, s.handlers[h].run, s.handlers[h].snap.current, s.handlers[h].res, j)
  {
    var hd := s.handlers[h];
    assert HandlerOk(s.db, hd);
    SavedOutcome(s.db, hd.run, hd.snap.current, hd.res, j, Committed(s.db, PersistResult(s.db, hd.run, hd.snap.version, hd.snap.current, hd.res, j)));
  }

  /** A start request also fixes the first input that the run's trace begins with: the wrapped payload. */
  lemma StartStepWrites(s: System, w: Id, r: Id, j: Id, payload: Json, s': System)
    requires Inv(s) && r !in s.db.runs && s' == StartARun(s, w, r, j, payload)
    ensures StartLeaves(s.db, s'.db, w, r, j, payload, w in s.db.workflows && s.db.workflows[w].status == Published)
    ensures w in s.db.workflows && s.db.workflows[w].status == Published ==>
              SameBut(s.inputs, s'.inputs, r) && r in s'.inputs && s'.inputs[r] == s'.db.runs[r].output
  {
    StartOutcome(s.db, w, r, j, payload, Committed(s.db, StartRun(s.db, w, r, j, payload)));
    var run := StartKeeps(s.db, w, r, j, payload, Committed(s.db, StartRun(s.db, w, r, j, payload)));
  }

  // ---------------------------------------------------------------- split steps: the requests

  /** The workflow is there to be edited. */
  ghost predicate IsOpen(db: Db, w: Id) {
    w in db.workflows && db.workflows[w].status != Archived && db.workflows[w].latest in db.versions
  }

  /** The workflow's draft head can go live. */
  ghost predicate CanPublish(db: Db, w: Id, cfg: ConfigCheck)
    requires IsOpen(db, w)
  {
    var head := db.versions[db.workflows[w].latest];
    !head.published && CanGoLive(head.graph, cfg)
  }

  /** The run takes the status if it has one of those, and nothing changes otherwise. */
  ghost predicate StatusMoves(db: Db, db': Db, r: Id, from: set<RunStatus>, to: RunStatus) {
    if r in db.runs && db.runs[r].status in from then
      var run := db.runs[r];
      RunIsNow(db, db', r, Run(run.workflow, run.version, to, run.current, run.attempt, run.output))
    else db' == db
  }

  /** The run is running again with a job for its node if it has the status, and nothing changes otherwise. */
  ghost predicate RunReturns(db: Db, db': Db, r: Id, j: Id, from: RunStatus) {
    if r in db.runs && db.runs[r].status == from then
      var run := db.runs[r];
      Requeued(db, db', r, Run(run.workflow, run.version, Running, run.current, if from == Failed then 1 else run.attempt, run.output), j)
    else db' == db
  }

  ghost predicate RequestWrites(db: Db, step: Step, cfg: ConfigCheck, db': Db) {
    match step
    case StepCreate(w, v) => WorkflowCreated(db, db', w, v)
    case StepSave(w, p, newId) =>
      if IsOpen(db, w) && PayloadValid(p, cfg) then HeadHolds(db, db', w, p, newId) else db' == db
    case StepPublish(w) => if IsOpen(db, w) && CanPublish(db, w, cfg) then HeadWentLive(db, db', w) else db' == db
    case StepArchive(w) => if w in db.workflows then WorkflowArchived(db, db', w) else db' == db
    case StepStart(w, r, j, payload) =>
      StartLeaves(db, db', w, r, j, payload, w in db.workflows && db.workflows[w].status == Published)
    case StepPause(r) => StatusMoves(db, db', r, {Pending, Running, Paused}, Paused)
    case StepStop(r) => StatusMoves(db, db', r, {Pending, Running, Paused, Cancelled}, Cancelled)
    case StepResume(r, j) => RunReturns(db, db', r, j, Paused)
    case StepRetry(r, j) => RunReturns(db, db', r, j, Failed)
    case _ => true
  }

  lemma SaveRequest(s: System, step: Step, cfg: ConfigCheck, s': System)
    requires Inv(s) && Enabled(s, step) && step.StepSave? && s' == Apply(s, step, cfg)
    ensures RequestWrites(s.db, step, cfg, s'.db)
  {
    SaveOutcome(s.db, cfg, step.w, step.payload, step.newId, s'.db);
  }

  lemma PublishRequest(s: System, step: Step, cfg: ConfigCheck, s': System)
    requires Inv(s) && Enabled(s, step) && step.StepPublish? && s' == Apply(s, step, cfg)
    ensures RequestWrites(s.db, step, cfg, s'.db)
  {
    PublishSucceeds(s.db, cfg, step.w, s'.db);
  }

  lemma StartRequest(s: System, step: Step, cfg: ConfigCheck, s': System)
    requires Inv(s) && Enabled(s, step) && step.StepStart? && s' == Apply(s, step, cfg)
    ensures RequestWrites(s.db, step, cfg, s'.db)
  {
    StartStepWrites(s, step.w, step.r, step.j, step.input, s');
  }

  lemma PauseRequest(s: System, step: Step, cfg: ConfigCheck, s': System)
    requires Enabled(s, step) && step.StepPause? && s' == Apply(s, step, cfg)
    ensures RequestWrites(s.db, step, cfg, s'.db)
  {
    PauseOutcome(s.db, step.r, s'.db);
  }

  lemma StopRequest(s: System, step: Step, cfg: ConfigCheck, s': System)
    requires Enabled(s, step) && step.StepStop? && s' == Apply(s, step, cfg)
    ensures RequestWrites(s.db, step, cfg, s'.db)
  {
    StopOutcome(s.db, step.r, s'.db);
  }

  lemma ResumeRequest(s: System, step: Step, cfg: ConfigCheck, s': System)
    requires Inv(s) && Enabled(s, step) && step.StepResume? && s' == Apply(s, step, cfg)
    ensures RequestWrites(s.db, step, cfg, s'.db)
  {
    ResumeOutcome(s.db, step.r, step.j, s'.db);
  }

  lemma RetryRequest(s: System, step: Step, cfg: ConfigCheck, s': System)
    requires Inv(s) && Enabled(s, step) && step.StepRetry? && s' == Apply(s, step, cfg)
    ensures RequestWrites(s.db, step, cfg, s'.db)
  {
    RetryOutcome(s.db, step.r, step.j, s'.db);
  }

  lemma WorkflowRequest(s: System, step: Step, cfg: ConfigCheck, s': System)
    requires Enabled(s, step) && (step.StepCreate? || step.StepArchive?) && s' == Apply(s, step, cfg)
    ensures RequestWrites(s.db, step, cfg, s'.db)
  {
    if step.StepCreate? {
      CreateOutcome(s.db, step.w, step.v, s'.db);
    } else {
      ArchiveOutcome(s.db, step.w, s'.db);
    }
  }

  /** What every request writes, and when it writes nothing. */
  lemma RequestWritesExactly(s: System, step: Step, cfg: ConfigCheck, s': System)
    requires Inv(s) && Enabled(s, step) && IsRequest(step) && s' == Apply(s, step, cfg)
    ensures RequestWrites(s.db, step, cfg, s'.db)
  {
    if step.StepSave? {
      SaveRequest(s, step, cfg, s');
    } else if step.StepPublish? {
      PublishRequest(s, step, cfg, s');
    } else if step.StepStart? {
      StartRequest(s, step, cfg, s');
    } else if step.StepPause? {
      PauseRequest(s, step, cfg, s');
    } else if step.StepStop? {
      StopRequest(s, step, cfg, s');
    } else if step.StepResume? {
      ResumeRequest(s, step, cfg, s');
    } else if step.StepRetry? {
      RetryRequest(s, step, cfg, s');
    } else {
      WorkflowRequest(s, step, cfg, s');
    }
  }
}
