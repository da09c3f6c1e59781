/** A run whose only messages are dead-lettered: nothing but pausing or stopping it ever moves it again. */
module Parked {
  import opened Basics
  import opened Tables
  import opened StoreInvariant
  import opened RunInvariant
  import opened Protocol
  import opened SystemInvariant
  import opened Delivery
  import opened Trace
  import opened Conservation
  import opened Overlap

  /** What can still bring a run to a worker: an outbox row, a live message, a handler that works on it. */
  datatype Claim = Row(j: Id) | LiveMessage(m: nat) | AtWork(h: Id)

  ghost function Claims(s: System, r: Id): set<Claim> {
    (set j | j in s.db.outbox && s.db.outbox[j].run == r :: Row(j))
    + (set m | m in s.queue.msgs && s.queue.msgs[m].job.run == r && !s.queue.msgs[m].dead :: LiveMessage(m))
    + (set h | h in s.handlers && !s.handlers[h].Deleting? && s.handlers[h].run == r :: AtWork(h))
  }

  /** `r` is active, but nothing will ever bring it to a worker: at best its messages are dead-lettered. */
  ghost predicate IsParked(s: System, r: Id) {
    IsActive(s.db, r) && Claims(s, r) == {}
  }

  ghost predicate NoRow(db: Db, r: Id) {
    forall j :: j in db.outbox ==> db.outbox[j].run != r
  }

  ghost predicate NoLiveMessage(q: Queue, r: Id) {
    forall m :: m in q.msgs && !q.msgs[m].dead ==> q.msgs[m].job.run != r
  }

  ghost predicate NoneAtWork(hs: map<Id, Handler>, r: Id) {
    forall h :: h in hs && !hs[h].Deleting? ==> hs[h].run != r
  }

  lemma Unclaimed(s: System, r: Id)
    requires Claims(s, r) == {}
    ensures NoRow(s.db, r) && NoLiveMessage(s.queue, r) && NoneAtWork(s.handlers, r)
  {
    var claims := Claims(s, r);
    assert forall j :: j in s.db.outbox && s.db.outbox[j].run == r ==> Row(j) in claims;
    assert forall m :: m in s.queue.msgs && s.queue.msgs[m].job.run == r && !s.queue.msgs[m].dead ==> LiveMessage(m) in claims;
    assert forall h :: h in s.handlers && !s.handlers[h].Deleting? && s.handlers[h].run == r ==> AtWork(h) in claims;
  }

  lemma NothingClaims(s: System, r: Id)
    requires NoRow(s.db, r) && NoLiveMessage(s.queue, r) && NoneAtWork(s.handlers, r)
    ensures Claims(s, r) == {}
  {}

  // ---------------------------------------------------------------- requests

  lemma RowsUnclaimed(s: System, s': System, r: Id)
    requires Claims(s, r) == {} && NoRow(s'.db, r) && s'.queue == s.queue && s'.handlers == s.handlers
    ensures Claims(s', r) == {}
  {
    Unclaimed(s, r);
    NothingClaims(s', r);
  }

  lemma SameRowsUnclaimed(s: System, s': System, r: Id)
    requires Claims(s, r) == {} && s'.db.outbox == s.db.outbox && s'.queue == s.queue && s'.handlers == s.handlers
    ensures Claims(s', r) == {}
  {}

  lemma JobOfAnother(db: Db, x: Id, run: Run, j: Id, db': Db, r: Id)
    requires NoRow(db, r) && x != r && db' == WithRunAndJob(db, x, run, j)
    ensures NoRow(db', r)
  {}

  lemma StartUnclaimed(s: System, w: Id, x: Id, j: Id, input: Json, s': System, r: Id)
    requires Inv(s) && Claims(s, r) == {} && r in s.db.runs && x !in s.db.runs && s' == StartARun(s, w, x, j, input)
    ensures Claims(s', r) == {}
  {
    Unclaimed(s, r);
    var run := StartKeeps(s.db, w, x, j, input, s'.db);
    if StartRun(s.db, w, x, j, input).Ok? {
      JobOfAnother(s.db, x, run, j, s'.db, r);
    }
    RowsUnclaimed(s, s', r);
  }

  lemma ResumeUnclaimed(s: System, x: Id, j: Id, s': System, r: Id)
    requires Inv(s) && Claims(s, r) == {} && IsActive(s.db, r) && s' == Commit(s, Resume(s.db, x, j))
    ensures Claims(s', r) == {}
  {
    Unclaimed(s, r);
    ResumeKeeps(s.db, x, j, s'.db);
    if Resume(s.db, x, j).Ok? {
      JobOfAnother(s.db, x, s.db.runs[x].(status := Running), j, s'.db, r);
    }
    RowsUnclaimed(s, s', r);
  }

  lemma RetryUnclaimed(s: System, x: Id, j: Id, s': System, r: Id)
    requires Inv(s) && Claims(s, r) == {} && IsActive(s.db, r) && s' == Commit(s, Retry(s.db, x, j))
    ensures Claims(s', r) == {}
  {
    Unclaimed(s, r);
    RetryKeeps(s.db, x, j, s'.db);
    if Retry(s.db, x, j).Ok? {
      JobOfAnother(s.db, x, s.db.runs[x].(status := Running, attempt := 1), j, s'.db, r);
    }
    RowsUnclaimed(s, s', r);
  }

  lemma DefinitionUnclaimed(s: System, step: Step, cfg: ConfigCheck, s': System, r: Id)
    requires Inv(s) && Claims(s, r) == {} && Enabled(s, step) && s' == Apply(s, step, cfg) && IsDefinition(step)
    ensures Claims(s', r) == {}
  {
    match step
    case StepCreate(w, v) =>
      CreateKeeps(s.db, w, v, s'.db);
      SameRowsUnclaimed(s, s', r);
    case StepSave(w, p, newId) =>
      SaveKeeps(s.db, cfg, w, p, newId, s'.db);
      SameRowsUnclaimed(s, s', r);
    case StepPublish(w) =>
      PublishKeeps(s.db, cfg, w, s'.db);
      SameRowsUnclaimed(s, s', r);
    case StepArchive(w) =>
      ArchiveKeeps(s.db, w, s'.db);
      SameRowsUnclaimed(s, s', r);
  }

  lemma StatusRequestUnclaimed(s: System, step: Step, cfg: ConfigCheck, s': System, r: Id)
    requires Claims(s, r) == {} && Enabled(s, step) && s' == Apply(s, step, cfg) && (step.StepPause? || step.StepStop?)
    ensures Claims(s', r) == {}
  {
    SameRowsUnclaimed(s, s', r);
  }

  lemma StartRequestUnclaimed(s: System, step: Step, cfg: ConfigCheck, s': System, r: Id)
    requires Inv(s) && Claims(s, r) == {} && r in s.db.runs && Enabled(s, step) && s' == Apply(s, step, cfg) && step.StepStart?
    ensures Claims(s', r) == {}
  {
    StartUnclaimed(s, step.w, step.r, step.j, step.input, s', r);
  }

  lemma ResumeRequestUnclaimed(s: System, step: Step, cfg: ConfigCheck, s': System, r: Id)
    requires Inv(s) && Claims(s, r) == {} && IsActive(s.db, r) && Enabled(s, step) && s' == Apply(s, step, cfg) && step.StepResume?
    ensures Claims(s', r) == {}
  {
    ResumeUnclaimed(s, step.r, step.j, s', r);
  }

  lemma RetryRequestUnclaimed(s: System, step: Step, cfg: ConfigCheck, s': System, r: Id)
    requires Inv(s) && Claims(s, r) == {} && IsActive(s.db, r) && Enabled(s, step) && s' == Apply(s, step, cfg) && step.StepRetry?
    ensures Claims(s', r) == {}
  {
    RetryUnclaimed(s, step.r, step.j, s', r);
  }

  // ---------------------------------------------------------------- relay, queue and handlers

  lemma RelayUnclaimed(s: System, locked: seq<Id>, sent: nat, committed: bool, s': System, r: Id)
    requires QueueOk(s.db, s.queue) && sent <= |locked| && s' == Relay(s, locked, sent, committed)
    requires Claims(s, r) == {}
    ensures Claims(s', r) == {}
  {
    Unclaimed(s, r);
    RelayConserves(s, locked, sent, committed, s');
    NothingClaims(s', r);
  }

  lemma ResultOfAnother(db: Db, x: Id, run: Run, res: ExecResult, j: Id, db': Db, r: Id)
    requires NoRow(db, r) && x != r && db' == WithResult(db, x, run, res, j)
    ensures NoRow(db', r)
  {
    if res.Next? {
      JobOfAnother(db, x, run, j, db', r);
    }
  }

  lemma PersistUnclaimed(s: System, h: Id, j: Id, s': System, r: Id)
    requires Inv(s) && h in s.handlers && s.handlers[h].HaveResult? && s' == Persist(s, h, s.handlers[h], j)
    requires Claims(s, r) == {}
    ensures Claims(s', r) == {}
  {
    Unclaimed(s, r);
    var hd := s.handlers[h];
    var g := PersistStep(s, h, j, s');
    ResultOfAnother(s.db, hd.run, ResultRun(g, s.db.runs[hd.run], hd.snap.current, hd.res), hd.res, j, s'.db, r);
    var mid := s.(db := s'.db);
    NothingClaims(mid, r);
    HandlerUnclaimed(mid, h, s', r);
  }

  /** A handler moves on with the run it works for, turns to deleting, or goes. */
  lemma HandlerUnclaimed(s: System, h: Id, s': System, r: Id)
    requires Claims(s, r) == {} && h in s.handlers && !s.handlers[h].Deleting? && s'.queue == s.queue && s'.db.outbox == s.db.outbox
    requires s'.handlers == s.handlers - {h}
             || (h in s'.handlers && s'.handlers == s.handlers[h := s'.handlers[h]]
                 && (s'.handlers[h].Deleting? || s'.handlers[h].run == s.handlers[h].run))
    ensures Claims(s', r) == {}
  {
    Unclaimed(s, r);
    NothingClaims(s', r);
  }

  lemma HandlerGoneUnclaimed(s: System, h: Id, s': System, r: Id)
    requires Claims(s, r) == {} && s'.handlers == s.handlers - {h} && s'.db.outbox == s.db.outbox
    requires forall m :: m in s'.queue.msgs ==> m in s.queue.msgs && s'.queue.msgs[m] == s.queue.msgs[m]
    ensures Claims(s', r) == {}
  {
    Unclaimed(s, r);
    NothingClaims(s', r);
  }

  lemma DuplicateUnclaimed(s: System, m: nat, s': System, r: Id)
    requires Claims(s, r) == {} && m in s.queue.msgs && !s.queue.msgs[m].dead
    requires s' == s.(queue := Send(s.queue, s.queue.msgs[m].job))
    ensures Claims(s', r) == {}
  {
    Unclaimed(s, r);
    NothingClaims(s', r);
  }

  lemma DeadLetterUnclaimed(s: System, m: nat, s': System, r: Id)
    requires Claims(s, r) == {} && m in s.queue.msgs
    requires s' == s.(queue := s.queue.(msgs := s.queue.msgs[m := s.queue.msgs[m].(dead := true)]))
    ensures Claims(s', r) == {}
  {
    Unclaimed(s, r);
    NothingClaims(s', r);
  }

  lemma ReceiveUnclaimed(s: System, h: Id, m: nat, s': System, r: Id)
    requires Claims(s, r) == {} && m in s.queue.msgs && !s.queue.msgs[m].dead
    requires s' == SetHandler(s, h, Received(m, s.queue.msgs[m].job.run))
    ensures Claims(s', r) == {}
  {
    Unclaimed(s, r);
    NothingClaims(s', r);
  }

  lemma PersistStepUnclaimed(s: System, step: Step, cfg: ConfigCheck, s': System, r: Id)
    requires Inv(s) && Claims(s, r) == {} && Enabled(s, step) && s' == Apply(s, step, cfg) && step.StepPersist?
    ensures Claims(s', r) == {}
  {
    PersistUnclaimed(s, step.h, step.j, s', r);
  }

  lemma MessageStepUnclaimed(s: System, step: Step, cfg: ConfigCheck, s': System, r: Id)
    requires QueueOk(s.db, s.queue) && Claims(s, r) == {} && Enabled(s, step) && s' == Apply(s, step, cfg)
    requires step.StepRelay? || step.StepDuplicate? || step.StepDeadLetter? || step.StepReceive?
    ensures Claims(s', r) == {}
  {
    match step
    case StepRelay(locked, sent, committed) => RelayUnclaimed(s, locked, sent, committed, s', r);
    case StepDuplicate(m) => DuplicateUnclaimed(s, m, s', r);
    case StepDeadLetter(m) => DeadLetterUnclaimed(s, m, s', r);
    case StepReceive(h, m) => ReceiveUnclaimed(s, h, m, s', r);
  }

  lemma HandlerStepUnclaimed(s: System, step: Step, cfg: ConfigCheck, s': System, r: Id)
    requires Claims(s, r) == {} && Enabled(s, step) && s' == Apply(s, step, cfg) && !IsRequest(step)
    requires !step.StepRelay? && !step.StepDuplicate? && !step.StepDeadLetter? && !step.StepReceive? && !step.StepPersist?
    ensures Claims(s', r) == {}
  {
    match step
    case StepReadRun(h) => HandlerUnclaimed(s, h, s', r);
    case StepLoadNode(h) => HandlerUnclaimed(s, h, s', r);
    case StepExecute(h, outcome) => HandlerUnclaimed(s, h, s', r);
    case StepRecordFailure(h) => HandlerUnclaimed(s, h, s', r);
    case StepDelete(h) => HandlerGoneUnclaimed(s, h, s', r);
    case StepAbandon(h) => HandlerGoneUnclaimed(s, h, s', r);
  }

  // ---------------------------------------------------------------- the verdict

  lemma ParkedRow(hs: map<Id, Handler>, g: Graph, run: Run, step: Step, r: Id)
    requires Active(run.status) && NoneAtWork(hs, r)
    ensures PausesOrStops(step, r) ==> !Active(RowAfter(hs, g, run, step, r).status)
    ensures !PausesOrStops(step, r) ==> RowAfter(hs, g, run, step, r) == run
  {}

  lemma StepUnclaimed(s: System, step: Step, cfg: ConfigCheck, s': System, r: Id)
    requires Inv(s) && Claims(s, r) == {} && IsActive(s.db, r) && Enabled(s, step) && s' == Apply(s, step, cfg)
    ensures Claims(s', r) == {}
  {
    if IsDefinition(step) {
      DefinitionUnclaimed(s, step, cfg, s', r);
    } else if step.StepPause? || step.StepStop? {
      StatusRequestUnclaimed(s, step, cfg, s', r);
    } else if step.StepStart? {
      StartRequestUnclaimed(s, step, cfg, s', r);
    } else if step.StepResume? {
      ResumeRequestUnclaimed(s, step, cfg, s', r);
    } else if step.StepRetry? {
      RetryRequestUnclaimed(s, step, cfg, s', r);
    } else if step.StepPersist? {
      PersistStepUnclaimed(s, step, cfg, s', r);
    } else if step.StepRelay? || step.StepDuplicate? || step.StepDeadLetter? || step.StepReceive? {
      MessageStepUnclaimed(s, step, cfg, s', r);
    } else {
      HandlerStepUnclaimed(s, step, cfg, s', r);
    }
  }

  /** Every step leaves a parked run exactly as it is, row and all, unless it pauses or stops it. */
  lemma ParkedIff(s: System, step: Step, cfg: ConfigCheck, s': System, r: Id)
    requires Inv(s) && IsParked(s, r) && Enabled(s, step) && s' == Apply(s, step, cfg)
    ensures r in s'.db.runs
    ensures IsParked(s', r) <==> !PausesOrStops(step, r)
    ensures s'.db.runs[r] == s.db.runs[r] <==> !PausesOrStops(step, r)
  {
    Unclaimed(s, r);
    StepUnclaimed(s, step, cfg, s', r);
    RowAfterIsExact(s, step, cfg, s', r);
    ParkedRow(s.handlers, RunGraph(s.db, r), s.db.runs[r], step, r);
  }

  /** The row of a parked run. */
  ghost function ParkedRun(s: System, r: Id): Option<Run> {
    if IsParked(s, r) then Some(s.db.runs[r]) else None
  }

  lemma ParkedOn(s: System, step: Step, cfg: ConfigCheck, s': System, r: Id)
    requires Inv(s) && ParkedRun(s, r).Some? && Enabled(s, step) && s' == Apply(s, step, cfg) && !PausesOrStops(step, r)
    ensures Inv(s') && ParkedRun(s', r) == ParkedRun(s, r)
  {
    StepKeeps(s, step, cfg, s');
    ParkedIff(s, step, cfg, s', r);
  }

  /** Over any history that neither pauses nor stops it, a parked run stays parked and its row does not change. */
  lemma {:induction false} ParkedForGood(s: System, steps: seq<Step>, cfg: ConfigCheck, r: Id)
    requires Inv(s) && ParkedRun(s, r).Some? && ValidHistory(s, steps, cfg)
    requires forall step :: step in steps ==> !PausesOrStops(step, r)
    ensures ParkedRun(After(s, steps, cfg), r) == ParkedRun(s, r)
    decreases |steps|
  {
    if steps != [] {
      var s1 := Apply(s, steps[0], cfg);
      ParkedOn(s, steps[0], cfg, s1, r);
      ParkedForGood(s1, steps[1..], cfg, r);
    }
  }

  lemma TwoSteps(s: System, a: Step, b: Step, s1: System, s2: System, cfg: ConfigCheck)
    requires Enabled(s, a) && s1 == Apply(s, a, cfg) && Enabled(s1, b) && s2 == Apply(s1, b, cfg)
    ensures ValidHistory(s, [a, b], cfg) && After(s, [a, b], cfg) == s2
  {
    assert ValidHistory(s2, [], cfg) && After(s2, [], cfg) == s2;
    assert [b][1..] == [] && [a, b][1..] == [b];
    assert ValidHistory(s1, [b], cfg) && After(s1, [b], cfg) == s2;
  }

  lemma PausedThenResumed(db: Db, r: Id, j: Id, db1: Db, db2: Db)
    requires DbInv(db) && IsActive(db, r) && db1 == Committed(db, Pause(db, r)) && db2 == Committed(db1, Resume(db1, r, j))
    ensures db2.runs == db.runs[r := db.runs[r].(status := Running)]
    ensures db2.outbox == db.outbox[j := Job(r, db.runs[r].version, db.runs[r].current, 1)]
  {
    StatusKeeps(db, r, Paused, db1);
    ResumeKeeps(db1, r, j, db2);
    LastWriteWins(db.runs, r, db1.runs[r], db2.runs[r]);
  }

  /** The way out: pausing and resuming brings a row for the node the run stands at. */
  lemma PauseAndResumeRecovers(s: System, r: Id, j: Id, cfg: ConfigCheck)
    requires Inv(s) && IsParked(s, r) && Fresh(s, j)
    ensures ValidHistory(s, [StepPause(r), StepResume(r, j)], cfg)
    ensures var db' := After(s, [StepPause(r), StepResume(r, j)], cfg).db;
            && db'.runs == s.db.runs[r := s.db.runs[r].(status := Running)]
            && db'.outbox == s.db.outbox[j := Job(r, s.db.runs[r].version, s.db.runs[r].current, 1)]
  {
    var s1 := Commit(s, Pause(s.db, r));
    var s2 := Commit(s1, Resume(s1.db, r, j));
    PausedThenResumed(s.db, r, j, s1.db, s2.db);
    TwoSteps(s, StepPause(r), StepResume(r, j), s1, s2, cfg);
  }
}
