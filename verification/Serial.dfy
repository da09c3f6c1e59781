/** The serial layer: a message is handled in one piece, so no two handlers of a run overlap. Executors may answer
    anything their contract allows. Then finished runs stay finished and saved nodes never run again. */
module Serial {
  import opened Basics
  import opened Tables
  import opened StoreInvariant
  import opened RunInvariant
  import opened Routing
  import opened Protocol
  import opened SystemInvariant
  import opened Trace

  /** Where the handling of a message breaks off: a crash, a cancelled context or a failing call. */
  datatype Fault = NoFault | BeforeRead | BeforeLoad | BeforeExecute | BeforeSave | BeforeDelete

  predicate ReachesExecutor(fault: Fault) {
    fault == NoFault || fault == BeforeSave || fault == BeforeDelete
  }

  datatype SerialStep =
    | Outer(step: Step)
    | Handle(m: nat, j: Id, outcome: Outcome, fault: Fault)

  /** Handlers of the split layer do not occur as separate steps here. */
  predicate IsOuter(step: Step) {
    IsRequest(step) || step.StepRelay? || step.StepDuplicate? || step.StepDeadLetter?
  }

  /** The executor is called: the run is active and nothing broke off before. */
  ghost predicate Executes(db: Db, r: Id, fault: Fault) {
    ReachesExecutor(fault) && r in db.runs && Active(db.runs[r].status) && HasNode(db, db.runs[r].version, db.runs[r].current)
  }

  ghost function HandledDb(db: Db, r: Id, j: Id, outcome: Outcome, fault: Fault): Db {
    if !Executes(db, r, fault) || fault == BeforeSave then db
    else
      match outcome
      case Failure => FailRun(db, r)
      case Success(res) => Committed(db, PersistResult(db, r, db.runs[r].version, db.runs[r].current, res, j))
  }

  /** The message goes after a saved result, or at once when the run is inactive. */
  ghost predicate Acknowledged(db: Db, r: Id, j: Id, outcome: Outcome, fault: Fault) {
    && r in db.runs && fault != BeforeRead && fault != BeforeDelete
    && (!Active(db.runs[r].status)
        || (Executes(db, r, fault) && fault == NoFault && outcome.Success?
            && PersistResult(db, r, db.runs[r].version, db.runs[r].current, outcome.res, j).Ok?))
  }

  ghost predicate SerialEnabled(s: System, step: SerialStep) {
    match step
    case Outer(st) => IsOuter(st) && Enabled(s, st)
    case Handle(m, j, outcome, fault) =>
      && m in s.queue.msgs && !s.queue.msgs[m].dead && Fresh(s, j)
      && var r := s.queue.msgs[m].job.run;
         Executes(s.db, r, fault) && outcome.Success? ==> Fits(SnapNode(s.db, s.db.runs[r]).nodeType, outcome.res)
  }

  ghost function Handled(s: System, m: nat, r: Id, j: Id, outcome: Outcome, fault: Fault): System {
    s.(db := HandledDb(s.db, r, j, outcome, fault),
       queue := if Acknowledged(s.db, r, j, outcome, fault) then s.queue.(msgs := s.queue.msgs - {m}) else s.queue)
  }

  ghost function HandleMessage(s: System, m: nat, j: Id, outcome: Outcome, fault: Fault): System
    requires m in s.queue.msgs
  {
    Handled(s, m, s.queue.msgs[m].job.run, j, outcome, fault)
  }

  ghost function SerialApply(s: System, step: SerialStep, cfg: ConfigCheck): System
    requires SerialEnabled(s, step)
  {
    match step
    case Outer(st) => Apply(s, st, cfg)
    case Handle(m, j, outcome, fault) => HandleMessage(s, m, j, outcome, fault)
  }

  /** The state between messages: no handler is in flight. */
  ghost predicate SerialInv(s: System) {
    Inv(s) && s.handlers == map[]
  }

  // ---------------------------------------------------------------- one step

  /** What handling a message writes, when it writes. */
  lemma HandledRun(s: System, r: Id, j: Id, outcome: Outcome, fault: Fault, db': Db) returns (g: Graph)
    requires DbInv(s.db) && r in s.db.runs && db' == HandledDb(s.db, r, j, outcome, fault)
    requires Executes(s.db, r, fault) && outcome.Success? ==> Fits(SnapNode(s.db, s.db.runs[r]).nodeType, outcome.res)
    ensures DbInv(db') && Evolves(s.db, db') && db'.versions == s.db.versions
    ensures s.db.runs[r].version in s.db.versions && g == s.db.versions[s.db.runs[r].version].graph
    ensures !Executes(s.db, r, fault) || fault == BeforeSave ==> db' == s.db
    ensures Executes(s.db, r, fault) && fault != BeforeSave && outcome.Failure? ==> db' == FailRun(s.db, r)
    ensures Executes(s.db, r, fault) && fault != BeforeSave && outcome.Success? ==>
              && (outcome.res.Next? ==> NextNode(g, s.db.runs[r].current, outcome.res.edgeLabel).Some?)
              && db' == WithResult(s.db, r, ResultRun(g, s.db.runs[r], s.db.runs[r].current, outcome.res), outcome.res, j)
  {
    PublishedGraph(s.db, r);
    g := s.db.versions[s.db.runs[r].version].graph;
    if Executes(s.db, r, fault) && fault != BeforeSave {
      match outcome
      case Failure => FailKeeps(s.db, r, db');
      case Success(res) => g := PersistKeeps(s.db, r, s.db.runs[r].current, res, j, db');
    }
  }

  lemma HandleKeeps(s: System, m: nat, j: Id, outcome: Outcome, fault: Fault, s': System)
    requires SerialInv(s) && SerialEnabled(s, Handle(m, j, outcome, fault)) && s' == HandleMessage(s, m, j, outcome, fault)
    ensures SerialInv(s') && Evolves(s.db, s'.db)
  {
    assert JobPinned(s.db, s.queue.msgs[m].job);
    var g := HandledRun(s, s.queue.msgs[m].job.run, j, outcome, fault, s'.db);
    var mid := s.(db := s'.db);
    DbMoved(s, mid);
    PlaceMoved(mid, s');
  }

  lemma SerialStepKeeps(s: System, step: SerialStep, cfg: ConfigCheck, s': System)
    requires SerialInv(s) && SerialEnabled(s, step) && s' == SerialApply(s, step, cfg)
    ensures SerialInv(s') && Evolves(s.db, s'.db)
  {
    match step
    case Outer(st) => StepKeeps(s, st, cfg, s');
    case Handle(m, j, outcome, fault) => HandleKeeps(s, m, j, outcome, fault, s');
  }

  // ---------------------------------------------------------------- hop or stutter

  /** The sequential interpreter's state of a run. */
  datatype Spot = Standing(at: Checkpoint) | Final(output: Json)

  function SpotOf(run: Run): Spot {
    if run.status == Completed then Final(run.output) else Standing(At(run.current, run.output))
  }

  /** Every run keeps its spot, and completed or cancelled runs keep their status. */
  ghost predicate SpotsKept(db: Db, db': Db) {
    forall r :: r in db.runs ==> r in db'.runs && SpotOf(db'.runs[r]) == SpotOf(db.runs[r])
                                 && (Ended(db.runs[r].status) ==> db'.runs[r] == db.runs[r])
  }

  ghost predicate NewRunsPending(db: Db, db': Db) {
    forall r :: r in db'.runs && r !in db.runs ==> db'.runs[r].status == Pending
  }

  predicate Ended(s: RunStatus) {
    s == Completed || s == Cancelled
  }

  lemma OneRunKeepsSpot(db: Db, r: Id, run: Run, db': Db)
    requires db'.runs == db.runs[r := run]
    requires r in db.runs ==> SpotOf(run) == SpotOf(db.runs[r]) && (Ended(db.runs[r].status) ==> run == db.runs[r])
    requires r !in db.runs ==> run.status == Pending
    ensures SpotsKept(db, db') && NewRunsPending(db, db')
  {}

  lemma StartKeepsSpots(db: Db, w: Id, r: Id, j: Id, input: Json, db': Db)
    requires DbInv(db) && r !in db.runs && db' == Committed(db, StartRun(db, w, r, j, input))
    ensures SpotsKept(db, db') && NewRunsPending(db, db')
  {
    var run := StartKeeps(db, w, r, j, input, db');
    if StartRun(db, w, r, j, input).Ok? {
      OneRunKeepsSpot(db, r, run, db');
    }
  }

  lemma ResumeKeepsSpot(db: Db, r: Id, j: Id, db': Db)
    requires db' == Committed(db, Resume(db, r, j))
    ensures SpotsKept(db, db') && NewRunsPending(db, db')
  {
    if Resume(db, r, j).Ok? {
      OneRunKeepsSpot(db, r, db.runs[r].(status := Running), db');
    }
  }

  lemma RetryKeepsSpot(db: Db, r: Id, j: Id, db': Db)
    requires db' == Committed(db, Retry(db, r, j))
    ensures SpotsKept(db, db') && NewRunsPending(db, db')
  {
    if Retry(db, r, j).Ok? {
      OneRunKeepsSpot(db, r, db.runs[r].(status := Running, attempt := 1), db');
    }
  }

  lemma RequestKeepsSpots(s: System, step: Step, cfg: ConfigCheck, s': System)
    requires Inv(s) && IsRequest(step) && Enabled(s, step) && s' == Apply(s, step, cfg)
    ensures SpotsKept(s.db, s'.db) && NewRunsPending(s.db, s'.db)
  {
    match step
    case StepCreate(w, v) => CreateKeeps(s.db, w, v, s'.db);
    case StepSave(w, p, newId) => SaveKeeps(s.db, cfg, w, p, newId, s'.db);
    case StepPublish(w) => PublishKeeps(s.db, cfg, w, s'.db);
    case StepArchive(w) => ArchiveKeeps(s.db, w, s'.db);
    case StepStart(w, r, j, input) => StartKeepsSpots(s.db, w, r, j, input, s'.db);
    case StepPause(r) => PauseKeepsSpot(s.db, r, s'.db);
    case StepStop(r) => StopKeepsSpot(s.db, r, s'.db);
    case StepResume(r, j) => ResumeKeepsSpot(s.db, r, j, s'.db);
    case StepRetry(r, j) => RetryKeepsSpot(s.db, r, j, s'.db);
  }

  lemma PauseKeepsSpot(db: Db, r: Id, db': Db)
    requires db' == Committed(db, Pause(db, r))
    ensures SpotsKept(db, db') && NewRunsPending(db, db')
  {
    if Pause(db, r).Ok? {
      OneRunKeepsSpot(db, r, db.runs[r].(status := Paused), db');
    }
  }

  lemma StopKeepsSpot(db: Db, r: Id, db': Db)
    requires db' == Committed(db, Stop(db, r))
    ensures SpotsKept(db, db') && NewRunsPending(db, db')
  {
    if Stop(db, r).Ok? {
      OneRunKeepsSpot(db, r, db.runs[r].(status := Cancelled), db');
    }
  }

  /** The run that a step saves an executor result for. */
  ghost predicate Saves(s: System, step: SerialStep, r: Id)
    requires SerialEnabled(s, step)
  {
    step.Handle? && s.queue.msgs[step.m].job.run == r && Executes(s.db, r, step.fault)
    && step.fault != BeforeSave && step.outcome.Success?
  }

  /** One genuine hop of the interpreter from a checkpoint, with the result the executor gave there. */
  ghost predicate GenuineHop(g: Graph, from: Checkpoint, res: ExecResult, to: Spot) {
    match res
    case Finished(output) => to == Final(output)
    case Next(output, l) => NextNode(g, from.node, l).Some? && to == Standing(At(NextNode(g, from.node, l).value, output))
  }

  /** The writes of a handled message, seen from any run `r`. */
  lemma WriteHopsOrStutters(db: Db, h: Id, g: Graph, j: Id, outcome: Outcome, writes: bool, db': Db, r: Id)
    requires r in db.runs && h in db.runs && (writes ==> Active(db.runs[h].status))
    requires !writes ==> db' == db
    requires writes && outcome.Failure? ==> db' == FailRun(db, h)
    requires writes && outcome.Success? && outcome.res.Next? ==> NextNode(g, db.runs[h].current, outcome.res.edgeLabel).Some?
    requires writes && outcome.Success? ==>
               db' == WithResult(db, h, ResultRun(g, db.runs[h], db.runs[h].current, outcome.res), outcome.res, j)
    ensures r in db'.runs
    ensures if writes && outcome.Success? && r == h then
              GenuineHop(g, At(db.runs[r].current, db.runs[r].output), outcome.res, SpotOf(db'.runs[r]))
            else SpotOf(db'.runs[r]) == SpotOf(db.runs[r])
    ensures Ended(db.runs[r].status) ==> db'.runs[r] == db.runs[r]
    ensures NewRunsPending(db, db')
  {}

  lemma HandleHopsOrStutters(s: System, m: nat, j: Id, outcome: Outcome, fault: Fault, s': System, r: Id)
    requires SerialInv(s) && SerialEnabled(s, Handle(m, j, outcome, fault)) && s' == HandleMessage(s, m, j, outcome, fault)
    requires r in s.db.runs
    ensures r in s'.db.runs && s.db.runs[r].version in s.db.versions
    ensures if Saves(s, Handle(m, j, outcome, fault), r) then
              && Active(s.db.runs[r].status)
              && GenuineHop(s.db.versions[s.db.runs[r].version].graph, At(s.db.runs[r].current, s.db.runs[r].output), outcome.res,
                            SpotOf(s'.db.runs[r]))
            else SpotOf(s'.db.runs[r]) == SpotOf(s.db.runs[r])
    ensures Ended(s.db.runs[r].status) ==> s'.db.runs[r] == s.db.runs[r]
  {
    var h := s.queue.msgs[m].job.run;
    assert JobPinned(s.db, s.queue.msgs[m].job);
    var g := HandledRun(s, h, j, outcome, fault, s'.db);
    assert RunPinned(s.db, s.db.runs[r]);
    WriteHopsOrStutters(s.db, h, g, j, outcome, Executes(s.db, h, fault) && fault != BeforeSave, s'.db, r);
  }

  /** Refinement: for every run, a step is one genuine hop from its checkpoint or leaves (node, last output) alone,
      and completed and cancelled are absorbing. */
  lemma HopOrStutter(s: System, step: SerialStep, cfg: ConfigCheck, s': System, r: Id)
    requires SerialInv(s) && SerialEnabled(s, step) && s' == SerialApply(s, step, cfg) && r in s.db.runs
    ensures r in s'.db.runs && s.db.runs[r].version in s.db.versions
    ensures if Saves(s, step, r) then
              && Active(s.db.runs[r].status)
              && GenuineHop(s.db.versions[s.db.runs[r].version].graph, At(s.db.runs[r].current, s.db.runs[r].output),
                            step.outcome.res, SpotOf(s'.db.runs[r]))
            else SpotOf(s'.db.runs[r]) == SpotOf(s.db.runs[r])
    ensures Ended(s.db.runs[r].status) ==> s'.db.runs[r] == s.db.runs[r]
  {
    match step
    case Handle(m, j, outcome, fault) => HandleHopsOrStutters(s, m, j, outcome, fault, s', r);
    case Outer(st) =>
      assert RunPinned(s.db, s.db.runs[r]);
      if IsRequest(st) {
        RequestKeepsSpots(s, st, cfg, s');
      }
  }

  /** Rows appear only by Start, as pending runs. */
  lemma OnlyPendingRunsAppear(s: System, step: SerialStep, cfg: ConfigCheck, s': System)
    requires SerialInv(s) && SerialEnabled(s, step) && s' == SerialApply(s, step, cfg)
    ensures NewRunsPending(s.db, s'.db)
  {
    match step
    case Handle(m, j, outcome, fault) =>
      var h := s.queue.msgs[m].job.run;
      assert JobPinned(s.db, s.queue.msgs[m].job);
      HandleHopsOrStutters(s, m, j, outcome, fault, s', h);
      HandledAddsNothing(s.db, h, j, outcome, fault);
    case Outer(st) =>
      if IsRequest(st) {
        RequestKeepsSpots(s, st, cfg, s');
      }
  }

  lemma HandledAddsNothing(db: Db, r: Id, j: Id, outcome: Outcome, fault: Fault)
    ensures forall x :: x in HandledDb(db, r, j, outcome, fault).runs ==> x in db.runs
  {}
}
