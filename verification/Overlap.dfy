/** Where the unguarded updates show: which steps take a run out of a status, and when a late failure derails it. */
module Overlap {
  import opened Basics
  import opened Tables
  import opened StoreInvariant
  import opened RunInvariant
  import opened Protocol
  import opened SystemInvariant
  import opened Trace

  /** A handler of `r` writes the run row. */
  ghost predicate WritesRun(hs: map<Id, Handler>, step: Step, r: Id) {
    || (step.StepPersist? && step.h in hs && hs[step.h].HaveResult? && hs[step.h].run == r)
    || (step.StepRecordFailure? && step.h in hs && hs[step.h].HaveError? && hs[step.h].run == r)
  }

  /** The row a handler writes: from its own snapshot, whatever happened since. */
  ghost function SavedRow(g: Graph, run: Run, hd: Handler): Run
    requires hd.HaveResult?
  {
    match hd.res
    case Finished(output) => run.(status := Completed, output := output)
    case Next(output, l) =>
      var next := NextNode(g, hd.snap.current, l);
      if next.None? then run else run.(status := Running, current := next.value, attempt := 1, output := output)
  }

  /** What a step does to the row of `r`, whose version has graph `g`: the complete effect of any step on one run. */
  ghost function RowAfter(hs: map<Id, Handler>, g: Graph, run: Run, step: Step, r: Id): Run {
    match step
    case StepPause(x) =>
      if x == r && (run.status == Pending || run.status == Running || run.status == Paused) then run.(status := Paused) else run
    case StepStop(x) =>
      if x == r && run.status != Failed && run.status != Completed then run.(status := Cancelled) else run
    case StepResume(x, _) => if x == r && run.status == Paused then run.(status := Running) else run
    case StepRetry(x, _) => if x == r && run.status == Failed then run.(status := Running, attempt := 1) else run
    case StepPersist(h, _) => if WritesRun(hs, step, r) then SavedRow(g, run, hs[h]) else run
    case StepRecordFailure(h) =>
      if WritesRun(hs, step, r) then run.(status := Failed, attempt := run.attempt + 1) else run
    case _ => run
  }

  lemma PauseRow(db: Db, x: Id, db': Db, r: Id)
    requires r in db.runs && db' == Committed(db, Pause(db, x))
    ensures r in db'.runs
    ensures db'.runs[r] == if x == r && Pausable(db.runs[r].status) then db.runs[r].(status := Paused) else db.runs[r]
  {}

  lemma StopRow(db: Db, x: Id, db': Db, r: Id)
    requires r in db.runs && db' == Committed(db, Stop(db, x))
    ensures r in db'.runs
    ensures db'.runs[r] == if x == r && Stoppable(db.runs[r].status) then db.runs[r].(status := Cancelled) else db.runs[r]
  {}

  lemma RowOf(db: Db, x: Id, run: Run, j: Id, db': Db, r: Id)
    requires r in db.runs && db' == WithRunAndJob(db, x, run, j)
    ensures r in db'.runs && db'.runs[r] == if x == r then run else db.runs[r]
  {}

  lemma ResumeRow(db: Db, x: Id, j: Id, db': Db, r: Id)
    requires DbInv(db) && r in db.runs && db' == Committed(db, Resume(db, x, j))
    ensures r in db'.runs
    ensures db'.runs[r] == if x == r && db.runs[r].status == Paused then db.runs[r].(status := Running) else db.runs[r]
  {
    ResumeKeeps(db, x, j, db');
    if Resume(db, x, j).Ok? {
      RowOf(db, x, db.runs[x].(status := Running), j, db', r);
    }
  }

  lemma RetryRow(db: Db, x: Id, j: Id, db': Db, r: Id)
    requires DbInv(db) && r in db.runs && db' == Committed(db, Retry(db, x, j))
    ensures r in db'.runs
    ensures db'.runs[r] == if x == r && db.runs[r].status == Failed then db.runs[r].(status := Running, attempt := 1) else db.runs[r]
  {
    RetryKeeps(db, x, j, db');
    if Retry(db, x, j).Ok? {
      RowOf(db, x, db.runs[x].(status := Running, attempt := 1), j, db', r);
    }
  }

  lemma StartRow(db: Db, w: Id, x: Id, j: Id, input: Json, db': Db, r: Id)
    requires DbInv(db) && r in db.runs && x !in db.runs && db' == Committed(db, StartRun(db, w, x, j, input))
    ensures r in db'.runs && db'.runs[r] == db.runs[r]
  {
    var run := StartKeeps(db, w, x, j, input, db');
    if StartRun(db, w, x, j, input).Ok? {
      RowOf(db, x, run, j, db', r);
    }
  }

  lemma StopRequestRow(s: System, step: Step, cfg: ConfigCheck, s': System, g: Graph, r: Id)
    requires Enabled(s, step) && s' == Apply(s, step, cfg) && r in s.db.runs && (step.StepPause? || step.StepStop?)
    ensures r in s'.db.runs && s'.db.runs[r] == RowAfter(s.handlers, g, s.db.runs[r], step, r)
  {
    if step.StepPause? {
      PauseRow(s.db, step.r, s'.db, r);
    } else {
      StopRow(s.db, step.r, s'.db, r);
    }
  }

  lemma StartedRow(s: System, w: Id, x: Id, j: Id, input: Json, s': System, r: Id)
    requires DbInv(s.db) && r in s.db.runs && x !in s.db.runs && s' == StartARun(s, w, x, j, input)
    ensures r in s'.db.runs && s'.db.runs[r] == s.db.runs[r]
  {
    StartRow(s.db, w, x, j, input, s'.db, r);
  }

  lemma StartRequestRow(s: System, step: Step, cfg: ConfigCheck, s': System, g: Graph, r: Id)
    requires DbInv(s.db) && Enabled(s, step) && s' == Apply(s, step, cfg) && r in s.db.runs && step.StepStart?
    ensures r in s'.db.runs && s'.db.runs[r] == RowAfter(s.handlers, g, s.db.runs[r], step, r)
  {
    StartedRow(s, step.w, step.r, step.j, step.input, s', r);
  }

  lemma ResumeRequestRow(s: System, step: Step, cfg: ConfigCheck, s': System, g: Graph, r: Id)
    requires DbInv(s.db) && Enabled(s, step) && s' == Apply(s, step, cfg) && r in s.db.runs && step.StepResume?
    ensures r in s'.db.runs && s'.db.runs[r] == RowAfter(s.handlers, g, s.db.runs[r], step, r)
  {
    ResumeRow(s.db, step.r, step.j, s'.db, r);
  }

  lemma RetryRequestRow(s: System, step: Step, cfg: ConfigCheck, s': System, g: Graph, r: Id)
    requires DbInv(s.db) && Enabled(s, step) && s' == Apply(s, step, cfg) && r in s.db.runs && step.StepRetry?
    ensures r in s'.db.runs && s'.db.runs[r] == RowAfter(s.handlers, g, s.db.runs[r], step, r)
  {
    RetryRow(s.db, step.r, step.j, s'.db, r);
  }

  lemma ResultRow(db: Db, x: Id, run: Run, res: ExecResult, j: Id, db': Db, r: Id)
    requires r in db.runs && db' == WithResult(db, x, run, res, j)
    ensures r in db'.runs && db'.runs[r] == if x == r then run else db.runs[r]
  {}

  lemma PersistRow(s: System, h: Id, j: Id, s': System, g: Graph, r: Id)
    requires Inv(s) && h in s.handlers && s.handlers[h].HaveResult? && s' == Persist(s, h, s.handlers[h], j)
    requires r in s.db.runs && s.db.runs[r].version in s.db.versions && g == s.db.versions[s.db.runs[r].version].graph
    ensures r in s'.db.runs
    ensures s'.db.runs[r] == if s.handlers[h].run == r then SavedRow(g, s.db.runs[r], s.handlers[h]) else s.db.runs[r]
    ensures s.handlers[h].run == r && s.handlers[h].res.Next? ==>
              NextNode(g, s.handlers[h].snap.current, s.handlers[h].res.edgeLabel).Some?
  {
    var hd := s.handlers[h];
    var g' := PersistStep(s, h, j, s');
    ResultRow(s.db, hd.run, ResultRun(g', s.db.runs[hd.run], hd.snap.current, hd.res), hd.res, j, s'.db, r);
  }

  ghost function RunGraph(db: Db, r: Id): Graph
    requires r in db.runs && db.runs[r].version in db.versions
  {
    db.versions[db.runs[r].version].graph
  }

  /** The effect is exact for every step of every interleaving, and a saved result always finds its next node. */
  lemma RowAfterIsExact(s: System, step: Step, cfg: ConfigCheck, s': System, r: Id)
    requires Inv(s) && Enabled(s, step) && s' == Apply(s, step, cfg) && r in s.db.runs
    ensures s.db.runs[r].version in s.db.versions && r in s'.db.runs
    ensures s'.db.runs[r] == RowAfter(s.handlers, RunGraph(s.db, r), s.db.runs[r], step, r)
    ensures step.StepPersist? && WritesRun(s.handlers, step, r) && s.handlers[step.h].res.Next? ==>
              NextNode(RunGraph(s.db, r), s.handlers[step.h].snap.current, s.handlers[step.h].res.edgeLabel).Some?
  {
    assert RunPinned(s.db, s.db.runs[r]);
    if IsDefinition(step) {
      DefinitionKeepsRuns(s, step, cfg, s');
    } else if step.StepPause? || step.StepStop? {
      StopRequestRow(s, step, cfg, s', RunGraph(s.db, r), r);
    } else if step.StepStart? {
      StartRequestRow(s, step, cfg, s', RunGraph(s.db, r), r);
    } else if step.StepResume? {
      ResumeRequestRow(s, step, cfg, s', RunGraph(s.db, r), r);
    } else if step.StepRetry? {
      RetryRequestRow(s, step, cfg, s', RunGraph(s.db, r), r);
    } else if step.StepPersist? {
      PersistRow(s, step.h, step.j, s', RunGraph(s.db, r), r);
    } else {
      WorkRow(s, step, cfg, s', r);
    }
  }

  lemma WorkRow(s: System, step: Step, cfg: ConfigCheck, s': System, r: Id)
    requires Enabled(s, step) && s' == Apply(s, step, cfg) && r in s.db.runs && !IsRequest(step) && !step.StepPersist?
    ensures r in s'.db.runs
    ensures s'.db.runs[r] == if WritesRun(s.handlers, step, r) then FailedRun(s.db.runs[r]) else s.db.runs[r]
  {}

  // ---------------------------------------------------------------- which steps end a status

  ghost predicate LooksUpOk(hs: map<Id, Handler>, g: Graph, step: Step, r: Id) {
    step.StepPersist? && WritesRun(hs, step, r) && hs[step.h].res.Next? ==>
      NextNode(g, hs[step.h].snap.current, hs[step.h].res.edgeLabel).Some?
  }

  predicate PausesOrStops(step: Step, r: Id) {
    (step.StepPause? || step.StepStop?) && step.r == r
  }

  /** The steps that take run `r` out of status `from`. */
  ghost predicate Leaves(hs: map<Id, Handler>, step: Step, r: Id, from: RunStatus) {
    var writes := WritesRun(hs, step, r);
    match from
    case Pending => writes || PausesOrStops(step, r)
    case Running => (writes && (step.StepPersist? ==> hs[step.h].res.Finished?)) || PausesOrStops(step, r)
    case Paused => writes || ((step.StepResume? || step.StepStop?) && step.r == r)
    case Failed => (writes && step.StepPersist?) || (step.StepRetry? && step.r == r)
    case Completed => writes && (step.StepPersist? ==> hs[step.h].res.Next?)
    case Cancelled => writes
  }

  lemma StatusAfter(hs: map<Id, Handler>, g: Graph, run: Run, step: Step, r: Id)
    requires LooksUpOk(hs, g, step, r)
    ensures RowAfter(hs, g, run, step, r).status != run.status <==> Leaves(hs, step, r, run.status)
  {}

  /** Each of the six statuses is left in exactly the steps `Leaves` lists. Whatever the status, a handler that read the
      row earlier may write it: it takes a cancelled, paused or failed run back into execution, and a completed one. */
  lemma StatusLeftIff(s: System, step: Step, cfg: ConfigCheck, s': System, r: Id, run: Run, run': Run)
    requires Inv(s) && Enabled(s, step) && s' == Apply(s, step, cfg)
    requires r in s.db.runs && run == s.db.runs[r] && r in s'.db.runs && run' == s'.db.runs[r]
    ensures run'.status != run.status <==> Leaves(s.handlers, step, r, run.status)
  {
    RowAfterIsExact(s, step, cfg, s', r);
    StatusAfter(s.handlers, RunGraph(s.db, r), run, step, r);
  }

  // ---------------------------------------------------------------- a failure recorded too late

  /** The trace hands node `n` the very value it ends with. */
  ghost predicate FedFinalResult(p: Plan, exec: Executor, n: Id) {
    exists o :: IsFinal(p, exec, o) && OnTrace(p, exec, At(n, o))
  }

  lemma FailedRowOnTraceIff(p: Plan, exec: Executor, run: Run)
    requires RunOnTrace(p, exec, run) && run.status == Completed
    ensures RunOnTrace(p, exec, FailedRun(run)) <==> FedFinalResult(p, exec, run.current)
  {
    if FedFinalResult(p, exec, run.current) {
      var o :| IsFinal(p, exec, o) && OnTrace(p, exec, At(run.current, o));
      FinalIsUnique(p, exec, o, run.output);
    }
  }

  /** With transient errors, recording a failure keeps the run on its trace exactly when the run has not completed
      meanwhile, or its trace happens to feed its current node the final result; otherwise Retry would now feed that
      node a value it never gets on the trace. */
  lemma FailureStaysOnTraceIff(s: System, step: Step, cfg: ConfigCheck, s': System, exec: Executor, r: Id)
    requires Inv(s) && TraceInv(s, exec, false) && Enabled(s, step) && step.StepRecordFailure? && s' == Apply(s, step, cfg)
    requires r == s.handlers[step.h].run && HasPlan(s.db, s.inputs, r)
    ensures HasPlan(s'.db, s'.inputs, r) && PlanOf(s'.db, s'.inputs, r) == PlanOf(s.db, s.inputs, r)
    ensures RunOnTrace(PlanOf(s.db, s.inputs, r), exec, s'.db.runs[r]) <==>
            !LateFailure(s, step) || FedFinalResult(PlanOf(s.db, s.inputs, r), exec, s.db.runs[r].current)
  {
    assert HandlerOk(s.db, s.handlers[step.h]);
    StepKeeps(s, step, cfg, s');
    PlanKept(s, s', r);
    RowAfterIsExact(s, step, cfg, s', r);
    if LateFailure(s, step) {
      FailedRowOnTraceIff(PlanOf(s.db, s.inputs, r), exec, s.db.runs[r]);
    } else {
      FailureTraces(s, step.h, s', exec, false);
    }
  }
}
