/** Overlapping handlers, duplicates and stale snapshots never leave the one sequential execution of a run. */
module Trace {
  import opened Basics
  import opened Tables
  import opened StoreInvariant
  import opened RunInvariant
  import opened Protocol
  import opened SystemInvariant

  /** A node about to run, and its input. */
  datatype Checkpoint = At(node: Id, input: Json)

  /** A deterministic executor: the outcome depends on what it is handed, the version, the node with its row, and the
      input. */
  type Executor = (Id, Id, NodeRow, Json) -> Outcome

  /** What a run is pinned to: its version with the graph, and its first checkpoint. */
  datatype Plan = Plan(version: Id, graph: Graph, origin: Checkpoint)

  ghost function OutcomeAt(p: Plan, exec: Executor, c: Checkpoint): Outcome {
    if c.node in p.graph.nodes then exec(p.version, c.node, p.graph.nodes[c.node], c.input) else Failure
  }

  /** What the executor answers a handler that read `snap` and loaded `row`. */
  function Answer(exec: Executor, snap: Run, row: NodeRow): Outcome {
    exec(snap.version, snap.current, row, snap.output)
  }

  /** The sequential interpreter: one hop. */
  ghost function Hop(p: Plan, exec: Executor, c: Checkpoint): Option<Checkpoint> {
    match OutcomeAt(p, exec, c)
    case Success(Next(output, l)) =>
      var next := NextNode(p.graph, c.node, l);
      if next.Some? then Some(At(next.value, output)) else None
    case _ => None
  }

  ghost function TraceAt(p: Plan, exec: Executor, k: nat): Option<Checkpoint> {
    if k == 0 then Some(p.origin)
    else
      var c := TraceAt(p, exec, k - 1);
      if c.None? then None else Hop(p, exec, c.value)
  }

  ghost predicate OnTrace(p: Plan, exec: Executor, c: Checkpoint) {
    exists k: nat :: TraceAt(p, exec, k) == Some(c)
  }

  ghost predicate FinishesAt(p: Plan, exec: Executor, c: Checkpoint, output: Json) {
    OnTrace(p, exec, c) && OutcomeAt(p, exec, c) == Success(Finished(output))
  }

  /** `output` is the final result of the trace. */
  ghost predicate IsFinal(p: Plan, exec: Executor, output: Json) {
    exists c :: FinishesAt(p, exec, c, output)
  }

  // ---------------------------------------------------------------- the trace is one line

  lemma {:induction false} StopsEndTrace(p: Plan, exec: Executor, i: nat, j: nat, c: Checkpoint)
    requires TraceAt(p, exec, i) == Some(c) && Hop(p, exec, c).None? && i < j
    ensures TraceAt(p, exec, j).None?
  {
    if i < j - 1 {
      StopsEndTrace(p, exec, i, j - 1, c);
    }
  }

  /** At most one checkpoint of a trace does not hop on. */
  lemma OneStop(p: Plan, exec: Executor, c: Checkpoint, d: Checkpoint)
    requires OnTrace(p, exec, c) && OnTrace(p, exec, d)
    requires Hop(p, exec, c).None? && Hop(p, exec, d).None?
    ensures c == d
  {
    var i: nat :| TraceAt(p, exec, i) == Some(c);
    var j: nat :| TraceAt(p, exec, j) == Some(d);
    if i < j {
      StopsEndTrace(p, exec, i, j, c);
    } else if j < i {
      StopsEndTrace(p, exec, j, i, d);
    }
  }

  /** So the final result is unique, and a trace that finishes meets no error. */
  lemma FinalIsUnique(p: Plan, exec: Executor, a: Json, b: Json)
    requires IsFinal(p, exec, a) && IsFinal(p, exec, b)
    ensures a == b
  {
    var c :| FinishesAt(p, exec, c, a);
    var d :| FinishesAt(p, exec, d, b);
    OneStop(p, exec, c, d);
  }

  lemma FinishedMeansNoError(p: Plan, exec: Executor, a: Json, d: Checkpoint)
    requires IsFinal(p, exec, a) && OnTrace(p, exec, d)
    ensures OutcomeAt(p, exec, d) != Failure
  {
    if OutcomeAt(p, exec, d) == Failure {
      var c :| FinishesAt(p, exec, c, a);
      OneStop(p, exec, c, d);
    }
  }

  lemma HopStaysOnTrace(p: Plan, exec: Executor, c: Checkpoint)
    requires OnTrace(p, exec, c) && Hop(p, exec, c).Some?
    ensures OnTrace(p, exec, Hop(p, exec, c).value)
  {
    var k: nat :| TraceAt(p, exec, k) == Some(c);
    assert TraceAt(p, exec, k + 1) == Hop(p, exec, c);
  }

  // ---------------------------------------------------------------- the system

  ghost function StartNode(g: Graph): Id {
    if s :| s in Starts(g) then s else NIL
  }

  ghost function PlanOf(db: Db, inputs: map<Id, Json>, r: Id): Plan
    requires r in db.runs && db.runs[r].version in db.versions && r in inputs
  {
    var g := db.versions[db.runs[r].version].graph;
    Plan(db.runs[r].version, g, At(StartNode(g), inputs[r]))
  }

  ghost predicate HasPlan(db: Db, inputs: map<Id, Json>, r: Id) {
    r in db.runs && db.runs[r].version in db.versions && r in inputs
  }

  /** A run that is not completed stands on its trace; a completed one holds the trace's final result. */
  ghost predicate RunOnTrace(p: Plan, exec: Executor, run: Run) {
    if run.status == Completed then IsFinal(p, exec, run.output)
    else OnTrace(p, exec, At(run.current, run.output))
  }

  /** A snapshot stands on the trace, and what was computed from it is what the executor says. `strict` records
      that errors are the executor's too, not transient. */
  ghost predicate HandlerOnTrace(p: Plan, exec: Executor, strict: bool, hd: Handler) {
    match hd
    case Received(_, _) => true
    case HaveRun(_, _, snap) => OnTrace(p, exec, At(snap.current, snap.output))
    case HaveNode(_, _, snap, _) => OnTrace(p, exec, At(snap.current, snap.output))
    case HaveResult(_, _, snap, res) =>
      OnTrace(p, exec, At(snap.current, snap.output)) && OutcomeAt(p, exec, At(snap.current, snap.output)) == Success(res)
    case HaveError(_, _, snap) =>
      OnTrace(p, exec, At(snap.current, snap.output))
      && (strict ==> OutcomeAt(p, exec, At(snap.current, snap.output)) == Failure)
    case Deleting(_) => true
  }

  ghost predicate RunsOnTrace(db: Db, inputs: map<Id, Json>, exec: Executor) {
    forall r :: r in db.runs ==> HasPlan(db, inputs, r) && RunOnTrace(PlanOf(db, inputs, r), exec, db.runs[r])
  }

  ghost predicate HandlersOnTrace(db: Db, inputs: map<Id, Json>, exec: Executor, strict: bool, hs: map<Id, Handler>) {
    forall h :: h in hs && !hs[h].Deleting? ==>
      HasPlan(db, inputs, hs[h].run) && HandlerOnTrace(PlanOf(db, inputs, hs[h].run), exec, strict, hs[h])
  }

  ghost predicate TraceInv(s: System, exec: Executor, strict: bool) {
    RunsOnTrace(s.db, s.inputs, exec) && HandlersOnTrace(s.db, s.inputs, exec, strict, s.handlers)
  }

  /** The step runs the executor: its outcome, or, unless `strict`, also a transient error. */
  ghost predicate Conforms(s: System, step: Step, exec: Executor, strict: bool)
    requires Enabled(s, step)
  {
    step.StepExecute? ==>
      var hd := s.handlers[step.h];
      step.outcome == Answer(exec, hd.snap, hd.node) || (!strict && step.outcome == Failure)
  }

  /** A failure is recorded on a run that has meanwhile completed. */
  ghost predicate LateFailure(s: System, step: Step)
    requires Enabled(s, step)
  {
    step.StepRecordFailure? && s.handlers[step.h].run in s.db.runs && s.db.runs[s.handlers[step.h].run].status == Completed
  }

  // ---------------------------------------------------------------- steps

  /** Neither pinned graphs nor recorded inputs change under a run. */
  ghost predicate PlansKept(s: System, s': System) {
    && Evolves(s.db, s'.db)
    && forall r :: r in s.db.runs && r in s.inputs ==> r in s'.inputs && s'.inputs[r] == s.inputs[r]
  }

  lemma PlanKept(s: System, s': System, r: Id)
    requires Pinned(s.db) && PlansKept(s, s') && HasPlan(s.db, s.inputs, r)
    ensures HasPlan(s'.db, s'.inputs, r) && PlanOf(s'.db, s'.inputs, r) == PlanOf(s.db, s.inputs, r)
  {
    assert RunPinned(s.db, s.db.runs[r]);
  }

  predicate SameSpot(a: Run, b: Run) {
    a.current == b.current && a.output == b.output && (a.status == Completed <==> b.status == Completed)
  }

  lemma HandlersKeepTrace(s: System, s': System, exec: Executor, strict: bool)
    requires Pinned(s.db) && PlansKept(s, s') && HandlersOnTrace(s.db, s.inputs, exec, strict, s.handlers)
    ensures HandlersOnTrace(s'.db, s'.inputs, exec, strict, s.handlers)
  {
    forall h | h in s.handlers && !s.handlers[h].Deleting?
      ensures HasPlan(s'.db, s'.inputs, s.handlers[h].run)
              && HandlerOnTrace(PlanOf(s'.db, s'.inputs, s.handlers[h].run), exec, strict, s.handlers[h])
    {
      PlanKept(s, s', s.handlers[h].run);
    }
  }

  /** One run row was written, to a justified place; the others stayed. */
  lemma RunKeepsTrace(s: System, s': System, exec: Executor, strict: bool, r: Id)
    requires Pinned(s.db) && PlansKept(s, s') && TraceInv(s, exec, strict) && s'.handlers == s.handlers
    requires forall x :: x in s'.db.runs && x != r ==> x in s.db.runs && s'.db.runs[x] == s.db.runs[x]
    requires r in s'.db.runs ==> HasPlan(s'.db, s'.inputs, r) && RunOnTrace(PlanOf(s'.db, s'.inputs, r), exec, s'.db.runs[r])
    ensures TraceInv(s', exec, strict)
  {
    forall x | x in s'.db.runs ensures HasPlan(s'.db, s'.inputs, x) && RunOnTrace(PlanOf(s'.db, s'.inputs, x), exec, s'.db.runs[x]) {
      if x != r {
        PlanKept(s, s', x);
      }
    }
    HandlersKeepTrace(s, s', exec, strict);
  }

  /** A status change that does not complete or un-complete stays on the same spot. */
  lemma SpotKeepsTrace(s: System, s': System, exec: Executor, strict: bool, r: Id)
    requires Pinned(s.db) && PlansKept(s, s') && TraceInv(s, exec, strict) && s'.handlers == s.handlers
    requires forall x :: x in s'.db.runs && x != r ==> x in s.db.runs && s'.db.runs[x] == s.db.runs[x]
    requires r in s.db.runs && r in s'.db.runs && SameSpot(s.db.runs[r], s'.db.runs[r])
    ensures TraceInv(s', exec, strict)
  {
    PlanKept(s, s', r);
    RunKeepsTrace(s, s', exec, strict, r);
  }

  /** No run row was written. */
  lemma NoRunKeepsTrace(s: System, s': System, exec: Executor, strict: bool)
    requires Pinned(s.db) && PlansKept(s, s') && TraceInv(s, exec, strict) && s'.handlers == s.handlers
    requires s'.db.runs == s.db.runs
    ensures TraceInv(s', exec, strict)
  {
    forall x | x in s'.db.runs ensures HasPlan(s'.db, s'.inputs, x) && RunOnTrace(PlanOf(s'.db, s'.inputs, x), exec, s'.db.runs[x]) {
      PlanKept(s, s', x);
    }
    HandlersKeepTrace(s, s', exec, strict);
  }

  lemma NewRunTraces(s: System, r: Id, run: Run, j: Id, s': System, exec: Executor, strict: bool)
    requires Pinned(s.db) && Evolves(s.db, s'.db) && TraceInv(s, exec, strict) && r !in s.db.runs && s'.handlers == s.handlers
    requires s'.db == WithRunAndJob(s.db, r, run, j) && s'.inputs == s.inputs[r := run.output]
    requires run.status == Pending && run.version in s.db.versions && Starts(s.db.versions[run.version].graph) == {run.current}
    ensures TraceInv(s', exec, strict)
  {
    FirstCheckpoint(s'.db, s'.inputs, r, exec);
    RunKeepsTrace(s, s', exec, strict, r);
  }

  lemma StartTraces(s: System, w: Id, r: Id, j: Id, input: Json, s': System, exec: Executor, strict: bool)
    requires Inv(s) && TraceInv(s, exec, strict) && r !in s.db.runs && s' == StartARun(s, w, r, j, input)
    ensures TraceInv(s', exec, strict)
  {
    var run := StartKeeps(s.db, w, r, j, input, s'.db);
    if StartRun(s.db, w, r, j, input).Ok? {
      NewRunTraces(s, r, run, j, s', exec, strict);
    }
  }

  lemma FirstCheckpoint(db: Db, inputs: map<Id, Json>, r: Id, exec: Executor)
    requires r in db.runs && db.runs[r].version in db.versions && r in inputs && db.runs[r].status == Pending
    requires Starts(db.versions[db.runs[r].version].graph) == {db.runs[r].current} && db.runs[r].output == inputs[r]
    ensures RunOnTrace(PlanOf(db, inputs, r), exec, db.runs[r])
  {
    assert db.runs[r].current in Starts(db.versions[db.runs[r].version].graph);
    assert TraceAt(PlanOf(db, inputs, r), exec, 0) == Some(At(db.runs[r].current, db.runs[r].output));
  }

  lemma PauseTraces(s: System, r: Id, s': System, exec: Executor, strict: bool)
    requires Pinned(s.db) && Evolves(s.db, s'.db) && TraceInv(s, exec, strict) && s' == Commit(s, Pause(s.db, r))
    ensures TraceInv(s', exec, strict)
  {
    if Pause(s.db, r).Ok? {
      SpotKeepsTrace(s, s', exec, strict, r);
    }
  }

  lemma StopTraces(s: System, r: Id, s': System, exec: Executor, strict: bool)
    requires Pinned(s.db) && Evolves(s.db, s'.db) && TraceInv(s, exec, strict) && s' == Commit(s, Stop(s.db, r))
    ensures TraceInv(s', exec, strict)
  {
    if Stop(s.db, r).Ok? {
      SpotKeepsTrace(s, s', exec, strict, r);
    }
  }

  lemma RequeuedOnSpot(s: System, r: Id, run: Run, j: Id, s': System, exec: Executor, strict: bool)
    requires Pinned(s.db) && Evolves(s.db, s'.db) && TraceInv(s, exec, strict) && r in s.db.runs
    requires s' == s.(db := WithRunAndJob(s.db, r, run, j)) && SameSpot(s.db.runs[r], run)
    ensures TraceInv(s', exec, strict)
  {
    SpotKeepsTrace(s, s', exec, strict, r);
  }

  lemma ResumeTraces(s: System, r: Id, j: Id, s': System, exec: Executor, strict: bool)
    requires Inv(s) && Evolves(s.db, s'.db) && TraceInv(s, exec, strict) && s' == Commit(s, Resume(s.db, r, j))
    ensures TraceInv(s', exec, strict)
  {
    ResumeKeeps(s.db, r, j, s'.db);
    if Resume(s.db, r, j).Ok? {
      RequeuedOnSpot(s, r, s.db.runs[r].(status := Running), j, s', exec, strict);
    }
  }

  lemma RetryTraces(s: System, r: Id, j: Id, s': System, exec: Executor, strict: bool)
    requires Inv(s) && Evolves(s.db, s'.db) && TraceInv(s, exec, strict) && s' == Commit(s, Retry(s.db, r, j))
    ensures TraceInv(s', exec, strict)
  {
    RetryKeeps(s.db, r, j, s'.db);
    if Retry(s.db, r, j).Ok? {
      RequeuedOnSpot(s, r, s.db.runs[r].(status := Running, attempt := 1), j, s', exec, strict);
    }
  }

  predicate IsDefinition(step: Step) {
    step.StepCreate? || step.StepSave? || step.StepPublish? || step.StepArchive?
  }

  lemma DefinitionKeepsRuns(s: System, step: Step, cfg: ConfigCheck, s': System)
    requires Inv(s) && Enabled(s, step) && s' == Apply(s, step, cfg) && IsDefinition(step)
    ensures s'.db.runs == s.db.runs && s'.inputs == s.inputs && s'.handlers == s.handlers
  {
    match step
    case StepCreate(w, v) => CreateKeeps(s.db, w, v, s'.db);
    case StepSave(w, p, newId) => SaveKeeps(s.db, cfg, w, p, newId, s'.db);
    case StepPublish(w) => PublishKeeps(s.db, cfg, w, s'.db);
    case StepArchive(w) => ArchiveKeeps(s.db, w, s'.db);
  }

  lemma DefinitionTraces(s: System, step: Step, cfg: ConfigCheck, s': System, exec: Executor, strict: bool)
    requires Inv(s) && TraceInv(s, exec, strict) && Enabled(s, step) && IsDefinition(step) && s' == Apply(s, step, cfg)
    requires Evolves(s.db, s'.db)
    ensures TraceInv(s', exec, strict)
  {
    DefinitionKeepsRuns(s, step, cfg, s');
    NoRunKeepsTrace(s, s', exec, strict);
  }

  lemma RunRequestTraces(s: System, step: Step, cfg: ConfigCheck, s': System, exec: Executor, strict: bool)
    requires Inv(s) && TraceInv(s, exec, strict) && Enabled(s, step) && IsRequest(step) && !IsDefinition(step)
    requires s' == Apply(s, step, cfg) && Evolves(s.db, s'.db)
    ensures TraceInv(s', exec, strict)
  {
    match step
    case StepStart(w, r, j, input) => StartTraces(s, w, r, j, input, s', exec, strict);
    case StepPause(r) => PauseTraces(s, r, s', exec, strict);
    case StepStop(r) => StopTraces(s, r, s', exec, strict);
    case StepResume(r, j) => ResumeTraces(s, r, j, s', exec, strict);
    case StepRetry(r, j) => RetryTraces(s, r, j, s', exec, strict);
  }

  // ---------------------------------------------------------------- handlers

  /** One handler moved to a place that the trace justifies. */
  lemma PlacedOnTrace(s: System, h: Id, hd: Handler, s': System, exec: Executor, strict: bool)
    requires TraceInv(s, exec, strict) && s' == SetHandler(s, h, hd)
    requires !hd.Deleting? ==>
               HasPlan(s.db, s.inputs, hd.run) && HandlerOnTrace(PlanOf(s.db, s.inputs, hd.run), exec, strict, hd)
    ensures TraceInv(s', exec, strict)
  {}

  lemma DroppedOnTrace(s: System, h: Id, s': System, exec: Executor, strict: bool)
    requires TraceInv(s, exec, strict) && s'.handlers == s.handlers - {h} && s'.db.runs == s.db.runs
    requires s'.db.versions == s.db.versions && s'.inputs == s.inputs
    ensures TraceInv(s', exec, strict)
  {
    RunsUntouched(s, s', exec);
    forall x | x in s'.handlers && !s'.handlers[x].Deleting?
      ensures HasPlan(s'.db, s'.inputs, s'.handlers[x].run)
              && HandlerOnTrace(PlanOf(s'.db, s'.inputs, s'.handlers[x].run), exec, strict, s'.handlers[x])
    {
      assert x in s.handlers && HasPlan(s.db, s.inputs, s.handlers[x].run);
    }
  }

  lemma RunsUntouched(s: System, s': System, exec: Executor)
    requires RunsOnTrace(s.db, s.inputs, exec) && s'.db.runs == s.db.runs && s'.db.versions == s.db.versions && s'.inputs == s.inputs
    ensures RunsOnTrace(s'.db, s'.inputs, exec)
  {
    forall x | x in s'.db.runs ensures HasPlan(s'.db, s'.inputs, x) && RunOnTrace(PlanOf(s'.db, s'.inputs, x), exec, s'.db.runs[x]) {
      assert HasPlan(s.db, s.inputs, x);
    }
  }

  lemma ReadRunTraces(s: System, h: Id, s': System, exec: Executor, strict: bool)
    requires TraceInv(s, exec, strict) && h in s.handlers && s.handlers[h].Received? && s' == ReadRun(s, h, s.handlers[h])
    ensures TraceInv(s', exec, strict)
  {
    var hd := s.handlers[h];
    if hd.run !in s.db.runs {
      DroppedOnTrace(s, h, s', exec, strict);
    } else if Active(s.db.runs[hd.run].status) {
      PlacedOnTrace(s, h, HaveRun(hd.msg, hd.run, s.db.runs[hd.run]), s', exec, strict);
    } else {
      PlacedOnTrace(s, h, Deleting(hd.msg), s', exec, strict);
    }
  }

  lemma LoadNodeTraces(s: System, h: Id, s': System, exec: Executor, strict: bool)
    requires Inv(s) && TraceInv(s, exec, strict) && h in s.handlers && s.handlers[h].HaveRun?
    requires s' == LoadNode(s, h, s.handlers[h])
    ensures TraceInv(s', exec, strict)
  {
    LoadNodeStep(s, h, s');
    PlacedOnTrace(s, h, s'.handlers[h], s', exec, strict);
  }

  lemma ExecuteTraces(s: System, h: Id, outcome: Outcome, s': System, exec: Executor, strict: bool)
    requires Inv(s) && TraceInv(s, exec, strict) && h in s.handlers && s.handlers[h].HaveNode?
    requires outcome == Answer(exec, s.handlers[h].snap, s.handlers[h].node) || (!strict && outcome == Failure)
    requires s' == Execute(s, h, s.handlers[h], outcome)
    ensures TraceInv(s', exec, strict)
  {
    var hd := s.handlers[h];
    assert HandlerOk(s.db, hd);
    assert OutcomeAt(PlanOf(s.db, s.inputs, hd.run), exec, At(hd.snap.current, hd.snap.output)) == Answer(exec, hd.snap, hd.node);
    PlacedOnTrace(s, h, s'.handlers[h], s', exec, strict);
  }

  /** Saving a stale or fresh result puts the run on the next checkpoint of the trace, or on its final result. */
  lemma ResultOnTrace(p: Plan, exec: Executor, snap: Run, run: Run, res: ExecResult)
    requires OnTrace(p, exec, At(snap.current, snap.output))
    requires OutcomeAt(p, exec, At(snap.current, snap.output)) == Success(res)
    requires res.Next? ==> NextNode(p.graph, snap.current, res.edgeLabel).Some?
    ensures RunOnTrace(p, exec, ResultRun(p.graph, run, snap.current, res))
  {
    var c := At(snap.current, snap.output);
    if res.Next? {
      HopStaysOnTrace(p, exec, c);
    } else {
      assert FinishesAt(p, exec, c, res.output);
    }
  }

  lemma ResultWritten(s: System, r: Id, run: Run, res: ExecResult, j: Id, mid: System, exec: Executor, strict: bool)
    requires Pinned(s.db) && TraceInv(s, exec, strict) && r in s.db.runs && SamePin(run, s.db.runs[r])
    requires mid == s.(db := WithResult(s.db, r, run, res, j))
    requires HasPlan(s.db, s.inputs, r) && RunOnTrace(PlanOf(s.db, s.inputs, r), exec, run)
    ensures TraceInv(mid, exec, strict)
  {
    RunWriteEvolves(s.db, r, run, mid.db);
    RunKeepsTrace(s, mid, exec, strict, r);
  }

  lemma PersistTraces(s: System, h: Id, j: Id, s': System, exec: Executor, strict: bool)
    requires Inv(s) && TraceInv(s, exec, strict) && h in s.handlers && s.handlers[h].HaveResult?
    requires s' == Persist(s, h, s.handlers[h], j)
    ensures TraceInv(s', exec, strict)
  {
    var hd := s.handlers[h];
    var g := PersistStep(s, h, j, s');
    assert HasPlan(s.db, s.inputs, hd.run);
    ResultOnTrace(PlanOf(s.db, s.inputs, hd.run), exec, hd.snap, s.db.runs[hd.run], hd.res);
    var run := ResultRun(g, s.db.runs[hd.run], hd.snap.current, hd.res);
    var mid := s.(db := WithResult(s.db, hd.run, run, hd.res, j));
    ResultWritten(s, hd.run, run, hd.res, j, mid, exec, strict);
    PlacedOnTrace(mid, h, Deleting(hd.msg), s', exec, strict);
  }

  lemma FailureTraces(s: System, h: Id, s': System, exec: Executor, strict: bool)
    requires Inv(s) && TraceInv(s, exec, strict) && h in s.handlers && s.handlers[h].HaveError?
    requires s' == DropHandler(s.(db := FailRun(s.db, s.handlers[h].run)), h) && Evolves(s.db, s'.db)
    requires s.db.runs[s.handlers[h].run].status != Completed
    ensures TraceInv(s', exec, strict)
  {
    assert HandlerOk(s.db, s.handlers[h]);
    FailedOnSpot(s, s.handlers[h].run, s.(db := s'.db), exec, strict);
    DroppedOnTrace(s.(db := s'.db), h, s', exec, strict);
  }

  lemma FailedOnSpot(s: System, r: Id, s': System, exec: Executor, strict: bool)
    requires Pinned(s.db) && Evolves(s.db, s'.db) && TraceInv(s, exec, strict) && r in s.db.runs
    requires s.db.runs[r].status != Completed && s' == s.(db := FailRun(s.db, r))
    ensures TraceInv(s', exec, strict)
  {
    SpotKeepsTrace(s, s', exec, strict, r);
  }

  /** With errors that are the executor's own, no failure can be recorded on a completed run. */
  lemma NoLateFailureWhenStrict(s: System, step: Step, exec: Executor)
    requires Inv(s) && TraceInv(s, exec, true) && Enabled(s, step)
    ensures !LateFailure(s, step)
  {
    if step.StepRecordFailure? {
      var hd := s.handlers[step.h];
      assert HandlerOk(s.db, hd);
      assert HasPlan(s.db, s.inputs, hd.run);
      var p := PlanOf(s.db, s.inputs, hd.run);
      if IsFinal(p, exec, s.db.runs[hd.run].output) {
        FinishedMeansNoError(p, exec, s.db.runs[hd.run].output, At(hd.snap.current, hd.snap.output));
      }
    }
  }

  lemma WorkTraces(s: System, step: Step, cfg: ConfigCheck, s': System, exec: Executor, strict: bool)
    requires Inv(s) && TraceInv(s, exec, strict) && Enabled(s, step) && !IsRequest(step) && s' == Apply(s, step, cfg)
    requires Evolves(s.db, s'.db) && Conforms(s, step, exec, strict) && !LateFailure(s, step)
    ensures TraceInv(s', exec, strict)
  {
    match step
    case StepRelay(locked, sent, committed) => NoRunKeepsTrace(s, s', exec, strict);
    case StepDuplicate(m) => NoRunKeepsTrace(s, s', exec, strict);
    case StepDeadLetter(m) => NoRunKeepsTrace(s, s', exec, strict);
    case StepReceive(h, m) => ReceiveTraces(s, h, m, s', exec, strict);
    case StepReadRun(h) => ReadRunTraces(s, h, s', exec, strict);
    case StepLoadNode(h) => LoadNodeTraces(s, h, s', exec, strict);
    case StepExecute(h, outcome) => ExecuteTraces(s, h, outcome, s', exec, strict);
    case StepPersist(h, j) => PersistTraces(s, h, j, s', exec, strict);
    case StepRecordFailure(h) =>
      assert HandlerOk(s.db, s.handlers[h]);
      FailureTraces(s, h, s', exec, strict);
    case StepDelete(h) => DroppedOnTrace(s, h, s', exec, strict);
    case StepAbandon(h) => DroppedOnTrace(s, h, s', exec, strict);
  }

  lemma ReceiveTraces(s: System, h: Id, m: nat, s': System, exec: Executor, strict: bool)
    requires Inv(s) && TraceInv(s, exec, strict) && m in s.queue.msgs
    requires s' == SetHandler(s, h, Received(m, s.queue.msgs[m].job.run))
    ensures TraceInv(s', exec, strict)
  {
    assert JobPinned(s.db, s.queue.msgs[m].job);
    PlacedOnTrace(s, h, Received(m, s.queue.msgs[m].job.run), s', exec, strict);
  }

  lemma StepTraces(s: System, step: Step, cfg: ConfigCheck, s': System, exec: Executor, strict: bool)
    requires Inv(s) && TraceInv(s, exec, strict) && Enabled(s, step) && s' == Apply(s, step, cfg)
    requires Conforms(s, step, exec, strict) && !LateFailure(s, step)
    ensures Inv(s') && TraceInv(s', exec, strict)
  {
    StepKeeps(s, step, cfg, s');
    if IsRequest(step) {
      if IsDefinition(step) {
        DefinitionTraces(s, step, cfg, s', exec, strict);
      } else {
        RunRequestTraces(s, step, cfg, s', exec, strict);
      }
    } else {
      WorkTraces(s, step, cfg, s', exec, strict);
    }
  }

  // ---------------------------------------------------------------- histories

  /** Every execution step conforms to `exec`; unless `strict`, transient errors may occur too. */
  ghost predicate ConformingHistory(s: System, steps: seq<Step>, cfg: ConfigCheck, exec: Executor, strict: bool)
    requires ValidHistory(s, steps, cfg)
    decreases |steps|
  {
    steps == [] || (Conforms(s, steps[0], exec, strict) && ConformingHistory(Apply(s, steps[0], cfg), steps[1..], cfg, exec, strict))
  }

  /** Where a conforming history leads. */
  ghost function Led(s: System, steps: seq<Step>, cfg: ConfigCheck, exec: Executor, strict: bool): Option<System> {
    if ValidHistory(s, steps, cfg) && ConformingHistory(s, steps, cfg, exec, strict) then Some(After(s, steps, cfg)) else None
  }

  lemma LedNowhere(s: System, cfg: ConfigCheck, exec: Executor, strict: bool)
    ensures Led(s, [], cfg, exec, strict) == Some(s)
  {}

  lemma LedCons(s: System, step: Step, s1: System, rest: seq<Step>, cfg: ConfigCheck, exec: Executor, strict: bool, s2: System)
    requires Enabled(s, step) && s1 == Apply(s, step, cfg) && Conforms(s, step, exec, strict)
    requires Led(s1, rest, cfg, exec, strict) == Some(s2)
    ensures Led(s, [step] + rest, cfg, exec, strict) == Some(s2)
  {
    assert ([step] + rest)[1..] == rest;
  }

  lemma {:induction false} LedOn(s: System, a: seq<Step>, s1: System, b: seq<Step>, cfg: ConfigCheck, exec: Executor, strict: bool,
                                 s2: System)
    requires Led(s, a, cfg, exec, strict) == Some(s1) && Led(s1, b, cfg, exec, strict) == Some(s2)
    ensures Led(s, a + b, cfg, exec, strict) == Some(s2)
    decreases |a|
  {
    if a == [] {
      assert a + b == b;
    } else {
      var mid := Apply(s, a[0], cfg);
      LedOn(mid, a[1..], s1, b, cfg, exec, strict, s2);
      LedCons(s, a[0], mid, a[1..] + b, cfg, exec, strict, s2);
      assert a + b == [a[0]] + (a[1..] + b);
    }
  }

  ghost predicate NoLateFailures(s: System, steps: seq<Step>, cfg: ConfigCheck)
    requires ValidHistory(s, steps, cfg)
    decreases |steps|
  {
    steps == [] || (!LateFailure(s, steps[0]) && NoLateFailures(Apply(s, steps[0], cfg), steps[1..], cfg))
  }

  lemma {:induction false} HistoryTraces(s: System, steps: seq<Step>, cfg: ConfigCheck, exec: Executor, strict: bool)
    requires Inv(s) && TraceInv(s, exec, strict) && ValidHistory(s, steps, cfg)
    requires ConformingHistory(s, steps, cfg, exec, strict) && (strict || NoLateFailures(s, steps, cfg))
    ensures TraceInv(After(s, steps, cfg), exec, strict)
    decreases |steps|
  {
    if steps != [] {
      if strict {
        NoLateFailureWhenStrict(s, steps[0], exec);
      }
      StepTraces(s, steps[0], cfg, Apply(s, steps[0], cfg), exec, strict);
      HistoryTraces(Apply(s, steps[0], cfg), steps[1..], cfg, exec, strict);
    }
  }

  /** With a deterministic executor, whatever overlaps, repeats, crashes, pauses, stops or is retried, every run and
      every in-flight snapshot stays on the one sequential trace, and a completed run holds its final result. */
  lemma DeterministicRunsStayOnTrace(steps: seq<Step>, cfg: ConfigCheck, exec: Executor)
    requires ValidHistory(INIT, steps, cfg) && ConformingHistory(INIT, steps, cfg, exec, true)
    ensures TraceInv(After(INIT, steps, cfg), exec, true)
  {
    HistoryTraces(INIT, steps, cfg, exec, true);
  }

  /** The same with transient errors on top, as long as none is recorded on a run that has already completed. */
  lemma TransientErrorsStayOnTrace(steps: seq<Step>, cfg: ConfigCheck, exec: Executor)
    requires ValidHistory(INIT, steps, cfg) && ConformingHistory(INIT, steps, cfg, exec, false)
    requires NoLateFailures(INIT, steps, cfg)
    ensures TraceInv(After(INIT, steps, cfg), exec, false)
  {
    HistoryTraces(INIT, steps, cfg, exec, false);
  }
}
