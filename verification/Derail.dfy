/** What a handler that read too early does, step by step: it takes a paused, stopped or completed run back into
    execution, and with a transient error it leaves a completed run failed and off its trace. */
module Derail {
  import opened Basics
  import opened Tables
  import opened Routing
  import opened Protocol
  import opened SystemInvariant
  import opened Trace
  import opened Progress

  function ArrivalSteps(h: Id, m: nat): seq<Step> {
    [StepReceive(h, m)] + ([StepReadRun(h)] + ([StepLoadNode(h)] + []))
  }

  /** The handler that has read the run and loaded its node. */
  ghost function Arrived(s: System, m: nat, r: Id): Handler
    requires RunQueued(s, m, r)
  {
    HaveNode(m, r, s.db.runs[r], SnapNode(s.db, s.db.runs[r]))
  }

  lemma Arrives(s: System, m: nat, r: Id, h: Id, cfg: ConfigCheck, exec: Executor)
    requires RunQueued(s, m, r) && h !in s.handlers
    ensures Driven(s, ArrivalSteps(h, m), cfg, exec) == Some(SetHandler(s, h, Arrived(s, m, r)))
  {
    var s' := SetHandler(s, h, Arrived(s, m, r));
    DrivenNowhere(s', cfg, exec);
    LoadDriven(s, h, m, r, s.db.runs[r], [], cfg, exec, s');
    ReadDriven(s, h, m, r, [StepLoadNode(h)] + [], cfg, exec, s');
    ReceiveDriven(s, h, m, [StepReadRun(h)] + ([StepLoadNode(h)] + []), cfg, exec, s');
  }

  /** The handler that has executed the run's node with result `res`. */
  ghost function Answered(s: System, m: nat, r: Id, res: ExecResult): Handler
    requires r in s.db.runs
  {
    HaveResult(m, r, s.db.runs[r], res)
  }

  lemma ArrivesAndExecutes(s: System, m: nat, r: Id, h: Id, res: ExecResult, cfg: ConfigCheck, exec: Executor) returns (steps: seq<Step>)
    requires RunQueued(s, m, r) && h !in s.handlers && Fits(SnapNode(s.db, s.db.runs[r]).nodeType, res)
    requires Answer(exec, s.db.runs[r], SnapNode(s.db, s.db.runs[r])) == Success(res)
    ensures Driven(s, steps, cfg, exec) == Some(SetHandler(s, h, Answered(s, m, r, res)))
  {
    var s1, s2 := SetHandler(s, h, Arrived(s, m, r)), SetHandler(s, h, Answered(s, m, r, res));
    Arrives(s, m, r, h, cfg, exec);
    DrivenNowhere(s2, cfg, exec);
    ExecuteDriven(s, h, m, r, s.db.runs[r], SnapNode(s.db, s.db.runs[r]), res, [], cfg, exec, s2);
    DrivenOn(s, ArrivalSteps(h, m), s1, [StepExecute(h, Success(res))] + [], cfg, exec, s2);
    steps := ArrivalSteps(h, m) + ([StepExecute(h, Success(res))] + []);
  }

  // ---------------------------------------------------------------- a halted run runs again

  predicate Halts(step: Step, r: Id) {
    step == StepPause(r) || step == StepStop(r)
  }

  function HaltedStatus(step: Step): RunStatus {
    if step.StepPause? then Paused else Cancelled
  }

  lemma HaltApplies(s: System, r: Id, halt: Step, cfg: ConfigCheck)
    requires r in s.db.runs && Active(s.db.runs[r].status) && Halts(halt, r)
    ensures Enabled(s, halt) && Apply(s, halt, cfg) == s.(db := SetStatus(s.db, r, HaltedStatus(halt)))
  {}

  /** Saving the result of a handler that read the run earlier: whatever the row says now, the run moves on. */
  lemma StaleSaveRuns(s: System, h: Id, r: Id, j: Id, cfg: ConfigCheck)
    requires Inv(s) && h in s.handlers && s.handlers[h].HaveResult? && s.handlers[h].run == r && s.handlers[h].res.Next? && Fresh(s, j)
    ensures Enabled(s, StepPersist(h, j)) && r in Apply(s, StepPersist(h, j), cfg).db.runs
    ensures var run := Apply(s, StepPersist(h, j), cfg).db.runs[r]; run.status == Running && run.output == s.handlers[h].res.output
  {
    var g := PersistStep(s, h, j, Persist(s, h, s.handlers[h], j));
  }

  /** A run that is paused or stopped while a handler executes its node runs on once that handler saves. */
  lemma HaltedRunRunsAgain(s: System, m: nat, r: Id, halt: Step, res: ExecResult, exec: Executor, cfg: ConfigCheck)
    returns (steps: seq<Step>, s': System, save: Step)
    requires Inv(s) && RunQueued(s, m, r) && Halts(halt, r) && res.Next?
    requires Fits(SnapNode(s.db, s.db.runs[r]).nodeType, res)
    requires Answer(exec, s.db.runs[r], SnapNode(s.db, s.db.runs[r])) == Success(res)
    ensures Led(s, steps, cfg, exec, true) == Some(s') && Inv(s')
    ensures r in s'.db.runs && s'.db.runs[r].status == HaltedStatus(halt)
    ensures Enabled(s', save) && r in Apply(s', save, cfg).db.runs && Apply(s', save, cfg).db.runs[r].status == Running
  {
    var h := UnusedKey(s.handlers.Keys);
    steps := ArrivesAndExecutes(s, m, r, h, res, cfg, exec);
    var s1 := SetHandler(s, h, Answered(s, m, r, res));
    DrivenIsLed(s, steps, cfg, exec, true, s1);
    HaltApplies(s1, r, halt, cfg);
    s' := s1.(db := SetStatus(s1.db, r, HaltedStatus(halt)));
    LedNowhere(s', cfg, exec, true);
    LedCons(s1, halt, s', [], cfg, exec, true, s');
    LedOn(s, steps, s1, [halt] + [], cfg, exec, true, s');
    steps := steps + ([halt] + []);
    HistoryKeeps(s, steps, cfg);
    var j := UnusedKey(s'.db.outbox.Keys);
    save := StepPersist(h, j);
    StaleSaveRuns(s', h, r, j, cfg);
  }

  lemma CompletesMeanwhile(s: System, first: seq<Step>, s1: System, m: nat, r: Id, p: Plan, exec: Executor, o: Json, cfg: ConfigCheck)
    returns (steps: seq<Step>, s': System)
    requires Inv(s) && Driven(s, first, cfg, exec) == Some(s1) && s1.db == s.db
    requires RunQueued(s1, m, r) && StandsOnTrace(s.db, r, p, exec) && Sound(exec) && IsFinal(p, exec, o)
    ensures Led(s, steps, cfg, exec, true) == Some(s') && Inv(s') && CompletedWith(s1, s', r, o)
  {
    DrivenKeeps(s, first, s1, cfg, exec);
    var rest;
    rest, s' := QueuedRunCompletes(s1, m, r, p, exec, o, cfg);
    DrivenKeeps(s1, rest, s', cfg, exec);
    DrivenOn(s, first, s1, rest, cfg, exec, s');
    steps := first + rest;
    DrivenIsLed(s, steps, cfg, exec, true, s');
  }

  /** A run that other handlers complete while one still holds a result for an earlier node runs again once that one
      saves. */
  lemma CompletedRunRunsAgain(s: System, m: nat, r: Id, p: Plan, res: ExecResult, exec: Executor, o: Json, cfg: ConfigCheck)
    returns (steps: seq<Step>, s': System, save: Step)
    requires Inv(s) && RunQueued(s, m, r) && StandsOnTrace(s.db, r, p, exec) && Sound(exec) && IsFinal(p, exec, o) && res.Next?
    requires Fits(SnapNode(s.db, s.db.runs[r]).nodeType, res)
    requires Answer(exec, s.db.runs[r], SnapNode(s.db, s.db.runs[r])) == Success(res)
    ensures Led(s, steps, cfg, exec, true) == Some(s') && Inv(s')
    ensures r in s'.db.runs && s'.db.runs[r].status == Completed && s'.db.runs[r].output == o
    ensures Enabled(s', save) && r in Apply(s', save, cfg).db.runs && Apply(s', save, cfg).db.runs[r].status == Running
  {
    var h := UnusedKey(s.handlers.Keys);
    var s1 := SetHandler(s, h, Answered(s, m, r, res));
    steps := ArrivesAndExecutes(s, m, r, h, res, cfg, exec);
    steps, s' := CompletesMeanwhile(s, steps, s1, m, r, p, exec, o, cfg);
    var j := UnusedKey(s'.db.outbox.Keys);
    save := StepPersist(h, j);
    StaleSaveRuns(s', h, r, j, cfg);
  }

  // ---------------------------------------------------------------- a completed run fails

  /** Two handlers that both loaded the Response node of a run. */
  ghost predicate BothAtResponse(s: System, h1: Id, h2: Id, r: Id) {
    && h1 != h2 && h1 in s.handlers && h2 in s.handlers && r in s.db.runs
    && s.handlers[h1].HaveNode? && s.handlers[h1].run == r && s.handlers[h1].node.nodeType == Response
    && s.handlers[h2].HaveNode? && s.handlers[h2].run == r
  }

  /** One completes, the other meets a transient error. */
  function DerailingSteps(h1: Id, h2: Id, j: Id, output: Json): seq<Step> {
    [StepExecute(h1, Success(Finished(output)))] + ([StepExecute(h2, Failure)] + ([StepPersist(h1, j)] + ([StepRecordFailure(h2)] + [])))
  }

  /** The row of a run that completed with `output` and then failed. */
  function FailedWith(run: Run, output: Json): Run {
    run.(status := Failed, output := output, attempt := run.attempt + 1)
  }

  /** From any state with two handlers at the Response, one completing and one failing transiently leave a failed run
      whose stored input for the retry is the final result. */
  lemma CompletedRunBecomesFailed(s: System, h1: Id, h2: Id, r: Id, j: Id, output: Json, exec: Executor, cfg: ConfigCheck)
    returns (s': System)
    requires BothAtResponse(s, h1, h2, r) && Fresh(s, j)
    requires Answer(exec, s.handlers[h1].snap, s.handlers[h1].node) == Success(Finished(output))
    ensures Led(s, DerailingSteps(h1, h2, j, output), cfg, exec, false) == Some(s')
    ensures s'.db == s.db.(runs := s.db.runs[r := FailedWith(s.db.runs[r], output)])
    ensures s'.inputs == s.inputs
  {
    var a, b := s.handlers[h1], s.handlers[h2];
    var s1 := SetHandler(s, h1, HaveResult(a.msg, r, a.snap, Finished(output)));
    var s2 := SetHandler(s1, h2, HaveError(b.msg, r, b.snap));
    var s3 := SetHandler(s2.(db := CompleteRun(s2.db, r, output)), h1, Deleting(a.msg));
    s' := DropHandler(s3.(db := FailRun(s3.db, r)), h2);
    LedNowhere(s', cfg, exec, false);
    LedCons(s3, StepRecordFailure(h2), s', [], cfg, exec, false, s');
    LedCons(s2, StepPersist(h1, j), s3, [StepRecordFailure(h2)] + [], cfg, exec, false, s');
    LedCons(s1, StepExecute(h2, Failure), s2, [StepPersist(h1, j)] + ([StepRecordFailure(h2)] + []), cfg, exec, false, s');
    LedCons(s, StepExecute(h1, Success(Finished(output))), s1,
            [StepExecute(h2, Failure)] + ([StepPersist(h1, j)] + ([StepRecordFailure(h2)] + [])), cfg, exec, false, s');
    LastWriteWins(s.db.runs, r, CompleteRun(s.db, r, output).runs[r], FailedWith(s.db.runs[r], output));
  }

  /** Nothing unusual is needed: whenever the message of an active run at its Response node waits in the queue, a second
      delivery and one transient error lead there. */
  lemma SecondDeliveryDerails(s: System, m: nat, r: Id, output: Json, exec: Executor, cfg: ConfigCheck)
    returns (steps: seq<Step>, s': System)
    requires RunQueued(s, m, r) && SnapNode(s.db, s.db.runs[r]).nodeType == Response
    requires Answer(exec, s.db.runs[r], SnapNode(s.db, s.db.runs[r])) == Success(Finished(output))
    ensures Led(s, steps, cfg, exec, false) == Some(s') && |steps| == 10
    ensures s'.db == s.db.(runs := s.db.runs[r := FailedWith(s.db.runs[r], output)]) && s'.inputs == s.inputs
  {
    var h1 := UnusedKey(s.handlers.Keys);
    var h2 := h1 + 1;
    var j := UnusedKey(s.db.outbox.Keys);
    var s1 := SetHandler(s, h1, Arrived(s, m, r));
    var s2 := SetHandler(s1, h2, Arrived(s1, m, r));
    Arrives(s, m, r, h1, cfg, exec);
    Arrives(s1, m, r, h2, cfg, exec);
    DrivenOn(s, ArrivalSteps(h1, m), s1, ArrivalSteps(h2, m), cfg, exec, s2);
    DrivenIsLed(s, ArrivalSteps(h1, m) + ArrivalSteps(h2, m), cfg, exec, false, s2);
    s' := CompletedRunBecomesFailed(s2, h1, h2, r, j, output, exec, cfg);
    LedOn(s, ArrivalSteps(h1, m) + ArrivalSteps(h2, m), s2, DerailingSteps(h1, h2, j, output), cfg, exec, false, s');
    steps := ArrivalSteps(h1, m) + ArrivalSteps(h2, m) + DerailingSteps(h1, h2, j, output);
  }

  /** No node of the trace is fed the trace's own final result. */
  ghost predicate ResultIsNew(p: Plan, exec: Executor, o: Json) {
    forall k: nat :: TraceAt(p, exec, k).Some? ==> TraceAt(p, exec, k).value.input != o
  }

  lemma FailedIsOffTrace(p: Plan, exec: Executor, run: Run, o: Json)
    requires ResultIsNew(p, exec, o)
    ensures !RunOnTrace(p, exec, FailedWith(run, o))
  {}

  ghost predicate HasPlanOf(s: System, r: Id, p: Plan) {
    HasPlan(s.db, s.inputs, r) && PlanOf(s.db, s.inputs, r) == p
  }

  /** The run failed with `o` as its stored input, and is off the trace of its plan `p`. */
  ghost predicate IsDerailed(s: System, r: Id, p: Plan, exec: Executor, o: Json) {
    HasPlanOf(s, r, p) && s.db.runs[r].status == Failed && s.db.runs[r].output == o && !RunOnTrace(p, exec, s.db.runs[r])
  }

  lemma DerailsAtEnd(s: System, m: nat, r: Id, p: Plan, exec: Executor, o: Json, cfg: ConfigCheck)
    returns (steps: seq<Step>, s': System)
    requires RunQueued(s, m, r) && ResultIsNew(p, exec, o) && HasPlanOf(s, r, p)
    requires SnapNode(s.db, s.db.runs[r]).nodeType == Response
    requires Answer(exec, s.db.runs[r], SnapNode(s.db, s.db.runs[r])) == Success(Finished(o))
    ensures Led(s, steps, cfg, exec, false) == Some(s') && IsDerailed(s', r, p, exec, o)
  {
    steps, s' := SecondDeliveryDerails(s, m, r, o, exec, cfg);
    FailedIsOffTrace(p, exec, s.db.runs[r], o);
  }

  lemma MovesOnDerailing(s: System, m: nat, r: Id, p: Plan, exec: Executor, res: ExecResult, cfg: ConfigCheck)
    returns (steps: seq<Step>, s': System)
    requires Inv(s) && RunQueued(s, m, r) && StandsOnTrace(s.db, r, p, exec) && res.Next? && HasPlanOf(s, r, p)
    requires Answer(exec, s.db.runs[r], SnapNode(s.db, s.db.runs[r])) == Success(res)
    requires OutcomeAt(p, exec, At(s.db.runs[r].current, s.db.runs[r].output)) == Success(res)
    requires Fits(SnapNode(s.db, s.db.runs[r]).nodeType, res)
    ensures Led(s, steps, cfg, exec, false) == Some(s') && Inv(s')
    ensures MovedOn(s, s', s.queue.next, r, p, exec) && HasPlanOf(s', r, p)
  {
    steps, s' := NextRound(s, m, r, p, exec, res, cfg);
    DrivenKeeps(s, steps, s', cfg, exec);
    DrivenIsLed(s, steps, cfg, exec, false, s');
  }

  /** So every run whose trace finishes can be derailed at its end by one second delivery and one transient error, unless
      the final result also occurs on the way. */
  lemma {:induction false} QueuedRunCanDerail(s: System, m: nat, r: Id, p: Plan, exec: Executor, o: Json, cfg: ConfigCheck)
    returns (steps: seq<Step>, s': System)
    requires Inv(s) && RunQueued(s, m, r) && StandsOnTrace(s.db, r, p, exec) && Sound(exec) && IsFinal(p, exec, o)
    requires ResultIsNew(p, exec, o) && HasPlanOf(s, r, p)
    ensures Led(s, steps, cfg, exec, false) == Some(s') && IsDerailed(s', r, p, exec, o)
    decreases |p.graph.nodes| - NodeRank(p.graph, s.db.runs[r].current)
  {
    var res := AnswerFits(s.db, r, p, exec, o);
    if res.Finished? {
      steps, s' := DerailsAtEnd(s, m, r, p, exec, o, cfg);
    } else {
      var s1, rest;
      steps, s1 := MovesOnDerailing(s, m, r, p, exec, res, cfg);
      rest, s' := QueuedRunCanDerail(s1, s.queue.next, r, p, exec, o, cfg);
      LedOn(s, steps, s1, rest, cfg, exec, false, s');
      steps := steps + rest;
    }
  }
}
