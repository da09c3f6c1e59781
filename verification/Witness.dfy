/** One small workflow, taken from the empty system through publishing and starting to each of the outcomes that the
    unguarded updates and the dead-letter queue allow. */
module Witness {
  import opened Basics
  import opened Tables
  import opened SaveTheory
  import opened StoreInvariant
  import opened RunInvariant
  import opened Routing
  import opened Protocol
  import opened SystemInvariant
  import opened Trace
  import opened Parked
  import opened Progress
  import opened Derail

  const W: Id := 7
  const V: Id := 10
  const R: Id := 20
  const J: Id := 30

  const PAYLOAD := Payload([PayloadNode(1, "start", "start", None), PayloadNode(2, "response", "end", None)],
                           [PayloadEdge(3, 1, 2, "")])

  const DRAFTED := Db(map[W := Workflow(Draft, V, None)], map[V := Version(W, 1, false, EMPTY_GRAPH)], map[], map[])
  const SAVED := Db(map[W := Workflow(Draft, V, None)], map[V := Version(W, 1, false, SMALLEST)], map[], map[])
  const LIVE := Db(map[W := Workflow(Published, V, Some(V))], map[V := Version(W, 1, true, SMALLEST)], map[], map[])

  const INPUT := StartOutput(Null)
  const STARTED_RUN := Run(W, V, Pending, 1, 1, INPUT)
  const STARTED := LIVE.(runs := map[R := STARTED_RUN], outbox := map[J := Job(R, V, 1, 1)])
  const RELAYED := System(LIVE.(runs := map[R := STARTED_RUN]), Queue(map[0 := Msg(Job(R, V, 1, 1), false)], 1), map[],
                          map[R := INPUT])

  function StartSteps(): seq<Step> {
    [StepCreate(W, V)] + ([StepSave(W, PAYLOAD, V + 1)] + ([StepPublish(W)] + ([StepStart(W, R, J, Null)]
    + ([StepRelay([J], 1, true)] + []))))
  }

  /** The config check accepts the empty configs of the example. */
  predicate Lenient(cfg: ConfigCheck) {
    cfg(Start, Obj(map[])) && cfg(Response, Obj(map[]))
  }

  // ---------------------------------------------------------------- from nothing to a queued run

  lemma EmptyIsSafe()
    ensures DbInv(EMPTY_DB)
  {}

  lemma Drafts()
    ensures DRAFTED == CreateWorkflow(EMPTY_DB, W, V) && DbInv(DRAFTED)
  {
    EmptyIsSafe();
    CreateKeeps(EMPTY_DB, W, V, CreateWorkflow(EMPTY_DB, W, V));
  }

  lemma PayloadIsValid(cfg: ConfigCheck)
    requires Lenient(cfg)
    ensures PayloadValid(PAYLOAD, cfg)
  {
    var a, b, e := PAYLOAD.nodes[0], PAYLOAD.nodes[1], PAYLOAD.edges[0];
    assert 's' in a.name && 'e' in b.name;
    assert |a.name| != |b.name|;
    assert PAYLOAD.nodes == [a, b] && PAYLOAD.edges == [e];
    assert a in PAYLOAD.nodes && b in PAYLOAD.nodes;
    assert a.id in PayloadIds(PAYLOAD.nodes) && b.id in PayloadIds(PAYLOAD.nodes);
  }

  lemma PayloadKeys()
    ensures PayloadIds(PAYLOAD.nodes) == {1, 2} && EdgeIds(PAYLOAD.edges) == {3}
  {
    var a, b, e := PAYLOAD.nodes[0], PAYLOAD.nodes[1], PAYLOAD.edges[0];
    assert PAYLOAD.nodes == [a, b] && PAYLOAD.edges == [e];
    assert a in PAYLOAD.nodes && b in PAYLOAD.nodes && e in PAYLOAD.edges;
  }

  lemma PayloadRows()
    ensures ToNodeRow(PAYLOAD.nodes[0]) == SMALLEST.nodes[1] && ToNodeRow(PAYLOAD.nodes[1]) == SMALLEST.nodes[2]
    ensures ToEdgeRow(PAYLOAD.edges[0]) == SMALLEST.edges[3]
  {}

  lemma TwoEntries<T>(a: map<Id, T>, b: map<Id, T>)
    requires a.Keys == b.Keys == {1, 2} && a[1] == b[1] && a[2] == b[2]
    ensures a == b
  {}

  lemma HeldIsSmallest(g: Graph, cfg: ConfigCheck)
    requires PayloadValid(PAYLOAD, cfg) && HoldsExactly(g, PAYLOAD, cfg)
    ensures g == SMALLEST
  {
    PayloadKeys();
    PayloadRows();
    assert PAYLOAD.nodes[0] in PAYLOAD.nodes && PAYLOAD.nodes[1] in PAYLOAD.nodes && PAYLOAD.edges[0] in PAYLOAD.edges;
    TwoEntries(g.nodes, SMALLEST.nodes);
    assert g.edges.Keys == {3} && g.edges == map[3 := g.edges[3]];
  }

  lemma SavedIs()
    ensures Saved(DRAFTED, W, V + 1, SMALLEST) == SAVED
  {
    LastWriteWins(map[], V, DRAFTED.versions[V], SAVED.versions[V]);
  }

  lemma SaveIs(cfg: ConfigCheck)
    requires Lenient(cfg) && DbInv(DRAFTED)
    ensures Save(DRAFTED, cfg, W, PAYLOAD, V + 1) == Ok(SAVED)
  {
    PayloadIsValid(cfg);
    var g := SaveSucceeds(DRAFTED, cfg, W, PAYLOAD, V + 1);
    HeldIsSmallest(g, cfg);
    SavedIs();
  }

  lemma SavesPayload(cfg: ConfigCheck)
    requires Lenient(cfg)
    ensures Save(DRAFTED, cfg, W, PAYLOAD, V + 1) == Ok(SAVED) && DbInv(SAVED)
  {
    Drafts();
    SaveIs(cfg);
    SaveKeeps(DRAFTED, cfg, W, PAYLOAD, V + 1, SAVED);
  }

  lemma PublishIs(cfg: ConfigCheck)
    requires Lenient(cfg)
    ensures Publish(SAVED, cfg, W) == Ok(LIVE)
  {
    SmallestIsPublishable();
    assert SMALLEST.nodes.Keys == {1, 2};
    LastWriteWins(map[], V, SAVED.versions[V], LIVE.versions[V]);
    LastWriteWins(map[], W, SAVED.workflows[W], LIVE.workflows[W]);
  }

  lemma Publishes(cfg: ConfigCheck)
    requires Lenient(cfg)
    ensures Publish(SAVED, cfg, W) == Ok(LIVE) && DbInv(LIVE)
  {
    SavesPayload(cfg);
    PublishIs(cfg);
    PublishKeeps(SAVED, cfg, W, LIVE);
  }

  lemma StartsRun(cfg: ConfigCheck)
    requires Lenient(cfg)
    ensures StartRun(LIVE, W, R, J, Null) == Ok(STARTED) && DbInv(STARTED)
  {
    Publishes(cfg);
    SmallestArcs();
    var v, s := StartSucceeds(LIVE, W, R, J, Null);
    assert s in Tables.Starts(SMALLEST);
    var run := StartKeeps(LIVE, W, R, J, Null, Committed(LIVE, StartRun(LIVE, W, R, J, Null)));
  }

  lemma CreateLed(rest: seq<Step>, cfg: ConfigCheck, exec: Executor, strict: bool, s': System)
    requires Led(INIT.(db := DRAFTED), rest, cfg, exec, strict) == Some(s')
    ensures Led(INIT, [StepCreate(W, V)] + rest, cfg, exec, strict) == Some(s')
  {
    Drafts();
    LedCons(INIT, StepCreate(W, V), INIT.(db := DRAFTED), rest, cfg, exec, strict, s');
  }

  lemma SaveLed(rest: seq<Step>, cfg: ConfigCheck, exec: Executor, strict: bool, s': System)
    requires Lenient(cfg) && Led(INIT.(db := SAVED), rest, cfg, exec, strict) == Some(s')
    ensures Led(INIT.(db := DRAFTED), [StepSave(W, PAYLOAD, V + 1)] + rest, cfg, exec, strict) == Some(s')
  {
    SavesPayload(cfg);
    LedCons(INIT.(db := DRAFTED), StepSave(W, PAYLOAD, V + 1), INIT.(db := SAVED), rest, cfg, exec, strict, s');
  }

  lemma PublishLed(rest: seq<Step>, cfg: ConfigCheck, exec: Executor, strict: bool, s': System)
    requires Lenient(cfg) && Led(INIT.(db := LIVE), rest, cfg, exec, strict) == Some(s')
    ensures Led(INIT.(db := SAVED), [StepPublish(W)] + rest, cfg, exec, strict) == Some(s')
  {
    PublishIs(cfg);
    LedCons(INIT.(db := SAVED), StepPublish(W), INIT.(db := LIVE), rest, cfg, exec, strict, s');
  }

  lemma StartIs(cfg: ConfigCheck)
    requires Lenient(cfg)
    ensures StartARun(INIT.(db := LIVE), W, R, J, Null) == INIT.(db := STARTED, inputs := map[R := INPUT])
  {
    StartsRun(cfg);
  }

  lemma StartLed(rest: seq<Step>, cfg: ConfigCheck, exec: Executor, strict: bool, s': System)
    requires Lenient(cfg) && Led(INIT.(db := STARTED, inputs := map[R := INPUT]), rest, cfg, exec, strict) == Some(s')
    ensures Led(INIT.(db := LIVE), [StepStart(W, R, J, Null)] + rest, cfg, exec, strict) == Some(s')
  {
    StartIs(cfg);
    LedCons(INIT.(db := LIVE), StepStart(W, R, J, Null), INIT.(db := STARTED, inputs := map[R := INPUT]), rest, cfg, exec, strict, s');
  }

  lemma RelayLed(cfg: ConfigCheck, exec: Executor, strict: bool)
    ensures Led(INIT.(db := STARTED, inputs := map[R := INPUT]), [StepRelay([J], 1, true)] + [], cfg, exec, strict) == Some(RELAYED)
  {
    var s := INIT.(db := STARTED, inputs := map[R := INPUT]);
    OneRowRelayed(s, J);
    assert STARTED.outbox - {J} == map[];
    LedNowhere(RELAYED, cfg, exec, strict);
    LedCons(s, StepRelay([J], 1, true), RELAYED, [], cfg, exec, strict, RELAYED);
  }

  /** From the empty system: create, save, publish, start, relay. */
  lemma RunIsQueued(cfg: ConfigCheck, exec: Executor, strict: bool)
    requires Lenient(cfg)
    ensures Led(INIT, StartSteps(), cfg, exec, strict) == Some(RELAYED)
  {
    var rest := [StepRelay([J], 1, true)] + [];
    RelayLed(cfg, exec, strict);
    StartLed(rest, cfg, exec, strict, RELAYED);
    rest := [StepStart(W, R, J, Null)] + rest;
    PublishLed(rest, cfg, exec, strict, RELAYED);
    rest := [StepPublish(W)] + rest;
    SaveLed(rest, cfg, exec, strict, RELAYED);
    rest := [StepSave(W, PAYLOAD, V + 1)] + rest;
    CreateLed(rest, cfg, exec, strict, RELAYED);
  }

  // ---------------------------------------------------------------- what can become of it

  const PLAN := Plan(V, SMALLEST, At(1, INPUT))
  const DONE := Str("done")

  /** An executor that passes its input on and answers the same text at every Response. */
  function EchoExecutor(v: Id, n: Id, row: NodeRow, input: Json): Outcome {
    match row.nodeType
    case Response => Success(Finished(DONE))
    case Conditional => Success(Next(input, True))
    case _ => Success(Next(input, Default))
  }

  lemma RelayedIsSafe(cfg: ConfigCheck, exec: Executor)
    requires Lenient(cfg)
    ensures Inv(RELAYED) && RunQueued(RELAYED, 0, R) && SnapNode(RELAYED.db, STARTED_RUN) == SMALLEST.nodes[1]
  {
    RunIsQueued(cfg, exec, true);
    ReachableIsSafe(StartSteps(), cfg);
  }

  lemma ExampleHop()
    ensures Hop(PLAN, EchoExecutor, At(1, INPUT)) == Some(At(2, INPUT))
    ensures OutcomeAt(PLAN, EchoExecutor, At(2, INPUT)) == Success(Finished(DONE))
  {
    OneEdgePerLabel(SMALLEST, 1, Default, 3);
  }

  lemma ExampleTrace()
    ensures OnTrace(PLAN, EchoExecutor, At(1, INPUT)) && OnTrace(PLAN, EchoExecutor, At(2, INPUT))
  {
    ExampleHop();
    assert TraceAt(PLAN, EchoExecutor, 0) == Some(At(1, INPUT));
    assert TraceAt(PLAN, EchoExecutor, 1) == Some(At(2, INPUT));
  }

  lemma TraceOfExample()
    ensures IsFinal(PLAN, EchoExecutor, DONE) && Sound(EchoExecutor) && StandsOnTrace(RELAYED.db, R, PLAN, EchoExecutor)
  {
    ExampleTrace();
    ExampleHop();
    assert FinishesAt(PLAN, EchoExecutor, At(2, INPUT), DONE);
  }

  lemma {:induction false} TraceFedInput(k: nat)
    ensures var c := TraceAt(PLAN, EchoExecutor, k); c.Some? ==> c.value.input == INPUT
  {
    if k > 0 {
      TraceFedInput(k - 1);
    }
  }

  /** Reachable: a run that was paused or stopped and is then taken back to running by a handler's save. */
  lemma HaltedRunRuns(halt: Step, cfg: ConfigCheck) returns (steps: seq<Step>, s': System, save: Step)
    requires Lenient(cfg) && Halts(halt, R)
    ensures Led(INIT, steps, cfg, EchoExecutor, true) == Some(s') && R in s'.db.runs
    ensures s'.db.runs[R].status == if halt.StepPause? then Paused else Cancelled
    ensures Enabled(s', save) && R in Apply(s', save, cfg).db.runs && Apply(s', save, cfg).db.runs[R].status == Running
  {
    RelayedIsSafe(cfg, EchoExecutor);
    RunIsQueued(cfg, EchoExecutor, true);
    var rest;
    rest, s', save := HaltedRunRunsAgain(RELAYED, 0, R, halt, Next(INPUT, Default), EchoExecutor, cfg);
    LedOn(INIT, StartSteps(), RELAYED, rest, cfg, EchoExecutor, true, s');
    steps := StartSteps() + rest;
  }

  /** Reachable: a completed run that is then taken back to running. */
  lemma CompletedRunRuns(cfg: ConfigCheck) returns (steps: seq<Step>, s': System, save: Step)
    requires Lenient(cfg)
    ensures Led(INIT, steps, cfg, EchoExecutor, true) == Some(s') && R in s'.db.runs
    ensures s'.db.runs[R].status == Completed && s'.db.runs[R].output == DONE
    ensures Enabled(s', save) && R in Apply(s', save, cfg).db.runs && Apply(s', save, cfg).db.runs[R].status == Running
  {
    RelayedIsSafe(cfg, EchoExecutor);
    RunIsQueued(cfg, EchoExecutor, true);
    TraceOfExample();
    var rest;
    rest, s', save := CompletedRunRunsAgain(RELAYED, 0, R, PLAN, Next(INPUT, Default), EchoExecutor, DONE, cfg);
    LedOn(INIT, StartSteps(), RELAYED, rest, cfg, EchoExecutor, true, s');
    steps := StartSteps() + rest;
  }

  lemma ExamplePlan()
    ensures HasPlanOf(RELAYED, R, PLAN)
  {
    SmallestArcs();
    assert 1 in Tables.Starts(SMALLEST);
  }

  lemma ExampleResultIsNew()
    ensures ResultIsNew(PLAN, EchoExecutor, DONE)
  {
    forall k: nat | TraceAt(PLAN, EchoExecutor, k).Some? ensures TraceAt(PLAN, EchoExecutor, k).value.input != DONE {
      TraceFedInput(k);
    }
  }

  /** Reachable: with one transient error, a failed run whose stored input is the final result, off its trace. */
  lemma CompletedRunFailsOffTrace(cfg: ConfigCheck) returns (steps: seq<Step>, s': System)
    requires Lenient(cfg)
    ensures Led(INIT, steps, cfg, EchoExecutor, false) == Some(s') && IsDerailed(s', R, PLAN, EchoExecutor, DONE)
  {
    RelayedIsSafe(cfg, EchoExecutor);
    RunIsQueued(cfg, EchoExecutor, false);
    TraceOfExample();
    ExampleResultIsNew();
    ExamplePlan();
    var rest;
    rest, s' := QueuedRunCanDerail(RELAYED, 0, R, PLAN, EchoExecutor, DONE, cfg);
    LedOn(INIT, StartSteps(), RELAYED, rest, cfg, EchoExecutor, false, s');
    steps := StartSteps() + rest;
  }

  /** Reachable: a run that nothing will ever move again unless it is paused or stopped. */
  lemma RunGetsParked(cfg: ConfigCheck, exec: Executor)
    requires Lenient(cfg)
    ensures exists s' :: Led(RELAYED, [StepDeadLetter(0)], cfg, exec, true) == Some(s') && IsParked(s', R)
  {
    var s' := RELAYED.(queue := RELAYED.queue.(msgs := RELAYED.queue.msgs[0 := RELAYED.queue.msgs[0].(dead := true)]));
    LedNowhere(s', cfg, exec, true);
    LedCons(RELAYED, StepDeadLetter(0), s', [], cfg, exec, true, s');
    assert [StepDeadLetter(0)] + [] == [StepDeadLetter(0)];
    NothingClaims(s', R);
  }
}
