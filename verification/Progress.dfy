/** An active run that anything still brings to a worker can always be completed from where it stands: relay ticks and
    handler steps alone take it to the final result of its trace. */
module Progress {
  import opened Basics
  import opened Tables
  import opened StoreInvariant
  import opened RunInvariant
  import opened Routing
  import opened Protocol
  import opened SystemInvariant
  import opened Trace

  /** Relay ticks and the steps of a handler that succeeds. */
  predicate IsWork(step: Step) {
    step.StepRelay? || step.StepReceive? || step.StepReadRun? || step.StepLoadNode? || step.StepExecute? || step.StepPersist?
    || step.StepDelete?
  }

  /** Where a history of such steps leads, if every execution in it answers what `exec` says. */
  ghost function Driven(s: System, steps: seq<Step>, cfg: ConfigCheck, exec: Executor): Option<System> {
    if ValidHistory(s, steps, cfg) && ConformingHistory(s, steps, cfg, exec, true)
       && (forall i :: 0 <= i < |steps| ==> IsWork(steps[i]))
    then Some(After(s, steps, cfg)) else None
  }

  lemma DrivenNowhere(s: System, cfg: ConfigCheck, exec: Executor)
    ensures Driven(s, [], cfg, exec) == Some(s)
  {}

  lemma DrivenCons(s: System, step: Step, s1: System, rest: seq<Step>, cfg: ConfigCheck, exec: Executor, s2: System)
    requires Enabled(s, step) && s1 == Apply(s, step, cfg) && Conforms(s, step, exec, true) && IsWork(step)
    requires Driven(s1, rest, cfg, exec) == Some(s2)
    ensures Driven(s, [step] + rest, cfg, exec) == Some(s2)
  {
    assert ([step] + rest)[1..] == rest;
  }

  lemma {:induction false} DrivenOn(s: System, a: seq<Step>, s1: System, b: seq<Step>, cfg: ConfigCheck, exec: Executor, s2: System)
    requires Driven(s, a, cfg, exec) == Some(s1) && Driven(s1, b, cfg, exec) == Some(s2)
    ensures Driven(s, a + b, cfg, exec) == Some(s2)
    decreases |a|
  {
    if a == [] {
      assert a + b == b;
    } else {
      var mid := Apply(s, a[0], cfg);
      DrivenOn(mid, a[1..], s1, b, cfg, exec, s2);
      DrivenCons(s, a[0], mid, a[1..] + b, cfg, exec, s2);
      assert a + b == [a[0]] + (a[1..] + b);
    }
  }

  lemma {:induction false} DrivenIsLed(s: System, steps: seq<Step>, cfg: ConfigCheck, exec: Executor, strict: bool, s': System)
    requires Driven(s, steps, cfg, exec) == Some(s')
    ensures Led(s, steps, cfg, exec, strict) == Some(s')
    decreases |steps|
  {
    if steps == [] {
      LedNowhere(s, cfg, exec, strict);
    } else {
      var s1 := Apply(s, steps[0], cfg);
      DrivenIsLed(s1, steps[1..], cfg, exec, strict, s');
      LedCons(s, steps[0], s1, steps[1..], cfg, exec, strict, s');
      assert [steps[0]] + steps[1..] == steps;
    }
  }

  // ---------------------------------------------------------------- one message handled

  /** A live message of `r`, which is active, waits in the queue. */
  ghost predicate RunQueued(s: System, m: nat, r: Id) {
    && m in s.queue.msgs && !s.queue.msgs[m].dead && s.queue.msgs[m].job.run == r
    && r in s.db.runs && Active(s.db.runs[r].status) && HasNode(s.db, s.db.runs[r].version, s.db.runs[r].current)
  }

  lemma PlacedTwice(s: System, h: Id, hd: Handler, next: Handler)
    ensures SetHandler(SetHandler(s, h, hd), h, next) == SetHandler(s, h, next)
    ensures h !in s.handlers ==> DropHandler(SetHandler(s, h, hd), h) == s
  {
    LastWriteWins(s.handlers, h, hd, next);
    if h !in s.handlers {
      assert s.handlers[h := hd] - {h} == s.handlers;
    }
  }

  lemma DeleteDriven(s: System, h: Id, m: nat, cfg: ConfigCheck, exec: Executor, s': System) returns (steps: seq<Step>)
    requires h !in s.handlers && s' == s.(queue := s.queue.(msgs := s.queue.msgs - {m}))
    ensures Driven(SetHandler(s, h, Deleting(m)), steps, cfg, exec) == Some(s')
  {
    PlacedTwice(s', h, Deleting(m), Deleting(m));
    DrivenNowhere(s', cfg, exec);
    DrivenCons(SetHandler(s, h, Deleting(m)), StepDelete(h), s', [], cfg, exec, s');
    steps := [StepDelete(h)] + [];
  }

  /** The state after a result is saved and its message deleted. */
  function Settled(s: System, db: Db, m: nat): System {
    s.(db := db, queue := s.queue.(msgs := s.queue.msgs - {m}))
  }

  lemma PersistDriven(s: System, h: Id, m: nat, r: Id, snap: Run, res: ExecResult, j: Id, db: Db, cfg: ConfigCheck, exec: Executor)
    returns (steps: seq<Step>)
    requires h !in s.handlers && Fresh(s, j) && PersistResult(s.db, r, snap.version, snap.current, res, j) == Ok(db)
    ensures Driven(SetHandler(s, h, HaveResult(m, r, snap, res)), steps, cfg, exec) == Some(Settled(s, db, m))
  {
    var saved := s.(db := db);
    var rest := DeleteDriven(saved, h, m, cfg, exec, Settled(s, db, m));
    PlacedTwice(saved, h, HaveResult(m, r, snap, res), Deleting(m));
    DrivenCons(SetHandler(s, h, HaveResult(m, r, snap, res)), StepPersist(h, j), SetHandler(saved, h, Deleting(m)), rest, cfg, exec,
               Settled(s, db, m));
    steps := [StepPersist(h, j)] + rest;
  }

  lemma ExecuteDriven(s: System, h: Id, m: nat, r: Id, snap: Run, row: NodeRow, res: ExecResult, rest: seq<Step>, cfg: ConfigCheck,
                      exec: Executor, s': System)
    requires Fits(row.nodeType, res) && Answer(exec, snap, row) == Success(res)
    requires Driven(SetHandler(s, h, HaveResult(m, r, snap, res)), rest, cfg, exec) == Some(s')
    ensures Driven(SetHandler(s, h, HaveNode(m, r, snap, row)), [StepExecute(h, Success(res))] + rest, cfg, exec) == Some(s')
  {
    PlacedTwice(s, h, HaveNode(m, r, snap, row), HaveResult(m, r, snap, res));
    DrivenCons(SetHandler(s, h, HaveNode(m, r, snap, row)), StepExecute(h, Success(res)),
               SetHandler(s, h, HaveResult(m, r, snap, res)), rest, cfg, exec, s');
  }

  lemma LoadDriven(s: System, h: Id, m: nat, r: Id, snap: Run, rest: seq<Step>, cfg: ConfigCheck, exec: Executor, s': System)
    requires HasNode(s.db, snap.version, snap.current)
    requires Driven(SetHandler(s, h, HaveNode(m, r, snap, SnapNode(s.db, snap))), rest, cfg, exec) == Some(s')
    ensures Driven(SetHandler(s, h, HaveRun(m, r, snap)), [StepLoadNode(h)] + rest, cfg, exec) == Some(s')
  {
    PlacedTwice(s, h, HaveRun(m, r, snap), HaveNode(m, r, snap, SnapNode(s.db, snap)));
    DrivenCons(SetHandler(s, h, HaveRun(m, r, snap)), StepLoadNode(h), SetHandler(s, h, HaveNode(m, r, snap, SnapNode(s.db, snap))),
               rest, cfg, exec, s');
  }

  lemma ReadDriven(s: System, h: Id, m: nat, r: Id, rest: seq<Step>, cfg: ConfigCheck, exec: Executor, s': System)
    requires r in s.db.runs && Active(s.db.runs[r].status)
    requires Driven(SetHandler(s, h, HaveRun(m, r, s.db.runs[r])), rest, cfg, exec) == Some(s')
    ensures Driven(SetHandler(s, h, Received(m, r)), [StepReadRun(h)] + rest, cfg, exec) == Some(s')
  {
    PlacedTwice(s, h, Received(m, r), HaveRun(m, r, s.db.runs[r]));
    DrivenCons(SetHandler(s, h, Received(m, r)), StepReadRun(h), SetHandler(s, h, HaveRun(m, r, s.db.runs[r])), rest, cfg, exec, s');
  }

  lemma ReceiveDriven(s: System, h: Id, m: nat, rest: seq<Step>, cfg: ConfigCheck, exec: Executor, s': System)
    requires m in s.queue.msgs && !s.queue.msgs[m].dead && h !in s.handlers
    requires Driven(SetHandler(s, h, Received(m, s.queue.msgs[m].job.run)), rest, cfg, exec) == Some(s')
    ensures Driven(s, [StepReceive(h, m)] + rest, cfg, exec) == Some(s')
  {
    DrivenCons(s, StepReceive(h, m), SetHandler(s, h, Received(m, s.queue.msgs[m].job.run)), rest, cfg, exec, s');
  }

  /** One message, handled by a fresh handler without a fault: read, load, execute, save, delete. */
  lemma RoundDriven(s: System, m: nat, r: Id, h: Id, j: Id, res: ExecResult, db: Db, cfg: ConfigCheck, exec: Executor)
    returns (steps: seq<Step>)
    requires RunQueued(s, m, r) && h !in s.handlers && Fresh(s, j)
    requires Fits(SnapNode(s.db, s.db.runs[r]).nodeType, res)
    requires Answer(exec, s.db.runs[r], SnapNode(s.db, s.db.runs[r])) == Success(res)
    requires PersistResult(s.db, r, s.db.runs[r].version, s.db.runs[r].current, res, j) == Ok(db)
    ensures Driven(s, steps, cfg, exec) == Some(Settled(s, db, m))
  {
    var snap, row := s.db.runs[r], SnapNode(s.db, s.db.runs[r]);
    steps := PersistDriven(s, h, m, r, snap, res, j, db, cfg, exec);
    ExecuteDriven(s, h, m, r, snap, row, res, steps, cfg, exec, Settled(s, db, m));
    steps := [StepExecute(h, Success(res))] + steps;
    LoadDriven(s, h, m, r, snap, steps, cfg, exec, Settled(s, db, m));
    steps := [StepLoadNode(h)] + steps;
    ReadDriven(s, h, m, r, steps, cfg, exec, Settled(s, db, m));
    steps := [StepReadRun(h)] + steps;
    ReceiveDriven(s, h, m, steps, cfg, exec, Settled(s, db, m));
    steps := [StepReceive(h, m)] + steps;
  }

  // ---------------------------------------------------------------- one row relayed

  /** The state after a committed tick over one row of an active run. */
  function Relayed(s: System, j: Id): System
    requires j in s.db.outbox
  {
    s.(db := s.db.(outbox := s.db.outbox - {j}), queue := Send(s.queue, s.db.outbox[j]))
  }

  lemma OneRowRelayed(s: System, j: Id)
    requires j in s.db.outbox && s.db.outbox[j].run in s.db.runs && Active(s.db.runs[s.db.outbox[j].run].status)
    ensures Relay(s, [j], 1, true) == Relayed(s, j)
  {
    var job := s.db.outbox[j];
    assert [j][..1] == [j] && [j][..0] == [] && ToSet([j]) == {j};
    assert ActiveJobs(s.db, [j][..0]) == [];
    assert ActiveJobs(s.db, [j]) == [job];
    assert [job][..0] == [];
    assert SendAll(s.queue, [job][..0]) == s.queue;
    assert SendAll(s.queue, [job]) == Send(s.queue, job);
  }

  lemma RelayDriven(s: System, j: Id, cfg: ConfigCheck, exec: Executor)
    requires j in s.db.outbox && s.db.outbox[j].run in s.db.runs && Active(s.db.runs[s.db.outbox[j].run].status)
    ensures Driven(s, [StepRelay([j], 1, true)], cfg, exec) == Some(Relayed(s, j))
  {
    OneRowRelayed(s, j);
    DrivenNowhere(Relayed(s, j), cfg, exec);
    DrivenCons(s, StepRelay([j], 1, true), Relayed(s, j), [], cfg, exec, Relayed(s, j));
    assert [StepRelay([j], 1, true)] + [] == [StepRelay([j], 1, true)];
  }

  lemma UnusedKey(keys: set<Id>) returns (k: Id)
    ensures forall x :: x in keys ==> x < k
  {
    if keys == {} {
      k := 0;
    } else {
      var x :| x in keys;
      k := UnusedKey(keys - {x});
      assert keys == keys - {x} + {x};
      if k <= x {
        k := x + 1;
      }
    }
  }

  // ---------------------------------------------------------------- to the end of the trace

  /** The executors' contract: a success names what its node type routes on. */
  ghost predicate Sound(exec: Executor) {
    forall v, n, row, input :: exec(v, n, row, input).Success? ==> Fits(row.nodeType, exec(v, n, row, input).res)
  }

  /** The run stands on the trace of plan `p`. */
  ghost predicate StandsOnTrace(db: Db, r: Id, p: Plan, exec: Executor) {
    && r in db.runs && db.runs[r].version in db.versions
    && p.version == db.runs[r].version && p.graph == db.versions[db.runs[r].version].graph
    && OnTrace(p, exec, At(db.runs[r].current, db.runs[r].output))
  }

  /** On a trace that finishes, the executor succeeds at the run's checkpoint, and only the final result ends it. */
  lemma AnswerFits(db: Db, r: Id, p: Plan, exec: Executor, o: Json) returns (res: ExecResult)
    requires StandsOnTrace(db, r, p, exec) && HasNode(db, db.runs[r].version, db.runs[r].current)
    requires Sound(exec) && IsFinal(p, exec, o)
    ensures Answer(exec, db.runs[r], SnapNode(db, db.runs[r])) == Success(res)
    ensures OutcomeAt(p, exec, At(db.runs[r].current, db.runs[r].output)) == Success(res)
    ensures Fits(SnapNode(db, db.runs[r]).nodeType, res) && (res.Finished? ==> res.output == o)
  {
    var c := At(db.runs[r].current, db.runs[r].output);
    FinishedMeansNoError(p, exec, o, c);
    assert OutcomeAt(p, exec, c) == Answer(exec, db.runs[r], SnapNode(db, db.runs[r]));
    res := OutcomeAt(p, exec, c).res;
    if res.Finished? {
      assert FinishesAt(p, exec, c, res.output);
      FinalIsUnique(p, exec, res.output, o);
    }
  }

  /** The run is completed with `o`, and nothing but rows and messages changed besides. */
  ghost predicate CompletedWith(s: System, s': System, r: Id, o: Json) {
    && r in s'.db.runs && s'.db.runs[r].status == Completed && s'.db.runs[r].output == o
    && s'.handlers == s.handlers && s'.db.versions == s.db.versions && s'.inputs == s.inputs
  }

  lemma FinalRound(s: System, m: nat, r: Id, p: Plan, exec: Executor, res: ExecResult, cfg: ConfigCheck)
    returns (steps: seq<Step>, s': System)
    requires Inv(s) && RunQueued(s, m, r) && StandsOnTrace(s.db, r, p, exec) && res.Finished?
    requires Answer(exec, s.db.runs[r], SnapNode(s.db, s.db.runs[r])) == Success(res)
    requires Fits(SnapNode(s.db, s.db.runs[r]).nodeType, res)
    ensures Driven(s, steps, cfg, exec) == Some(s') && CompletedWith(s, s', r, res.output)
  {
    var h := UnusedKey(s.handlers.Keys);
    var j := UnusedKey(s.db.outbox.Keys);
    var g := PersistSucceeds(s.db, r, s.db.runs[r].current, res, j);
    var db := WithResult(s.db, r, ResultRun(g, s.db.runs[r], s.db.runs[r].current, res), res, j);
    steps := RoundDriven(s, m, r, h, j, res, db, cfg, exec);
    s' := Settled(s, db, m);
  }

  /** The run moved one checkpoint on, and its next message waits. */
  ghost predicate MovedOn(s: System, s': System, m: nat, r: Id, p: Plan, exec: Executor) {
    && RunQueued(s', m, r) && StandsOnTrace(s'.db, r, p, exec)
    && s'.handlers == s.handlers && s'.db.versions == s.db.versions && s'.inputs == s.inputs
    && r in s.db.runs && NodeRank(p.graph, s.db.runs[r].current) < NodeRank(p.graph, s'.db.runs[r].current) <= |p.graph.nodes|
  }

  lemma HopRanks(g: Graph, n: Id, res: ExecResult)
    requires GraphOk(g) && Publishable(g) && n in g.nodes && Fits(g.nodes[n].nodeType, res) && res.Next?
    ensures NextNode(g, n, res.edgeLabel).Some? && NextNode(g, n, res.edgeLabel).value in g.nodes
    ensures NodeRank(g, n) < NodeRank(g, NextNode(g, n, res.edgeLabel).value) <= |g.nodes|
  {
    LookupHits(g, n, res);
    RankFits(g, NextNode(g, n, res.edgeLabel).value);
  }

  /** The row for the next node is written by the save and relayed by the tick. */
  lemma NextRowRelayed(s: System, m: nat, r: Id, run: Run, j: Id, db: Db) returns (s': System)
    requires r in s.db.runs && Active(run.status) && Fresh(s, j) && m < s.queue.next && db == WithRunAndJob(s.db, r, run, j)
    ensures j in db.outbox && db.outbox[j].run == r && s' == Relayed(Settled(s, db, m), j)
    ensures s'.handlers == s.handlers && s'.db.versions == s.db.versions && s'.db.runs == s.db.runs[r := run]
    ensures s'.inputs == s.inputs
    ensures s.queue.next in s'.queue.msgs && s'.queue.msgs[s.queue.next] == Msg(db.outbox[j], false)
  {
    s' := Relayed(Settled(s, db, m), j);
  }

  lemma NextRound(s: System, m: nat, r: Id, p: Plan, exec: Executor, res: ExecResult, cfg: ConfigCheck)
    returns (steps: seq<Step>, s': System)
    requires Inv(s) && RunQueued(s, m, r) && StandsOnTrace(s.db, r, p, exec) && res.Next?
    requires Answer(exec, s.db.runs[r], SnapNode(s.db, s.db.runs[r])) == Success(res)
    requires OutcomeAt(p, exec, At(s.db.runs[r].current, s.db.runs[r].output)) == Success(res)
    requires Fits(SnapNode(s.db, s.db.runs[r]).nodeType, res)
    ensures Driven(s, steps, cfg, exec) == Some(s') && MovedOn(s, s', s.queue.next, r, p, exec)
  {
    var run := s.db.runs[r];
    var h := UnusedKey(s.handlers.Keys);
    var j := UnusedKey(s.db.outbox.Keys);
    PublishedGraph(s.db, r);
    var g := PersistSucceeds(s.db, r, run.current, res, j);
    var run' := ResultRun(g, run, run.current, res);
    var db := WithResult(s.db, r, run', res, j);
    HopRanks(g, run.current, res);
    HopStaysOnTrace(p, exec, At(run.current, run.output));
    steps := RoundDriven(s, m, r, h, j, res, db, cfg, exec);
    s' := NextRowRelayed(s, m, r, run', j, db);
    RelayDriven(Settled(s, db, m), j, cfg, exec);
    DrivenOn(s, steps, Settled(s, db, m), [StepRelay([j], 1, true)], cfg, exec, s');
    steps := steps + [StepRelay([j], 1, true)];
  }

  lemma DrivenKeeps(s: System, steps: seq<Step>, s': System, cfg: ConfigCheck, exec: Executor)
    requires Inv(s) && Driven(s, steps, cfg, exec) == Some(s')
    ensures Inv(s')
  {
    HistoryKeeps(s, steps, cfg);
  }

  /** From a waiting message to the final result, in as many rounds as the checkpoint's rank allows. */
  lemma {:induction false} QueuedRunCompletes(s: System, m: nat, r: Id, p: Plan, exec: Executor, o: Json, cfg: ConfigCheck)
    returns (steps: seq<Step>, s': System)
    requires Inv(s) && RunQueued(s, m, r) && StandsOnTrace(s.db, r, p, exec) && Sound(exec) && IsFinal(p, exec, o)
    ensures Driven(s, steps, cfg, exec) == Some(s') && CompletedWith(s, s', r, o)
    decreases |p.graph.nodes| - NodeRank(p.graph, s.db.runs[r].current)
  {
    var res := AnswerFits(s.db, r, p, exec, o);
    if res.Finished? {
      steps, s' := FinalRound(s, m, r, p, exec, res, cfg);
    } else {
      var s1, rest;
      steps, s1 := NextRound(s, m, r, p, exec, res, cfg);
      DrivenKeeps(s, steps, s1, cfg, exec);
      rest, s' := QueuedRunCompletes(s1, s.queue.next, r, p, exec, o, cfg);
      DrivenOn(s, steps, s1, rest, cfg, exec, s');
      steps := steps + rest;
    }
  }

  /** From any reachable state: an active run on its trace that has an outbox row or a live message can be completed by
      relay ticks and handler steps alone, with the final result of its trace. */
  lemma ActiveRunCanComplete(s: System, r: Id, exec: Executor, o: Json, cfg: ConfigCheck) returns (steps: seq<Step>, s': System)
    requires Inv(s) && TraceInv(s, exec, false) && r in s.db.runs && Active(s.db.runs[r].status)
    requires (exists j :: j in s.db.outbox && s.db.outbox[j].run == r)
             || (exists m :: m in s.queue.msgs && s.queue.msgs[m].job.run == r && !s.queue.msgs[m].dead)
    requires Sound(exec) && HasPlan(s.db, s.inputs, r) && IsFinal(PlanOf(s.db, s.inputs, r), exec, o)
    ensures Driven(s, steps, cfg, exec) == Some(s') && CompletedWith(s, s', r, o)
  {
    var p := PlanOf(s.db, s.inputs, r);
    assert RunPinned(s.db, s.db.runs[r]);
    if m :| m in s.queue.msgs && s.queue.msgs[m].job.run == r && !s.queue.msgs[m].dead {
      steps, s' := QueuedRunCompletes(s, m, r, p, exec, o, cfg);
    } else {
      var j :| j in s.db.outbox && s.db.outbox[j].run == r;
      RelayDriven(s, j, cfg, exec);
      var s1, rest := Relayed(s, j), [];
      DrivenKeeps(s, [StepRelay([j], 1, true)], s1, cfg, exec);
      rest, s' := QueuedRunCompletes(s1, s.queue.next, r, p, exec, o, cfg);
      DrivenOn(s, [StepRelay([j], 1, true)], s1, rest, cfg, exec, s');
      steps := [StepRelay([j], 1, true)] + rest;
    }
  }
}
