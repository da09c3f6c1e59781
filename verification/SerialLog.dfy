/** Whole serial histories: the log of executor calls. Saved nodes never run again, failed ones re-run on the same
    input, and the rank of the checkpoint bounds the number of hops. */
module SerialLog {
  import opened Basics
  import opened Digraph
  import opened Tables
  import opened StoreInvariant
  import opened RunInvariant
  import opened Routing
  import opened Protocol
  import opened SystemInvariant
  import opened Trace
  import opened Serial

  /** One call of an executor, and whether its outcome was written. */
  datatype Execution = Execution(run: Id, node: Id, input: Json, outcome: Outcome, saved: bool)

  predicate Advances(e: Execution) {
    e.saved && e.outcome.Success? && e.outcome.res.Next?
  }

  predicate Completes(e: Execution) {
    e.saved && e.outcome.Success? && e.outcome.res.Finished?
  }

  ghost function Logged(s: System, step: SerialStep): seq<Execution>
    requires SerialEnabled(s, step)
  {
    if step.Handle? && Executes(s.db, s.queue.msgs[step.m].job.run, step.fault) then
      var r := s.queue.msgs[step.m].job.run;
      [Execution(r, s.db.runs[r].current, s.db.runs[r].output, step.outcome, step.fault != BeforeSave)]
    else []
  }

  ghost predicate ValidSerial(s: System, steps: seq<SerialStep>, cfg: ConfigCheck)
    decreases |steps|
  {
    steps == [] || (SerialEnabled(s, steps[0]) && ValidSerial(SerialApply(s, steps[0], cfg), steps[1..], cfg))
  }

  ghost function SerialAfter(s: System, steps: seq<SerialStep>, cfg: ConfigCheck): System
    requires ValidSerial(s, steps, cfg)
    decreases |steps|
  {
    if steps == [] then s else SerialAfter(SerialApply(s, steps[0], cfg), steps[1..], cfg)
  }

  ghost function Log(s: System, steps: seq<SerialStep>, cfg: ConfigCheck): seq<Execution>
    requires ValidSerial(s, steps, cfg)
    decreases |steps|
  {
    if steps == [] then []
    else Logged(s, steps[0]) + Log(SerialApply(s, steps[0], cfg), steps[1..], cfg)
  }

  ghost function CountAdvances(log: seq<Execution>, r: Id): nat {
    if log == [] then 0
    else
      var e := log[|log| - 1];
      CountAdvances(log[..|log| - 1], r) + if e.run == r && Advances(e) then 1 else 0
  }

  ghost function CountCompletions(log: seq<Execution>, r: Id): nat {
    if log == [] then 0
    else
      var e := log[|log| - 1];
      CountCompletions(log[..|log| - 1], r) + if e.run == r && Completes(e) then 1 else 0
  }

  // ---------------------------------------------------------------- what an entry says about its run now

  ghost predicate HasGraph(db: Db, r: Id) {
    r in db.runs && db.runs[r].version in db.versions
  }

  ghost function GraphOf(db: Db, r: Id): Graph
    requires HasGraph(db, r)
  {
    db.versions[db.runs[r].version].graph
  }

  /** The run stands at or beyond the entry's node; strictly beyond once the entry advanced it. */
  ghost predicate EntryBehind(g: Graph, run: Run, e: Execution) {
    && NodeRank(g, e.node) <= NodeRank(g, run.current)
    && (Advances(e) ==> NodeRank(g, e.node) < NodeRank(g, run.current))
    && (Completes(e) ==> run.status == Completed)
    && (e.node == run.current && run.status != Completed ==> e.input == run.output)
  }

  ghost predicate EntriesBehind(db: Db, log: seq<Execution>) {
    forall i :: 0 <= i < |log| ==> HasGraph(db, log[i].run) && EntryBehind(GraphOf(db, log[i].run), db.runs[log[i].run], log[i])
  }

  /** A later call for the same run: nothing follows a completion, a saved node does not come back, and the same
      node is called on the same input. */
  predicate Follows(a: Execution, b: Execution) {
    a.run == b.run ==>
      && !Completes(a)
      && (Advances(a) ==> b.node != a.node)
      && (b.node == a.node ==> b.input == a.input)
  }

  ghost predicate Ordered(log: seq<Execution>) {
    forall i, k :: 0 <= i < k < |log| ==> Follows(log[i], log[k])
  }

  ghost predicate Counted(db: Db, log: seq<Execution>) {
    forall r :: r in db.runs ==>
      HasGraph(db, r) && CountAdvances(log, r) < NodeRank(GraphOf(db, r), db.runs[r].current)
      && CountCompletions(log, r) == if db.runs[r].status == Completed then 1 else 0
  }

  ghost predicate NoStrangers(db: Db, log: seq<Execution>) {
    forall i :: 0 <= i < |log| ==> log[i].run in db.runs
  }

  ghost predicate LogInv(db: Db, log: seq<Execution>) {
    EntriesBehind(db, log) && Ordered(log) && Counted(db, log)
  }

  lemma {:induction false} StrangersCountNothing(log: seq<Execution>, r: Id)
    requires forall i :: 0 <= i < |log| ==> log[i].run != r
    ensures CountAdvances(log, r) == CountCompletions(log, r) == 0
  {
    if log != [] {
      StrangersCountNothing(log[..|log| - 1], r);
    }
  }

  lemma SnocCounts(log: seq<Execution>, e: Execution, r: Id)
    ensures CountAdvances(log + [e], r) == CountAdvances(log, r) + if e.run == r && Advances(e) then 1 else 0
    ensures CountCompletions(log + [e], r) == CountCompletions(log, r) + if e.run == r && Completes(e) then 1 else 0
  {
    assert (log + [e])[..|log|] == log;
  }

  // ---------------------------------------------------------------- steps that execute nothing

  lemma GraphKept(db: Db, db': Db, r: Id)
    requires Pinned(db) && Evolves(db, db') && r in db.runs
    ensures HasGraph(db, r) && HasGraph(db', r) && GraphOf(db', r) == GraphOf(db, r)
  {
    assert RunPinned(db, db.runs[r]);
  }

  lemma QuietKeepsEntries(db: Db, db': Db, log: seq<Execution>)
    requires Pinned(db) && Evolves(db, db') && SpotsKept(db, db') && EntriesBehind(db, log)
    ensures EntriesBehind(db', log)
  {
    forall i | 0 <= i < |log| ensures HasGraph(db', log[i].run) && EntryBehind(GraphOf(db', log[i].run), db'.runs[log[i].run], log[i]) {
      GraphKept(db, db', log[i].run);
    }
  }

  lemma NewRunRank(db: Db, r: Id)
    requires Pinned(db) && r in db.runs
    ensures HasGraph(db, r) && 1 <= NodeRank(GraphOf(db, r), db.runs[r].current) <= |GraphOf(db, r).nodes|
  {
    assert RunPinned(db, db.runs[r]);
    var g := GraphOf(db, r);
    RankBounds(g.nodes.Keys, GraphArcs(g), db.runs[r].current);
    assert |g.nodes.Keys| == |g.nodes|;
  }

  lemma QuietKeepsCounts(db: Db, db': Db, log: seq<Execution>)
    requires Pinned(db) && Pinned(db') && Evolves(db, db') && SpotsKept(db, db') && NoStrangers(db, log) && Counted(db, log)
    requires NewRunsPending(db, db')
    ensures Counted(db', log)
  {
    forall r | r in db'.runs
      ensures HasGraph(db', r) && CountAdvances(log, r) < NodeRank(GraphOf(db', r), db'.runs[r].current)
      ensures CountCompletions(log, r) == if db'.runs[r].status == Completed then 1 else 0
    {
      NewRunRank(db', r);
      if r in db.runs {
        GraphKept(db, db', r);
      } else {
        StrangersCountNothing(log, r);
      }
    }
  }

  lemma QuietKeepsLog(db: Db, db': Db, log: seq<Execution>)
    requires Pinned(db) && Pinned(db') && Evolves(db, db') && SpotsKept(db, db') && LogInv(db, log)
    requires NewRunsPending(db, db')
    ensures LogInv(db', log)
  {
    QuietKeepsEntries(db, db', log);
    QuietKeepsCounts(db, db', log);
  }

  // ---------------------------------------------------------------- steps that execute

  /** How the row of an executed run may move: nowhere, to a node further on, or to completion. */
  ghost predicate RowMoved(g: Graph, run: Run, run': Run, e: Execution) {
    && run.status != Completed
    && e.node == run.current && e.input == run.output
    && if Advances(e) then
         run'.status != Completed && NodeRank(g, run.current) < NodeRank(g, run'.current)
       else if Completes(e) then
         run'.status == Completed && run'.current == run.current
       else
         run'.status != Completed && run'.current == run.current && run'.output == run.output
  }

  lemma EntryMoves(g: Graph, run: Run, run': Run, e: Execution, old_: Execution)
    requires RowMoved(g, run, run', e) && EntryBehind(g, run, old_)
    ensures EntryBehind(g, run', old_) && EntryBehind(g, run', e)
    ensures old_.run == e.run ==> Follows(old_, e)
  {}

  lemma NewEntryBehind(g: Graph, run: Run, run': Run, e: Execution)
    requires RowMoved(g, run, run', e)
    ensures EntryBehind(g, run', e)
  {}

  ghost predicate OnlyRunMoved(db: Db, db': Db, e: Execution) {
    && HasGraph(db, e.run) && e.run in db'.runs && db'.versions == db.versions
    && db'.runs == db.runs[e.run := db'.runs[e.run]]
    && db'.runs[e.run].version == db.runs[e.run].version
    && RowMoved(GraphOf(db, e.run), db.runs[e.run], db'.runs[e.run], e)
  }

  lemma ExecutedKeepsEntries(db: Db, db': Db, log: seq<Execution>, e: Execution)
    requires OnlyRunMoved(db, db', e) && EntriesBehind(db, log)
    ensures EntriesBehind(db', log + [e])
  {
    var log' := log + [e];
    NewEntryBehind(GraphOf(db, e.run), db.runs[e.run], db'.runs[e.run], e);
    forall i | 0 <= i < |log'| ensures HasGraph(db', log'[i].run) && EntryBehind(GraphOf(db', log'[i].run), db'.runs[log'[i].run], log'[i]) {
      if i < |log| {
        assert HasGraph(db, log[i].run) && EntryBehind(GraphOf(db, log[i].run), db.runs[log[i].run], log[i]);
        if log[i].run == e.run {
          EntryMoves(GraphOf(db, e.run), db.runs[e.run], db'.runs[e.run], e, log[i]);
        }
      }
    }
  }

  lemma ExecutedKeepsOrder(db: Db, db': Db, log: seq<Execution>, e: Execution)
    requires OnlyRunMoved(db, db', e) && EntriesBehind(db, log) && Ordered(log)
    ensures Ordered(log + [e])
  {
    forall i | 0 <= i < |log| ensures Follows(log[i], e) {
      if log[i].run == e.run {
        EntryMoves(GraphOf(db, e.run), db.runs[e.run], db'.runs[e.run], e, log[i]);
      }
    }
  }

  lemma ExecutedKeepsCounts(db: Db, db': Db, log: seq<Execution>, e: Execution)
    requires OnlyRunMoved(db, db', e) && Counted(db, log)
    ensures Counted(db', log + [e])
  {
    forall r | r in db'.runs
      ensures HasGraph(db', r) && CountAdvances(log + [e], r) < NodeRank(GraphOf(db', r), db'.runs[r].current)
      ensures CountCompletions(log + [e], r) == if db'.runs[r].status == Completed then 1 else 0
    {
      assert r in db.runs && HasGraph(db, r);
      SnocCounts(log, e, r);
    }
  }

  lemma HandleMovesRow(s: System, h: Id, j: Id, outcome: Outcome, fault: Fault, db': Db, e: Execution)
    requires DbInv(s.db) && Executes(s.db, h, fault) && db' == HandledDb(s.db, h, j, outcome, fault)
    requires outcome.Success? ==> Fits(SnapNode(s.db, s.db.runs[h]).nodeType, outcome.res)
    requires e == Execution(h, s.db.runs[h].current, s.db.runs[h].output, outcome, fault != BeforeSave)
    ensures OnlyRunMoved(s.db, db', e)
  {
    var g := HandledClimbs(s, h, j, outcome, fault, db');
    RowWritten(s.db, h, g, j, outcome, fault != BeforeSave, db', e);
  }

  lemma HandledClimbs(s: System, h: Id, j: Id, outcome: Outcome, fault: Fault, db': Db) returns (g: Graph)
    requires DbInv(s.db) && Executes(s.db, h, fault) && db' == HandledDb(s.db, h, j, outcome, fault)
    requires outcome.Success? ==> Fits(SnapNode(s.db, s.db.runs[h]).nodeType, outcome.res)
    ensures s.db.runs[h].version in s.db.versions && g == s.db.versions[s.db.runs[h].version].graph
    ensures fault == BeforeSave ==> db' == s.db
    ensures fault != BeforeSave && outcome.Failure? ==> db' == FailRun(s.db, h)
    ensures outcome.Success? && outcome.res.Next? ==>
              && NextNode(g, s.db.runs[h].current, outcome.res.edgeLabel).Some?
              && NodeRank(g, s.db.runs[h].current) < NodeRank(g, NextNode(g, s.db.runs[h].current, outcome.res.edgeLabel).value)
    ensures fault != BeforeSave && outcome.Success? ==>
              && db' == WithResult(s.db, h, ResultRun(g, s.db.runs[h], s.db.runs[h].current, outcome.res), outcome.res, j)
  {
    g := HandledRun(s, h, j, outcome, fault, db');
    PublishedGraph(s.db, h);
    if outcome.Success? && outcome.res.Next? {
      LookupHits(g, s.db.runs[h].current, outcome.res);
    }
  }

  lemma RowWritten(db: Db, h: Id, g: Graph, j: Id, outcome: Outcome, saved: bool, db': Db, e: Execution)
    requires h in db.runs && db.runs[h].version in db.versions && g == db.versions[db.runs[h].version].graph
    requires Active(db.runs[h].status)
    requires e == Execution(h, db.runs[h].current, db.runs[h].output, outcome, saved)
    requires !saved ==> db' == db
    requires saved && outcome.Failure? ==> db' == FailRun(db, h)
    requires Advances(e) ==> NextNode(g, e.node, outcome.res.edgeLabel).Some?
                             && NodeRank(g, e.node) < NodeRank(g, NextNode(g, e.node, outcome.res.edgeLabel).value)
    requires saved && outcome.Success? ==>
               db' == WithResult(db, h, ResultRun(g, db.runs[h], db.runs[h].current, outcome.res), outcome.res, j)
    ensures OnlyRunMoved(db, db', e)
  {
    if !saved {
      SameEntry(db.runs, h);
    }
  }

  // ---------------------------------------------------------------- histories

  lemma QuietStepKeepsLog(s: System, step: SerialStep, cfg: ConfigCheck, s': System, log: seq<Execution>)
    requires SerialInv(s) && SerialEnabled(s, step) && s' == SerialApply(s, step, cfg) && LogInv(s.db, log)
    requires DbInv(s'.db) && Evolves(s.db, s'.db) && Logged(s, step) == []
    ensures LogInv(s'.db, log)
  {
    forall r | r in s.db.runs
      ensures r in s'.db.runs && SpotOf(s'.db.runs[r]) == SpotOf(s.db.runs[r])
              && (Ended(s.db.runs[r].status) ==> s'.db.runs[r] == s.db.runs[r])
    {
      HopOrStutter(s, step, cfg, s', r);
    }
    OnlyPendingRunsAppear(s, step, cfg, s');
    QuietKeepsLog(s.db, s'.db, log);
  }

  lemma ExecutedKeepsLog(db: Db, db': Db, log: seq<Execution>, e: Execution)
    requires OnlyRunMoved(db, db', e) && LogInv(db, log)
    ensures LogInv(db', log + [e])
  {
    ExecutedKeepsEntries(db, db', log, e);
    ExecutedKeepsOrder(db, db', log, e);
    ExecutedKeepsCounts(db, db', log, e);
  }

  lemma ExecutingStepKeepsLog(s: System, step: SerialStep, cfg: ConfigCheck, s': System, log: seq<Execution>, e: Execution)
    requires DbInv(s.db) && SerialEnabled(s, step) && s' == SerialApply(s, step, cfg) && LogInv(s.db, log)
    requires Logged(s, step) == [e]
    ensures LogInv(s'.db, log + [e])
  {
    HandleMovesRow(s, s.queue.msgs[step.m].job.run, step.j, step.outcome, step.fault, s'.db, e);
    ExecutedKeepsLog(s.db, s'.db, log, e);
  }

  lemma StepKeepsLog(s: System, step: SerialStep, cfg: ConfigCheck, s': System, log: seq<Execution>)
    requires SerialInv(s) && SerialEnabled(s, step) && s' == SerialApply(s, step, cfg) && LogInv(s.db, log)
    requires DbInv(s'.db) && Evolves(s.db, s'.db)
    ensures LogInv(s'.db, log + Logged(s, step))
  {
    if Logged(s, step) == [] {
      QuietStepKeepsLog(s, step, cfg, s', log);
      assert log + [] == log;
    } else {
      ExecutingStepKeepsLog(s, step, cfg, s', log, Logged(s, step)[0]);
    }
  }

  lemma LogUnfolds(s: System, steps: seq<SerialStep>, cfg: ConfigCheck, log: seq<Execution>)
    requires ValidSerial(s, steps, cfg)
    ensures steps == [] ==> log + Log(s, steps, cfg) == log
    ensures steps != [] ==>
      log + Log(s, steps, cfg) == (log + Logged(s, steps[0])) + Log(SerialApply(s, steps[0], cfg), steps[1..], cfg)
  {
    if steps == [] {
      Associative(log, [], []);
    } else {
      Associative(log, Logged(s, steps[0]), Log(SerialApply(s, steps[0], cfg), steps[1..], cfg));
    }
  }

  lemma {:induction false} HistoryKeepsLog(s: System, steps: seq<SerialStep>, cfg: ConfigCheck, log: seq<Execution>, log': seq<Execution>)
    requires SerialInv(s) && ValidSerial(s, steps, cfg) && LogInv(s.db, log) && log' == log + Log(s, steps, cfg)
    ensures SerialInv(SerialAfter(s, steps, cfg)) && LogInv(SerialAfter(s, steps, cfg).db, log')
    decreases |steps|
  {
    LogUnfolds(s, steps, cfg, log);
    if steps != [] {
      var s1 := SerialApply(s, steps[0], cfg);
      SerialStepKeeps(s, steps[0], cfg, s1);
      StepKeepsLog(s, steps[0], cfg, s1, log);
      HistoryKeepsLog(s1, steps[1..], cfg, log + Logged(s, steps[0]), log');
    }
  }

  lemma LogFromStart(steps: seq<SerialStep>, cfg: ConfigCheck, s: System, log: seq<Execution>)
    requires ValidSerial(INIT, steps, cfg) && s == SerialAfter(INIT, steps, cfg) && log == Log(INIT, steps, cfg)
    ensures SerialInv(s) && LogInv(s.db, log)
  {
    assert log == [] + Log(INIT, steps, cfg);
    HistoryKeepsLog(INIT, steps, cfg, [], log);
  }

  /** Over any serial history with any executors: after a node's success is saved it never runs again, a node that
      runs again gets the identical input, and nothing runs after completion. */
  lemma SavedNodesNeverRunAgain(steps: seq<SerialStep>, cfg: ConfigCheck, log: seq<Execution>, i: nat, k: nat)
    requires ValidSerial(INIT, steps, cfg) && log == Log(INIT, steps, cfg)
    requires i < k < |log| && log[i].run == log[k].run
    ensures log[i].saved && log[i].outcome.Success? ==> log[i].outcome.res.Next? && log[k].node != log[i].node
    ensures log[k].node == log[i].node ==> log[k].input == log[i].input
  {
    LogFromStart(steps, cfg, SerialAfter(INIT, steps, cfg), log);
    assert Follows(log[i], log[k]);
  }

  /** However many duplicates, retries and pauses: at most |nodes| - 1 hops are saved for a run, and one completion,
      which is saved exactly when the run is completed. */
  lemma HopsAreBounded(steps: seq<SerialStep>, cfg: ConfigCheck, log: seq<Execution>, db: Db, r: Id)
    requires ValidSerial(INIT, steps, cfg) && log == Log(INIT, steps, cfg)
    requires db == SerialAfter(INIT, steps, cfg).db && r in db.runs
    ensures HasGraph(db, r) && CountAdvances(log, r) <= |GraphOf(db, r).nodes| - 1
    ensures CountCompletions(log, r) == if db.runs[r].status == Completed then 1 else 0
  {
    LogFromStart(steps, cfg, SerialAfter(INIT, steps, cfg), log);
    NewRunRank(db, r);
  }

  // ---------------------------------------------------------------- ranks between states

  ghost function RankOf(db: Db, r: Id): nat
    requires HasGraph(db, r)
  {
    NodeRank(GraphOf(db, r), db.runs[r].current)
  }

  lemma QuietRank(a: Run, b: Run)
    requires SpotOf(b) == SpotOf(a) && (Ended(a.status) ==> b == a)
    ensures b.current == a.current
  {}

  lemma MovedRank(db: Db, db': Db, e: Execution, r: Id)
    requires OnlyRunMoved(db, db', e) && HasGraph(db, r)
    ensures HasGraph(db', r) && GraphOf(db', r) == GraphOf(db, r) && RankOf(db, r) <= RankOf(db', r)
    ensures r == e.run && Advances(e) ==> RankOf(db, r) < RankOf(db', r)
  {}

  lemma WrittenRank(s: System, h: Id, j: Id, outcome: Outcome, fault: Fault, db': Db, r: Id)
    requires DbInv(s.db) && Executes(s.db, h, fault) && db' == HandledDb(s.db, h, j, outcome, fault) && HasGraph(s.db, r)
    requires outcome.Success? ==> Fits(SnapNode(s.db, s.db.runs[h]).nodeType, outcome.res)
    ensures HasGraph(db', r) && RankOf(s.db, r) <= RankOf(db', r)
    ensures r == h && fault != BeforeSave && outcome.Success? && outcome.res.Next? ==> RankOf(s.db, r) < RankOf(db', r)
  {
    var e := Execution(h, s.db.runs[h].current, s.db.runs[h].output, outcome, fault != BeforeSave);
    HandleMovesRow(s, h, j, outcome, fault, db', e);
    MovedRank(s.db, db', e, r);
  }

  /** From one serial state to the next a run's checkpoint never loses rank, and gains some when an advance is saved. */
  lemma RankNeverFalls(s: System, step: SerialStep, cfg: ConfigCheck, s': System, r: Id)
    requires SerialInv(s) && SerialEnabled(s, step) && s' == SerialApply(s, step, cfg) && HasGraph(s.db, r)
    ensures HasGraph(s'.db, r) && RankOf(s.db, r) <= RankOf(s'.db, r)
    ensures Saves(s, step, r) && step.outcome.res.Next? ==> RankOf(s.db, r) < RankOf(s'.db, r)
  {
    SerialStepKeeps(s, step, cfg, s');
    if Logged(s, step) == [] {
      HopOrStutter(s, step, cfg, s', r);
      QuietRank(s.db.runs[r], s'.db.runs[r]);
      GraphKept(s.db, s'.db, r);
    } else {
      WrittenRank(s, s.queue.msgs[step.m].job.run, step.j, step.outcome, step.fault, s'.db, r);
    }
  }
}
