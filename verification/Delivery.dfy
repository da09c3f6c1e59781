/** No run is stranded: while a run is pending or running, some job for it is on its way, whatever crashes. */
module Delivery {
  import opened Basics
  import opened Tables
  import opened StoreInvariant
  import opened RunInvariant
  import opened Protocol
  import opened SystemInvariant

  /** Some handler has decided to delete message `m`. */
  ghost predicate Doomed(hs: map<Id, Handler>, m: nat) {
    exists h :: h in hs && hs[h] == Deleting(m)
  }

  ghost predicate HasRow(outbox: map<Id, Job>, r: Id) {
    exists j :: j in outbox && outbox[j].run == r
  }

  /** A message for `r`, in the queue or the dead-letter queue, that nobody is about to delete. */
  ghost predicate Waiting(q: Queue, hs: map<Id, Handler>, r: Id, m: nat) {
    m in q.msgs && q.msgs[m].job.run == r && !Doomed(hs, m)
  }

  ghost predicate HasMessage(q: Queue, hs: map<Id, Handler>, r: Id) {
    exists m :: Waiting(q, hs, r, m)
  }

  ghost predicate Covered(s: System, r: Id) {
    HasRow(s.db.outbox, r) || HasMessage(s.queue, s.handlers, r)
  }

  ghost predicate IsActive(db: Db, r: Id) {
    r in db.runs && (db.runs[r].status == Pending || db.runs[r].status == Running)
  }

  ghost predicate NoStranded(s: System) {
    forall r :: IsActive(s.db, r) ==> Covered(s, r)
  }

  /** A handler works on the run its message names. */
  ghost predicate Matched(q: Queue, hs: map<Id, Handler>) {
    forall h :: h in hs && !hs[h].Deleting? && hs[h].msg in q.msgs ==> q.msgs[hs[h].msg].job.run == hs[h].run
  }

  ghost predicate Delivering(s: System) {
    NoStranded(s) && Matched(s.queue, s.handlers)
  }

  // ---------------------------------------------------------------- requests

  /** Old rows stay; whoever becomes active brings a row. */
  lemma RowsCover(s: System, s': System)
    requires Delivering(s) && s'.queue == s.queue && s'.handlers == s.handlers
    requires forall j :: j in s.db.outbox ==> j in s'.db.outbox && s'.db.outbox[j].run == s.db.outbox[j].run
    requires forall r :: IsActive(s'.db, r) ==> IsActive(s.db, r) || HasRow(s'.db.outbox, r)
    ensures Delivering(s')
  {
    forall r | IsActive(s'.db, r) ensures Covered(s', r) {
      if IsActive(s.db, r) && HasRow(s.db.outbox, r) {
        var j :| j in s.db.outbox && s.db.outbox[j].run == r;
        assert j in s'.db.outbox;
      }
    }
  }

  lemma RunAndJobCovers(s: System, r: Id, run: Run, j: Id, s': System)
    requires Delivering(s) && j !in s.db.outbox && s'.queue == s.queue && s'.handlers == s.handlers
    requires s'.db == WithRunAndJob(s.db, r, run, j)
    ensures Delivering(s') && HasRow(s'.db.outbox, r)
  {
    assert j in s'.db.outbox;
    RowsCover(s, s');
  }

  lemma InactiveCovers(s: System, r: Id, run: Run, s': System)
    requires Delivering(s) && !Active(run.status) && s'.queue == s.queue && s'.handlers == s.handlers
    requires s'.db.runs == s.db.runs[r := run] && s'.db.outbox == s.db.outbox
    ensures Delivering(s')
  {
    RowsCover(s, s');
  }

  lemma DefinitionDelivers(s: System, s': System)
    requires Delivering(s) && s'.queue == s.queue && s'.handlers == s.handlers
    requires s'.db.runs == s.db.runs && s'.db.outbox == s.db.outbox
    ensures Delivering(s')
  {
    RowsCover(s, s');
  }

  lemma StartDelivers(s: System, w: Id, r: Id, j: Id, input: Json, s': System)
    requires Inv(s) && Delivering(s) && r !in s.db.runs && j !in s.db.outbox && s' == StartARun(s, w, r, j, input)
    ensures Delivering(s')
  {
    var run := StartKeeps(s.db, w, r, j, input, s'.db);
    if StartRun(s.db, w, r, j, input).Ok? {
      RunAndJobCovers(s, r, run, j, s');
    }
  }

  lemma PauseDelivers(s: System, r: Id, s': System)
    requires Delivering(s) && s' == Commit(s, Pause(s.db, r))
    ensures Delivering(s')
  {
    if Pause(s.db, r).Ok? {
      InactiveCovers(s, r, s.db.runs[r].(status := Paused), s');
    }
  }

  lemma StopDelivers(s: System, r: Id, s': System)
    requires Delivering(s) && s' == Commit(s, Stop(s.db, r))
    ensures Delivering(s')
  {
    if Stop(s.db, r).Ok? {
      InactiveCovers(s, r, s.db.runs[r].(status := Cancelled), s');
    }
  }

  /** The outbox row that brings `r` to the node it stands at. */
  ghost predicate RowForCurrent(db: Db, r: Id, j: Id) {
    r in db.runs && j in db.outbox && db.outbox[j] == Job(r, db.runs[r].version, db.runs[r].current, 1)
  }

  lemma ResumeDelivers(s: System, r: Id, j: Id, s': System)
    requires Inv(s) && Delivering(s) && j !in s.db.outbox && s' == Commit(s, Resume(s.db, r, j))
    ensures Delivering(s')
    ensures r in s.db.runs && s.db.runs[r].status == Paused ==> RowForCurrent(s'.db, r, j) && s'.db.runs[r].status == Running
  {
    ResumeKeeps(s.db, r, j, s'.db);
    if Resume(s.db, r, j).Ok? {
      RunAndJobCovers(s, r, s.db.runs[r].(status := Running), j, s');
    }
  }

  lemma RetryDelivers(s: System, r: Id, j: Id, s': System)
    requires Inv(s) && Delivering(s) && j !in s.db.outbox && s' == Commit(s, Retry(s.db, r, j))
    ensures Delivering(s')
    ensures r in s.db.runs && s.db.runs[r].status == Failed ==> RowForCurrent(s'.db, r, j) && s'.db.runs[r].status == Running
  {
    RetryKeeps(s.db, r, j, s'.db);
    if Retry(s.db, r, j).Ok? {
      RunAndJobCovers(s, r, s.db.runs[r].(status := Running, attempt := 1), j, s');
    }
  }

  lemma RequestDelivers(s: System, step: Step, cfg: ConfigCheck, s': System)
    requires Inv(s) && Delivering(s) && Enabled(s, step) && IsRequest(step) && s' == Apply(s, step, cfg)
    ensures Delivering(s')
  {
    match step
    case StepCreate(w, v) =>
      CreateKeeps(s.db, w, v, s'.db);
      DefinitionDelivers(s, s');
    case StepSave(w, p, newId) =>
      SaveKeeps(s.db, cfg, w, p, newId, s'.db);
      DefinitionDelivers(s, s');
    case StepPublish(w) =>
      PublishKeeps(s.db, cfg, w, s'.db);
      DefinitionDelivers(s, s');
    case StepArchive(w) =>
      ArchiveKeeps(s.db, w, s'.db);
      DefinitionDelivers(s, s');
    case StepStart(w, r, j, input) => StartDelivers(s, w, r, j, input, s');
    case StepPause(r) => PauseDelivers(s, r, s');
    case StepResume(r, j) => ResumeDelivers(s, r, j, s');
    case StepStop(r) => StopDelivers(s, r, s');
    case StepRetry(r, j) => RetryDelivers(s, r, j, s');
  }

  // ---------------------------------------------------------------- relay and queue

  /** Sending appends: old messages stay, each job gets a new one. */
  lemma {:induction false} SentAll(q: Queue, jobs: seq<Job>)
    requires forall m :: m in q.msgs ==> m < q.next
    ensures var q' := SendAll(q, jobs);
            && q'.next == q.next + |jobs|
            && (forall m :: m in q'.msgs ==> m < q'.next)
            && (forall m :: m in q.msgs ==> m in q'.msgs && q'.msgs[m] == q.msgs[m])
            && (forall m :: q.next <= m < q'.next ==> m in q'.msgs && q'.msgs[m] == Msg(jobs[m - q.next], false))
            && (forall m :: m in q'.msgs && m !in q.msgs ==> q.next <= m)
  {
    if jobs != [] {
      SentAll(q, jobs[..|jobs| - 1]);
    }
  }

  lemma {:induction false} ActiveRowSent(db: Db, rows: seq<Id>, j: Id) returns (i: nat)
    requires j in rows && j in db.outbox && IsActive(db, db.outbox[j].run)
    ensures i < |ActiveJobs(db, rows)| && ActiveJobs(db, rows)[i] == db.outbox[j]
  {
    if rows[|rows| - 1] == j {
      i := |ActiveJobs(db, rows)| - 1;
    } else {
      assert rows == rows[..|rows| - 1] + [rows[|rows| - 1]];
      i := ActiveRowSent(db, rows[..|rows| - 1], j);
    }
  }

  lemma UntouchedMessageWaits(q: Queue, hs: map<Id, Handler>, q': Queue, hs': map<Id, Handler>, r: Id)
    requires HasMessage(q, hs, r)
    requires forall m :: m in q.msgs && !Doomed(hs, m) && q.msgs[m].job.run == r ==>
               m in q'.msgs && q'.msgs[m].job.run == r && !Doomed(hs', m)
    ensures HasMessage(q', hs', r)
  {
    var m :| Waiting(q, hs, r, m);
    assert Waiting(q', hs', r, m);
  }

  lemma RelayDelivers(s: System, locked: seq<Id>, sent: nat, committed: bool, s': System)
    requires Inv(s) && Delivering(s) && sent <= |locked| && (committed ==> sent == |locked|)
    requires s' == Relay(s, locked, sent, committed)
    ensures Delivering(s')
  {
    var jobs := ActiveJobs(s.db, locked[..sent]);
    SentAll(s.queue, jobs);
    forall r | IsActive(s'.db, r) ensures Covered(s', r) {
      assert Covered(s, r);
      if HasMessage(s.queue, s.handlers, r) {
        UntouchedMessageWaits(s.queue, s.handlers, s'.queue, s'.handlers, r);
      } else {
        RelayedRowCovers(s, locked, sent, committed, s', r);
      }
    }
  }

  lemma SentJobWaits(q: Queue, hs: map<Id, Handler>, jobs: seq<Job>, i: nat)
    requires i < |jobs| && (forall m :: m in q.msgs ==> m < q.next) && (forall h :: h in hs ==> hs[h].msg < q.next)
    ensures HasMessage(SendAll(q, jobs), hs, jobs[i].run)
  {
    SentAll(q, jobs);
    assert Waiting(SendAll(q, jobs), hs, jobs[i].run, q.next + i);
  }

  lemma SentRowWaits(s: System, locked: seq<Id>, j: Id, s': System)
    requires HandlersOk(s.db, s.queue.next, s.handlers) && QueueOk(s.db, s.queue)
    requires j in s.db.outbox && j in locked && IsActive(s.db, s.db.outbox[j].run)
    requires s'.queue == SendAll(s.queue, ActiveJobs(s.db, locked)) && s'.handlers == s.handlers
    ensures HasMessage(s'.queue, s'.handlers, s.db.outbox[j].run)
  {
    var i := ActiveRowSent(s.db, locked, j);
    SentJobWaits(s.queue, s.handlers, ActiveJobs(s.db, locked), i);
  }

  lemma RelayedRowCovers(s: System, locked: seq<Id>, sent: nat, committed: bool, s': System, r: Id)
    requires HandlersOk(s.db, s.queue.next, s.handlers) && QueueOk(s.db, s.queue)
    requires sent <= |locked| && (committed ==> sent == |locked|)
    requires s' == Relay(s, locked, sent, committed)
    requires IsActive(s.db, r) && HasRow(s.db.outbox, r)
    ensures Covered(s', r)
  {
    var j :| j in s.db.outbox && s.db.outbox[j].run == r;
    if committed && j in locked {
      assert locked[..sent] == locked;
      SentRowWaits(s, locked, j, s');
    } else {
      assert j in s'.db.outbox;
    }
  }

  // ---------------------------------------------------------------- handlers

  /** Handlers may only doom messages of runs that are inactive or have a row; messages of others stay. */
  lemma HandlersCover(s: System, s': System)
    requires NoStranded(s) && s'.db == s.db && Matched(s'.queue, s'.handlers)
    requires forall m, r :: Waiting(s.queue, s.handlers, r, m) && IsActive(s.db, r) ==> Waiting(s'.queue, s'.handlers, r, m)
    ensures Delivering(s')
  {
    forall r | IsActive(s'.db, r) ensures Covered(s', r) {
      assert Covered(s, r);
      if HasMessage(s.queue, s.handlers, r) {
        var m :| Waiting(s.queue, s.handlers, r, m);
        assert Waiting(s'.queue, s'.handlers, r, m);
      }
    }
  }

  /** A handler that does not start deleting changes nobody's cover. */
  lemma HandlerPlaced(s: System, h: Id, hd: Handler, s': System)
    requires Delivering(s) && !hd.Deleting? && s' == SetHandler(s, h, hd)
    requires hd.msg in s.queue.msgs ==> s.queue.msgs[hd.msg].job.run == hd.run
    ensures Delivering(s')
  {
    forall m, r | Waiting(s.queue, s.handlers, r, m) ensures Waiting(s'.queue, s'.handlers, r, m) {
      assert forall x :: x in s'.handlers && s'.handlers[x] == Deleting(m) ==> x in s.handlers && s.handlers[x] == Deleting(m);
    }
    HandlersCover(s, s');
  }

  /** A handler that starts deleting: its run must be inactive or have a row. */
  lemma DeletionCovered(s: System, h: Id, s': System)
    requires Delivering(s) && h in s.handlers && !s.handlers[h].Deleting?
    requires s' == SetHandler(s, h, Deleting(s.handlers[h].msg))
    requires IsActive(s.db, s.handlers[h].run) ==> HasRow(s.db.outbox, s.handlers[h].run)
    ensures Delivering(s')
  {
    var hd := s.handlers[h];
    forall r | IsActive(s'.db, r) ensures Covered(s', r) {
      assert Covered(s, r);
      if r != hd.run && HasMessage(s.queue, s.handlers, r) {
        var m :| Waiting(s.queue, s.handlers, r, m);
        assert m != hd.msg;
        assert forall x :: x in s'.handlers && s'.handlers[x] == Deleting(m) ==> x in s.handlers && s.handlers[x] == Deleting(m);
        assert Waiting(s'.queue, s'.handlers, r, m);
      }
    }
  }

  lemma HandlerGone(s: System, h: Id, s': System)
    requires Delivering(s) && s' == DropHandler(s, h)
    ensures Delivering(s')
  {
    forall m, r | Waiting(s.queue, s.handlers, r, m) ensures Waiting(s'.queue, s'.handlers, r, m) {
      assert forall x :: x in s'.handlers && s'.handlers[x] == Deleting(m) ==> x in s.handlers && s.handlers[x] == Deleting(m);
    }
    HandlersCover(s, s');
  }

  lemma MessageDeleted(s: System, h: Id, s': System)
    requires Delivering(s) && h in s.handlers && s.handlers[h].Deleting?
    requires s' == DropHandler(s.(queue := s.queue.(msgs := s.queue.msgs - {s.handlers[h].msg})), h)
    ensures Delivering(s')
  {
    assert Doomed(s.handlers, s.handlers[h].msg);
    forall m, r | Waiting(s.queue, s.handlers, r, m) ensures Waiting(s'.queue, s'.handlers, r, m) {
      assert forall x :: x in s'.handlers && s'.handlers[x] == Deleting(m) ==> x in s.handlers && s.handlers[x] == Deleting(m);
    }
    HandlersCover(s, s');
  }

  /** Duplicates and dead-lettering lose no message. */
  lemma QueueGrew(s: System, q: Queue, s': System)
    requires HandlersOk(s.db, s.queue.next, s.handlers) && Delivering(s) && s' == s.(queue := q)
    requires forall m :: m in s.queue.msgs ==> m in q.msgs && q.msgs[m].job == s.queue.msgs[m].job
    requires forall m :: m in q.msgs && m !in s.queue.msgs ==> s.queue.next <= m
    ensures Delivering(s')
  {
    forall m, r | Waiting(s.queue, s.handlers, r, m) ensures Waiting(s'.queue, s'.handlers, r, m) {}
    HandlersCover(s, s');
  }

  lemma ReadRunDelivers(s: System, h: Id, s': System)
    requires Inv(s) && Delivering(s) && h in s.handlers && s.handlers[h].Received? && s' == ReadRun(s, h, s.handlers[h])
    ensures Delivering(s')
  {
    var hd := s.handlers[h];
    assert HandlerOk(s.db, hd);
    if Active(s.db.runs[hd.run].status) {
      HandlerPlaced(s, h, HaveRun(hd.msg, hd.run, s.db.runs[hd.run]), s');
    } else {
      DeletionCovered(s, h, s');
    }
  }

  lemma ResultDelivers(s: System, h: Id, run: Run, res: ExecResult, j: Id, s': System)
    requires Delivering(s) && h in s.handlers && s.handlers[h].HaveResult? && j !in s.db.outbox
    requires res.Finished? ==> run.status == Completed
    requires s' == SetHandler(s.(db := WithResult(s.db, s.handlers[h].run, run, res, j)), h, Deleting(s.handlers[h].msg))
    ensures Delivering(s')
  {
    var mid := s.(db := s'.db);
    if res.Finished? {
      InactiveCovers(s, s.handlers[h].run, run, mid);
    } else {
      RunAndJobCovers(s, s.handlers[h].run, run, j, mid);
    }
    DeletionCovered(mid, h, s');
  }

  /** Saving a result either ends the run or leaves a row for the next node, so its message may go. */
  lemma PersistDelivers(s: System, h: Id, j: Id, s': System)
    requires Inv(s) && Delivering(s) && h in s.handlers && s.handlers[h].HaveResult? && j !in s.db.outbox
    requires s' == Persist(s, h, s.handlers[h], j)
    ensures Delivering(s')
    ensures var hd := s.handlers[h];
            hd.run in s'.db.runs
            && if hd.res.Next? then RowForCurrent(s'.db, hd.run, j) else s'.db.runs[hd.run].status == Completed
  {
    var hd := s.handlers[h];
    var g := PersistStep(s, h, j, s');
    ResultDelivers(s, h, ResultRun(g, s.db.runs[hd.run], hd.snap.current, hd.res), hd.res, j, s');
  }

  lemma FailedRunDelivers(s: System, h: Id, r: Id, s': System)
    requires Delivering(s) && r in s.db.runs && s' == DropHandler(s.(db := FailRun(s.db, r)), h)
    ensures Delivering(s')
  {
    var mid := s.(db := s'.db);
    InactiveCovers(s, r, FailedRun(s.db.runs[r]), mid);
    HandlerGone(mid, h, s');
  }

  lemma FailureDelivers(s: System, h: Id, s': System)
    requires Inv(s) && Delivering(s) && h in s.handlers && s.handlers[h].HaveError?
    requires s' == DropHandler(s.(db := FailRun(s.db, s.handlers[h].run)), h)
    ensures Delivering(s')
  {
    assert HandlerOk(s.db, s.handlers[h]);
    FailedRunDelivers(s, h, s.handlers[h].run, s');
  }

  lemma DuplicateDelivers(s: System, m: nat, s': System)
    requires QueueOk(s.db, s.queue) && HandlersOk(s.db, s.queue.next, s.handlers)
    requires Delivering(s) && m in s.queue.msgs && s' == s.(queue := Send(s.queue, s.queue.msgs[m].job))
    ensures Delivering(s')
  {
    QueueGrew(s, s'.queue, s');
  }

  lemma DeadLetterDelivers(s: System, m: nat, s': System)
    requires HandlersOk(s.db, s.queue.next, s.handlers) && Delivering(s) && m in s.queue.msgs
    requires s' == s.(queue := s.queue.(msgs := s.queue.msgs[m := s.queue.msgs[m].(dead := true)]))
    ensures Delivering(s')
  {
    QueueGrew(s, s'.queue, s');
  }

  lemma WorkDelivers(s: System, step: Step, cfg: ConfigCheck, s': System)
    requires Inv(s) && Delivering(s) && Enabled(s, step) && !IsRequest(step) && s' == Apply(s, step, cfg)
    ensures Delivering(s')
  {
    match step
    case StepRelay(locked, sent, committed) => RelayDelivers(s, locked, sent, committed, s');
    case StepDuplicate(m) => DuplicateDelivers(s, m, s');
    case StepDeadLetter(m) => DeadLetterDelivers(s, m, s');
    case StepReceive(h, m) => HandlerPlaced(s, h, Received(m, s.queue.msgs[m].job.run), s');
    case StepReadRun(h) => ReadRunDelivers(s, h, s');
    case StepLoadNode(h) =>
      LoadNodeStep(s, h, s');
      HandlerPlaced(s, h, s'.handlers[h], s');
    case StepExecute(h, outcome) => HandlerPlaced(s, h, s'.handlers[h], s');
    case StepPersist(h, j) => PersistDelivers(s, h, j, s');
    case StepRecordFailure(h) => FailureDelivers(s, h, s');
    case StepDelete(h) => MessageDeleted(s, h, s');
    case StepAbandon(h) => HandlerGone(s, h, s');
  }

  lemma {:induction false} HistoryDelivers(s: System, steps: seq<Step>, cfg: ConfigCheck)
    requires Inv(s) && Delivering(s) && ValidHistory(s, steps, cfg)
    ensures Delivering(After(s, steps, cfg))
    decreases |steps|
  {
    if steps != [] {
      var s1 := Apply(s, steps[0], cfg);
      StepKeeps(s, steps[0], cfg, s1);
      if IsRequest(steps[0]) {
        RequestDelivers(s, steps[0], cfg, s1);
      } else {
        WorkDelivers(s, steps[0], cfg, s1);
      }
      HistoryDelivers(s1, steps[1..], cfg);
    }
  }

  /** In every reachable state a pending or running run has an outbox row, or a message in the queue or the
      dead-letter queue that no handler has decided to delete: crashes, lost deletes, relay failures, dropped rows
      and duplicates never strand it. */
  lemma NeverStranded(steps: seq<Step>, cfg: ConfigCheck)
    requires ValidHistory(INIT, steps, cfg)
    ensures NoStranded(After(INIT, steps, cfg))
  {
    HistoryDelivers(INIT, steps, cfg);
  }
}
