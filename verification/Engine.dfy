/** The code that runs: a store whose transactions write tables in place, a queue, the relay loop and the worker. */
module Engine {
  import opened Basics
  import opened Tables
  import opened Routing
  import opened Protocol
  import opened Serial

  /** The PostgreSQL database behind sqlc; `InTx` restores the tables when its body fails. */
  class Store {
    var db: Db

    constructor ()
      ensures db == EMPTY_DB
    {
      db := EMPTY_DB;
    }

    method GetWorkflowRun(id: Id) returns (run: Option<Run>)
      ensures run == if id in db.runs then Some(db.runs[id]) else None
    {
      run := if id in db.runs then Some(db.runs[id]) else None;
    }

    method GetNodeForExecution(version: Id, node: Id) returns (row: Option<NodeRow>)
      ensures row == if HasNode(db, version, node) then Some(db.versions[version].graph.nodes[node]) else None
    {
      row := if HasNode(db, version, node) then Some(db.versions[version].graph.nodes[node]) else None;
    }

    /** Scans the version's edges; the unique key makes the row it finds the only one. */
    method GetNextNodeForExecution(version: Id, from: Id, l: Label) returns (to: Option<Id>)
      requires version in db.versions ==> KeysUnique(db.versions[version].graph)
      ensures to == if version in db.versions then NextNode(db.versions[version].graph, from, l) else None
    {
      if version !in db.versions {
        return None;
      }
      var g := db.versions[version].graph;
      var todo := g.edges.Keys;
      while todo != {}
        invariant todo <= g.edges.Keys
        invariant forall e :: e in g.edges && e !in todo ==> !(g.edges[e].from == from && g.edges[e].edgeLabel == l)
      {
        var e :| e in todo;
        if g.edges[e].from == from && g.edges[e].edgeLabel == l {
          OneEdgePerLabel(g, from, l, e);
          return Some(g.edges[e].to);
        }
        todo := todo - {e};
      }
      return None;
    }

    method AdvanceWorkflowRun(id: Id, node: Id, output: Json) returns (ok: bool)
      modifies this
      ensures ok <==> AdvanceRun(old(db), id, node, output).Ok?
      ensures db == if ok then AdvanceRun(old(db), id, node, output).value else old(db)
    {
      ok := true;
      if id in db.runs {
        var run := db.runs[id];
        ok := HasNode(db, run.version, node);
        if ok {
          db := db.(runs := db.runs[id := run.(status := Running, current := node, attempt := 1, output := output)]);
        }
      }
    }

    method CompleteWorkflowRun(id: Id, output: Json)
      modifies this
      ensures db == CompleteRun(old(db), id, output)
    {
      if id in db.runs {
        db := db.(runs := db.runs[id := db.runs[id].(status := Completed, output := output)]);
      }
    }

    method FailWorkflowRun(id: Id)
      modifies this
      ensures db == FailRun(old(db), id)
    {
      if id in db.runs {
        var run := db.runs[id];
        db := db.(runs := db.runs[id := run.(status := Failed, attempt := run.attempt + 1)]);
      }
    }

    method InsertRunNodeJobOutbox(j: Id, run: Id, version: Id, node: Id) returns (ok: bool)
      modifies this
      ensures ok <==> InsertJob(old(db), j, run, version, node).Ok?
      ensures db == if ok then InsertJob(old(db), j, run, version, node).value else old(db)
    {
      ok := run in db.runs && db.runs[run].version == version && HasNode(db, version, node);
      if ok {
        db := db.(outbox := db.outbox[j := Job(run, version, node, 1)]);
      }
    }

    method DeleteRunNodeJobOutbox(j: Id)
      modifies this
      ensures db == old(db).(outbox := old(db).outbox - {j})
    {
      db := db.(outbox := db.outbox - {j});
    }

    /** Resume: status flip and outbox row in one transaction. */
    method Resume(id: Id, j: Id) returns (ok: bool)
      modifies this
      ensures ok <==> Tables.Resume(old(db), id, j).Ok?
      ensures db == if ok then Tables.Resume(old(db), id, j).value else old(db)
    {
      var before := db;
      if id !in db.runs || db.runs[id].status != Paused {
        return false;
      }
      db := SetStatus(db, id, Running);
      ok := InsertRunNodeJobOutbox(j, id, db.runs[id].version, db.runs[id].current);
      if !ok {
        db := before;
      }
    }

    /** Retry: clear the failure, reset the attempt, outbox row. */
    method Retry(id: Id, j: Id) returns (ok: bool)
      modifies this
      ensures ok <==> Tables.Retry(old(db), id, j).Ok?
      ensures db == if ok then Tables.Retry(old(db), id, j).value else old(db)
    {
      var before := db;
      if id !in db.runs || db.runs[id].status != Failed {
        return false;
      }
      db := db.(runs := db.runs[id := db.runs[id].(status := Running, attempt := 1)]);
      ok := InsertRunNodeJobOutbox(j, id, db.runs[id].version, db.runs[id].current);
      if !ok {
        db := before;
      }
    }
  }

  /** The SQS client. */
  class Sqs {
    var q: Queue

    constructor ()
      ensures q == Queue(map[], 0)
    {
      q := Queue(map[], 0);
    }

    method SendJob(job: Job)
      modifies this
      ensures q == Send(old(q), job)
    {
      q := Queue(q.msgs[q.next := Msg(job, false)], q.next + 1);
    }

    method Delete(m: nat)
      modifies this
      ensures q == old(q).(msgs := old(q).msgs - {m})
    {
      q := q.(msgs := q.msgs - {m});
    }
  }

  /** Which call of a relay tick fails, if any: the send or the delete of the k-th row, or the commit. */
  datatype RelayFault = NoRelayFault | SendFails(k: nat) | DeleteFails(k: nat) | CommitFails

  /** One more row: what leaves with it. */
  lemma OneMoreRow(q: Queue, db: Db, rows: seq<Id>, i: nat)
    requires i < |rows| && rows[i] in db.outbox && db.outbox[rows[i]].run in db.runs
    ensures var job := db.outbox[rows[i]];
            var before := SendAll(q, ActiveJobs(db, rows[..i]));
            SendAll(q, ActiveJobs(db, rows[..i + 1])) == if Active(db.runs[job.run].status) then Send(before, job) else before
  {
    var jobs := ActiveJobs(db, rows[..i]);
    assert rows[..i + 1][..i] == rows[..i];
    assert (jobs + [db.outbox[rows[i]]])[..|jobs|] == jobs;
    Associative(jobs, [], []);
  }

  lemma OneRowFewer(outbox: map<Id, Job>, rows: seq<Id>, i: nat)
    requires i < |rows| && Distinct(rows) && rows[i] in outbox
    ensures rows[i] in outbox - ToSet(rows[..i])
    ensures outbox - ToSet(rows[..i]) - {rows[i]} == outbox - ToSet(rows[..i + 1])
  {
    assert rows[..i + 1] == rows[..i] + [rows[i]];
    assert ToSet(rows[..i + 1]) == ToSet(rows[..i]) + {rows[i]};
  }

  /** The send of one row: skipped for an inactive run, and the only call that can fail before the delete. */
  method SendIfActive(store: Store, sqs: Sqs, job: Job, broken: bool) returns (ok: bool)
    requires store != sqs as object && job.run in store.db.runs
    modifies sqs
    ensures ok <==> !(broken && Active(store.db.runs[job.run].status))
    ensures sqs.q == if ok && Active(store.db.runs[job.run].status) then Send(old(sqs.q), job) else old(sqs.q)
  {
    if Active(store.db.runs[job.run].status) {
      if broken {
        return false;
      }
      sqs.SendJob(job);
    }
    return true;
  }

  /** relay: for each locked row send it if its run is active, then delete it; any error rolls the deletes back,
      but what was sent stays sent. `sent` is the number of rows whose message left. */
  method Relay(store: Store, sqs: Sqs, locked: seq<Id>, fault: RelayFault) returns (ok: bool, sent: nat)
    requires store != sqs as object
    requires Distinct(locked) && forall j :: j in locked ==> j in store.db.outbox && store.db.outbox[j].run in store.db.runs
    modifies store, sqs
    ensures sent <= |locked|
    ensures sqs.q == SendAll(old(sqs.q), ActiveJobs(old(store.db), locked[..sent]))
    ensures store.db == old(store.db).(outbox := old(store.db).outbox - if ok then ToSet(locked) else {})
    ensures ok ==> sent == |locked|
    ensures fault == NoRelayFault ==> ok
  {
    var before := store.db;
    sent := 0;
    for i := 0 to |locked|
      invariant sent == i
      invariant sqs.q == SendAll(old(sqs.q), ActiveJobs(before, locked[..i]))
      invariant store.db == before.(outbox := before.outbox - ToSet(locked[..i]))
    {
      OneMoreRow(old(sqs.q), before, locked, i);
      OneRowFewer(before.outbox, locked, i);
      var sends := SendIfActive(store, sqs, store.db.outbox[locked[i]], fault == SendFails(i));
      if !sends {
        store.db := before;
        return false, sent;
      }
      sent := i + 1;
      if fault == DeleteFails(i) {
        store.db := before;
        return false, sent;
      }
      store.DeleteRunNodeJobOutbox(locked[i]);
    }
    assert locked[..|locked|] == locked;
    if fault == CommitFails {
      store.db := before;
      return false, sent;
    }
    return true, sent;
  }

  class Worker {
    const store: Store
    const queue: Sqs

    constructor (store: Store, queue: Sqs)
      ensures this.store == store && this.queue == queue
    {
      this.store := store;
      this.queue := queue;
    }

    /** persistNodeResult: complete, or route, advance and queue the next job; all or nothing. */
    method PersistNodeResult(id: Id, run: Run, node: Id, res: ExecResult, j: Id) returns (ok: bool)
      requires run.version in store.db.versions ==> KeysUnique(store.db.versions[run.version].graph)
      modifies store
      ensures ok <==> PersistResult(old(store.db), id, run.version, node, res, j).Ok?
      ensures store.db == if ok then PersistResult(old(store.db), id, run.version, node, res, j).value else old(store.db)
    {
      var before := store.db;
      if res.Finished? {
        store.CompleteWorkflowRun(id, res.output);
        return true;
      }
      var next := store.GetNextNodeForExecution(run.version, node, res.edgeLabel);
      if next.None? {
        return false;
      }
      ok := store.AdvanceWorkflowRun(id, next.value, res.output);
      if !ok {
        return false;
      }
      ok := store.InsertRunNodeJobOutbox(j, id, run.version, next.value);
      if !ok {
        store.db := before;
      }
    }

    /** handleNodeJob, undisturbed: read the run, execute its current node, save, acknowledge. `outcome` is what the
        executor answers if it is called, `fault` the call that fails, if any. */
    method HandleNodeJob(m: nat, j: Id, outcome: Outcome, fault: Fault)
      requires m in queue.q.msgs
      requires forall v :: v in store.db.versions ==> KeysUnique(store.db.versions[v].graph)
      modifies store, queue
      ensures var r := old(queue.q).msgs[m].job.run;
              && store.db == HandledDb(old(store.db), r, j, outcome, fault)
              && queue.q == if Acknowledged(old(store.db), r, j, outcome, fault)
                            then old(queue.q).(msgs := old(queue.q).msgs - {m}) else old(queue.q)
      // The message goes exactly if the run was read as inactive, or its result was saved, and the delete did not fail.
      ensures var db, job := old(store.db), old(queue.q).msgs[m].job;
              m !in queue.q.msgs <==>
              && job.run in db.runs && fault != BeforeRead && fault != BeforeDelete
              && var run := db.runs[job.run];
                 (run.status != Pending && run.status != Running)
                 || (fault == NoFault && outcome.Success? && HasNode(db, run.version, run.current)
                     && PersistResult(db, job.run, run.version, run.current, outcome.res, j).Ok?)
      ensures queue.q.next == old(queue.q).next
      ensures forall x :: x != m ==> (x in queue.q.msgs <==> x in old(queue.q).msgs)
                                     && (x in queue.q.msgs ==> queue.q.msgs[x] == old(queue.q).msgs[x])
      ensures m in queue.q.msgs ==> queue.q.msgs[m] == old(queue.q).msgs[m]
    {
      var r := queue.q.msgs[m].job.run;
      if fault == BeforeRead {
        return;
      }
      var found := store.GetWorkflowRun(r);
      if found.None? {
        return;
      }
      var run := found.value;
      if Active(run.status) {
        if fault == BeforeLoad {
          return;
        }
        var node := store.GetNodeForExecution(run.version, run.current);
        if node.None? || fault == BeforeExecute {
          return;
        }
        if outcome.Failure? {
          if fault != BeforeSave {
            store.FailWorkflowRun(r);
          }
          return;
        }
        if fault == BeforeSave {
          return;
        }
        var ok := PersistNodeResult(r, run, run.current, outcome.res, j);
        if !ok || fault == BeforeDelete {
          return;
        }
        queue.Delete(m);
      } else {
        if fault == BeforeDelete {
          return;
        }
        queue.Delete(m);
      }
    }
  }
}
