/** The whole system as a state machine: every transaction is one step; a handler takes several, with other steps,
    other handlers of the same run, redelivery and crashes in between. */
module Protocol {
  import opened Basics
  import opened Tables
  import opened Routing

  /** A queued message. Receiving does not remove it, so a redelivery is just another receive. */
  datatype Msg = Msg(job: Job, dead: bool)

  datatype Queue = Queue(msgs: map<nat, Msg>, next: nat)

  /** What an executor call yields: a result, or an error that fails the run. */
  datatype Outcome = Success(res: ExecResult) | Failure

  /** Where one call of handleNodeJob stands. `snap` is the run row it read. */
  datatype Handler =
    | Received(msg: nat, run: Id)
    | HaveRun(msg: nat, run: Id, snap: Run)
    | HaveNode(msg: nat, run: Id, snap: Run, node: NodeRow)
    | HaveResult(msg: nat, run: Id, snap: Run, res: ExecResult)
    | HaveError(msg: nat, run: Id, snap: Run)
    | Deleting(msg: nat)

  /** `inputs` remembers each run's first output, the wrapped start payload. */
  datatype System = System(db: Db, queue: Queue, handlers: map<Id, Handler>, inputs: map<Id, Json>)

  const INIT := System(EMPTY_DB, Queue(map[], 0), map[], map[])

  datatype Step =
    | StepCreate(w: Id, v: Id)
    | StepSave(w: Id, payload: Payload, newId: Id)
    | StepPublish(w: Id)
    | StepArchive(w: Id)
    | StepStart(w: Id, r: Id, j: Id, input: Json)
    | StepPause(r: Id)
    | StepResume(r: Id, j: Id)
    | StepStop(r: Id)
    | StepRetry(r: Id, j: Id)
    | StepRelay(locked: seq<Id>, sent: nat, committed: bool)
    | StepDuplicate(m: nat)
    | StepDeadLetter(m: nat)
    | StepReceive(h: Id, m: nat)
    | StepReadRun(h: Id)
    | StepLoadNode(h: Id)
    | StepExecute(h: Id, outcome: Outcome)
    | StepPersist(h: Id, j: Id)
    | StepRecordFailure(h: Id)
    | StepDelete(h: Id)
    | StepAbandon(h: Id)

  function Send(q: Queue, job: Job): Queue {
    Queue(q.msgs[q.next := Msg(job, false)], q.next + 1)
  }

  function SendAll(q: Queue, jobs: seq<Job>): Queue {
    if jobs == [] then q
    else Send(SendAll(q, jobs[..|jobs| - 1]), jobs[|jobs| - 1])
  }

  /** The jobs the relay sends for these rows: those whose run is pending or running. */
  function ActiveJobs(db: Db, rows: seq<Id>): seq<Job> {
    if rows == [] then []
    else
      var j := rows[|rows| - 1];
      ActiveJobs(db, rows[..|rows| - 1])
      + if j in db.outbox && db.outbox[j].run in db.runs && Active(db.runs[db.outbox[j].run].status) then [db.outbox[j]] else []
  }

  ghost predicate Fresh(s: System, j: Id) {
    j !in s.db.outbox
  }

  /** New keys are new, handlers are where the step finds them, executors keep their contract. */
  ghost predicate Enabled(s: System, step: Step) {
    match step
    case StepCreate(w, v) => w !in s.db.workflows && v !in s.db.versions
    case StepSave(_, _, newId) => newId !in s.db.versions
    case StepStart(_, r, j, _) => r !in s.db.runs && Fresh(s, j)
    case StepResume(_, j) => Fresh(s, j)
    case StepRetry(_, j) => Fresh(s, j)
    case StepRelay(locked, sent, committed) =>
      && Distinct(locked) && (forall j :: j in locked ==> j in s.db.outbox)
      && sent <= |locked| && (committed ==> sent == |locked|)
    case StepDuplicate(m) => m in s.queue.msgs && !s.queue.msgs[m].dead
    case StepDeadLetter(m) => m in s.queue.msgs
    case StepReceive(h, m) => h !in s.handlers && m in s.queue.msgs && !s.queue.msgs[m].dead
    case StepReadRun(h) => h in s.handlers && s.handlers[h].Received?
    case StepLoadNode(h) => h in s.handlers && s.handlers[h].HaveRun?
    case StepExecute(h, outcome) =>
      && h in s.handlers && s.handlers[h].HaveNode?
      && (outcome.Success? ==> Fits(s.handlers[h].node.nodeType, outcome.res))
    case StepPersist(h, j) => h in s.handlers && s.handlers[h].HaveResult? && Fresh(s, j)
    case StepRecordFailure(h) => h in s.handlers && s.handlers[h].HaveError?
    case StepDelete(h) => h in s.handlers && s.handlers[h].Deleting?
    case StepAbandon(h) => h in s.handlers
    case _ => true
  }

  /** A transaction that fails rolls back. */
  function Commit(s: System, r: DbResult): System {
    if r.Ok? then s.(db := r.value) else s
  }

  function SetHandler(s: System, h: Id, hd: Handler): System {
    s.(handlers := s.handlers[h := hd])
  }

  function DropHandler(s: System, h: Id): System {
    s.(handlers := s.handlers - {h})
  }

  ghost function StartARun(s: System, w: Id, r: Id, j: Id, input: Json): System {
    var res := StartRun(s.db, w, r, j, input);
    if res.Ok? then s.(db := res.value, inputs := s.inputs[r := StartOutput(input)]) else s
  }

  /** One relay transaction: messages leave at once, row deletions only if it commits. */
  function Relay(s: System, locked: seq<Id>, sent: nat, committed: bool): System
    requires sent <= |locked|
  {
    s.(queue := SendAll(s.queue, ActiveJobs(s.db, locked[..sent])),
       db := s.db.(outbox := s.db.outbox - if committed then ToSet(locked) else {}))
  }

  ghost function ReadRun(s: System, h: Id, hd: Handler): System
    requires hd.Received?
  {
    if hd.run !in s.db.runs then DropHandler(s, h)
    else if Active(s.db.runs[hd.run].status) then SetHandler(s, h, HaveRun(hd.msg, hd.run, s.db.runs[hd.run]))
    else SetHandler(s, h, Deleting(hd.msg))
  }

  ghost function LoadNode(s: System, h: Id, hd: Handler): System
    requires hd.HaveRun?
  {
    if !HasNode(s.db, hd.snap.version, hd.snap.current) then DropHandler(s, h)
    else SetHandler(s, h, HaveNode(hd.msg, hd.run, hd.snap, s.db.versions[hd.snap.version].graph.nodes[hd.snap.current]))
  }

  function Execute(s: System, h: Id, hd: Handler, outcome: Outcome): System
    requires hd.HaveNode?
  {
    match outcome
    case Success(res) => SetHandler(s, h, HaveResult(hd.msg, hd.run, hd.snap, res))
    case Failure => SetHandler(s, h, HaveError(hd.msg, hd.run, hd.snap))
  }

  ghost function Persist(s: System, h: Id, hd: Handler, j: Id): System
    requires hd.HaveResult?
  {
    var r := PersistResult(s.db, hd.run, hd.snap.version, hd.snap.current, hd.res, j);
    if r.Ok? then SetHandler(s.(db := r.value), h, Deleting(hd.msg)) else DropHandler(s, h)
  }

  ghost function Apply(s: System, step: Step, cfg: ConfigCheck): System
    requires Enabled(s, step)
  {
    match step
    case StepCreate(w, v) => s.(db := CreateWorkflow(s.db, w, v))
    case StepSave(w, p, newId) => Commit(s, Save(s.db, cfg, w, p, newId))
    case StepPublish(w) => Commit(s, Publish(s.db, cfg, w))
    case StepArchive(w) => Commit(s, Archive(s.db, w))
    case StepStart(w, r, j, input) => StartARun(s, w, r, j, input)
    case StepPause(r) => Commit(s, Pause(s.db, r))
    case StepResume(r, j) => Commit(s, Resume(s.db, r, j))
    case StepStop(r) => Commit(s, Stop(s.db, r))
    case StepRetry(r, j) => Commit(s, Retry(s.db, r, j))
    case StepRelay(locked, sent, committed) => Relay(s, locked, sent, committed)
    case StepDuplicate(m) => s.(queue := Send(s.queue, s.queue.msgs[m].job))
    case StepDeadLetter(m) => s.(queue := s.queue.(msgs := s.queue.msgs[m := s.queue.msgs[m].(dead := true)]))
    case StepReceive(h, m) => SetHandler(s, h, Received(m, s.queue.msgs[m].job.run))
    case StepReadRun(h) => ReadRun(s, h, s.handlers[h])
    case StepLoadNode(h) => LoadNode(s, h, s.handlers[h])
    case StepExecute(h, outcome) => Execute(s, h, s.handlers[h], outcome)
    case StepPersist(h, j) => Persist(s, h, s.handlers[h], j)
    case StepRecordFailure(h) => DropHandler(s.(db := FailRun(s.db, s.handlers[h].run)), h)
    case StepDelete(h) => DropHandler(s.(queue := s.queue.(msgs := s.queue.msgs - {s.handlers[h].msg})), h)
    case StepAbandon(h) => DropHandler(s, h)
  }

  /** A history: every step is enabled where it happens. */
  ghost predicate ValidHistory(s: System, steps: seq<Step>, cfg: ConfigCheck)
    decreases |steps|
  {
    steps == [] || (Enabled(s, steps[0]) && ValidHistory(Apply(s, steps[0], cfg), steps[1..], cfg))
  }

  ghost function After(s: System, steps: seq<Step>, cfg: ConfigCheck): System
    requires ValidHistory(s, steps, cfg)
    decreases |steps|
  {
    if steps == [] then s else After(Apply(s, steps[0], cfg), steps[1..], cfg)
  }

  /** Histories compose. */
  lemma {:induction false} HistoriesCompose(s: System, a: seq<Step>, b: seq<Step>, cfg: ConfigCheck)
    requires ValidHistory(s, a, cfg) && ValidHistory(After(s, a, cfg), b, cfg)
    ensures ValidHistory(s, a + b, cfg) && After(s, a + b, cfg) == After(After(s, a, cfg), b, cfg)
    decreases |a|
  {
    if a == [] {
      assert a + b == b;
    } else {
      assert (a + b)[1..] == a[1..] + b;
      HistoriesCompose(Apply(s, a[0], cfg), a[1..], b, cfg);
    }
  }
}
