/** What relay ticks conserve: messages gained are exactly the active rows processed; no row is sent twice. */
module Conservation {
  import opened Basics
  import opened Tables
  import opened Protocol
  import opened SystemInvariant
  import opened Delivery

  ghost predicate RowActive(db: Db, j: Id) {
    j in db.outbox && IsActive(db, db.outbox[j].run)
  }

  ghost function ActiveRows(db: Db, rows: seq<Id>): seq<Id> {
    if rows == [] then []
    else
      ActiveRows(db, rows[..|rows| - 1]) + if RowActive(db, rows[|rows| - 1]) then [rows[|rows| - 1]] else []
  }

  lemma {:induction false} ActiveRowsAre(db: Db, rows: seq<Id>)
    ensures forall j :: j in ActiveRows(db, rows) <==> j in rows && RowActive(db, j)
    ensures Distinct(rows) ==> Distinct(ActiveRows(db, rows))
    ensures |ActiveRows(db, rows)| == |ActiveJobs(db, rows)|
    ensures forall i :: 0 <= i < |ActiveJobs(db, rows)| ==>
              ActiveRows(db, rows)[i] in db.outbox && ActiveJobs(db, rows)[i] == db.outbox[ActiveRows(db, rows)[i]]
  {
    if rows != [] {
      var k := |rows| - 1;
      ActiveRowsAre(db, rows[..k]);
      assert rows == rows[..k] + [rows[k]];
    }
  }

  /** One tick, wherever it fails: the queue gains one message for each active row of the processed prefix, in
      order, and keeps every old one; the outbox loses all locked rows or none. */
  lemma RelayConserves(s: System, locked: seq<Id>, sent: nat, committed: bool, s': System)
    requires QueueOk(s.db, s.queue) && sent <= |locked| && s' == Relay(s, locked, sent, committed)
    ensures var rows := ActiveRows(s.db, locked[..sent]);
            && (forall j :: j in rows <==> j in locked[..sent] && RowActive(s.db, j))
            && s'.queue.next == s.queue.next + |rows|
            && (forall m :: m in s'.queue.msgs <==> m in s.queue.msgs || s.queue.next <= m < s'.queue.next)
            && (forall m :: m in s.queue.msgs ==> s'.queue.msgs[m] == s.queue.msgs[m])
            && (forall m :: s.queue.next <= m < s'.queue.next ==>
                  rows[m - s.queue.next] in s.db.outbox
                  && s'.queue.msgs[m] == Msg(s.db.outbox[rows[m - s.queue.next]], false))
    ensures forall j :: j in s'.db.outbox <==> j in s.db.outbox && !(committed && j in locked)
    ensures forall j :: j in s'.db.outbox ==> s'.db.outbox[j] == s.db.outbox[j]
    ensures s'.db.runs == s.db.runs && s'.db.versions == s.db.versions && s'.db.workflows == s.db.workflows
  {
    ActiveRowsAre(s.db, locked[..sent]);
    SentAll(s.queue, ActiveJobs(s.db, locked[..sent]));
  }

  // ---------------------------------------------------------------- whole histories

  /** How many messages a step sends for outbox row `j`. */
  ghost function SendsOf(s: System, step: Step, j: Id): nat
    requires Enabled(s, step)
  {
    if step.StepRelay? then multiset(ActiveRows(s.db, step.locked[..step.sent]))[j] else 0
  }

  /** A tick whose transaction failed after it had dealt with row `j`. */
  predicate FailsAfter(step: Step, j: Id) {
    step.StepRelay? && !step.committed && step.sent <= |step.locked| && j in step.locked[..step.sent]
  }

  predicate IsCommittedTick(step: Step) {
    step.StepRelay? && step.committed
  }

  /** The messages sent for row `j` over a history. */
  ghost function Sends(s: System, steps: seq<Step>, cfg: ConfigCheck, j: Id): nat
    requires ValidHistory(s, steps, cfg)
    decreases |steps|
  {
    if steps == [] then 0 else SendsOf(s, steps[0], j) + Sends(Apply(s, steps[0], cfg), steps[1..], cfg, j)
  }

  /** Those of them that left in ticks that committed. */
  ghost function CommittedSends(s: System, steps: seq<Step>, cfg: ConfigCheck, j: Id): nat
    requires ValidHistory(s, steps, cfg)
    decreases |steps|
  {
    if steps == [] then 0
    else
      (if IsCommittedTick(steps[0]) then SendsOf(s, steps[0], j) else 0)
      + CommittedSends(Apply(s, steps[0], cfg), steps[1..], cfg, j)
  }

  function FailedTicks(steps: seq<Step>, j: Id): nat {
    if steps == [] then 0 else (if FailsAfter(steps[0], j) then 1 else 0) + FailedTicks(steps[1..], j)
  }

  ghost predicate NewKeysUnused(before: set<Id>, after: set<Id>, used: set<Id>) {
    forall j :: j in after && j !in before ==> j !in used
  }

  /** Row ids are never handed out twice: whatever a step inserts is not in `used`, which collects all of them. */
  ghost predicate IdsNeverRepeat(s: System, steps: seq<Step>, cfg: ConfigCheck, used: set<Id>)
    requires ValidHistory(s, steps, cfg)
    decreases |steps|
  {
    steps == [] ||
    (var s1 := Apply(s, steps[0], cfg);
     NewKeysUnused(s.db.outbox.Keys, s1.db.outbox.Keys, used)
     && IdsNeverRepeat(s1, steps[1..], cfg, used + s1.db.outbox.Keys))
  }

  lemma {:induction false} CountInDistinct<T>(items: seq<T>, x: T)
    requires Distinct(items)
    ensures multiset(items)[x] == if x in items then 1 else 0
  {
    if items != [] {
      var k := |items| - 1;
      assert items == items[..k] + [items[k]];
      CountInDistinct(items[..k], x);
    }
  }

  lemma TickSends(db: Db, rows: seq<Id>, j: Id)
    requires Distinct(rows)
    ensures multiset(ActiveRows(db, rows))[j] == if j in rows && RowActive(db, j) then 1 else 0
  {
    ActiveRowsAre(db, rows);
    CountInDistinct(ActiveRows(db, rows), j);
  }

  /** One step: it sends a row at most once, and only one that is there; a committed tick takes it away. */
  lemma StepSends(s: System, step: Step, cfg: ConfigCheck, s': System, j: Id)
    requires Enabled(s, step) && s' == Apply(s, step, cfg)
    ensures SendsOf(s, step, j) <= 1
    ensures SendsOf(s, step, j) == 1 ==> step.StepRelay? && j in s.db.outbox && (step.committed || FailsAfter(step, j))
    ensures SendsOf(s, step, j) == 1 && step.committed ==> j !in s'.db.outbox
  {
    if step.StepRelay? {
      TickSends(s.db, step.locked[..step.sent], j);
    }
  }

  lemma {:induction false} CommittedOnce(s: System, steps: seq<Step>, cfg: ConfigCheck, used: set<Id>, j: Id)
    requires ValidHistory(s, steps, cfg) && IdsNeverRepeat(s, steps, cfg, used) && s.db.outbox.Keys <= used
    ensures CommittedSends(s, steps, cfg, j) <= if j in s.db.outbox || j !in used then 1 else 0
    decreases |steps|
  {
    if steps != [] {
      var s1 := Apply(s, steps[0], cfg);
      StepSends(s, steps[0], cfg, s1, j);
      CommittedOnce(s1, steps[1..], cfg, used + s1.db.outbox.Keys, j);
    }
  }

  lemma {:induction false} SendsSplit(s: System, steps: seq<Step>, cfg: ConfigCheck, j: Id)
    requires ValidHistory(s, steps, cfg)
    ensures Sends(s, steps, cfg, j) <= CommittedSends(s, steps, cfg, j) + FailedTicks(steps, j)
    decreases |steps|
  {
    if steps != [] {
      var s1 := Apply(s, steps[0], cfg);
      StepSends(s, steps[0], cfg, s1, j);
      SendsSplit(s1, steps[1..], cfg, j);
    }
  }

  /** Whatever happens between the ticks, over any history in which row ids never repeat: at most one message for a row
      leaves in a committed tick, and at most one more for each failed tick that had dealt with the row. */
  lemma RowsSentOnce(steps: seq<Step>, cfg: ConfigCheck, j: Id)
    requires ValidHistory(INIT, steps, cfg) && IdsNeverRepeat(INIT, steps, cfg, {})
    ensures CommittedSends(INIT, steps, cfg, j) <= 1
    ensures Sends(INIT, steps, cfg, j) <= 1 + FailedTicks(steps, j)
  {
    CommittedOnce(INIT, steps, cfg, {}, j);
    SendsSplit(INIT, steps, cfg, j);
  }
}
