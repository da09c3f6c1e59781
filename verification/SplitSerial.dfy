/** Handling a message in one piece is one particular interleaving of the split layer: the handler's own steps,
    nothing in between. */
module SplitSerial {
  import opened Basics
  import opened Tables
  import opened StoreInvariant
  import opened RunInvariant
  import opened Routing
  import opened Protocol
  import opened SystemInvariant
  import opened Serial
  import opened SerialLog

  ghost function Reached(s: System, steps: seq<Step>, cfg: ConfigCheck): Option<System> {
    if ValidHistory(s, steps, cfg) then Some(After(s, steps, cfg)) else None
  }

  /** `steps` leads from `s` to `s'`. */
  ghost predicate Leads(s: System, steps: seq<Step>, cfg: ConfigCheck, s': System) {
    Reached(s, steps, cfg) == Some(s')
  }

  /** All steps are of handler `h`; a `whole` run is never abandoned. */
  ghost predicate OfHandler(steps: seq<Step>, h: Id, whole: bool) {
    forall i :: 0 <= i < |steps| ==> StepHandler(steps[i]) == Some(h) && (whole ==> !steps[i].StepAbandon?)
  }

  function StepHandler(step: Step): Option<Id> {
    match step
    case StepReceive(h, _) => Some(h)
    case StepReadRun(h) => Some(h)
    case StepLoadNode(h) => Some(h)
    case StepExecute(h, _) => Some(h)
    case StepPersist(h, _) => Some(h)
    case StepRecordFailure(h) => Some(h)
    case StepDelete(h) => Some(h)
    case StepAbandon(h) => Some(h)
    case _ => None
  }

  lemma LeadsCons(s: System, step: Step, s1: System, rest: seq<Step>, cfg: ConfigCheck, s': System, h: Id, whole: bool)
    requires Enabled(s, step) && s1 == Apply(s, step, cfg) && Leads(s1, rest, cfg, s')
    requires OfHandler(rest, h, whole) && StepHandler(step) == Some(h) && (whole ==> !step.StepAbandon?)
    ensures Leads(s, [step] + rest, cfg, s') && OfHandler([step] + rest, h, whole)
  {
    assert ([step] + rest)[1..] == rest;
  }

  lemma LeadsOne(s: System, step: Step, s': System, cfg: ConfigCheck, h: Id, whole: bool)
    requires Enabled(s, step) && s' == Apply(s, step, cfg) && StepHandler(step) == Some(h) && (whole ==> !step.StepAbandon?)
    ensures Leads(s, [step], cfg, s') && OfHandler([step], h, whole)
  {
    assert [step][1..] == [];
    assert ValidHistory(s', [], cfg) && After(s', [], cfg) == s';
  }

  /** The serial state with one handler in flight. */
  function InFlight(s: System, h: Id, hd: Handler): System {
    s.(handlers := map[h := hd])
  }

  lemma PlacedAgain(s: System, h: Id, hd: Handler, next: Handler)
    ensures SetHandler(InFlight(s, h, hd), h, next) == InFlight(s, h, next)
    ensures s.handlers == map[] ==> DropHandler(InFlight(s, h, hd), h) == s && SetHandler(s, h, next) == InFlight(s, h, next)
  {}

  lemma AbandonLeads(s: System, h: Id, hd: Handler, cfg: ConfigCheck) returns (steps: seq<Step>)
    requires s.handlers == map[]
    ensures Leads(InFlight(s, h, hd), steps, cfg, s) && OfHandler(steps, h, false)
  {
    PlacedAgain(s, h, hd, hd);
    steps := [StepAbandon(h)];
    LeadsOne(InFlight(s, h, hd), StepAbandon(h), s, cfg, h, false);
  }

  /** From a decision to delete: the message goes, or the call breaks off first. */
  lemma DeletingLeads(s: System, h: Id, m: nat, keep: bool, cfg: ConfigCheck, s': System) returns (steps: seq<Step>)
    requires s.handlers == map[]
    requires s' == if keep then s else s.(queue := s.queue.(msgs := s.queue.msgs - {m}))
    ensures Leads(InFlight(s, h, Deleting(m)), steps, cfg, s') && OfHandler(steps, h, !keep)
  {
    if keep {
      steps := AbandonLeads(s, h, Deleting(m), cfg);
    } else {
      PlacedAgain(s', h, Deleting(m), Deleting(m));
      steps := [StepDelete(h)];
      LeadsOne(InFlight(s, h, Deleting(m)), StepDelete(h), s', cfg, h, true);
    }
  }

  lemma SavingLeads(s: System, h: Id, m: nat, r: Id, snap: Run, res: ExecResult, j: Id, fault: Fault, cfg: ConfigCheck, s': System)
    returns (steps: seq<Step>)
    requires s.handlers == map[] && Fresh(s, j)
    requires PersistResult(s.db, r, snap.version, snap.current, res, j).Ok?
    requires s' == if fault == BeforeSave then s
                   else var saved := s.(db := PersistResult(s.db, r, snap.version, snap.current, res, j).value);
                        if fault == BeforeDelete then saved else saved.(queue := s.queue.(msgs := s.queue.msgs - {m}))
    ensures Leads(InFlight(s, h, HaveResult(m, r, snap, res)), steps, cfg, s') && OfHandler(steps, h, fault == NoFault)
  {
    if fault == BeforeSave {
      steps := AbandonLeads(s, h, HaveResult(m, r, snap, res), cfg);
    } else {
      var saved := s.(db := PersistResult(s.db, r, snap.version, snap.current, res, j).value);
      var rest := DeletingLeads(saved, h, m, fault == BeforeDelete, cfg, s');
      PlacedAgain(saved, h, HaveResult(m, r, snap, res), Deleting(m));
      LeadsCons(InFlight(s, h, HaveResult(m, r, snap, res)), StepPersist(h, j), InFlight(saved, h, Deleting(m)), rest, cfg, s', h, fault == NoFault);
      steps := [StepPersist(h, j)] + rest;
    }
  }

  lemma FailingLeads(s: System, h: Id, m: nat, r: Id, snap: Run, fault: Fault, cfg: ConfigCheck, s': System) returns (steps: seq<Step>)
    requires s.handlers == map[]
    requires s' == if fault == BeforeSave then s else s.(db := FailRun(s.db, r))
    ensures Leads(InFlight(s, h, HaveError(m, r, snap)), steps, cfg, s') && OfHandler(steps, h, fault == NoFault)
  {
    if fault == BeforeSave {
      steps := AbandonLeads(s, h, HaveError(m, r, snap), cfg);
    } else {
      PlacedAgain(s', h, HaveError(m, r, snap), HaveError(m, r, snap));
      steps := [StepRecordFailure(h)];
      LeadsOne(InFlight(s, h, HaveError(m, r, snap)), StepRecordFailure(h), s', cfg, h, fault == NoFault);
    }
  }

  /** The executor kept its contract and the result can be saved at the checkpoint. */
  ghost predicate Saveable(db: Db, r: Id, res: ExecResult, j: Id)
    requires r in db.runs && HasNode(db, db.runs[r].version, db.runs[r].current)
  {
    && Fits(SnapNode(db, db.runs[r]).nodeType, res)
    && PersistResult(db, r, db.runs[r].version, db.runs[r].current, res, j).Ok?
  }

  /** From the loaded node: execute, then save or record the failure. */
  lemma ExecutingLeads(s: System, h: Id, m: nat, r: Id, j: Id, outcome: Outcome, fault: Fault, cfg: ConfigCheck, s': System)
    returns (steps: seq<Step>)
    requires s.handlers == map[] && Fresh(s, j) && Executes(s.db, r, fault)
    requires outcome.Success? ==> Saveable(s.db, r, outcome.res, j)
    requires s' == Handled(s, m, r, j, outcome, fault)
    ensures Leads(InFlight(s, h, HaveNode(m, r, s.db.runs[r], SnapNode(s.db, s.db.runs[r]))), steps, cfg, s') && OfHandler(steps, h, fault == NoFault)
  {
    var snap := s.db.runs[r];
    var hd := HaveNode(m, r, snap, SnapNode(s.db, snap));
    var next := if outcome.Success? then HaveResult(m, r, snap, outcome.res) else HaveError(m, r, snap);
    var rest;
    if outcome.Success? {
      rest := SavingLeads(s, h, m, r, snap, outcome.res, j, fault, cfg, s');
    } else {
      rest := FailingLeads(s, h, m, r, snap, fault, cfg, s');
    }
    PlacedAgain(s, h, hd, next);
    LeadsCons(InFlight(s, h, hd), StepExecute(h, outcome), InFlight(s, h, next), rest, cfg, s', h, fault == NoFault);
    steps := [StepExecute(h, outcome)] + rest;
  }

  /** Breaking off before the executor changes nothing. */
  lemma BrokenOff(s: System, m: nat, r: Id, j: Id, outcome: Outcome, fault: Fault)
    requires fault == BeforeRead || (r in s.db.runs && Active(s.db.runs[r].status) && !ReachesExecutor(fault))
    ensures Handled(s, m, r, j, outcome, fault) == s
  {}

  lemma LoadedLeads(s: System, h: Id, m: nat, r: Id, j: Id, outcome: Outcome, fault: Fault, cfg: ConfigCheck, s': System)
    returns (steps: seq<Step>)
    requires s.handlers == map[] && Fresh(s, j) && r in s.db.runs && Active(s.db.runs[r].status)
    requires HasNode(s.db, s.db.runs[r].version, s.db.runs[r].current) && fault != BeforeRead && fault != BeforeLoad
    requires Executes(s.db, r, fault) && outcome.Success? ==> Saveable(s.db, r, outcome.res, j)
    requires s' == Handled(s, m, r, j, outcome, fault)
    ensures Leads(InFlight(s, h, HaveNode(m, r, s.db.runs[r], SnapNode(s.db, s.db.runs[r]))), steps, cfg, s') && OfHandler(steps, h, fault == NoFault)
  {
    if fault == BeforeExecute {
      BrokenOff(s, m, r, j, outcome, fault);
      steps := AbandonLeads(s, h, HaveNode(m, r, s.db.runs[r], SnapNode(s.db, s.db.runs[r])), cfg);
    } else {
      steps := ExecutingLeads(s, h, m, r, j, outcome, fault, cfg, s');
    }
  }

  lemma LoadLeads(s: System, h: Id, m: nat, r: Id, snap: Run, rest: seq<Step>, whole: bool, cfg: ConfigCheck, s': System) returns (steps: seq<Step>)
    requires HasNode(s.db, snap.version, snap.current)
    requires Leads(InFlight(s, h, HaveNode(m, r, snap, SnapNode(s.db, snap))), rest, cfg, s') && OfHandler(rest, h, whole)
    ensures Leads(InFlight(s, h, HaveRun(m, r, snap)), steps, cfg, s') && OfHandler(steps, h, whole)
  {
    var hd := HaveNode(m, r, snap, SnapNode(s.db, snap));
    PlacedAgain(s, h, HaveRun(m, r, snap), hd);
    LeadsCons(InFlight(s, h, HaveRun(m, r, snap)), StepLoadNode(h), InFlight(s, h, hd), rest, cfg, s', h, whole);
    steps := [StepLoadNode(h)] + rest;
  }

  /** From the row that was read as active: load the node and go on. */
  lemma LoadingLeads(s: System, h: Id, m: nat, r: Id, j: Id, outcome: Outcome, fault: Fault, cfg: ConfigCheck, s': System)
    returns (steps: seq<Step>)
    requires s.handlers == map[] && Fresh(s, j) && r in s.db.runs && Active(s.db.runs[r].status)
    requires HasNode(s.db, s.db.runs[r].version, s.db.runs[r].current) && fault != BeforeRead && fault != BeforeLoad
    requires Executes(s.db, r, fault) && outcome.Success? ==> Saveable(s.db, r, outcome.res, j)
    requires s' == Handled(s, m, r, j, outcome, fault)
    ensures Leads(InFlight(s, h, HaveRun(m, r, s.db.runs[r])), steps, cfg, s') && OfHandler(steps, h, fault == NoFault)
  {
    var rest := LoadedLeads(s, h, m, r, j, outcome, fault, cfg, s');
    steps := LoadLeads(s, h, m, r, s.db.runs[r], rest, fault == NoFault, cfg, s');
  }

  /** From a successful read: the run is inactive and its message goes, or the handling continues or breaks off. */
  lemma ReadLeads(s: System, h: Id, m: nat, r: Id, j: Id, outcome: Outcome, fault: Fault, cfg: ConfigCheck, s': System, next: Handler)
    returns (steps: seq<Step>)
    requires s.handlers == map[] && Fresh(s, j) && r in s.db.runs && fault != BeforeRead
    requires HasNode(s.db, s.db.runs[r].version, s.db.runs[r].current)
    requires Executes(s.db, r, fault) && outcome.Success? ==> Saveable(s.db, r, outcome.res, j)
    requires s' == Handled(s, m, r, j, outcome, fault)
    requires next == if Active(s.db.runs[r].status) then HaveRun(m, r, s.db.runs[r]) else Deleting(m)
    ensures Leads(InFlight(s, h, next), steps, cfg, s') && OfHandler(steps, h, fault == NoFault)
  {
    if !Active(s.db.runs[r].status) {
      steps := DeletingLeads(s, h, m, fault == BeforeDelete, cfg, s');
    } else if fault == BeforeLoad {
      BrokenOff(s, m, r, j, outcome, fault);
      steps := AbandonLeads(s, h, next, cfg);
    } else {
      steps := LoadingLeads(s, h, m, r, j, outcome, fault, cfg, s');
    }
  }

  lemma ReadingLeads(s: System, h: Id, m: nat, r: Id, j: Id, outcome: Outcome, fault: Fault, cfg: ConfigCheck, s': System)
    returns (steps: seq<Step>)
    requires s.handlers == map[] && Fresh(s, j) && r in s.db.runs
    requires HasNode(s.db, s.db.runs[r].version, s.db.runs[r].current)
    requires Executes(s.db, r, fault) && outcome.Success? ==> Saveable(s.db, r, outcome.res, j)
    requires s' == Handled(s, m, r, j, outcome, fault)
    ensures Leads(InFlight(s, h, Received(m, r)), steps, cfg, s') && OfHandler(steps, h, fault == NoFault)
  {
    if fault == BeforeRead {
      BrokenOff(s, m, r, j, outcome, fault);
      steps := AbandonLeads(s, h, Received(m, r), cfg);
    } else {
      var next := if Active(s.db.runs[r].status) then HaveRun(m, r, s.db.runs[r]) else Deleting(m);
      var rest := ReadLeads(s, h, m, r, j, outcome, fault, cfg, s', next);
      PlacedAgain(s, h, Received(m, r), next);
      LeadsCons(InFlight(s, h, Received(m, r)), StepReadRun(h), InFlight(s, h, next), rest, cfg, s', h, fault == NoFault);
      steps := [StepReadRun(h)] + rest;
    }
  }

  /** Every handled message is an uninterrupted run of one handler of the split layer, for every outcome and every
      place where the handling may break off; without a fault the handler is never abandoned. */
  lemma HandleIsSplitRun(s: System, m: nat, h: Id, j: Id, outcome: Outcome, fault: Fault, cfg: ConfigCheck) returns (steps: seq<Step>)
    requires SerialInv(s) && SerialEnabled(s, Handle(m, j, outcome, fault))
    ensures ValidHistory(s, steps, cfg) && After(s, steps, cfg) == HandleMessage(s, m, j, outcome, fault)
    ensures OfHandler(steps, h, fault == NoFault)
  {
    var r := s.queue.msgs[m].job.run;
    assert JobPinned(s.db, s.queue.msgs[m].job);
    var s' := HandleMessage(s, m, j, outcome, fault);
    assert RunPinned(s.db, s.db.runs[r]);
    if Executes(s.db, r, fault) && outcome.Success? {
      var g := PersistSucceeds(s.db, r, s.db.runs[r].current, outcome.res, j);
    }
    var rest := ReadingLeads(s, h, m, r, j, outcome, fault, cfg, s');
    PlacedAgain(s, h, Received(m, r), Received(m, r));
    LeadsCons(s, StepReceive(h, m), InFlight(s, h, Received(m, r)), rest, cfg, s', h, fault == NoFault);
    steps := [StepReceive(h, m)] + rest;
  }

  /** One serial step as split steps: itself, or the handler's own. */
  lemma StepIsSplitRun(s: System, step: SerialStep, cfg: ConfigCheck) returns (steps: seq<Step>)
    requires SerialInv(s) && SerialEnabled(s, step)
    ensures Reached(s, steps, cfg) == Some(SerialApply(s, step, cfg))
  {
    match step
    case Outer(st) =>
      steps := [st];
      assert [st][1..] == [];
      assert ValidHistory(Apply(s, st, cfg), [], cfg) && After(Apply(s, st, cfg), [], cfg) == Apply(s, st, cfg);
    case Handle(m, j, outcome, fault) =>
      steps := HandleIsSplitRun(s, m, 0, j, outcome, fault, cfg);
  }

  /** So every serial history is a history of the split layer that ends in the same state. */
  lemma {:induction false} SerialHistoryIsSplit(s: System, steps: seq<SerialStep>, cfg: ConfigCheck) returns (split: seq<Step>)
    requires SerialInv(s) && ValidSerial(s, steps, cfg)
    ensures ValidHistory(s, split, cfg) && After(s, split, cfg) == SerialAfter(s, steps, cfg)
    decreases |steps|
  {
    if steps == [] {
      split := [];
    } else {
      var s1 := SerialApply(s, steps[0], cfg);
      var first := StepIsSplitRun(s, steps[0], cfg);
      SerialStepKeeps(s, steps[0], cfg, s1);
      var rest := SerialHistoryIsSplit(s1, steps[1..], cfg);
      HistoriesCompose(s, first, rest, cfg);
      split := first + rest;
    }
  }
}
