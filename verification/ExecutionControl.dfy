// What an operator's four actions answer and leave, and what can be undone.
module ExecutionControl {
  import opened Wrappers
  import opened ExecutionDomain
  import opened ExecutionSpec
  import opened ExecutionInvariants
  import opened ExecutionSystem
  import opened ExecutionAnswers

  // A delivery or a remedy is under way.
  predicate EffectOpen(e: Exec) { Open(e.steps) && (e.run.stage == Deliver || e.run.stage == Stage.Remediate) }

  // The run's owner, on its present version, before it is finished.
  predicate InCharge(e: Exec, c: Call)
    requires c.op.OpControl?
  {
    && c.op.actor == e.run.owner && c.grants.actor && c.op.version == e.run.version
    && e.run.status != Completed && e.run.status != Cancelled
  }

  predicate Possible(e: Exec, c: Call)
    requires c.op.OpControl?
  {
    match c.op.action
    case Pause => true
    case Cancel => true
    case Resume =>
      && (e.run.status == Paused || e.run.status == Blocked)
      && c.grants.owner && c.grants.requirements.None? && c.tx.now < e.run.deadline
    case Reconcile => EffectOpen(e) && e.steps[|e.steps| - 1].contextSha.Some?
    case OtherAction => false
  }

  // The open step's lease ends now and its fence is raised.
  predicate TakenBack(e: Exec, f: Exec, now: int) {
    && |f.steps| == |e.steps| > 0
    && var n := |e.steps| - 1;
       f.steps == e.steps[n := e.steps[n].(leaseUntil := now, fence := e.steps[n].fence + 1)]
  }

  predicate Moved(e: Exec, f: Exec, c: Call, status: Status, blockers: seq<string>)
    requires c.op.OpControl?
  {
    && f.run.status == status && f.run.blockers == blockers
    && f.run.version == e.run.version + 1
    && f.run == e.run.(status := f.run.status, blockers := f.run.blockers, version := f.run.version,
                       deadline := f.run.deadline, ownerCredential := f.run.ownerCredential)
    && f.results == e.results && f.reservations == e.reservations
    && f.events == e.events + [Event(ControlEvent(c.op.action), c.op.actor, None, f.run.version, c.op.reason, "")]
  }

  predicate SameTerms(e: Exec, f: Exec) {
    f.run.deadline == e.run.deadline && f.run.ownerCredential == e.run.ownerCredential
  }

  // Pausing and cancelling wait for the read-back of an effect under way; any
  // other step loses its lease.
  predicate Stops(e: Exec, f: Exec, c: Call, status: Status)
    requires c.op.OpControl?
  {
    && SameTerms(e, f)
    && if EffectOpen(e) then
         Moved(e, f, c, Reconciling, ["cancellation_requires_effect_read_back"]) && f.steps == e.steps
       else
         && Moved(e, f, c, status, [c.op.reason])
         && if Open(e.steps) then TakenBack(e, f, c.tx.now) else f.steps == e.steps
  }

  predicate Controls(e: Exec, f: Exec, c: Call)
    requires c.op.OpControl?
  {
    match c.op.action
    case Pause => Stops(e, f, c, Paused)
    case Cancel => Stops(e, f, c, Cancelled)
    case Resume => Moved(e, f, c, Ready, []) && SameTerms(e, f) && f.steps == e.steps
    case Reconcile =>
      && Moved(e, f, c, Reconciling, ["operator_authorized_effect_read_back_only"]) && TakenBack(e, f, c.tx.now)
      && f.run.deadline == c.tx.now + 300 * SECOND && f.run.ownerCredential == c.op.credential
    case OtherAction => false
  }

  // Why an action is refused, in the order of the checks.
  predicate RefusedControl(e: Exec, c: Call, error: Error)
    requires c.op.OpControl?
  {
    if c.op.actor != e.run.owner || !c.grants.actor then error == Forbidden
    else if c.op.version != e.run.version then error == VersionConflict
    else if e.run.status == Completed || e.run.status == Cancelled then error == ExecutionBlocked
    else
      match c.op.action
      case Resume =>
        if e.run.status != Paused && e.run.status != Blocked then error == ExecutionBlocked
        else if !c.grants.owner then error == Forbidden
        else if c.grants.requirements.Some? then error == c.grants.requirements.value
        else error == BudgetExhausted
      case Reconcile => error == ExecutionBlocked
      case _ => error == ValidationRequired
  }

  // What a call does that is permitted, and one that is not.
  ghost predicate Outcome(db: Db, c: Call, later: Db, answer: Answer)
    requires c.op.OpControl?
  {
    var id := c.op.id;
    if Addressed(db, c.op.project, id) && InCharge(db[id], c) && Possible(db[id], c) then
      && id in later && later == db[id := later[id]] && Controls(db[id], later[id], c)
      && answer == RunIs(later[id].run)
    else
      && later == db && answer.Fails?
      && if Addressed(db, c.op.project, id) then RefusedControl(db[id], c, answer.error) else answer.error == Forbidden
  }

  // What each action needs and does; refused, it changes nothing.
  lemma {:induction false} ControlsExactly(db: Db, clock: int, c: Call)
    requires DbInv(db, clock) && c.op.OpControl?
    ensures Outcome(db, c, Apply(db, c).0, Apply(db, c).1)
  {
    hide ExecInv, ControlExec, Controls, InCharge, Possible, RefusedControl;
    if Addressed(db, c.op.project, c.op.id) {
      var e := db[c.op.id];
      StoredInv(db, clock, c.op.id);
      ControlOf(e, clock, c);
      assert db[c.op.id := e] == db;
    }
  }

  lemma {:induction false} ControlOf(e: Exec, clock: int, c: Call)
    requires ExecInv(e, clock) && c.op.OpControl?
    ensures var (f, answer) := ControlExec(e, c.tx.now, c.grants, c.op.actor, c.op.version, c.op.action, c.op.reason,
                                           c.op.credential);
            if InCharge(e, c) && Possible(e, c) then Controls(e, f, c) && answer == RunIs(f.run)
            else f == e && answer.Fails? && RefusedControl(e, c, answer.error)
  {
    hide ExecInv, Controls, Halted, Reconciled, Controlled;
    OpenMeans(e, clock);
    if InCharge(e, c) && Possible(e, c) { Permitted(e, clock, c); }
  }

  lemma OpenMeans(e: Exec, clock: int)
    requires ExecInv(e, clock)
    ensures InFlight(e) <==> Open(e.steps)
    ensures e.run.stepNumber == |e.steps| && (|e.steps| > 0 ==> LoadStep(e) == Some(e.steps[|e.steps| - 1]))
  {
    hide StepsMatch, StepsOk, ResultsOk, ChainOk, StageOk, StatusOk, LeaseOk, EventsOk, UsageOk, SourcesOk, FrozenOk;
  }

  lemma {:induction false} Permitted(e: Exec, clock: int, c: Call)
    requires ExecInv(e, clock) && c.op.OpControl? && InCharge(e, c) && Possible(e, c)
    ensures var (f, answer) := ControlExec(e, c.tx.now, c.grants, c.op.actor, c.op.version, c.op.action, c.op.reason,
                                           c.op.credential);
            Controls(e, f, c) && answer == RunIs(f.run)
  {
    hide ExecInv;
    OpenMeans(e, clock);
  }

  // ------------------------------------------------------------ what is undone

  // Paused with no effect under way, a run is resumed by its owner in time, at
  // the stage where it stood.
  lemma {:induction false} PauseThenResume(db: Db, clock: int, pause: Call, resume: Call)
    requires Reachable(db, clock) && pause.tx.start <= pause.tx.now
    requires pause.op.OpControl? && pause.op.action == Pause && Apply(db, pause).1.RunIs?
    requires !EffectOpen(db[pause.op.id])
    requires resume.op.OpControl? && resume.op.action == Resume && resume.op.id == pause.op.id
    requires resume.op.project == pause.op.project && resume.op.actor == pause.op.actor
    requires resume.op.version == Apply(db, pause).1.current.version
    requires resume.grants.actor && resume.grants.owner && resume.grants.requirements.None?
    requires resume.tx.now < db[pause.op.id].run.deadline
    ensures pause.op.id in db
    ensures var (paused, answer) := Apply(db, pause);
            var again := Apply(paused, resume).1;
            && answer.current.status == Paused && again.RunIs? && again.current.status == Ready
            && again.current.stage == db[pause.op.id].run.stage && again.current.usage == db[pause.op.id].run.usage
  {
    hide DbInv, Apply;
    ReachableInv(db, clock);
    ControlsExactly(db, clock, pause);
    ApplyKeeps(db, clock, pause);
    ControlsExactly(Apply(db, pause).0, Max(clock, pause.tx.now), resume);
  }

  // Cancelled with none under way, it is over: no later call changes it.
  lemma {:induction false} CancelIsFinal(db: Db, clock: int, cancel: Call, calls: seq<Call>)
    requires Reachable(db, clock) && cancel.tx.start <= cancel.tx.now && Timed(calls) && AllSubmitted(calls)
    requires cancel.op.OpControl? && cancel.op.action == Cancel && Apply(db, cancel).1.RunIs?
    requires !EffectOpen(db[cancel.op.id])
    ensures var (later, answer) := Apply(db, cancel);
            && cancel.op.id in later && later[cancel.op.id].run == answer.current && answer.current.status == Cancelled
            && cancel.op.id in RunAll(later, calls) && RunAll(later, calls)[cancel.op.id] == later[cancel.op.id]
  {
    hide DbInv, Apply, RunAll, StepsEvolve, ResultsGrow, RunFrozen;
    ReachableInv(db, clock);
    ControlsExactly(db, clock, cancel);
    ApplyKeeps(db, clock, cancel);
    RunAllKeeps(Apply(db, cancel).0, Max(clock, cancel.tx.now), calls);
  }

  // With an effect under way neither stops it: the run waits for its read-back,
  // and the lease of the step stays as it is.
  lemma {:induction false} EffectIsReadBack(db: Db, clock: int, c: Call)
    requires Reachable(db, clock) && c.op.OpControl? && (c.op.action == Pause || c.op.action == Cancel)
    requires Apply(db, c).1.RunIs? && EffectOpen(db[c.op.id])
    ensures var (later, answer) := Apply(db, c);
            && answer.current.status == Reconciling && answer.current.stage == db[c.op.id].run.stage
            && c.op.id in later && later[c.op.id].steps == db[c.op.id].steps
  {
    hide DbInv, Apply;
    ReachableInv(db, clock);
    ControlsExactly(db, clock, c);
  }
}
