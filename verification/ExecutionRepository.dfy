// The repository as an object: each transaction locks a row, updates local
// copies of the run and its step, and stores them. Every method is proved
// against the function of the same transaction and keeps the invariants.
module ExecutionRepository {
  import opened Wrappers
  import opened ExecutionDomain
  import opened ExecutionSpec
  import opened ExecutionInvariants
  import opened ExecutionSystem

  lemma StepsNumbered(db: Db, clock: int, id: RunId)
    requires DbInv(db, clock) && id in db
    ensures db[id].run.stepNumber == |db[id].steps|
  {
    hide StepsMatch, StepsOk, ResultsOk, ChainOk, StageOk, StatusOk, LeaseOk, EventsOk, UsageOk, SourcesOk, FrozenOk;
    assert ExecInv(db[id], clock);
  }

  lemma AcceptedHasStep(e: Exec, now: int, g: Grants, l: Lease, actor: Principal)
    requires LeaseError(e, now, g, l, actor).None?
    ensures LoadStep(e).Some?
  {
  }

  class Repository {
    var execs: Db
    ghost var clock: int

    ghost predicate Valid()
      reads this
    {
      DbInv(execs, clock)
    }

    // A transaction may begin: its later reading is not before its start.
    ghost predicate Ready(tx: Tx)
      reads this
    {
      Valid() && tx.start <= tx.now
    }

    constructor ()
      ensures Valid() && execs == map[]
    {
      execs, clock := map[], 0;
      EmptyInv(0);
    }

    // The row of the current step is rewritten.
    method SaveStep(id: RunId, number: int, step: Step)
      requires id in execs && 1 <= number <= |execs[id].steps|
      modifies this`execs
      ensures execs == old(execs)[id := old(execs)[id].(steps := old(execs)[id].steps[number - 1 := step])]
    {
      var e := execs[id];
      execs := execs[id := e.(steps := e.steps[number - 1 := step])];
    }

    // The run is stored under its next version together with the event of it.
    method SaveExecution(id: RunId, run: Run, kind: EventKind, actor: Principal, step: Option<StepId>,
                         reason: string, evidence: Sha) returns (saved: Run)
      requires id in execs
      modifies this`execs
      ensures execs == old(execs)[id := Saved(old(execs)[id].(run := run), kind, actor, step, reason, evidence)]
      ensures saved == execs[id].run
    {
      saved := run.(version := run.version + 1);
      var e := execs[id];
      var event := Event(kind, actor, step, saved.version, reason, evidence);
      execs := execs[id := e.(run := saved, events := e.events + [event])];
    }

    ghost method Close(before: Db, c: Call, answer: Answer)
      requires DbInv(before, clock) && c.tx.start <= c.tx.now && Submitted(c)
      requires (execs, answer) == Apply(before, c)
      modifies this`clock
      ensures Valid() && clock == Max(old(clock), c.tx.now)
    {
      ApplyKeeps(before, clock, c);
      clock := Max(clock, c.tx.now);
    }

    // Only requests the service built from a validated target are known to keep
    // the invariants.
    method CreateExecution(tx: Tx, g: Grants, run: Run, credential: string, assignable: set<(Role, Principal)>)
      returns (answer: Answer)
      requires Ready(tx)
      modifies this
      ensures clock == Max(old(clock), tx.now)
      ensures (execs, answer) == Apply(old(execs), Call(tx, g, OpCreate(run, credential, assignable)))
      ensures AcceptedRequest(run) || execs == old(execs) ==> Valid()
    {
      ghost var before, c := execs, Call(tx, g, OpCreate(run, credential, assignable));
      answer := InsertExecution(g, run, credential, assignable);
      if AcceptedRequest(run) {
        Close(before, c, answer);
      } else {
        if execs == before { StoreLater(execs, clock, Max(clock, tx.now)); }
        clock := Max(clock, tx.now);
      }
    }

    method InsertExecution(g: Grants, run: Run, credential: string, assignable: set<(Role, Principal)>)
      returns (answer: Answer)
      requires UniqueRequests(execs) && forall id | id in execs :: execs[id].run.id == id
      modifies this`execs
      ensures (execs, answer) == Create(old(execs), run, g, credential, assignable)
    {
      hide ParticipantsAssignable, ActiveRuns;
      if !g.actor { return Fails(Forbidden); }
      if run.ownerCredential != credential || run.schema != EXECUTION_SCHEMA || run.status != Status.Ready
         || run.version != 0 || run.stepNumber != 0 || run.usage != NO_USAGE || run.kind == OtherKind {
        return Fails(ValidationRequired);
      }
      if g.requirements.Some? { return Fails(g.requirements.value); }
      var same := set id | id in execs && SameRequest(execs[id].run, run);
      if same != {} {
        var id :| id in same;
        var existing := execs[id].run;
        if existing.requestSha != run.requestSha { return Fails(VersionConflict); }
        return RunIs(existing);
      }
      var ok := CheckParticipants(run.target, assignable);
      if !ok { return Fails(Forbidden); }
      var active := |ActiveRuns(execs, run.projectId, run.target.id)|;
      if active >= run.target.budget.maxConcurrentRuns { return Fails(ResourceBusy); }
      if run.id in execs { return Fails(Storage); }
      execs := execs[run.id := Exec(run, [], [], map[], [])];
      var saved := SaveExecution(run.id, run, CreatedEvent, run.owner, None,
                                 "accepted_intent_and_distinct_scoped_workers", "");
      assert execs == old(execs)[run.id := execs[run.id]];
      return RunIs(saved);
    }

    static method CheckParticipants(t: Target, assignable: set<(Role, Principal)>) returns (ok: bool)
      ensures ok <==> ParticipantsAssignable(t, assignable)
    {
      var roles := t.participants.Keys;
      while roles != {}
        invariant roles <= t.participants.Keys
        invariant forall role | role in t.participants && role !in roles :: (role, t.participants[role]) in assignable
      {
        var role :| role in roles;
        if (role, t.participants[role]) !in assignable { return false; }
        roles := roles - {role};
      }
      return true;
    }

    method ClaimExecution(tx: Tx, g: Grants, project: string, id: RunId, actor: Principal, token: string, sid: StepId)
      returns (answer: Answer)
      requires Ready(tx)
      modifies this
      ensures Valid() && clock == Max(old(clock), tx.now)
      ensures (execs, answer) == Apply(old(execs), Call(tx, g, OpClaim(project, id, actor, token, sid)))
    {
      hide DbInv, ClaimExec;
      ghost var before, c := execs, Call(tx, g, OpClaim(project, id, actor, token, sid));
      var locked := Lock(execs, project, id);
      if locked.None? {
        answer := Fails(Forbidden);
      } else {
        StepsNumbered(execs, clock, id);
        answer := ClaimLocked(tx, g, id, actor, token, sid);
      }
      Close(before, c, answer);
    }

    method ClaimLocked(tx: Tx, g: Grants, id: RunId, actor: Principal, token: string, sid: StepId)
      returns (answer: Answer)
      requires id in execs && execs[id].run.stepNumber == |execs[id].steps|
      modifies this`execs
      ensures var (e, a) := ClaimExec(old(execs), old(execs)[id], tx, g, actor, token, sid);
              execs == old(execs)[id := e] && answer == a
    {
      hide AtCapacity, StepIdUsed, ModelBudgetSpent;
      var run := execs[id].run;
      if actor != run.Actor() || !g.actor || !g.owner { return Fails(Forbidden); }
      if !Claimable(run.status) { return Fails(ExecutionBlocked); }
      if g.requirements.Some? {
        Stop(id, run, actor, "accepted_context_changed");
        return Fails(g.requirements.value);
      }
      var pkg := run.Package();
      if run.deadline <= tx.now {
        Stop(id, run, actor, "deadline_exhausted");
        return Fails(BudgetExhausted);
      }
      var loaded := LoadStep(execs[id]);
      var reclaim := loaded.Some? && loaded.value.completedAt.None?;
      if reclaim && loaded.value.leaseUntil > tx.now { return Fails(ResourceBusy); }
      if AtCapacity(execs, ResourceOf(pkg), tx.start, pkg.concurrency) { return Fails(ResourceBusy); }
      if pkg.UsesModel() {
        if ModelBudgetSpent(run) {
          Stop(id, run, actor, "model_budget_exhausted");
          return Fails(BudgetExhausted);
        }
        run := run.(usage := Charged(run));
      }
      answer := Grant(id, run, reclaim, tx.now, actor, token, sid);
    }

    // A run is left blocked with its reason.
    method Stop(id: RunId, run: Run, actor: Principal, why: string)
      requires id in execs && execs[id].run == run
      modifies this`execs
      ensures execs == old(execs)[id := Stopped(old(execs)[id], actor, why)]
    {
      var _ := SaveExecution(id, run.(status := Blocked, blockers := [why]), BlockedEvent, actor, None, why, "");
    }

    method Grant(id: RunId, charged: Run, reclaim: bool, now: int, actor: Principal, token: string, sid: StepId)
      returns (answer: Answer)
      requires id in execs && execs[id].run.stepNumber == |execs[id].steps|
      requires reclaim == InFlight(execs[id])
      requires charged == execs[id].run.(usage := Charged(execs[id].run))
      modifies this`execs
      ensures var e := old(execs)[id];
              if reclaim then
                var f := ClaimAgain(e, now, actor, token);
                execs == old(execs)[id := f] && answer == Claimed(f.run, LoadStep(f).value, token)
              else if StepIdUsed(old(execs), sid) then execs == old(execs) && answer == Fails(Storage)
              else
                var f := ClaimFresh(e, now, actor, token, sid);
                execs == old(execs)[id := f] && answer == Claimed(f.run, f.steps[|f.steps| - 1], token)
    {
      hide StepIdUsed, Charged;
      var e := execs[id];
      var step, number := NewStep(charged, actor, sid), charged.stepNumber;
      if reclaim {
        step := LoadStep(e).value;
      } else {
        if StepIdUsed(execs, sid) { return Fails(Storage); }
        number := number + 1;
      }
      step := step.(fence := step.fence + 1, leaseSha := Digest(token), leaseUntil := LeaseEnd(charged, now));
      if reclaim {
        SaveStep(id, charged.stepNumber, step);
      } else {
        execs := execs[id := e.(steps := e.steps + [step])];
      }
      var status := if charged.status != Reconciling then Running else Reconciling;
      var run := charged.(stepNumber := number, status := status, blockers := []);
      var saved := SaveExecution(id, run, if reclaim then ReclaimedEvent else ClaimedEvent, actor, Some(step.id),
                                 CLAIM_REASON, "");
      return Claimed(saved, step, token);
    }

    method CheckExecutionLease(tx: Tx, g: Grants, l: Lease, actor: Principal) returns (answer: Answer)
      requires Ready(tx)
      modifies this
      ensures Valid() && clock == Max(old(clock), tx.now) && execs == old(execs)
      ensures (execs, answer) == Apply(old(execs), Call(tx, g, OpCheck(l, actor)))
    {
      hide DbInv, LeaseError;
      ghost var before, c := execs, Call(tx, g, OpCheck(l, actor));
      var locked := Lock(execs, l.projectId, l.runId);
      if locked.None? {
        answer := Fails(Forbidden);
      } else {
        var err := LeaseError(locked.value, tx.now, g, l, actor);
        answer := if err.Some? then Fails(err.value) else RunIs(locked.value.run);
      }
      assert locked.Some? ==> execs == execs[l.runId := locked.value];
      Close(before, c, answer);
    }

    method CompleteExecution(tx: Tx, g: Grants, l: Lease, actor: Principal, result: ExecutionResult, evidence: Sha,
                             status: Status, stage: Stage) returns (answer: Answer)
      requires Ready(tx)
      modifies this
      ensures Valid() && clock == Max(old(clock), tx.now)
      ensures (execs, answer) == Apply(old(execs), Call(tx, g, OpComplete(l, actor, result, evidence, status, stage)))
    {
      hide DbInv, CompleteExec;
      ghost var before, c := execs, Call(tx, g, OpComplete(l, actor, result, evidence, status, stage));
      var locked := Lock(execs, l.projectId, l.runId);
      if locked.None? {
        answer := Fails(Forbidden);
      } else {
        answer := CompleteLocked(tx.now, g, l, actor, result, evidence, status, stage);
      }
      Close(before, c, answer);
    }

    method CompleteLocked(now: int, g: Grants, l: Lease, actor: Principal, result: ExecutionResult, evidence: Sha,
                          status: Status, stage: Stage) returns (answer: Answer)
      requires l.runId in execs
      modifies this`execs
      ensures var (f, a) := CompleteExec(old(execs)[l.runId], now, g, l, actor, result, evidence, status, stage);
              execs == old(execs)[l.runId := f] && answer == a
    {
      hide ValidTransition, Finish, LeaseError;
      var e := execs[l.runId];
      var run := e.run;
      if l.stepId in e.results {
        var prior := e.results[l.stepId];
        if prior.actor != actor || prior.sha != evidence { return Fails(VersionConflict); }
        if !g.actor { return Fails(Forbidden); }
        return RunIs(run);
      }
      var err := LeaseError(e, now, g, l, actor);
      if err.Some? { return Fails(err.value); }
      AcceptedHasStep(e, now, g, l, actor);
      var step := LoadStep(e).value;
      if step.contextSha.None? || result.stage != step.stage
         || !ValidTransition(step.stage, result.outcome, status, stage) {
        return Fails(ValidationRequired);
      }
      answer := FinishStep(now, l.runId, actor, result, evidence, status, stage);
    }

    method FinishStep(now: int, id: RunId, actor: Principal, result: ExecutionResult, evidence: Sha, status: Status,
                      stage: Stage) returns (answer: Answer)
      requires id in execs && LoadStep(execs[id]).Some?
      modifies this`execs
      ensures execs == old(execs)[id := Finish(old(execs)[id], now, actor, result, evidence, status, stage)]
      ensures answer == RunIs(execs[id].run)
    {
      hide OutcomeText, FinishedRun;
      var e := execs[id];
      var step := LoadStep(e).value;
      execs := execs[id := e.(results := e.results[step.id := ResultRow(actor, evidence)])];
      step := step.(completedAt := Some(now), result := Some(result), evidence := evidence);
      SaveStep(id, e.run.stepNumber, step);
      var run := SettleRun(e.run, result, status, stage);
      var saved := SaveExecution(id, run, ResultEvent, actor, Some(step.id), OutcomeText(result.outcome), evidence);
      return RunIs(saved);
    }

    static method SettleRun(before: Run, result: ExecutionResult, status: Status, stage: Stage) returns (run: Run)
      ensures run == FinishedRun(before, result, status, stage)
      ensures run.stepNumber == before.stepNumber
    {
      hide OutcomeText;
      var tokens := before.usage.tokensActual;
      if result.model.Some? { tokens := tokens + (result.model.value.inputTokens + result.model.value.outputTokens); }
      assert tokens == before.usage.tokensActual + Reported(result);
      hide Reported;
      var nextStatus, nextStage, blockers := status, stage, [];
      if before.status == Reconciling {
        nextStatus := Blocked;
        if result.outcome == Succeeded { nextStatus := Cancelled; }
        nextStage := before.stage;
      }
      assert nextStatus == FinishedStatus(before, result, status);
      hide FinishedStatus;
      if nextStatus == Blocked { blockers := [OutcomeText(result.outcome) + ": " + result.summary]; }
      run := before.(usage := before.usage.(tokensActual := tokens), status := nextStatus, stage := nextStage,
                     blockers := blockers);
    }

    method ControlExecution(tx: Tx, g: Grants, project: string, id: RunId, actor: Principal, version: int,
                            action: Action, reason: string, credential: string) returns (answer: Answer)
      requires Ready(tx)
      modifies this
      ensures Valid() && clock == Max(old(clock), tx.now)
      ensures (execs, answer)
              == Apply(old(execs), Call(tx, g, OpControl(project, id, actor, version, action, reason, credential)))
    {
      hide DbInv, ControlExec;
      ghost var before, c := execs, Call(tx, g, OpControl(project, id, actor, version, action, reason, credential));
      var locked := Lock(execs, project, id);
      if locked.None? {
        answer := Fails(Forbidden);
      } else {
        answer := ControlLocked(tx.now, g, id, actor, version, action, reason, credential);
      }
      Close(before, c, answer);
    }

    method ControlLocked(now: int, g: Grants, id: RunId, actor: Principal, version: int, action: Action,
                         reason: string, credential: string) returns (answer: Answer)
      requires id in execs
      modifies this`execs
      ensures var (f, a) := ControlExec(old(execs)[id], now, g, actor, version, action, reason, credential);
              execs == old(execs)[id := f] && answer == a
    {
      var e := execs[id];
      var run := e.run;
      if actor != run.owner || !g.actor { return Fails(Forbidden); }
      if run.version != version { return Fails(VersionConflict); }
      if run.status == Completed || run.status == Cancelled { return Fails(ExecutionBlocked); }
      var loaded := LoadStep(e);
      var inFlight := loaded.Some? && loaded.value.completedAt.None?;
      match action {
        case Reconcile =>
          if !inFlight || !EffectStage(run.stage) || loaded.value.contextSha.None? { return Fails(ExecutionBlocked); }
          run := run.(ownerCredential := credential, deadline := now + RECONCILE_WINDOW, status := Reconciling,
                      blockers := ["operator_authorized_effect_read_back_only"]);
          SaveStep(id, run.stepNumber, loaded.value.(leaseUntil := now, fence := loaded.value.fence + 1));
        case Resume =>
          if run.status != Paused && run.status != Blocked { return Fails(ExecutionBlocked); }
          if !g.owner { return Fails(Forbidden); }
          if g.requirements.Some? { return Fails(g.requirements.value); }
          if run.deadline <= now { return Fails(BudgetExhausted); }
          run := run.(status := Status.Ready, blockers := []);
        case OtherAction => return Fails(ValidationRequired);
        case _ =>
          if inFlight && EffectStage(run.stage) {
            run := run.(status := Reconciling, blockers := ["cancellation_requires_effect_read_back"]);
          } else {
            run := run.(status := Paused);
            if action == Cancel { run := run.(status := Cancelled); }
            run := run.(blockers := [reason]);
            if inFlight {
              SaveStep(id, run.stepNumber, loaded.value.(leaseUntil := now, fence := loaded.value.fence + 1));
            }
          }
      }
      var saved := SaveExecution(id, run, ControlEvent(action), actor, None, reason, "");
      return RunIs(saved);
    }

    method ReserveExecutionSource(tx: Tx, g: Grants, l: Lease, actor: Principal, q: SourceQuery)
      returns (answer: Answer)
      requires Ready(tx)
      modifies this
      ensures Valid() && clock == Max(old(clock), tx.now)
      ensures (execs, answer) == Apply(old(execs), Call(tx, g, OpReserve(l, actor, q)))
    {
      hide DbInv, ReserveExec;
      ghost var before, c := execs, Call(tx, g, OpReserve(l, actor, q));
      var locked := Lock(execs, l.projectId, l.runId);
      if locked.None? {
        answer := Fails(Forbidden);
      } else {
        answer := ReserveLocked(tx.now, g, l, actor, q);
      }
      Close(before, c, answer);
    }

    method ReserveLocked(now: int, g: Grants, l: Lease, actor: Principal, q: SourceQuery) returns (answer: Answer)
      requires l.runId in execs
      modifies this`execs
      ensures var (f, a) := ReserveExec(old(execs)[l.runId], now, g, l, actor, q);
              execs == old(execs)[l.runId := f] && answer == a
    {
      var e := execs[l.runId];
      var err := LeaseError(e, now, g, l, actor);
      if err.Some? { return Fails(err.value); }
      var run, step := e.run, LoadStep(e).value;
      if (run.stage != Diagnose && run.stage != VerifyRecovery) || q.projectId != run.projectId
         || q.productId != run.productId || q.sourceId !in run.target.sources
         || q.purpose !in run.target.purposes || q.limit < 1 {
        return Fails(Forbidden);
      }
      var prior := FindReservation(e.reservations, step.id, q.idempotencyKey);
      if prior.Some? {
        if prior.value != Digest(q) { return Fails(VersionConflict); }
        return Done;
      }
      if SourceBudgetSpent(run, q.limit) { return Fails(BudgetExhausted); }
      run := run.(usage := run.usage.(sourceQueries := run.usage.sourceQueries + 1,
                                      sourceRows := run.usage.sourceRows + q.limit));
      var row := Reservation(step.id, q.idempotencyKey, Digest(q));
      execs := execs[l.runId := e.(reservations := e.reservations + [row])];
      var _ := SaveExecution(l.runId, run, SourceReservedEvent, actor, Some(step.id),
                             "bounded_query_reserved_before_dispatch", "");
      return Done;
    }

    method RecordExecutionArtifact(tx: Tx, g: Grants, l: Lease, actor: Principal, sha: Sha, bindContext: bool,
                                   withinQuota: bool) returns (answer: Answer)
      requires Ready(tx)
      modifies this
      ensures Valid() && clock == Max(old(clock), tx.now)
      ensures (execs, answer) == Apply(old(execs), Call(tx, g, OpRecord(l, actor, sha, bindContext, withinQuota)))
    {
      hide DbInv, RecordExec;
      ghost var before, c := execs, Call(tx, g, OpRecord(l, actor, sha, bindContext, withinQuota));
      var locked := Lock(execs, l.projectId, l.runId);
      if locked.None? {
        answer := Fails(Forbidden);
      } else {
        answer := RecordLocked(tx.now, g, l, actor, sha, bindContext, withinQuota);
      }
      Close(before, c, answer);
    }

    method RecordLocked(now: int, g: Grants, l: Lease, actor: Principal, sha: Sha, bindContext: bool, withinQuota: bool)
      returns (answer: Answer)
      requires l.runId in execs
      modifies this`execs
      ensures var (f, a) := RecordExec(old(execs)[l.runId], now, g, l, actor, sha, bindContext, withinQuota);
              execs == old(execs)[l.runId := f] && answer == a
    {
      var e := execs[l.runId];
      var err := LeaseError(e, now, g, l, actor);
      if err.Some? { return Fails(err.value); }
      var step := LoadStep(e).value;
      if bindContext && step.contextSha.Some? && step.contextSha != Digested(sha) { return Fails(VersionConflict); }
      if !withinQuota { return Fails(BudgetExhausted); }
      if bindContext {
        step := step.(contextSha := Digested(sha));
        SaveStep(l.runId, e.run.stepNumber, step);
      }
      return Done;
    }
  }
}
