// What the protocol promises over every sequence of calls.
module ExecutionTheorems {
  import opened Wrappers
  import opened ExecutionDomain
  import opened ExecutionSpec
  import opened ExecutionInvariants
  import opened ExecutionPreservation
  import opened ExecutionSystem

  // --------------------------------------------------------- shared resources

  // At no time from now on are more leases active on a resource than any one of
  // them was granted under.
  lemma {:induction false} ResourceCapacity(db: Db, clock: int, key: ResourceKey, t: int, id: RunId, i: int)
    requires Reachable(db, clock) && t >= clock
    requires id in db && 0 <= i < |db[id].steps| && HoldsLease(db[id].steps[i], key, t)
    ensures |ActiveLeases(db, key, t)| <= db[id].steps[i].concurrency
    ensures i == |db[id].steps| - 1 && t < db[id].run.deadline
  {
    hide StepsMatch, ResultsOk, ChainOk, StageOk, StatusOk, EventsOk, UsageOk, SourcesOk, FrozenOk;
    ReachableInv(db, clock);
    assert WithinCapacity(db, key, t);
    assert ExecInv(db[id], clock);
  }

  // ------------------------------------------------ the shape of a finished run

  predicate SucceededAt(steps: Steps, i: int, stage: Stage) {
    0 <= i < |steps| && steps[i].stage == stage
    && steps[i].result.Some? && steps[i].result.value.outcome == Succeeded
  }

  // Between a and b only results that left the run at the same stage.
  predicate OnlyStuck(steps: Steps, a: int, b: int, stage: Stage) {
    forall i | a < i < b :: 0 <= i < |steps| && steps[i].stage == stage && steps[i].result.Some?
                            && steps[i].result.value.outcome != Succeeded
  }

  // A stage other than the first was entered from a success of the one before.
  lemma {:induction false} EnteredFrom(kind: Kind, steps: Steps, k: nat, prev: Stage) returns (j: nat)
    requires ChainOk(kind, steps) && k < |steps|
    requires prev != NoStage && !VerifyStage(prev) && steps[k].stage == NextStage(prev)
    ensures j < k && SucceededAt(steps, j, prev) && OnlyStuck(steps, j, k, NextStage(prev))
    decreases k
  {
    assert k > 0;
    assert Linked(steps[k - 1], steps[k].stage);
    if steps[k - 1].result.value.outcome == Succeeded {
      j := k - 1;
    } else {
      j := EnteredFrom(kind, steps, k - 1, prev);
    }
  }

  predicate FeatureShape(steps: Steps, b: nat, e: nat, d: nat) {
    && b < e < d < |steps| - 1
    && SucceededAt(steps, b, Build) && SucceededAt(steps, e, Evaluate)
    && SucceededAt(steps, d, Deliver) && SucceededAt(steps, |steps| - 1, VerifyDelivery)
    && OnlyStuck(steps, b, e, Evaluate) && OnlyStuck(steps, e, d, Deliver)
    && OnlyStuck(steps, d, |steps| - 1, VerifyDelivery)
  }

  predicate IncidentShape(steps: Steps, g: nat, m: nat) {
    && g < m < |steps| - 1
    && SucceededAt(steps, g, Diagnose) && SucceededAt(steps, m, Remediate)
    && SucceededAt(steps, |steps| - 1, VerifyRecovery)
    && OnlyStuck(steps, g, m, Remediate) && OnlyStuck(steps, m, |steps| - 1, VerifyRecovery)
  }

  lemma {:induction false} FeatureOrder(steps: Steps) returns (b: nat, e: nat, d: nat)
    requires ChainOk(Feature, steps) && |steps| > 0 && SucceededVerify(steps[|steps| - 1])
    ensures FeatureShape(steps, b, e, d)
  {
    var v := |steps| - 1;
    StepStages(Feature, steps, v);
    hide ChainOk;
    d := EnteredFrom(Feature, steps, v, Deliver);
    e := EnteredFrom(Feature, steps, d, Evaluate);
    b := EnteredFrom(Feature, steps, e, Build);
  }

  lemma {:induction false} IncidentOrder(steps: Steps) returns (g: nat, m: nat)
    requires ChainOk(Incident, steps) && |steps| > 0 && SucceededVerify(steps[|steps| - 1])
    ensures IncidentShape(steps, g, m)
  {
    var v := |steps| - 1;
    StepStages(Incident, steps, v);
    hide ChainOk;
    m := EnteredFrom(Incident, steps, v, Remediate);
    g := EnteredFrom(Incident, steps, m, Diagnose);
  }

  // A completed feature run ends in build, evaluate, deliver and verify, each a
  // success, with nothing between them but results that kept the stage; the
  // work and its check were done by different workloads.
  lemma {:induction false} CompletedFeature(db: Db, clock: int, id: RunId) returns (b: nat, e: nat, d: nat)
    requires Reachable(db, clock) && id in db
    requires db[id].run.kind == Feature && db[id].run.status == Completed
    ensures var steps := db[id].steps;
            && FeatureShape(steps, b, e, d)
            && Assigned(db[id].run, steps[b], Builder) && Assigned(db[id].run, steps[e], Evaluator)
            && Assigned(db[id].run, steps[d], Delivery) && Assigned(db[id].run, steps[|steps| - 1], Evaluator)
            && steps[b].actor != steps[e].actor && steps[d].actor != steps[|steps| - 1].actor
            && steps[b].actor != steps[d].actor
  {
    hide StepsMatch, StepsOk, ResultsOk, ChainOk, StatusOk, LeaseOk, EventsOk, UsageOk, SourcesOk, FrozenOk, OnlyStuck;
    ReachableInv(db, clock);
    assert ExecInv(db[id], clock);
    b, e, d := FeatureOrder(db[id].steps);
    StepAssigned(db[id], clock, b);
    StepAssigned(db[id], clock, e);
    StepAssigned(db[id], clock, d);
    StepAssigned(db[id], clock, |db[id].steps| - 1);
    ActorsDiffer(db[id], clock, b, e);
    ActorsDiffer(db[id], clock, d, |db[id].steps| - 1);
    ActorsDiffer(db[id], clock, b, d);
  }

  lemma {:induction false} CompletedIncident(db: Db, clock: int, id: RunId) returns (g: nat, m: nat)
    requires Reachable(db, clock) && id in db
    requires db[id].run.kind == Incident && db[id].run.status == Completed
    ensures var steps := db[id].steps;
            && IncidentShape(steps, g, m)
            && Assigned(db[id].run, steps[g], Diagnosis) && Assigned(db[id].run, steps[m], Remediation)
            && Assigned(db[id].run, steps[|steps| - 1], Evaluator)
            && steps[g].actor != steps[m].actor && steps[m].actor != steps[|steps| - 1].actor
  {
    hide StepsMatch, StepsOk, ResultsOk, ChainOk, StatusOk, LeaseOk, EventsOk, UsageOk, SourcesOk, FrozenOk, OnlyStuck;
    ReachableInv(db, clock);
    assert ExecInv(db[id], clock);
    g, m := IncidentOrder(db[id].steps);
    StepAssigned(db[id], clock, g);
    StepAssigned(db[id], clock, m);
    StepAssigned(db[id], clock, |db[id].steps| - 1);
    ActorsDiffer(db[id], clock, g, m);
    ActorsDiffer(db[id], clock, m, |db[id].steps| - 1);
  }

  // The step was done by the target's workload for the role.
  predicate Assigned(run: Run, s: Step, role: Role) {
    role in run.target.participants && s.actor == run.target.participants[role] && s.role == role
  }

  lemma {:induction false} StepAssigned(e: Exec, clock: int, i: nat)
    requires ExecInv(e, clock) && i < |e.steps|
    ensures Assigned(e.run, e.steps[i], ExecutionRole(e.steps[i].stage))
  {
    hide StepsOk, ResultsOk, ChainOk, StageOk, StatusOk, LeaseOk, EventsOk, UsageOk, SourcesOk;
    assert StepMatches(e.run.target, e.run.packages, e.steps[i]);
  }

  lemma {:induction false} ActorsDiffer(e: Exec, clock: int, i: nat, j: nat)
    requires ExecInv(e, clock) && i < |e.steps| && j < |e.steps|
    requires ExecutionRole(e.steps[i].stage) != ExecutionRole(e.steps[j].stage)
    ensures e.steps[i].actor != e.steps[j].actor
  {
    hide StepsOk, ResultsOk, ChainOk, StageOk, StatusOk, LeaseOk, EventsOk, UsageOk, SourcesOk;
  }

  // ------------------------------------------------------------------ fencing

  predicate Accepts(e: Exec, now: int, g: Grants, l: Lease, actor: Principal) {
    LeaseError(e, now, g, l, actor).None?
  }

  // In one state only one lease can be accepted.
  lemma {:induction false} AcceptedLeaseUnique(e: Exec, now: int, now': int, g: Grants, g': Grants,
                                               l: Lease, l': Lease, actor: Principal, actor': Principal)
    requires Accepts(e, now, g, l, actor) && Accepts(e, now', g', l', actor')
    ensures (l.stepId, l.fence, l.token, actor) == (l'.stepId, l'.fence, l'.token, actor')
  {
    assert Digest(l.token) == Digest(l'.token);
  }

  // The lease's step is completed or has been fenced past it.
  predicate Superseded(e: Exec, l: Lease) {
    exists i | 0 <= i < |e.steps| ::
      e.steps[i].id == l.stepId && (e.steps[i].fence > l.fence || e.steps[i].completedAt.Some?)
  }

  lemma {:induction false} SupersededNotAccepted(e: Exec, clock: int, l: Lease, now: int, g: Grants, actor: Principal)
    requires ExecInv(e, clock) && Superseded(e, l)
    ensures !Accepts(e, now, g, l, actor)
  {
    hide StepsMatch, ResultsOk, ChainOk, StageOk, StatusOk, LeaseOk, EventsOk, UsageOk, SourcesOk, FrozenOk;
    var i :| 0 <= i < |e.steps| && e.steps[i].id == l.stepId
             && (e.steps[i].fence > l.fence || e.steps[i].completedAt.Some?);
    if Accepts(e, now, g, l, actor) {
      assert false;
    }
  }

  // A superseded lease is never accepted again, whatever is called next.
  lemma {:induction false} SupersededForever(db: Db, clock: int, id: RunId, l: Lease, calls: seq<Call>,
                                             now: int, g: Grants, actor: Principal)
    requires Reachable(db, clock) && id in db && Superseded(db[id], l)
    requires Timed(calls) && AllSubmitted(calls)
    ensures var later := RunAll(db, calls); id in later && !Accepts(later[id], now, g, l, actor)
  {
    hide DbInv, Accepts, Superseded;
    ReachableInv(db, clock);
    StaysSuperseded(db, clock, id, l, calls, now, g, actor);
  }

  lemma {:induction false} StaysSuperseded(db: Db, clock: int, id: RunId, l: Lease, calls: seq<Call>,
                                           now: int, g: Grants, actor: Principal)
    requires DbInv(db, clock) && id in db && Superseded(db[id], l)
    requires Timed(calls) && AllSubmitted(calls)
    ensures var later := RunAll(db, calls); id in later && !Accepts(later[id], now, g, l, actor)
  {
    hide ExecInv, Accepts, ResultsGrow, RunFrozen;
    RunAllKeeps(db, clock, calls);
    var later := RunAll(db, calls)[id];
    var i :| 0 <= i < |db[id].steps| && db[id].steps[i].id == l.stepId
             && (db[id].steps[i].fence > l.fence || db[id].steps[i].completedAt.Some?);
    assert StepEvolves(db[id].steps[i], later.steps[i]);
    SupersededNotAccepted(later, ClockAfter(clock, calls), l, now, g, actor);
  }

  // The calls that end an accepted lease: another claim of the run, completion,
  // an operator's read-back decision, and pause or cancel outside an effect.
  predicate EndsLease(db: Db, e: Exec, c: Call) {
    && !c.op.OpCreate?
    && var (f, answer) := OnExec(db, e, c);
       match c.op
       case OpClaim(_, _, _, _, _) => answer.Claimed?
       case OpComplete(_, _, _, _, _, _) => f != e
       case OpControl(_, _, _, _, action, _, _) =>
         answer.RunIs? && (action == Reconcile
                           || (!EffectStage(e.run.stage) && (action == Pause || action == Cancel)))
       case _ => false
  }

  // The run's current step is the lease's, and moves past it.
  predicate MovesPast(e: Exec, f: Exec, l: Lease) {
    var k := e.run.stepNumber - 1;
    0 <= k < |f.steps| && f.steps[k].id == l.stepId && (f.steps[k].fence > l.fence || f.steps[k].completedAt.Some?)
  }

  // The lease was handed out for step k at its present fence or an earlier one.
  predicate HandedOut(e: Exec, k: nat, l: Lease) {
    k < |e.steps| && e.steps[k].id == l.stepId && l.fence <= e.steps[k].fence
  }

  lemma {:induction false} AgainSupersedes(e: Exec, clock: int, now: int, actor: Principal, token: string, k: nat,
                                           l: Lease)
    requires ExecInv(e, clock) && InFlight(e) && HandedOut(e, k, l)
    ensures Superseded(ClaimAgain(e, now, actor, token), l)
  {
    hide StepsMatch, ResultsOk, ChainOk, StageOk, StatusOk, LeaseOk, EventsOk, UsageOk, SourcesOk, FrozenOk, Charged,
         LeaseEnd, CompletedStep;
    var f := ClaimAgain(e, now, actor, token);
    assert f.steps[k].id == l.stepId;
    assert k < |e.steps| - 1 ==> f.steps[k] == e.steps[k];
  }

  lemma {:induction false} FreshSupersedes(e: Exec, clock: int, now: int, actor: Principal, token: string, sid: StepId,
                                           k: nat, l: Lease)
    requires ExecInv(e, clock) && !InFlight(e) && HandedOut(e, k, l)
    ensures Superseded(ClaimFresh(e, now, actor, token, sid), l)
  {
    hide StepsMatch, ResultsOk, ChainOk, StageOk, StatusOk, LeaseOk, EventsOk, UsageOk, SourcesOk, FrozenOk, Charged,
         LeaseEnd, CompletedStep;
    var f := ClaimFresh(e, now, actor, token, sid);
    assert f.steps[k] == e.steps[k] && e.steps[k].completedAt.Some?;
  }

  // Every granted claim ends every lease handed out before, whether it could
  // still be accepted or not.
  lemma {:induction false} ClaimSupersedes(db: Db, id: RunId, clock: int, tx: Tx, g: Grants, actor: Principal,
                                           token: string, sid: StepId, k: nat, l: Lease)
    requires id in db && ExecInv(db[id], clock) && HandedOut(db[id], k, l)
    requires ClaimExec(db, db[id], tx, g, actor, token, sid).1.Claimed?
    ensures Superseded(ClaimExec(db, db[id], tx, g, actor, token, sid).0, l)
  {
    hide ExecInv, AtCapacity, ModelBudgetSpent, StepIdUsed, ClaimAgain, ClaimFresh, Superseded, HandedOut;
    var e := db[id];
    if InFlight(e) {
      AgainSupersedes(e, clock, tx.now, actor, token, k, l);
    } else {
      FreshSupersedes(e, clock, tx.now, actor, token, sid, k, l);
    }
  }

  // The lease a granted claim answers is of the run's last step, at its fence.
  lemma {:induction false} ClaimHandsOut(db: Db, id: RunId, clock: int, tx: Tx, g: Grants, actor: Principal,
                                         token: string, sid: StepId)
    requires id in db && ExecInv(db[id], clock)
    requires ClaimExec(db, db[id], tx, g, actor, token, sid).1.Claimed?
    ensures var (f, answer) := ClaimExec(db, db[id], tx, g, actor, token, sid);
            |f.steps| > 0 && answer.step == f.steps[|f.steps| - 1]
  {
    hide StepsMatch, StepsOk, ResultsOk, ChainOk, StageOk, StatusOk, LeaseOk, EventsOk, UsageOk, SourcesOk, FrozenOk,
         AtCapacity, ModelBudgetSpent, StepIdUsed, Charged, LeaseEnd;
  }

  // A claim of the run that is granted.
  ghost predicate GrantedClaim(db: Db, id: RunId, c: Call) {
    c.op.OpClaim? && c.op.id == id && id in db && Apply(db, c).1.Claimed?
  }

  predicate LeaseOf(l: Lease, answer: Answer) {
    answer.Claimed? && l.stepId == answer.step.id && l.fence == answer.step.fence
  }

  lemma {:induction false} GrantedLease(db: Db, clock: int, id: RunId, c: Call, l: Lease) returns (k: nat)
    requires DbInv(db, clock) && c.tx.start <= c.tx.now && GrantedClaim(db, id, c) && LeaseOf(l, Apply(db, c).1)
    ensures DbInv(Apply(db, c).0, Max(clock, c.tx.now))
    ensures id in Apply(db, c).0 && HandedOut(Apply(db, c).0[id], k, l)
  {
    hide ExecInv, ClaimExec;
    ApplyKeeps(db, clock, c);
    ClaimHandsOut(db, id, clock, c.tx, c.grants, c.op.actor, c.op.token, c.op.sid);
    k := |Apply(db, c).0[id].steps| - 1;
  }

  lemma {:induction false} StaysHandedOut(db: Db, clock: int, id: RunId, k: nat, l: Lease, calls: seq<Call>)
    requires DbInv(db, clock) && id in db && HandedOut(db[id], k, l)
    requires Timed(calls) && AllSubmitted(calls)
    ensures id in RunAll(db, calls) && HandedOut(RunAll(db, calls)[id], k, l)
  {
    hide ExecInv, StepEvolves, ResultsGrow, RunFrozen, RunAll;
    RunAllKeeps(db, clock, calls);
    assert StepEvolves(db[id].steps[k], RunAll(db, calls)[id].steps[k]);
    FenceKept(db[id].steps[k], RunAll(db, calls)[id].steps[k]);
  }

  lemma {:induction false} NextClaimSupersedes(db: Db, clock: int, id: RunId, c: Call, k: nat, l: Lease)
    requires DbInv(db, clock) && c.tx.start <= c.tx.now && GrantedClaim(db, id, c)
    requires id in db && HandedOut(db[id], k, l)
    ensures DbInv(Apply(db, c).0, Max(clock, c.tx.now))
    ensures id in Apply(db, c).0 && Superseded(Apply(db, c).0[id], l)
  {
    hide ExecInv, ClaimExec, HandedOut, Superseded;
    ApplyKeeps(db, clock, c);
    ClaimSupersedes(db, id, clock, c.tx, c.grants, c.op.actor, c.op.token, c.op.sid, k, l);
  }

  lemma {:induction false} NextClaimFences(db: Db, clock: int, id: RunId, k: nat, l: Lease, between: seq<Call>,
                                           second: Call,
                                           later: seq<Call>, now: int, g: Grants, actor: Principal)
    requires DbInv(db, clock) && id in db && HandedOut(db[id], k, l)
    requires Timed(between) && second.tx.start <= second.tx.now && Timed(later)
    requires AllSubmitted(between) && AllSubmitted(later)
    requires GrantedClaim(RunAll(db, between), id, second)
    ensures var done := RunAll(Apply(RunAll(db, between), second).0, later);
            id in done && !Accepts(done[id], now, g, l, actor)
  {
    hide *;
    StaysHandedOut(db, clock, id, k, l, between);
    RunAllKeeps(db, clock, between);
    var two, t := RunAll(db, between), ClockAfter(clock, between);
    NextClaimSupersedes(two, t, id, second, k, l);
    StaysSuperseded(Apply(two, second).0, Max(t, second.tx.now), id, l, later, now, g, actor);
  }

  // The lease of one granted claim is never accepted again once a later claim of
  // the run was granted, whatever is called before, between and after.
  lemma {:induction false} LaterClaimFences(db: Db, clock: int, id: RunId, first: Call, between: seq<Call>,
                                            second: Call,
                                            later: seq<Call>, l: Lease, now: int, g: Grants, actor: Principal)
    requires Reachable(db, clock) && GrantedClaim(db, id, first) && LeaseOf(l, Apply(db, first).1)
    requires first.tx.start <= first.tx.now && second.tx.start <= second.tx.now && Timed(between) && Timed(later)
    requires AllSubmitted(between) && AllSubmitted(later)
    requires GrantedClaim(RunAll(Apply(db, first).0, between), id, second)
    ensures var done := RunAll(Apply(RunAll(Apply(db, first).0, between), second).0, later);
            id in done && !Accepts(done[id], now, g, l, actor)
  {
    hide *;
    ReachableInv(db, clock);
    var k := GrantedLease(db, clock, id, first, l);
    NextClaimFences(Apply(db, first).0, Max(clock, first.tx.now), id, k, l, between, second, later, now, g, actor);
  }

  lemma FenceKept(s: Step, t: Step)
    requires StepEvolves(s, t)
    ensures t.id == s.id && s.fence <= t.fence
  {
  }

  lemma {:induction false} CompletionEnds(e: Exec, now: int, g: Grants, l: Lease, actor: Principal,
                                          result: ExecutionResult,
                                          evidence: Sha, status: Status, stage: Stage,
                                          m: Lease, now': int, g': Grants, actor': Principal)
    requires Accepts(e, now', g', m, actor')
    requires CompleteExec(e, now, g, l, actor, result, evidence, status, stage).0 != e
    ensures MovesPast(e, CompleteExec(e, now, g, l, actor, result, evidence, status, stage).0, m)
  {
    hide ValidTransition, FinishedStatus, Reported, OutcomeText;
  }

  lemma {:induction false} ControlEnds(e: Exec, now: int, g: Grants, actor: Principal, version: int, action: Action,
                                       reason: string, credential: string,
                                       l: Lease, now': int, g': Grants, actor': Principal)
    requires Accepts(e, now', g', l, actor')
    requires ControlExec(e, now, g, actor, version, action, reason, credential).1.RunIs?
    requires action == Reconcile || (!EffectStage(e.run.stage) && (action == Pause || action == Cancel))
    ensures MovesPast(e, ControlExec(e, now, g, actor, version, action, reason, credential).0, l)
  {
  }

  lemma {:induction false} AcceptedIsHandedOut(e: Exec, clock: int, now: int, g: Grants, l: Lease, actor: Principal)
    requires ExecInv(e, clock) && Accepts(e, now, g, l, actor)
    ensures e.run.stepNumber >= 1 && HandedOut(e, e.run.stepNumber - 1, l)
  {
    hide StepsMatch, StepsOk, ResultsOk, ChainOk, StageOk, StatusOk, LeaseOk, EventsOk, UsageOk, SourcesOk, FrozenOk;
  }

  lemma {:induction false} LeaseEnded(db: Db, id: RunId, clock: int, c: Call, l: Lease, now: int, g: Grants,
                                      actor: Principal)
    requires id in db && ExecInv(db[id], clock)
    requires Accepts(db[id], now, g, l, actor) && EndsLease(db, db[id], c)
    ensures Superseded(OnExec(db, db[id], c).0, l)
  {
    hide ExecInv, Accepts, ClaimExec, CompleteExec, ControlExec;
    var e, t := db[id], c.tx.now;
    match c.op
    case OpClaim(_, _, who, token, sid) =>
      AcceptedIsHandedOut(e, clock, now, g, l, actor);
      ClaimSupersedes(db, id, clock, c.tx, c.grants, who, token, sid, e.run.stepNumber - 1, l);
    case OpComplete(m, who, result, evidence, status, stage) =>
      CompletionEnds(e, t, c.grants, m, who, result, evidence, status, stage, l, now, g, actor);
    case OpControl(_, _, who, version, action, reason, credential) =>
      ControlEnds(e, t, c.grants, who, version, action, reason, credential, l, now, g, actor);
    case _ =>
  }

  // ------------------------------------------------- results are written once

  lemma {:induction false} ResultReplay(db: Db, clock: int, id: RunId, i: nat, calls: seq<Call>, l: Lease,
                                        now: int, g: Grants, actor: Principal, result: ExecutionResult, evidence: Sha,
                                        status: Status, stage: Stage)
    requires Reachable(db, clock) && id in db
    requires i < |db[id].steps| && db[id].steps[i].completedAt.Some? && l.stepId == db[id].steps[i].id
    requires Timed(calls) && AllSubmitted(calls)
    ensures var later := RunAll(db, calls);
            && id in later && i < |later[id].steps| && later[id].steps[i] == db[id].steps[i]
            && var (f, answer) := CompleteExec(later[id], now, g, l, actor, result, evidence, status, stage);
               && f == later[id]
               && (answer == RunIs(later[id].run) <==>
                     g.actor && actor == db[id].steps[i].actor && evidence == db[id].steps[i].evidence)
  {
    hide StepsMatch, StepsOk, ChainOk, StageOk, StatusOk, LeaseOk, EventsOk, UsageOk, SourcesOk, FrozenOk,
         RunFrozen, LeaseError, ValidTransition, Finish;
    ReachableInv(db, clock);
    RunAllKeeps(db, clock, calls);
    var later := RunAll(db, calls)[id];
    assert ExecInv(db[id], clock);
    assert Recorded(db[id].results, db[id].steps[i]);
    assert StepEvolves(db[id].steps[i], later.steps[i]);
  }

  // A reservation is counted once, and its key cannot be reused for another query.
  lemma {:induction false} ReservedOnce(e: Exec, now: int, g: Grants, l: Lease, actor: Principal, q: SourceQuery,
                                        q': SourceQuery)
    requires ReserveExec(e, now, g, l, actor, q).1 == Done
    requires q'.idempotencyKey == q.idempotencyKey
    ensures var f := ReserveExec(e, now, g, l, actor, q).0;
            && ReserveExec(f, now, g, l, actor, q) == (f, Done)
            && ReserveExec(f, now, g, l, actor, q').0 == f
            && (ReserveExec(f, now, g, l, actor, q').1 == Done <==> q' == q)
  {
    var f := ReserveExec(e, now, g, l, actor, q).0;
    assert LeaseError(f, now, g, l, actor) == LeaseError(e, now, g, l, actor);
    assert FindReservation(f.reservations, LoadStep(f).value.id, q.idempotencyKey) == Some(Digest(q)) by {
      if f != e { assert f.reservations[..|f.reservations| - 1] == e.reservations; }
    }
  }

  // ------------------------------------------------------ status and counting

  lemma {:induction false} ReadBackResult(e: Exec, clock: int, now: int, g: Grants, l: Lease, actor: Principal,
                                          result: ExecutionResult, evidence: Sha, status: Status, stage: Stage)
    requires e.run.status == Reconciling
    ensures var f := CompleteExec(e, now, g, l, actor, result, evidence, status, stage).0;
            f.run.status == Reconciling || f.run.status == Blocked || f.run.status == Cancelled
  {
    hide LeaseError, ValidTransition;
  }

  lemma {:induction false} ReadBackControl(db: Db, e: Exec, c: Call)
    requires e.run.status == Reconciling && InFlight(e) && EffectStage(e.run.stage)
    requires c.op.OpControl?
    ensures var f := OnExec(db, e, c).0;
            f.run.status == Reconciling || f.run.status == Blocked || f.run.status == Cancelled
  {
    hide AtCapacity, ModelBudgetSpent, StepIdUsed, LeaseEnd, Charged;
  }

  lemma {:induction false} ReadBackClaim(db: Db, e: Exec, c: Call)
    requires e.run.status == Reconciling && InFlight(e) && EffectStage(e.run.stage)
    requires c.op.OpClaim?
    ensures var f := OnExec(db, e, c).0;
            f.run.status == Reconciling || f.run.status == Blocked || f.run.status == Cancelled
  {
    hide AtCapacity, ModelBudgetSpent, StepIdUsed, LeaseEnd, Charged;
  }

  lemma {:induction false} ReadBackRest(db: Db, e: Exec, c: Call)
    requires e.run.status == Reconciling && (c.op.OpCheck? || c.op.OpReserve? || c.op.OpRecord?)
    ensures OnExec(db, e, c).0.run.status == Reconciling
  {
    hide LeaseError, SourceBudgetSpent, FindReservation;
  }

  // Read-back ends in blocked or cancelled only.
  lemma {:induction false} ReconcilingExits(db: Db, clock: int, id: RunId, c: Call)
    requires Reachable(db, clock) && id in db && !c.op.OpCreate?
    requires db[id].run.status == Reconciling
    ensures InFlight(db[id]) && EffectStage(db[id].run.stage)
    ensures var f := OnExec(db, db[id], c).0;
            f.run.status == Reconciling || f.run.status == Blocked || f.run.status == Cancelled
  {
    hide StepsMatch, StepsOk, ResultsOk, ChainOk, StageOk, LeaseOk, EventsOk, UsageOk, SourcesOk, FrozenOk,
         ClaimExec, ControlExec, CompleteExec, ReserveExec, RecordExec, LeaseError;
    ReachableInv(db, clock);
    assert ExecInv(db[id], clock);
    match c.op
    case OpComplete(l, actor, result, evidence, status, stage) =>
      ReadBackResult(db[id], clock, c.tx.now, c.grants, l, actor, result, evidence, status, stage);
    case OpClaim(_, _, _, _, _) => ReadBackClaim(db, db[id], c);
    case OpControl(_, _, _, _, _, _, _) => ReadBackControl(db, db[id], c);
    case OpCheck(_, _) => ReadBackRest(db, db[id], c);
    case OpReserve(_, _, _) => ReadBackRest(db, db[id], c);
    case OpRecord(_, _, _, _, _) => ReadBackRest(db, db[id], c);
  }

  // No effect in flight is ever paused or cancelled away, and a finished run
  // never changes again.
  lemma {:induction false} EffectsNotDropped(db: Db, clock: int, id: RunId, calls: seq<Call>)
    requires Reachable(db, clock) && id in db && Timed(calls) && AllSubmitted(calls)
    ensures id in RunAll(db, calls)
    ensures var f := RunAll(db, calls)[id];
            && (f.run.status == Paused || f.run.status == Cancelled ==> !(InFlight(f) && EffectStage(f.run.stage)))
            && (Final(db[id].run.status) ==> f == db[id])
            && db[id].events <= f.events
            && forall i | 0 <= i < |f.events| :: f.events[i].version == i + 1
  {
    hide StepsMatch, StepsOk, ResultsOk, ChainOk, StageOk, LeaseOk, UsageOk, SourcesOk, FrozenOk, ResultsGrow,
         RunFrozen, StepsEvolve;
    ReachableInv(db, clock);
    RunAllKeeps(db, clock, calls);
    assert ExecInv(RunAll(db, calls)[id], ClockAfter(clock, calls));
  }

  // Budgets and counters of every reachable run.
  lemma {:induction false} BudgetsHold(db: Db, clock: int, id: RunId)
    requires Reachable(db, clock) && id in db
    ensures var e := db[id]; var u, b := e.run.usage, e.run.target.budget;
            && u.attempts == u.modelCalls <= b.maxModelCalls && u.attempts <= b.maxAttempts
            && u.tokensCharged == u.attempts * ClaimCharge(e.run.kind, e.run.packages) <= b.maxTokens
            && u.tokensActual == SumReported(e.steps)
            && u.sourceQueries == |e.reservations| <= b.maxSourceQueries
            && u.sourceRows == SumLimits(e.reservations) <= b.maxSourceRows
            && e.run.version == |e.events|
    ensures var rs := db[id].reservations;
            forall i, j | 0 <= i < j < |rs| :: (rs[i].stepId, rs[i].key) != (rs[j].stepId, rs[j].key)
  {
    hide StepsMatch, StepsOk, ResultsOk, ChainOk, StageOk, StatusOk, LeaseOk, FrozenOk, ClaimCharge;
    ReachableInv(db, clock);
    assert ExecInv(db[id], clock);
  }
}
