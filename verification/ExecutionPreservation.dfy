// Every transaction keeps the invariants of the run it touches and only lets
// that run evolve.
module ExecutionPreservation {
  import opened Wrappers
  import opened ExecutionDomain
  import opened ExecutionSpec
  import opened ExecutionInvariants

  predicate Keeps(e: Exec, f: Exec, clock: int) {
    ExecInv(f, clock) && Evolves(e, f)
  }

  lemma {:induction false} LaterClock(e: Exec, clock: int, now: int)
    requires ExecInv(e, clock) && clock <= now
    ensures Keeps(e, e, now)
  {
    hide StepsMatch, StepsOk, ResultsOk, ChainOk, StageOk, StatusOk, EventsOk, UsageOk, SourcesOk, FrozenOk;
  }

  lemma {:induction false} StoppedKeeps(e: Exec, clock: int, actor: Principal, why: string)
    requires ExecInv(e, clock) && Claimable(e.run.status)
    ensures Keeps(e, Stopped(e, actor, why), clock)
  {
    hide StepsMatch, StepsOk, ResultsOk, ChainOk, EventsOk, UsageOk, SourcesOk, FrozenOk;
    SavedEvents(e, BlockedEvent, actor, None, why, "");
  }

  lemma {:induction false} SumsExtend(steps: Steps, s: Step, stage: Stage)
    ensures SumReported(steps + [s]) == SumReported(steps) + ReportedBy(s)
    ensures CountStage(steps + [s], stage) == CountStage(steps, stage) + if s.stage == stage then 1 else 0
  {
    assert (steps + [s])[..|steps + [s]| - 1] == steps;
  }

  // Rewriting the last step by one of the same stage.
  lemma {:induction false} SumsRewrite(steps: Steps, s: Step, stage: Stage)
    requires |steps| > 0 && s.stage == steps[|steps| - 1].stage
    ensures SumReported(steps[|steps| - 1 := s]) == SumReported(steps) - ReportedBy(steps[|steps| - 1]) + ReportedBy(s)
    ensures CountStage(steps[|steps| - 1 := s], stage) == CountStage(steps, stage)
  {
    var n := |steps| - 1;
    assert steps[n := s] == steps[..n] + [s];
    SumsExtend(steps[..n], s, stage);
  }

  predicate KindHas(kind: Kind, stage: Stage) {
    if kind == Feature then stage == Build || stage == Evaluate || stage == Deliver || stage == VerifyDelivery
    else stage == Diagnose || stage == Remediate || stage == VerifyRecovery
  }

  lemma {:induction false} StepStages(kind: Kind, steps: Steps, i: nat)
    requires ChainOk(kind, steps) && i < |steps|
    ensures KindHas(kind, steps[i].stage)
  {
    if i > 0 {
      StepStages(kind, steps, i - 1);
      assert Linked(steps[i - 1], steps[i].stage);
    }
  }

  lemma StageOfKind(kind: Kind, steps: Steps, status: Status, stage: Stage)
    requires ChainOk(kind, steps) && StageOk(kind, steps, status, stage) && !Final(status)
    ensures KindHas(kind, stage)
  {
    if |steps| > 0 { StepStages(kind, steps, |steps| - 1); }
  }

  // Of a run's stages only the first one has a model package.
  lemma {:induction false} OnlyStartUsesModel(e: Exec, clock: int)
    requires ExecInv(e, clock) && !Final(e.run.status)
    ensures e.run.Package().UsesModel() <==> e.run.stage == StartStage(e.run.kind)
  {
    hide StepsMatch, StepsOk, ResultsOk, StatusOk, LeaseOk, EventsOk, UsageOk, SourcesOk;
    StageOfKind(e.run.kind, e.steps, e.run.status, e.run.stage);
  }

  // ------------------------------------------------ the last step is rewritten

  function WithLast(steps: Steps, s: Step): Steps
    requires |steps| > 0
  {
    steps[|steps| - 1 := s]
  }

  lemma {:induction false} RewriteMatches(t: Target, packages: map<Role, Package>, kind: Kind, steps: Steps, s: Step)
    requires Open(steps) && StepsMatch(t, packages, steps) && ChainOk(kind, steps)
    requires StepEvolves(steps[|steps| - 1], s)
    ensures StepsMatch(t, packages, WithLast(steps, s)) && ChainOk(kind, WithLast(steps, s))
    ensures StepsEvolve(steps, WithLast(steps, s))
  {
    var later := WithLast(steps, s);
    forall i | 0 <= i < |steps| - 1 ensures Linked(later[i], later[i + 1].stage) {
      assert Linked(steps[i], steps[i + 1].stage);
    }
  }

  lemma {:induction false} RewriteOk(steps: Steps, s: Step)
    requires Open(steps) && StepsOk(steps)
    requires StepEvolves(steps[|steps| - 1], s) && (s.completedAt.Some? ==> CompletedStep(s))
    ensures StepsOk(WithLast(steps, s))
  {
    var later := WithLast(steps, s);
    assert forall i | 0 <= i < |steps| :: later[i].id == steps[i].id;
  }

  lemma {:induction false} RewriteOpenResults(steps: Steps, s: Step, results: Results)
    requires Open(steps) && ResultsOk(steps, results)
    requires s.completedAt.None?
    ensures ResultsOk(WithLast(steps, s), results)
  {
    var later := WithLast(steps, s);
    forall sid | sid in results
      ensures exists i :: 0 <= i < |later| && later[i].id == sid && later[i].completedAt.Some?
    {
      var i :| 0 <= i < |steps| && steps[i].id == sid && steps[i].completedAt.Some?;
      assert later[i] == steps[i];
    }
  }

  // Completing the last step enters exactly its own row.
  lemma {:induction false} RewriteClosedResults(steps: Steps, s: Step, results: Results)
    requires Open(steps) && StepsOk(steps) && ResultsOk(steps, results)
    requires s.completedAt.Some? && s.id == steps[|steps| - 1].id
    ensures ResultsOk(WithLast(steps, s), results[s.id := ResultRow(s.actor, s.evidence)])
    ensures ResultsGrow(results, results[s.id := ResultRow(s.actor, s.evidence)])
  {
    var later, n := WithLast(steps, s), |steps| - 1;
    var results' := results[s.id := ResultRow(s.actor, s.evidence)];
    NotRecordedWhileOpen(steps, results);
    forall i | 0 <= i < |later| && later[i].completedAt.Some? ensures Recorded(results', later[i]) {
      if i < n { assert later[i] == steps[i] && Recorded(results, steps[i]); }
    }
    forall sid | sid in results'
      ensures exists i :: 0 <= i < |later| && later[i].id == sid && later[i].completedAt.Some?
    {
      if sid == s.id {
        assert later[n].id == sid;
      } else {
        var i :| 0 <= i < |steps| && steps[i].id == sid && steps[i].completedAt.Some?;
        assert later[i] == steps[i];
      }
    }
  }

  lemma {:induction false} NotRecordedWhileOpen(steps: Steps, results: Results)
    requires Open(steps) && StepsOk(steps) && ResultsOk(steps, results)
    ensures steps[|steps| - 1].id !in results
  {
    var id := steps[|steps| - 1].id;
    if id in results {
      var i :| 0 <= i < |steps| && steps[i].id == id && steps[i].completedAt.Some?;
      assert false;
    }
  }

  // -------------------------------------------------------- a step is appended

  lemma {:induction false} AppendMatches(t: Target, packages: map<Role, Package>, kind: Kind, steps: Steps, s: Step)
    requires StepsMatch(t, packages, steps) && ChainOk(kind, steps)
    requires StepMatches(t, packages, s) && s.number == |steps| + 1
    requires if steps == [] then s.stage == StartStage(kind) else Linked(steps[|steps| - 1], s.stage)
    ensures StepsMatch(t, packages, steps + [s]) && ChainOk(kind, steps + [s])
    ensures StepsEvolve(steps, steps + [s])
  {
    var later := steps + [s];
    forall i | 0 <= i < |later| - 1 ensures Linked(later[i], later[i + 1].stage) {
      if i < |steps| - 1 { assert Linked(steps[i], steps[i + 1].stage); }
    }
  }

  lemma {:induction false} AppendStepsOk(steps: Steps, s: Step)
    requires StepsOk(steps) && !Open(steps)
    requires s.completedAt.None? && forall i | 0 <= i < |steps| :: steps[i].id != s.id
    ensures StepsOk(steps + [s])
  {
    hide CompletedStep;
  }

  lemma {:induction false} AppendOk(steps: Steps, s: Step, results: Results)
    requires StepsOk(steps) && ResultsOk(steps, results) && !Open(steps)
    requires s.completedAt.None? && forall i | 0 <= i < |steps| :: steps[i].id != s.id
    ensures StepsOk(steps + [s]) && ResultsOk(steps + [s], results)
  {
    AppendStepsOk(steps, s);
    hide StepsOk, CompletedStep;
    var later := steps + [s];
    forall sid | sid in results
      ensures exists i :: 0 <= i < |later| && later[i].id == sid && later[i].completedAt.Some?
    {
      var i :| 0 <= i < |steps| && steps[i].id == sid && steps[i].completedAt.Some?;
      assert later[i] == steps[i];
    }
  }

  // --------------------------------------------------------- the transactions

  // The usage a granted claim leaves, given the steps it leaves.
  lemma {:induction false} ChargedOk(e: Exec, clock: int, steps: Steps)
    requires ExecInv(e, clock) && !Final(e.run.status)
    requires e.run.Package().UsesModel() ==> !ModelBudgetSpent(e.run)
    requires SumReported(steps) == SumReported(e.steps)
    requires CountStage(steps, StartStage(e.run.kind))
             <= CountStage(e.steps, StartStage(e.run.kind)) + if e.run.stage == StartStage(e.run.kind) then 1 else 0
    ensures UsageOk(e.run.kind, ClaimCharge(e.run.kind, e.run.packages), e.run.target.budget, Charged(e.run), steps)
    ensures Charged(e.run).sourceQueries == e.run.usage.sourceQueries
    ensures Charged(e.run).sourceRows == e.run.usage.sourceRows
  {
    hide StepsMatch, StepsOk, ResultsOk, ChainOk, StageOk, StatusOk, LeaseOk, EventsOk, SourcesOk, FrozenOk;
    OnlyStartUsesModel(e, clock);
    var charge := ClaimCharge(e.run.kind, e.run.packages);
    assert (e.run.usage.attempts + 1) * charge == e.run.usage.attempts * charge + charge;
  }

  lemma {:induction false} NewStepMatches(e: Exec, clock: int, now: int, actor: Principal, token: string, sid: StepId)
    requires ExecInv(e, clock) && actor == e.run.Actor()
    ensures StepMatches(e.run.target, e.run.packages,
                        Leased(NewStep(e.run, actor, sid), token, LeaseEnd(e.run, now)))
  {
    hide StepsMatch, StepsOk, ResultsOk, ChainOk, LeaseOk, StatusOk, EventsOk, UsageOk, SourcesOk;
  }

  // Where a fresh claim leaves the run.
  lemma {:induction false} FreshStanding(e: Exec, clock: int, now: int, actor: Principal, token: string, sid: StepId)
    requires ExecInv(e, clock) && Claimable(e.run.status) && !InFlight(e)
    ensures var f := ClaimFresh(e, now, actor, token, sid);
            && !Open(e.steps)
            && (if e.steps == [] then e.run.stage == StartStage(e.run.kind)
                else Linked(e.steps[|e.steps| - 1], e.run.stage))
            && StageOk(f.run.kind, f.steps, f.run.status, f.run.stage)
            && StatusOk(Open(f.steps), f.run.status, f.run.stage, f.run.blockers)
            && LeaseOk(f.steps, f.run.deadline, clock)
            && RunFrozen(e.run, f.run)
  {
    hide StepsMatch, StepsOk, ResultsOk, ChainOk, EventsOk, UsageOk, SourcesOk, FrozenOk, Charged, Linked;
  }

  lemma {:induction false} ClaimFreshKeeps(e: Exec, clock: int, now: int, actor: Principal, token: string, sid: StepId)
    requires ExecInv(e, clock) && now <= clock
    requires Claimable(e.run.status) && !InFlight(e)
    requires actor == e.run.Actor()
    requires e.run.Package().UsesModel() ==> !ModelBudgetSpent(e.run)
    requires forall i | 0 <= i < |e.steps| :: e.steps[i].id != sid
    ensures Keeps(e, ClaimFresh(e, now, actor, token, sid), clock)
  {
    hide StepsMatch, StepsOk, ResultsOk, ChainOk, EventsOk, UsageOk, SourcesOk, FrozenOk, StepMatches, ClaimCharge,
         StepsEvolve, StepEvolves, Charged, ModelBudgetSpent, StageOk, StatusOk, LeaseOk, RunFrozen, Linked, LeaseEnd;
    var f := ClaimFresh(e, now, actor, token, sid);
    var step := f.steps[|e.steps|];
    assert f.steps == e.steps + [step];
    FreshStanding(e, clock, now, actor, token, sid);
    NewStepMatches(e, clock, now, actor, token, sid);
    SumsExtend(e.steps, step, StartStage(e.run.kind));
    ChargedOk(e, clock, f.steps);
    AppendMatches(e.run.target, e.run.packages, e.run.kind, e.steps, step);
    AppendOk(e.steps, step, e.results);
    SavedEvents(e, ClaimedEvent, actor, Some(sid), CLAIM_REASON, "");
  }

  lemma SavedEvents(e: Exec, kind: EventKind, actor: Principal, step: Option<StepId>, reason: string, evidence: Sha)
    requires EventsOk(e.run.version, e.events)
    ensures var f := Saved(e, kind, actor, step, reason, evidence);
            && EventsOk(f.run.version, f.events) && e.events <= f.events
            && f.run == e.run.(version := f.run.version)
            && f.steps == e.steps && f.results == e.results && f.reservations == e.reservations
  {
  }

  lemma {:induction false} ClaimAgainKeeps(e: Exec, clock: int, now: int, actor: Principal, token: string)
    requires ExecInv(e, clock) && now <= clock
    requires Claimable(e.run.status) && InFlight(e)
    requires e.run.Package().UsesModel() ==> !ModelBudgetSpent(e.run)
    ensures Keeps(e, ClaimAgain(e, now, actor, token), clock)
  {
    hide StepsMatch, StepsOk, ResultsOk, ChainOk, EventsOk, UsageOk, SourcesOk, FrozenOk, ClaimCharge;
    var f := ClaimAgain(e, now, actor, token);
    var step := Leased(LoadStep(e).value, token, LeaseEnd(e.run, now));
    assert f.steps == WithLast(e.steps, step);
    SumsRewrite(e.steps, step, StartStage(e.run.kind));
    ChargedOk(e, clock, f.steps);
    RewriteMatches(e.run.target, e.run.packages, e.run.kind, e.steps, step);
    RewriteOk(e.steps, step);
    RewriteOpenResults(e.steps, step, e.results);
    SavedEvents(e, ReclaimedEvent, actor, Some(step.id), CLAIM_REASON, "");
  }

  lemma {:induction false} FinishedUsage(e: Exec, clock: int, step: Step)
    requires ExecInv(e, clock) && InFlight(e)
    requires step.stage == LoadStep(e).value.stage && step.completedAt.Some? && step.result.Some?
    ensures UsageOk(e.run.kind, ClaimCharge(e.run.kind, e.run.packages), e.run.target.budget,
                    e.run.usage.(tokensActual := e.run.usage.tokensActual + Reported(step.result.value)),
                    WithLast(e.steps, step))
  {
    hide StepsMatch, StepsOk, ResultsOk, ChainOk, StageOk, StatusOk, LeaseOk, EventsOk, SourcesOk, FrozenOk,
         ClaimCharge;
    SumsRewrite(e.steps, step, StartStage(e.run.kind));
  }

  // The status and stage an accepted result leaves.
  lemma {:induction false} TransitionOk(step: Step, was: Status, stage: Stage, status: Status, to: Stage)
    requires step.result.Some? && KnownRole(ExecutionRole(step.stage)) && step.stage == stage
    requires was == Reconciling ==> EffectStage(stage)
    requires ValidTransition(stage, step.result.value.outcome, status, to)
    ensures var outcome := step.result.value.outcome;
            var status' := if was != Reconciling then status else if outcome == Succeeded then Cancelled else Blocked;
            var stage' := if was == Reconciling then stage else to;
            && (!Final(status') ==> Linked(step, stage')) && KnownRole(ExecutionRole(stage'))
            && (status' == Completed ==> SucceededVerify(step))
            && (status' == Ready || status' == Blocked || status' == Completed || status' == Cancelled)
  {
  }

  lemma {:induction false} FinishKeeps(e: Exec, clock: int, now: int, actor: Principal, result: ExecutionResult,
                                       evidence: Sha, status: Status, stage: Stage)
    requires ExecInv(e, clock) && now <= clock
    requires InFlight(e) && (e.run.status == Running || e.run.status == Reconciling)
    requires LoadStep(e).value.actor == actor && LoadStep(e).value.contextSha.Some?
    requires result.stage == LoadStep(e).value.stage
    requires ValidTransition(LoadStep(e).value.stage, result.outcome, status, stage)
    ensures Keeps(e, Finish(e, now, actor, result, evidence, status, stage), clock)
  {
    hide StepsMatch, StepsOk, ResultsOk, ChainOk, EventsOk, UsageOk, SourcesOk, FrozenOk, ClaimCharge, ValidTransition,
         StepsEvolve, ResultsGrow, Linked, SucceededVerify, Reported, OutcomeText;
    var f := Finish(e, now, actor, result, evidence, status, stage);
    var step := LoadStep(e).value.(completedAt := Some(now), result := Some(result), evidence := evidence);
    assert f.steps == WithLast(e.steps, step);
    FinishedUsage(e, clock, step);
    TransitionOk(step, e.run.status, e.run.stage, status, stage);
    RewriteMatches(e.run.target, e.run.packages, e.run.kind, e.steps, step);
    RewriteOk(e.steps, step);
    RewriteClosedResults(e.steps, step, e.results);
    SavedEvents(e, ResultEvent, actor, Some(step.id), OutcomeText(result.outcome), evidence);
  }

  // A step rewritten in its lease or context only: everything but the run's
  // status, deadline and lease is as before.
  lemma {:induction false} OpenStepRewritten(e: Exec, clock: int, step: Step)
    requires ExecInv(e, clock) && InFlight(e)
    requires StepEvolves(LoadStep(e).value, step) && step.completedAt.None?
    ensures var steps := WithStep(e, step).steps;
            && StepsMatch(e.run.target, e.run.packages, steps) && StepsOk(steps) && ResultsOk(steps, e.results)
            && ChainOk(e.run.kind, steps) && StepsEvolve(e.steps, steps)
            && UsageOk(e.run.kind, ClaimCharge(e.run.kind, e.run.packages), e.run.target.budget, e.run.usage, steps)
            && |steps| == |e.steps| && steps[|steps| - 1] == step
  {
    hide StepsMatch, StepsOk, ResultsOk, ChainOk, StageOk, StatusOk, LeaseOk, EventsOk, SourcesOk, FrozenOk,
         ClaimCharge;
    assert WithStep(e, step).steps == WithLast(e.steps, step);
    SumsRewrite(e.steps, step, StartStage(e.run.kind));
    RewriteMatches(e.run.target, e.run.packages, e.run.kind, e.steps, step);
    RewriteOk(e.steps, step);
    RewriteOpenResults(e.steps, step, e.results);
  }

  lemma {:induction false} ReconciledKeeps(e: Exec, clock: int, now: int, actor: Principal, reason: string,
                                           credential: string)
    requires ExecInv(e, clock) && now <= clock && !Final(e.run.status)
    requires InFlight(e) && EffectStage(e.run.stage)
    ensures Keeps(e, Controlled(Reconciled(e, now, credential), actor, Reconcile, reason).0, clock)
  {
    hide StepsMatch, StepsOk, ResultsOk, ChainOk, EventsOk, UsageOk, SourcesOk, FrozenOk, ClaimCharge,
         StepsEvolve, Linked, SucceededVerify, KnownRole, Saved;
    var step := LoadStep(e).value;
    OpenStepRewritten(e, clock, step.(leaseUntil := now, fence := step.fence + 1));
    SavedEvents(Reconciled(e, now, credential), ControlEvent(Reconcile), actor, None, reason, "");
  }

  // A halted run whose open step, if any, keeps its lease.
  lemma {:induction false} HeldKeeps(e: Exec, clock: int, now: int, actor: Principal, action: Action, reason: string)
    requires ExecInv(e, clock) && now <= clock && !Final(e.run.status)
    requires InFlight(e) ==> EffectStage(e.run.stage)
    ensures Keeps(e, Controlled(Halted(e, now, action, reason), actor, action, reason).0, clock)
  {
    hide StepsMatch, StepsOk, ResultsOk, ChainOk, EventsOk, UsageOk, SourcesOk, FrozenOk, ClaimCharge, Linked,
         SucceededVerify, KnownRole;
    SavedEvents(e, ControlEvent(action), actor, None, reason, "");
  }

  lemma {:induction false} HaltedKeeps(e: Exec, clock: int, now: int, actor: Principal, action: Action, reason: string)
    requires ExecInv(e, clock) && now <= clock && !Final(e.run.status)
    ensures Keeps(e, Controlled(Halted(e, now, action, reason), actor, action, reason).0, clock)
  {
    hide StepsMatch, StepsOk, ResultsOk, ChainOk, EventsOk, UsageOk, SourcesOk, FrozenOk, ClaimCharge,
         StepsEvolve, Linked, SucceededVerify, KnownRole;
    if InFlight(e) && !EffectStage(e.run.stage) {
      var step := LoadStep(e).value;
      OpenStepRewritten(e, clock, step.(leaseUntil := now, fence := step.fence + 1));
      SavedEvents(e, ControlEvent(action), actor, None, reason, "");
    } else {
      HeldKeeps(e, clock, now, actor, action, reason);
    }
  }

  lemma {:induction false} ResumedKeeps(e: Exec, clock: int, now: int, actor: Principal, reason: string)
    requires ExecInv(e, clock) && now <= clock && (e.run.status == Paused || e.run.status == Blocked)
    ensures Keeps(e, Controlled(e.(run := e.run.(status := Ready, blockers := [])), actor, Resume, reason).0, clock)
  {
    hide StepsMatch, StepsOk, ResultsOk, ChainOk, EventsOk, UsageOk, SourcesOk, FrozenOk, ClaimCharge;
    SavedEvents(e, ControlEvent(Resume), actor, None, reason, "");
  }

  lemma {:induction false} FoundReservation(rs: seq<Reservation>, stepId: StepId, key: string)
    ensures FindReservation(rs, stepId, key).None? <==>
            forall i | 0 <= i < |rs| :: !(rs[i].stepId == stepId && rs[i].key == key)
  {
    if rs != [] { FoundReservation(rs[..|rs| - 1], stepId, key); }
  }

  lemma {:induction false} ReserveOk(b: Budget, queries: int, rows: int, rs: seq<Reservation>, r: Reservation)
    requires SourcesOk(b, queries, rows, rs)
    requires FindReservation(rs, r.stepId, r.key).None?
    requires r.query.of.limit >= 1 && queries < b.maxSourceQueries && rows + r.query.of.limit <= b.maxSourceRows
    ensures SourcesOk(b, queries + 1, rows + r.query.of.limit, rs + [r])
  {
    FoundReservation(rs, r.stepId, r.key);
    assert (rs + [r])[..|rs + [r]| - 1] == rs;
  }

  lemma {:induction false} ReserveKeeps(e: Exec, clock: int, now: int, g: Grants, l: Lease, actor: Principal,
                                        q: SourceQuery)
    requires ExecInv(e, clock) && now <= clock
    ensures Keeps(e, ReserveExec(e, now, g, l, actor, q).0, clock)
  {
    hide StepsMatch, StepsOk, ResultsOk, ChainOk, StageOk, EventsOk, UsageOk, SourcesOk, FrozenOk, ClaimCharge;
    LaterClock(e, clock, clock);
    var f := ReserveExec(e, now, g, l, actor, q).0;
    if f != e {
      var sid := LoadStep(e).value.id;
      ReserveOk(e.run.target.budget, e.run.usage.sourceQueries, e.run.usage.sourceRows, e.reservations,
                Reservation(sid, q.idempotencyKey, Digest(q)));
      SavedEvents(e, SourceReservedEvent, actor, Some(sid), "bounded_query_reserved_before_dispatch", "");
      SourcesUsage(e, clock, q.limit);
    }
  }

  lemma {:induction false} SourcesUsage(e: Exec, clock: int, limit: int)
    requires ExecInv(e, clock)
    ensures UsageOk(e.run.kind, ClaimCharge(e.run.kind, e.run.packages), e.run.target.budget,
                    e.run.usage.(sourceQueries := e.run.usage.sourceQueries + 1,
                                 sourceRows := e.run.usage.sourceRows + limit), e.steps)
  {
    hide StepsMatch, StepsOk, ResultsOk, ChainOk, StageOk, StatusOk, LeaseOk, EventsOk, SourcesOk, FrozenOk,
         ClaimCharge;
  }

  lemma {:induction false} RecordKeeps(e: Exec, clock: int, now: int, g: Grants, l: Lease, actor: Principal, sha: Sha,
                                       bind: bool, quota: bool)
    requires ExecInv(e, clock) && now <= clock
    ensures Keeps(e, RecordExec(e, now, g, l, actor, sha, bind, quota).0, clock)
  {
    hide StepsMatch, StepsOk, ResultsOk, ChainOk, EventsOk, UsageOk, SourcesOk, FrozenOk, ClaimCharge,
         StepsEvolve, Linked, SucceededVerify, KnownRole;
    LaterClock(e, clock, clock);
    if RecordExec(e, now, g, l, actor, sha, bind, quota).0 != e {
      OpenStepRewritten(e, clock, LoadStep(e).value.(contextSha := Digested(sha)));
    }
  }

  // ------------------------------------------------------------ one operation

  lemma {:induction false} ClaimKeeps(db: Db, id: RunId, clock: int, tx: Tx, g: Grants, actor: Principal,
                                      token: string, sid: StepId)
    requires id in db && ExecInv(db[id], clock) && tx.now <= clock
    ensures Keeps(db[id], ClaimExec(db, db[id], tx, g, actor, token, sid).0, clock)
  {
    hide StepsMatch, StepsOk, ResultsOk, ChainOk, StageOk, StatusOk, LeaseOk, EventsOk, UsageOk, SourcesOk, FrozenOk,
         AtCapacity, ModelBudgetSpent, Evolves;
    var e := db[id];
    LaterClock(e, clock, clock);
    if Claimable(e.run.status) {
      StoppedKeeps(e, clock, actor, "accepted_context_changed");
      StoppedKeeps(e, clock, actor, "deadline_exhausted");
      StoppedKeeps(e, clock, actor, "model_budget_exhausted");
      if actor == e.run.Actor() && (e.run.Package().UsesModel() ==> !ModelBudgetSpent(e.run)) {
        if InFlight(e) {
          ClaimAgainKeeps(e, clock, tx.now, actor, token);
        } else if !StepIdUsed(db, sid) {
          ClaimFreshKeeps(e, clock, tx.now, actor, token, sid);
        }
      }
    }
  }

  lemma {:induction false} CompleteKeeps(e: Exec, clock: int, now: int, g: Grants, l: Lease, actor: Principal,
                                         result: ExecutionResult, evidence: Sha, status: Status, stage: Stage)
    requires ExecInv(e, clock) && now <= clock
    ensures Keeps(e, CompleteExec(e, now, g, l, actor, result, evidence, status, stage).0, clock)
  {
    hide StepsMatch, StepsOk, ResultsOk, ChainOk, StageOk, StatusOk, LeaseOk, EventsOk, UsageOk, SourcesOk, FrozenOk,
         Evolves, ValidTransition, Finish;
    LaterClock(e, clock, clock);
    if l.stepId !in e.results && LeaseError(e, now, g, l, actor).None? {
      var step := LoadStep(e).value;
      if step.contextSha.Some? && result.stage == step.stage
         && ValidTransition(step.stage, result.outcome, status, stage) {
        FinishKeeps(e, clock, now, actor, result, evidence, status, stage);
      }
    }
  }

  lemma {:induction false} ControlKeeps(e: Exec, clock: int, now: int, g: Grants, actor: Principal, version: int,
                                        action: Action, reason: string, credential: string)
    requires ExecInv(e, clock) && now <= clock
    ensures Keeps(e, ControlExec(e, now, g, actor, version, action, reason, credential).0, clock)
  {
    hide StepsMatch, StepsOk, ResultsOk, ChainOk, StageOk, StatusOk, LeaseOk, EventsOk, UsageOk, SourcesOk, FrozenOk,
         Evolves, Controlled, Halted, Reconciled;
    LaterClock(e, clock, clock);
    if !Final(e.run.status) {
      HaltedKeeps(e, clock, now, actor, action, reason);
      if InFlight(e) && EffectStage(e.run.stage) {
        ReconciledKeeps(e, clock, now, actor, reason, credential);
      }
      if e.run.status == Paused || e.run.status == Blocked {
        ResumedKeeps(e, clock, now, actor, reason);
      }
    }
  }

  // The readings of transactions that wait for each other need not be in the
  // order they commit in: the invariant is kept at the latest one.
  lemma {:induction false} OperationKeeps(db: Db, id: RunId, clock: int, c: Call)
    requires id in db && ExecInv(db[id], clock) && !c.op.OpCreate?
    ensures Keeps(db[id], OnExec(db, db[id], c).0, Max(clock, c.tx.now))
  {
    hide ExecInv, Evolves, ClaimExec, CompleteExec, ControlExec, ReserveExec, RecordExec, LeaseError;
    var e, now, later := db[id], c.tx.now, Max(clock, c.tx.now);
    LaterClock(e, clock, later);
    match c.op
    case OpClaim(_, _, actor, token, sid) => ClaimKeeps(db, id, later, c.tx, c.grants, actor, token, sid);
    case OpCheck(_, _) =>
    case OpComplete(l, actor, result, evidence, status, stage) =>
      CompleteKeeps(e, later, now, c.grants, l, actor, result, evidence, status, stage);
    case OpControl(_, _, actor, version, action, reason, credential) =>
      ControlKeeps(e, later, now, c.grants, actor, version, action, reason, credential);
    case OpReserve(l, actor, q) => ReserveKeeps(e, later, now, c.grants, l, actor, q);
    case OpRecord(l, actor, sha, bind, quota) => RecordKeeps(e, later, now, c.grants, l, actor, sha, bind, quota);
  }
}
