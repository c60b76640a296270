// Tokens charged before a step and tokens its result reports: when the second
// stay below the first, and that the store does not see to it by itself.
module ExecutionTokens {
  import opened Wrappers
  import opened Text
  import opened Registry
  import opened ExecutionDomain
  import opened ExecutionSpec
  import opened ExecutionInvariants
  import opened ExecutionPreservation
  import opened ExecutionSystem
  import opened ExecutionTheorems

  // What one step may report: the charge of its package if that uses a model.
  function Allowance(run: Run, stage: Stage): int {
    if stage == StartStage(run.kind) then ClaimCharge(run.kind, run.packages) else 0
  }

  predicate Metered(run: Run, result: ExecutionResult) {
    Reported(result) <= Allowance(run, result.stage)
  }

  predicate AllMetered(run: Run, steps: Steps) {
    forall i | 0 <= i < |steps| :: steps[i].result.Some? ==> Metered(run, steps[i].result.value)
  }

  lemma {:induction false} MeteredSum(run: Run, steps: Steps)
    requires AllMetered(run, steps) && ClaimCharge(run.kind, run.packages) >= 0
    requires forall i | 0 <= i < |steps| :: steps[i].completedAt.Some? ==> CompletedStep(steps[i])
    ensures SumReported(steps) <= CountStage(steps, StartStage(run.kind)) * ClaimCharge(run.kind, run.packages)
  {
    if steps != [] {
      var init := steps[..|steps| - 1];
      MeteredSum(run, init);
      var charge, n := ClaimCharge(run.kind, run.packages), CountStage(init, StartStage(run.kind));
      assert (n + 1) * charge == n * charge + charge;
    }
  }

  // With results inside their package's bounds, what was used never exceeds
  // what was charged.
  lemma {:induction false} TokensWithinCharge(db: Db, clock: int, id: RunId)
    requires Reachable(db, clock) && id in db && AllMetered(db[id].run, db[id].steps)
    ensures db[id].run.usage.tokensActual <= db[id].run.usage.tokensCharged <= db[id].run.target.budget.maxTokens
  {
    hide ExecInv, Metered, CompletedStep, ClaimCharge, CountStage, SumReported;
    ReachableInv(db, clock);
    var e := db[id];
    var charge := ClaimCharge(e.run.kind, e.run.packages);
    ChargeFacts(e, clock);
    BudgetsHold(db, clock, id);
    MeteredSum(e.run, e.steps);
    Scaled(CountStage(e.steps, StartStage(e.run.kind)), e.run.usage.attempts, charge);
  }

  lemma {:induction false} ChargeFacts(e: Exec, clock: int)
    requires ExecInv(e, clock)
    ensures ClaimCharge(e.run.kind, e.run.packages) >= 0
    ensures CountStage(e.steps, StartStage(e.run.kind)) <= e.run.usage.attempts
    ensures forall i | 0 <= i < |e.steps| :: e.steps[i].completedAt.Some? ==> CompletedStep(e.steps[i])
  {
    hide StepsMatch, ResultsOk, ChainOk, StageOk, StatusOk, LeaseOk, EventsOk, SourcesOk, CompletedStep;
  }

  lemma Scaled(a: int, b: int, c: int)
    requires a <= b && 0 <= c
    ensures a * c <= b * c
  {
  }

  // ------------------------------------------------------ one result at a time

  // What a result may still report.
  function Slack(run: Run): int { run.usage.tokensCharged - run.usage.tokensActual }

  // An accepted result keeps the bound exactly when it reports no more than the slack.
  lemma {:induction false} TokenGuardExact(e: Exec, now: int, g: Grants, l: Lease, actor: Principal,
                                           result: ExecutionResult, evidence: Sha, status: Status, stage: Stage)
    requires CompleteExec(e, now, g, l, actor, result, evidence, status, stage).1.RunIs?
    requires l.stepId !in e.results
    ensures var f := CompleteExec(e, now, g, l, actor, result, evidence, status, stage).0;
            f.run.usage.tokensActual <= f.run.usage.tokensCharged <==> Reported(result) <= Slack(e.run)
  {
    hide LeaseError, ValidTransition, FinishedStatus, OutcomeText;
  }

  // After metered results the slack covers the charge of the step in flight, so
  // that a metered result always fits.
  lemma {:induction false} SlackCoversCharge(db: Db, clock: int, id: RunId)
    requires Reachable(db, clock) && id in db && AllMetered(db[id].run, db[id].steps) && InFlight(db[id])
    ensures Allowance(db[id].run, LoadStep(db[id]).value.stage) <= Slack(db[id].run)
  {
    hide ExecInv, Metered, CompletedStep, ClaimCharge, CountStage, SumReported;
    ReachableInv(db, clock);
    var e := db[id];
    var charge, first, n := ClaimCharge(e.run.kind, e.run.packages), StartStage(e.run.kind), |e.steps| - 1;
    ChargeFacts(e, clock);
    BudgetsHold(db, clock, id);
    LastStepOpen(e, clock);
    MeteredSum(e.run, e.steps[..n]);
    LastStepSums(e.steps, first);
    Scaled(CountStage(e.steps, first), e.run.usage.attempts, charge);
    var others, all := CountStage(e.steps[..n], first), CountStage(e.steps, first);
    assert all == others + 1 ==> all * charge == others * charge + charge;
  }

  lemma {:induction false} LastStepOpen(e: Exec, clock: int)
    requires ExecInv(e, clock) && InFlight(e)
    ensures e.steps != [] && LoadStep(e).value == e.steps[|e.steps| - 1] && e.steps[|e.steps| - 1].completedAt.None?
  {
    hide StepsMatch, StepsOk, ResultsOk, ChainOk, StageOk, StatusOk, LeaseOk, EventsOk, UsageOk, SourcesOk, FrozenOk;
  }

  lemma LastStepSums(steps: Steps, stage: Stage)
    requires steps != [] && steps[|steps| - 1].completedAt.None?
    ensures SumReported(steps) == SumReported(steps[..|steps| - 1])
    ensures CountStage(steps, stage)
            == CountStage(steps[..|steps| - 1], stage) + if steps[|steps| - 1].stage == stage then 1 else 0
  {
  }

  // ------------------------------------------------- what the service looks at

  // The part of the service's result check that bears on summary and token counts.
  predicate ServiceChecked(run: Run, result: ExecutionResult) {
    && result.stage == run.stage && TrimSpace(result.summary) != "" && |result.summary| <= 4096
    && (Inconclusively(result.outcome)
        || ((result.outcome == Succeeded || result.outcome == Failed)
            && (ModelStage(run.stage) ==>
                  result.model.Some? && WithinPackage(run.Package(), result.model.value))))
  }

  predicate ModelStage(stage: Stage) { stage == Build || stage == Diagnose }

  predicate WithinPackage(pkg: Package, m: ModelEvidence) {
    0 <= m.inputTokens <= pkg.maxInputBytes && 1 <= m.outputTokens <= pkg.maxOutputTokens
  }

  // A result of the run's stage that reports so many tokens.
  function Reporting(run: Run, outcome: Outcome, tokens: int): (result: ExecutionResult)
    ensures Reported(result) == tokens
  {
    ExecutionResult(run.stage, outcome, "reported", Some(ModelEvidence(tokens, 0)), "")
  }

  lemma ReportingIsChecked(run: Run, outcome: Outcome, tokens: int)
    requires outcome != OtherOutcome && (Inconclusively(outcome) || !ModelStage(run.stage))
    ensures ServiceChecked(run, Reporting(run, outcome, tokens))
  {
    assert TrimSpace("reported") == "reported";
  }

  // The service's check makes a result metered exactly for successes and
  // failures of build and diagnose: any other result may report what it likes.
  lemma {:induction false} ServiceMetersExactly(run: Run, outcome: Outcome)
    requires FrozenOk(run.target, run.packages) && KindHas(run.kind, run.stage) && outcome != OtherOutcome
    ensures (forall result: ExecutionResult | result.outcome == outcome && ServiceChecked(run, result) ::
               Metered(run, result))
            <==> !Inconclusively(outcome) && ModelStage(run.stage)
  {
    if Inconclusively(outcome) || !ModelStage(run.stage) {
      var bad := Reporting(run, outcome, Allowance(run, run.stage) + 1);
      ReportingIsChecked(run, outcome, Allowance(run, run.stage) + 1);
      assert !Metered(run, bad);
    } else {
      forall result: ExecutionResult | result.outcome == outcome && ServiceChecked(run, result)
        ensures Metered(run, result)
      {
        CheckedFits(run, result);
      }
    }
  }

  lemma CheckedFits(run: Run, result: ExecutionResult)
    requires FrozenOk(run.target, run.packages) && KindHas(run.kind, run.stage)
    requires ModelStage(run.stage) && result.stage == run.stage
    requires result.model.Some? && WithinPackage(run.Package(), result.model.value)
    ensures Metered(run, result)
  {
  }

  // In every run with an accepted lease and a bound context, a result that
  // reports more than the slack is accepted and breaks the bound.
  lemma {:induction false} UnmeteredAccepted(e: Exec, now: int, g: Grants, l: Lease, actor: Principal, evidence: Sha,
                                             result: ExecutionResult, status: Status, stage: Stage)
    requires Accepts(e, now, g, l, actor) && l.stepId !in e.results && LoadStep(e).value.contextSha.Some?
    requires result.stage == LoadStep(e).value.stage && ValidTransition(result.stage, result.outcome, status, stage)
    requires Reported(result) > Slack(e.run)
    ensures var (f, answer) := CompleteExec(e, now, g, l, actor, result, evidence, status, stage);
            answer.RunIs? && f.run.usage.tokensActual > f.run.usage.tokensCharged
  {
    hide CompleteExec, Accepts, ValidTransition;
    AcceptedCompletes(e, now, g, l, actor, evidence, result, status, stage);
    TokenGuardExact(e, now, g, l, actor, result, evidence, status, stage);
  }

  lemma {:induction false} AcceptedCompletes(e: Exec, now: int, g: Grants, l: Lease, actor: Principal, evidence: Sha,
                                             result: ExecutionResult, status: Status, stage: Stage)
    requires Accepts(e, now, g, l, actor) && l.stepId !in e.results && LoadStep(e).value.contextSha.Some?
    requires result.stage == LoadStep(e).value.stage && ValidTransition(result.stage, result.outcome, status, stage)
    ensures CompleteExec(e, now, g, l, actor, result, evidence, status, stage).1.RunIs?
  {
    hide ValidTransition, Finish;
  }

  // The lease of a run's open step, at its stage.
  lemma {:induction false} AcceptedStep(e: Exec, clock: int, now: int, g: Grants, l: Lease, actor: Principal)
    requires ExecInv(e, clock) && Accepts(e, now, g, l, actor)
    ensures InFlight(e) && LoadStep(e).value.stage == e.run.stage && l.stepId !in e.results
    ensures KindHas(e.run.kind, e.run.stage) && FrozenOk(e.run.target, e.run.packages)
  {
    hide StepsMatch, StatusOk, LeaseOk, EventsOk, UsageOk, SourcesOk, FrozenOk, StepsOk, ResultsOk, ChainOk;
    NotRecordedWhileOpen(e.steps, e.results);
    StageOfKind(e.run.kind, e.steps, e.run.status, e.run.stage);
  }

  predicate WithinBound(e: Exec) { e.run.usage.tokensActual <= e.run.usage.tokensCharged }

  // While results are metered, every result of an outcome that passes the
  // service's check keeps the bound exactly if the outcome is a success or
  // failure and the stage build or diagnose.
  lemma {:induction false} BoundKeptExactly(db: Db, clock: int, id: RunId, now: int, g: Grants, l: Lease,
                                            actor: Principal, outcome: Outcome, evidence: Sha, status: Status,
                                            stage: Stage)
    requires Reachable(db, clock) && id in db && AllMetered(db[id].run, db[id].steps)
    requires Accepts(db[id], now, g, l, actor) && LoadStep(db[id]).value.contextSha.Some?
    requires ValidTransition(db[id].run.stage, outcome, status, stage)
    ensures (forall result: ExecutionResult | result.outcome == outcome && ServiceChecked(db[id].run, result) ::
               WithinBound(CompleteExec(db[id], now, g, l, actor, result, evidence, status, stage).0))
            <==> !Inconclusively(outcome) && ModelStage(db[id].run.stage)
  {
    hide Reachable, DbInv, Accepts, CompleteExec, FrozenOk, Metered, AllMetered, WithinPackage, Reported, Slack,
         Allowance, InFlight, KindHas;
    var e := db[id];
    ReachableRun(db, clock, id);
    AcceptedStep(e, clock, now, g, l, actor);
    assert outcome != OtherOutcome;
    if Inconclusively(outcome) || !ModelStage(e.run.stage) {
      var bad := Reporting(e.run, outcome, Slack(e.run) + 1);
      ReportingIsChecked(e.run, outcome, Slack(e.run) + 1);
      UnmeteredAccepted(e, now, g, l, actor, evidence, bad, status, stage);
    } else {
      SlackCoversCharge(db, clock, id);
      forall result: ExecutionResult | result.outcome == outcome && ServiceChecked(e.run, result)
        ensures WithinBound(CompleteExec(e, now, g, l, actor, result, evidence, status, stage).0)
      {
        CheckedFits(e.run, result);
        MeteredKeeps(e, now, g, l, actor, result, evidence, status, stage);
      }
    }
  }

  lemma {:induction false} ReachableRun(db: Db, clock: int, id: RunId)
    requires Reachable(db, clock) && id in db
    ensures ExecInv(db[id], clock)
  {
    hide ExecInv;
    ReachableInv(db, clock);
  }

  lemma {:induction false} MeteredKeeps(e: Exec, now: int, g: Grants, l: Lease, actor: Principal,
                                        result: ExecutionResult, evidence: Sha, status: Status, stage: Stage)
    requires Accepts(e, now, g, l, actor) && l.stepId !in e.results && LoadStep(e).value.contextSha.Some?
    requires result.stage == LoadStep(e).value.stage && ValidTransition(result.stage, result.outcome, status, stage)
    requires Metered(e.run, result) && Allowance(e.run, result.stage) <= Slack(e.run)
    ensures WithinBound(CompleteExec(e, now, g, l, actor, result, evidence, status, stage).0)
  {
    hide CompleteExec, Accepts, ValidTransition, Allowance;
    AcceptedCompletes(e, now, g, l, actor, evidence, result, status, stage);
    TokenGuardExact(e, now, g, l, actor, result, evidence, status, stage);
  }

  // -------------------------------------------------- a run that overruns

  const START := Tx(0, 0)

  const ALL_GRANTED := Grants(true, true, None)

  const WORK := "step"

  function Zeros(n: nat): (s: string)
    ensures |s| == n && forall i | 0 <= i < n :: s[i] == '0'
  {
    if n == 0 then "" else "0" + Zeros(n - 1)
  }

  const SAMPLE_DIGEST := Zeros(64)

  // A submitted request whose first stage can be claimed at the start.
  predicate Startable(run: Run) {
    && AcceptedRequest(run) && run.schema == EXECUTION_SCHEMA && run.kind != OtherKind && run.status == Ready
    && run.version == 0 && run.stepNumber == 0
    && run.usage == NO_USAGE && run.deadline > 0 && run.Package().timeoutSeconds >= 1
    && run.target.budget.maxConcurrentRuns >= 1 && run.Package().MaxTokenCharge() <= run.target.budget.maxTokens
  }

  function WorkLease(run: Run): Lease { Lease(run.projectId, run.id, WORK, 1, "token") }

  function Overrun(run: Run): ExecutionResult {
    Reporting(run, Unavailable, run.Package().MaxTokenCharge() + 1)
  }

  function Submit(run: Run): Call {
    var assignable := set role | role in run.target.participants :: (role, run.target.participants[role]);
    Call(START, ALL_GRANTED, OpCreate(run, run.ownerCredential, assignable))
  }

  function Claim(run: Run): Call {
    Call(START, ALL_GRANTED, OpClaim(run.projectId, run.id, run.Actor(), "token", WORK))
  }

  function Bind(run: Run): Call {
    Call(START, ALL_GRANTED, OpRecord(WorkLease(run), run.Actor(), SAMPLE_DIGEST, true, true))
  }

  function Report(run: Run): Call {
    Call(START, ALL_GRANTED, OpComplete(WorkLease(run), run.Actor(), Overrun(run), SAMPLE_DIGEST, Blocked, run.stage))
  }

  function Created(run: Run): Exec {
    Saved(Exec(run, [], [], map[], []), CreatedEvent, run.owner, None,
          "accepted_intent_and_distinct_scoped_workers", "")
  }

  function Working(run: Run): Exec { ClaimFresh(Created(run), 0, run.Actor(), "token", WORK) }

  lemma {:induction false} SubmitRuns(run: Run)
    requires Startable(run)
    ensures Apply(map[], Submit(run)).0 == map[run.id := Created(run)]
  {
    hide AcceptedRequest, Saved;
    var none: Db := map[];
    assert ActiveRuns(none, run.projectId, run.target.id) == {};
  }

  lemma {:induction false} StartStageCharged(run: Run)
    requires Startable(run)
    ensures run.Package().UsesModel() && run.Package().concurrency >= 1 && !ModelBudgetSpent(Created(run).run)
    ensures Allowance(run, run.stage) == run.Package().MaxTokenCharge() >= 0
    ensures LeaseEnd(Created(run).run, 0) > 0
  {
  }

  lemma {:induction false} NoLeases(db: Db, key: ResourceKey, concurrency: int)
    requires concurrency >= 1 && forall id | id in db :: db[id].steps == []
    ensures !AtCapacity(db, key, 0, concurrency)
  {
    assert ActiveLeases(db, key, 0) == {};
  }

  lemma {:induction false} ClaimRuns(run: Run)
    requires Startable(run)
    ensures Apply(map[run.id := Created(run)], Claim(run)).0 == map[run.id := Working(run)]
  {
    hide AcceptedRequest, AtCapacity, ModelBudgetSpent, ClaimFresh, LeaseEnd;
    var db := map[run.id := Created(run)];
    StartStageCharged(run);
    NoLeases(db, ResourceOf(run.Package()), run.Package().concurrency);
    assert db[run.id := Working(run)] == map[run.id := Working(run)];
  }

  // The claimed step and what the run has been charged for it.
  lemma {:induction false} WorkingStep(run: Run)
    requires Startable(run)
    ensures var e := Working(run);
            && e.run.stepNumber == 1 && |e.steps| == 1 && e.results == map[]
            && e.steps[0].id == WORK && e.steps[0].fence == 1 && e.steps[0].leaseSha == Digest("token")
            && e.steps[0].actor == run.Actor() == e.run.Actor() && e.steps[0].leaseUntil > 0
            && e.steps[0].completedAt.None? && e.steps[0].contextSha.None? && e.steps[0].stage == run.stage
            && e.run.status == Running && e.run.deadline > 0 && e.run.projectId == run.projectId
            && Slack(e.run) == run.Package().MaxTokenCharge()
  {
    hide AcceptedRequest, LeaseEnd, ModelBudgetSpent;
    StartStageCharged(run);
  }

  function Bound(run: Run): Exec
    requires LoadStep(Working(run)).Some?
  {
    WithStep(Working(run), LoadStep(Working(run)).value.(contextSha := Some(SAMPLE_DIGEST)))
  }

  lemma {:induction false} BindRuns(run: Run)
    requires Startable(run)
    ensures LoadStep(Working(run)).Some?
    ensures Apply(map[run.id := Working(run)], Bind(run)).0 == map[run.id := Bound(run)]
  {
    hide Startable, Working;
    WorkingStep(run);
    assert map[run.id := Working(run)][run.id := Bound(run)] == map[run.id := Bound(run)];
  }

  lemma {:induction false} ReportRuns(run: Run)
    requires Startable(run)
    ensures LoadStep(Working(run)).Some?
    ensures var later := Apply(map[run.id := Bound(run)], Report(run)).0;
            && run.id in later
            && later[run.id].run.usage.tokensActual == later[run.id].run.usage.tokensCharged + 1
  {
    hide Startable, Working, OutcomeText;
    WorkingStep(run);
  }

  // Every startable request can be driven, by calls the service makes, to a
  // reachable store in which its run used more tokens than it was charged.
  lemma {:induction false} OverrunReachable(run: Run)
    requires Startable(run)
    ensures var db := RunAll(map[], [Submit(run), Claim(run), Bind(run), Report(run)]);
            && Reachable(db, 0) && run.id in db
            && db[run.id].run.usage.tokensActual == db[run.id].run.usage.tokensCharged + 1
  {
    hide Startable, Apply, Created, Working, Bound, Submit, Claim, Bind, Report;
    var calls := [Submit(run), Claim(run), Bind(run), Report(run)];
    SubmitRuns(run);
    ClaimRuns(run);
    BindRuns(run);
    ReportRuns(run);
    FourCalls(map[], Submit(run), Claim(run), Bind(run), Report(run));
    ServiceCalls(run);
    assert Reachable(RunAll(map[], calls), ClockAfter(0, calls));
  }

  lemma {:induction false} FourCalls(db: Db, a: Call, b: Call, c: Call, d: Call)
    ensures RunAll(db, [a, b, c, d]) == Apply(Apply(Apply(Apply(db, a).0, b).0, c).0, d).0
  {
    hide Apply;
    assert [a, b, c, d][1..] == [b, c, d] && [b, c, d][1..] == [c, d] && [c, d][1..] == [d] && [d][1..] == [];
    var two := Apply(Apply(db, a).0, b).0;
    assert RunAll(Apply(two, c).0, [d]) == Apply(Apply(two, c).0, d).0;
    assert RunAll(two, [c, d]) == Apply(Apply(Apply(Apply(db, a).0, b).0, c).0, d).0;
  }

  lemma {:induction false} ServiceCalls(run: Run)
    requires Startable(run)
    ensures var calls := [Submit(run), Claim(run), Bind(run), Report(run)];
            Timed(calls) && AllSubmitted(calls) && ClockAfter(0, calls) == 0
  {
    var calls := [Submit(run), Claim(run), Bind(run), Report(run)];
    hide AcceptedRequest;
    assert calls[1..] == [Claim(run), Bind(run), Report(run)];
    assert calls[1..][1..] == [Bind(run), Report(run)];
    assert [Bind(run), Report(run)][1..] == [Report(run)] && [Report(run)][1..] == [];
    assert ClockAfter(0, [Report(run)]) == 0;
    assert ClockAfter(0, [Bind(run), Report(run)]) == 0;
  }

  // The service lets that last result through.
  lemma {:induction false} OverrunIsChecked(run: Run)
    requires Startable(run)
    ensures ServiceChecked(Working(run).run, Overrun(run))
  {
    hide Startable, TrimSpace;
    WorkingStage(run);
    ReportingIsChecked(Working(run).run, Unavailable, run.Package().MaxTokenCharge() + 1);
  }

  lemma WorkingStage(run: Run)
    ensures Working(run).run.stage == run.stage
  {
    hide Charged;
  }

  // There are such requests.
  const MODEL_PACKAGE := Package(Builder, "model", SAMPLE_DIGEST, "build", 1024, 128, 60, 1, "")

  const CHECK_PACKAGE := Package(Evaluator, "", "", "check", 1024, 0, 60, 1, "verifier@sha256:" + SAMPLE_DIGEST)

  function SamplePackage(role: Role): Package {
    if ModelRole(role) then MODEL_PACKAGE.(role := role)
    else if role == Evaluator then CHECK_PACKAGE
    else CHECK_PACKAGE.(role := role, evaluatorImage := "")
  }

  const SAMPLE_BUDGET := Budget(1, 1, 4096, 1, 1, 1)

  const SAMPLE_PARTICIPANTS: map<Role, Principal> :=
    map[Builder := "b", Evaluator := "e", Delivery := "d", Diagnosis := "g", Remediation := "r"]

  const SAMPLE_PACKAGES: map<Role, Package> := map role | role in SAMPLE_PARTICIPANTS :: SamplePackage(role)

  const SAMPLE := Run("run", "project", "product", Feature, "owner", "credential",
                      Target("target", SAMPLE_PARTICIPANTS, {}, {}, SAMPLE_BUDGET), SAMPLE_PACKAGES,
                      Ready, Build, 0, 0, NO_USAGE, [], 30 * SECOND, "key", SAMPLE_DIGEST,
                      EXECUTION_SCHEMA)

  lemma {:induction false} SampleRoles(r: Role)
    requires KnownRole(r)
    ensures r in SAMPLE_PARTICIPANTS
    ensures forall s | KnownRole(s) && s != r ::
              s in SAMPLE_PARTICIPANTS && SAMPLE_PARTICIPANTS[s] != SAMPLE_PARTICIPANTS[r]
  {
  }

  lemma {:induction false} SampleFrozen()
    ensures FrozenOk(SAMPLE.target, SAMPLE.packages)
  {
    hide PackageFits;
    forall r | KnownRole(r) ensures r in SAMPLE_PACKAGES && PackageFits(SAMPLE_PACKAGES[r], r) {
      SampleRoles(r);
      SampleFits(r);
    }
    forall r, s | KnownRole(r) && KnownRole(s) && r != s
      ensures SAMPLE.target.participants[r] != SAMPLE.target.participants[s]
    {
      SampleRoles(r);
    }
  }

  lemma SampleFits(r: Role)
    ensures PackageFits(SamplePackage(r), r)
  {
  }

  lemma {:induction false} SamplePinned()
    ensures PinnedImage(CHECK_PACKAGE.evaluatorImage)
  {
    assert DigestText(SAMPLE_DIGEST);
    hide DigestText;
    var name := "verifier";
    var image := name + "@sha256:" + SAMPLE_DIGEST;
    assert |image| == 80 && image[9..16] == "sha256:" && image[16..] == SAMPLE_DIGEST;
    assert image[8] == '@' && image[..8] == name;
    assert "verifier@sha256:" == name + "@sha256:";
  }

  lemma {:induction false} SampleValid(r: Role)
    requires KnownRole(r)
    ensures PackageValid(SamplePackage(r))
  {
    hide PinnedImage;
    assert TrimSpace("build") == "build" && TrimSpace("check") == "check" && TrimSpace("model") == "model";
    SamplePinned();
  }

  lemma {:induction false} SampleStarts()
    ensures Startable(SAMPLE)
    ensures forall r | KnownRole(r) :: r in SAMPLE.packages && PackageValid(SAMPLE.packages[r])
  {
    hide FrozenOk, PackageValid;
    SampleFrozen();
    forall r | KnownRole(r) ensures r in SAMPLE.packages && PackageValid(SAMPLE.packages[r]) {
      SampleRoles(r);
      SampleValid(r);
    }
    assert Builder in SAMPLE_PARTICIPANTS;
    assert SAMPLE.Package() == SamplePackage(Builder);
  }
}
