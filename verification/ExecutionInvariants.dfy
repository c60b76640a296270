// What every stored run satisfies, whatever transactions have run.
module ExecutionInvariants {
  import opened ExecutionDomain
  import opened ExecutionSpec

  // ------------------------------------------------------------- the request

  predicate ModelRole(role: Role) { role == Builder || role == Diagnosis }

  predicate KnownRole(role: Role) { role != NoRole }

  // What the service and the validated registry guarantee of a submitted run.
  predicate AcceptedRequest(run: Run) {
    && run.stage == StartStage(run.kind)
    && run.blockers == []
    && FrozenOk(run.target, run.packages)
    && BudgetFits(run.target.budget)
  }

  // Every role has a matching package and its own participant.
  predicate FrozenOk(t: Target, packages: map<Role, Package>) {
    && (forall r :: KnownRole(r) ==> r in packages && PackageFits(packages[r], r))
    && (forall r :: KnownRole(r) ==> r in t.participants)
    && (forall r, s :: KnownRole(r) && KnownRole(s) && r != s ==> t.participants[r] != t.participants[s])
  }

  predicate PackageFits(pkg: Package, role: Role) {
    && pkg.role == role
    && (pkg.UsesModel() <==> ModelRole(role))
    && pkg.concurrency >= 1
    && pkg.maxInputBytes >= 0
    && (ModelRole(role) ==> pkg.maxOutputTokens >= 0)
  }

  predicate BudgetFits(b: Budget) {
    b.maxAttempts >= 1 && b.maxModelCalls >= 1 && b.maxTokens >= 0
    && b.maxSourceQueries >= 0 && b.maxSourceRows >= 0
  }

  // ---------------------------------------------------------- the invariants

  type Steps = seq<Step>
  type Results = map<StepId, ResultRow>

  // A step carries the actor, package and resource its stage's role has in the
  // frozen target.
  predicate StepMatches(t: Target, packages: map<Role, Package>, s: Step) {
    var role := ExecutionRole(s.stage);
    && KnownRole(role) && role in packages && role in t.participants
    && s.role == role
    && s.actor == t.participants[role]
    && s.packageSha == Digest(packages[role])
    && s.resource == ResourceOf(packages[role])
    && s.concurrency == packages[role].concurrency
    && s.fence >= 1
  }

  predicate StepsMatch(t: Target, packages: map<Role, Package>, steps: Steps) {
    forall i | 0 <= i < |steps| :: steps[i].number == i + 1 && StepMatches(t, packages, steps[i])
  }

  predicate CompletedStep(s: Step) {
    s.completedAt.Some? && s.result.Some? && s.contextSha.Some? && s.result.value.stage == s.stage
  }

  // Every step but the last is completed; ids are not reused.
  predicate StepsOk(steps: Steps) {
    && (forall i, j | 0 <= i < j < |steps| :: steps[i].id != steps[j].id)
    && (forall i | 0 <= i < |steps| - 1 :: steps[i].completedAt.Some?)
    && (forall i | 0 <= i < |steps| :: steps[i].completedAt.Some? ==> CompletedStep(steps[i]))
  }

  predicate Recorded(results: Results, s: Step) {
    s.id in results && results[s.id] == ResultRow(s.actor, s.evidence)
  }

  // The result table holds exactly the completed steps.
  predicate ResultsOk(steps: Steps, results: Results) {
    && (forall i | 0 <= i < |steps| :: steps[i].completedAt.Some? ==> Recorded(results, steps[i]))
    && (forall sid | sid in results :: exists i :: 0 <= i < |steps| && steps[i].id == sid && steps[i].completedAt.Some?)
  }

  // The stage that may come after a completed step.
  predicate Follows(from: Stage, outcome: Outcome, to: Stage) {
    if outcome == Succeeded then !VerifyStage(from) && to == NextStage(from)
    else to == from || (outcome == Failed && from == Evaluate && to == Build)
  }

  predicate Linked(s: Step, to: Stage) {
    s.result.Some? && Follows(s.stage, s.result.value.outcome, to)
  }

  predicate ChainOk(kind: Kind, steps: Steps) {
    && (|steps| > 0 ==> steps[0].stage == StartStage(kind))
    && (forall i | 0 <= i < |steps| - 1 :: Linked(steps[i], steps[i + 1].stage))
  }

  predicate Open(steps: Steps) {
    |steps| > 0 && steps[|steps| - 1].completedAt.None?
  }

  predicate SucceededVerify(s: Step) {
    s.result.Some? && s.result.value.outcome == Succeeded && VerifyStage(s.stage)
  }

  // Where the run stands relative to its last step.
  predicate StageOk(kind: Kind, steps: Steps, status: Status, stage: Stage) {
    && KnownRole(ExecutionRole(stage))
    && (Open(steps) ==> steps[|steps| - 1].stage == stage)
    && (|steps| == 0 ==> stage == StartStage(kind))
    && (|steps| > 0 && !Open(steps) && !Final(status) ==> Linked(steps[|steps| - 1], stage))
    && (status == Completed ==> |steps| > 0 && SucceededVerify(steps[|steps| - 1]))
  }

  predicate StatusOk(open: bool, status: Status, stage: Stage, blockers: seq<string>) {
    && status != NoStatus
    && (status == Running ==> open)
    && (status == Reconciling ==> open && EffectStage(stage))
    && (status == Paused || status == Cancelled ==> !(open && EffectStage(stage)))
    && (status == Completed ==> !open)
    && (status == Ready || status == Running || status == Completed ==> blockers == [])
    && (status == Blocked || status == Paused ==> |blockers| == 1)
  }

  // No lease outlives the run's deadline.
  predicate LeaseOk(steps: Steps, deadline: int, clock: int) {
    Open(steps) ==> steps[|steps| - 1].leaseUntil <= deadline || steps[|steps| - 1].leaseUntil <= clock
  }

  predicate EventsOk(version: int, events: seq<Event>) {
    version == |events| && forall i | 0 <= i < |events| :: events[i].version == i + 1
  }

  function ReportedBy(s: Step): int {
    if s.completedAt.Some? && s.result.Some? then Reported(s.result.value) else 0
  }

  function SumReported(steps: Steps): int {
    if steps == [] then 0 else SumReported(steps[..|steps| - 1]) + ReportedBy(steps[|steps| - 1])
  }

  function CountStage(steps: Steps, stage: Stage): nat {
    if steps == [] then 0
    else CountStage(steps[..|steps| - 1], stage) + if steps[|steps| - 1].stage == stage then 1 else 0
  }

  // The charge of one claim of the run's model stage.
  function ClaimCharge(kind: Kind, packages: map<Role, Package>): int {
    var role := ExecutionRole(StartStage(kind));
    if role in packages then packages[role].MaxTokenCharge() else 0
  }

  predicate UsageOk(kind: Kind, charge: int, b: Budget, u: Usage, steps: Steps) {
    && u.attempts == u.modelCalls
    && CountStage(steps, StartStage(kind)) <= u.attempts <= b.maxAttempts
    && u.modelCalls <= b.maxModelCalls
    && u.tokensCharged == u.attempts * charge
    && u.tokensCharged <= b.maxTokens
    && u.tokensActual == SumReported(steps)
  }

  function SumLimits(rs: seq<Reservation>): int {
    if rs == [] then 0 else SumLimits(rs[..|rs| - 1]) + rs[|rs| - 1].query.of.limit
  }

  predicate SourcesOk(b: Budget, queries: int, rows: int, rs: seq<Reservation>) {
    && queries == |rs| <= b.maxSourceQueries
    && rows == SumLimits(rs) <= b.maxSourceRows
    && (forall i | 0 <= i < |rs| :: rs[i].query.of.limit >= 1)
    && (forall i, j | 0 <= i < j < |rs| :: (rs[i].stepId, rs[i].key) != (rs[j].stepId, rs[j].key))
  }

  predicate ExecInv(e: Exec, clock: int) {
    var run := e.run;
    && run.stepNumber == |e.steps|
    && FrozenOk(run.target, run.packages)
    && StepsMatch(run.target, run.packages, e.steps)
    && StepsOk(e.steps)
    && ResultsOk(e.steps, e.results)
    && ChainOk(run.kind, e.steps)
    && StageOk(run.kind, e.steps, run.status, run.stage)
    && StatusOk(Open(e.steps), run.status, run.stage, run.blockers)
    && LeaseOk(e.steps, run.deadline, clock)
    && EventsOk(run.version, e.events)
    && UsageOk(run.kind, ClaimCharge(run.kind, run.packages), run.target.budget, run.usage, e.steps)
    && SourcesOk(run.target.budget, run.usage.sourceQueries, run.usage.sourceRows, e.reservations)
  }

  // ------------------------------------------- how a stored run may change

  predicate StepEvolves(s: Step, t: Step) {
    && t.(fence := s.fence, leaseSha := s.leaseSha, leaseUntil := s.leaseUntil, completedAt := s.completedAt,
          contextSha := s.contextSha, result := s.result, evidence := s.evidence) == s
    && s.fence <= t.fence
    && (t.fence == s.fence ==> t.leaseUntil == s.leaseUntil && t.leaseSha == s.leaseSha)
    && (s.completedAt.Some? ==> t == s)
    && (s.contextSha.Some? ==> t.contextSha == s.contextSha)
  }

  predicate StepsEvolve(steps: Steps, later: Steps) {
    |steps| <= |later| && forall i | 0 <= i < |steps| :: StepEvolves(steps[i], later[i])
  }

  predicate RunFrozen(a: Run, b: Run) {
    b.(ownerCredential := a.ownerCredential, status := a.status, stage := a.stage, version := a.version,
       stepNumber := a.stepNumber, usage := a.usage, blockers := a.blockers, deadline := a.deadline) == a
  }

  predicate ResultsGrow(a: Results, b: Results) {
    forall sid | sid in a :: sid in b && b[sid] == a[sid]
  }

  // Steps only move forward, completed steps, results, reservations and events
  // are never changed, and a completed or cancelled run is never touched again.
  predicate Evolves(e: Exec, f: Exec) {
    && RunFrozen(e.run, f.run)
    && StepsEvolve(e.steps, f.steps)
    && ResultsGrow(e.results, f.results)
    && e.events <= f.events
    && e.reservations <= f.reservations
    && (Final(e.run.status) ==> f == e)
  }
}
