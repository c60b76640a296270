// The values the execution protocol works on: stages, roles, packages, runs,
// steps, events, and the stage transition rule.
module ExecutionDomain {
  import opened Wrappers

  // NoStage, NoStatus, NoRole and OtherKind stand for every string outside the
  // protocol.
  datatype Stage =
    | Build | Evaluate | Deliver | VerifyDelivery
    | Diagnose | Remediate | VerifyRecovery
    | NoStage

  datatype Status =
    | Ready | Running | Reconciling | Blocked | Paused | Cancelled | Completed
    | NoStatus

  datatype Outcome =
    | Succeeded | Failed | BlockedOutcome | Unavailable | Inconclusive
    | OtherOutcome

  datatype Role = Builder | Evaluator | Delivery | Diagnosis | Remediation | NoRole

  datatype Kind = Feature | Incident | OtherKind

  datatype Action = Pause | Cancel | Resume | Reconcile | OtherAction

  datatype Error =
    | Forbidden | ExecutionBlocked | LeaseLost | BudgetExhausted | ResourceBusy
    | VersionConflict | ValidationRequired | Storage

  // A digest is injective: it is modelled by the value it was taken of.
  datatype Digest<T> = Digest(of: T)

  type Principal = string
  type RunId = string
  type StepId = string
  type Sha = string

  // Instants and durations count the same unit, SECOND of them in a second.
  const SECOND: nat := 1_000_000_000

  function ExecutionRole(stage: Stage): Role {
    match stage
    case Build => Builder
    case Evaluate => Evaluator
    case VerifyDelivery => Evaluator
    case VerifyRecovery => Evaluator
    case Deliver => Delivery
    case Diagnose => Diagnosis
    case Remediate => Remediation
    case NoStage => NoRole
  }

  datatype Budget = Budget(
    maxAttempts: int, maxModelCalls: int, maxTokens: int,
    maxSourceQueries: int, maxSourceRows: int, maxConcurrentRuns: int)

  datatype Package = Package(
    role: Role, model: string, modelSha: Sha, instructions: string,
    maxInputBytes: int, maxOutputTokens: int, timeoutSeconds: int,
    concurrency: int, evaluatorImage: string)
  {
    function MaxTokenCharge(): int {
      maxInputBytes + |instructions| + 1024 + maxOutputTokens
    }

    predicate UsesModel() { model != "" }
  }

  // What the zero value of a package map lookup yields.
  const NO_PACKAGE := Package(NoRole, "", "", "", 0, 0, 0, 0, "")

  datatype Target = Target(
    id: string, participants: map<Role, Principal>, sources: set<string>,
    purposes: set<string>, budget: Budget)

  datatype Usage = Usage(
    attempts: int, modelCalls: int, tokensCharged: int, tokensActual: int,
    sourceQueries: int, sourceRows: int)

  const NO_USAGE := Usage(0, 0, 0, 0, 0, 0)

  const EXECUTION_SCHEMA := "hybrid-ai/sdlc-execution/v1"

  datatype Run = Run(
    id: RunId, projectId: string, productId: string, kind: Kind,
    owner: Principal, ownerCredential: string,
    target: Target, packages: map<Role, Package>,
    status: Status, stage: Stage, version: int, stepNumber: int,
    usage: Usage, blockers: seq<string>, deadline: int,
    idempotencyKey: string, requestSha: Sha, schema: string)
  {
    function Package(): Package {
      var role := ExecutionRole(stage);
      if role in packages then packages[role] else NO_PACKAGE
    }

    function Actor(): Principal {
      var role := ExecutionRole(stage);
      if role in target.participants then target.participants[role] else ""
    }
  }

  // The lease count is kept per resource: the pinned sandbox image, else the
  // local model, else the executor role.
  datatype ResourceKey = Executor(role: Role) | Ollama(modelSha: Sha) | Sandbox(image: string)

  function ResourceOf(pkg: Package): ResourceKey {
    if pkg.evaluatorImage != "" then Sandbox(pkg.evaluatorImage)
    else if pkg.UsesModel() then Ollama(pkg.modelSha)
    else Executor(pkg.role)
  }

  datatype ModelEvidence = ModelEvidence(inputTokens: int, outputTokens: int)

  datatype ExecutionResult = ExecutionResult(
    stage: Stage, outcome: Outcome, summary: string,
    model: Option<ModelEvidence>, payload: string)

  datatype Step = Step(
    id: StepId, number: int, stage: Stage, actor: Principal, role: Role,
    packageSha: Digest<Package>, fence: int, leaseSha: Digest<string>,
    leaseUntil: int, completedAt: Option<int>, contextSha: Option<Sha>,
    result: Option<ExecutionResult>, evidence: Sha,
    resource: ResourceKey, concurrency: int)

  datatype EventKind =
    | CreatedEvent | BlockedEvent | ClaimedEvent | ReclaimedEvent | ResultEvent
    | SourceReservedEvent | ControlEvent(action: Action)

  datatype Event = Event(kind: EventKind, actor: Principal, step: Option<StepId>,
                         version: int, reason: string, evidence: Sha)

  datatype Lease = Lease(projectId: string, runId: RunId, stepId: StepId,
                         fence: int, token: string)

  datatype SourceQuery = SourceQuery(
    projectId: string, productId: string, sourceId: string, purpose: string,
    limit: int, idempotencyKey: string, window: string)

  function StartStage(kind: Kind): Stage {
    if kind == Feature then Build else Diagnose
  }

  predicate VerifyStage(stage: Stage) { stage == VerifyDelivery || stage == VerifyRecovery }

  // The stages whose executor changes the outside world.
  predicate EffectStage(stage: Stage) { stage == Deliver || stage == Remediate }

  predicate Final(status: Status) { status == Completed || status == Cancelled }

  // The statuses in which a worker may hold or take a lease.
  predicate Claimable(status: Status) {
    status == Ready || status == Running || status == Reconciling
  }

  predicate Inconclusively(outcome: Outcome) {
    outcome == BlockedOutcome || outcome == Unavailable || outcome == Inconclusive
  }

  // The table of successors; a stage outside it maps to the zero string.
  function NextStage(from: Stage): Stage {
    match from
    case Build => Evaluate
    case Evaluate => Deliver
    case Deliver => VerifyDelivery
    case Diagnose => Remediate
    case Remediate => VerifyRecovery
    case _ => NoStage
  }

  predicate ValidTransition(from: Stage, outcome: Outcome, status: Status, to: Stage) {
    if Inconclusively(outcome) then status == Blocked && from == to
    else if outcome == Failed then
      (from == Evaluate && status == Ready && to == Build) || (status == Blocked && from == to)
    else if outcome != Succeeded then false
    else if VerifyStage(from) then status == Completed && to == from
    else status == Ready && NextStage(from) == to
  }

  function Min(a: int, b: int): int { if a < b then a else b }

  function Max(a: int, b: int): int { if a < b then b else a }
}
