// The execution protocol as functions on the stored state: one function for
// each transaction of the repository, and runs of any sequence of them.
module ExecutionSpec {
  import opened Wrappers
  import opened ExecutionDomain

  datatype ResultRow = ResultRow(actor: Principal, sha: Sha)

  datatype Reservation = Reservation(stepId: StepId, key: string, query: Digest<SourceQuery>)

  // Everything stored for one run. Step n is steps[n-1].
  datatype Exec = Exec(run: Run, steps: seq<Step>, events: seq<Event>,
                       results: map<StepId, ResultRow>, reservations: seq<Reservation>)

  type Db = map<RunId, Exec>

  // The two clock readings of a transaction: its start, which SQL now() gives,
  // and a later one, taken once the row is locked.
  datatype Tx = Tx(start: int, now: int)

  // What the transaction finds out from tables outside this model.
  datatype Grants = Grants(actor: bool, owner: bool, requirements: Option<Error>)

  datatype Answer =
    | Claimed(run: Run, step: Step, token: string)
    | RunIs(current: Run)
    | Done
    | Fails(error: Error)

  // ---------------------------------------------------------------- lookups

  function Lock(db: Db, project: string, id: RunId): Option<Exec> {
    if id in db && db[id].run.projectId == project then Some(db[id]) else None
  }

  function LoadStep(e: Exec): Option<Step> {
    if 1 <= e.run.stepNumber <= |e.steps| then Some(e.steps[e.run.stepNumber - 1]) else None
  }

  predicate InFlight(e: Exec) {
    LoadStep(e).Some? && LoadStep(e).value.completedAt.None?
  }

  predicate StepIdUsed(db: Db, sid: StepId) {
    exists id | id in db :: exists i | 0 <= i < |db[id].steps| :: db[id].steps[i].id == sid
  }

  predicate HoldsLease(s: Step, key: ResourceKey, t: int) {
    s.resource == key && s.completedAt.None? && s.leaseUntil > t
  }

  function ActiveLeases(db: Db, key: ResourceKey, t: int): set<(RunId, int)> {
    set id, i | id in db && 0 <= i < |db[id].steps| && HoldsLease(db[id].steps[i], key, t) :: (id, i)
  }

  // active >= min(smallest recorded concurrency, the package's own)
  predicate AtCapacity(db: Db, key: ResourceKey, t: int, concurrency: int) {
    var active := ActiveLeases(db, key, t);
    || |active| >= concurrency
    || exists id, i | id in db && 0 <= i < |db[id].steps| ::
         HoldsLease(db[id].steps[i], key, t) && |active| >= db[id].steps[i].concurrency
  }

  function FindReservation(rs: seq<Reservation>, stepId: StepId, key: string): Option<Digest<SourceQuery>> {
    if rs == [] then None
    else if rs[|rs| - 1].stepId == stepId && rs[|rs| - 1].key == key then Some(rs[|rs| - 1].query)
    else FindReservation(rs[..|rs| - 1], stepId, key)
  }

  // ---------------------------------------------------------- stored updates

  function Saved(e: Exec, kind: EventKind, actor: Principal, step: Option<StepId>,
                 reason: string, evidence: Sha): Exec
  {
    var version := e.run.version + 1;
    e.(run := e.run.(version := version),
       events := e.events + [Event(kind, actor, step, version, reason, evidence)])
  }

  // The row of the run's current step is rewritten.
  function WithStep(e: Exec, step: Step): Exec
    requires LoadStep(e).Some?
  {
    e.(steps := e.steps[e.run.stepNumber - 1 := step])
  }

  function Stopped(e: Exec, actor: Principal, why: string): Exec {
    Saved(e.(run := e.run.(status := Blocked, blockers := [why])), BlockedEvent, actor, None, why, "")
  }

  predicate ModelBudgetSpent(run: Run) {
    || run.usage.modelCalls >= run.target.budget.maxModelCalls
    || run.usage.tokensCharged + run.Package().MaxTokenCharge() > run.target.budget.maxTokens
    || run.usage.attempts >= run.target.budget.maxAttempts
  }

  function Charged(run: Run): Usage {
    if run.Package().UsesModel() then
      run.usage.(modelCalls := run.usage.modelCalls + 1,
                 tokensCharged := run.usage.tokensCharged + run.Package().MaxTokenCharge(),
                 attempts := run.usage.attempts + 1)
    else run.usage
  }

  function LeaseEnd(run: Run, now: int): int {
    Min(now + (run.Package().timeoutSeconds + 30) * SECOND, run.deadline)
  }

  function NewStep(run: Run, actor: Principal, sid: StepId): Step {
    var pkg := run.Package();
    Step(sid, run.stepNumber + 1, run.stage, actor, pkg.role, Digest(pkg), 0, Digest(""), 0,
         None, None, None, "", ResourceOf(pkg), pkg.concurrency)
  }

  function Leased(step: Step, token: string, until: int): Step {
    step.(fence := step.fence + 1, leaseSha := Digest(token), leaseUntil := until)
  }

  function ClaimedRun(run: Run, stepNumber: int): Run {
    run.(usage := Charged(run), stepNumber := stepNumber, blockers := [],
         status := if run.status != Reconciling then Running else Reconciling)
  }

  const CLAIM_REASON := "lease_and_conservative_budget_reserved"

  function ClaimFresh(e: Exec, now: int, actor: Principal, token: string, sid: StepId): Exec {
    var step := Leased(NewStep(e.run, actor, sid), token, LeaseEnd(e.run, now));
    Saved(e.(run := ClaimedRun(e.run, step.number), steps := e.steps + [step]),
          ClaimedEvent, actor, Some(sid), CLAIM_REASON, "")
  }

  function ClaimAgain(e: Exec, now: int, actor: Principal, token: string): Exec
    requires LoadStep(e).Some?
  {
    var step := Leased(LoadStep(e).value, token, LeaseEnd(e.run, now));
    Saved(WithStep(e.(run := ClaimedRun(e.run, e.run.stepNumber)), step),
          ReclaimedEvent, actor, Some(step.id), CLAIM_REASON, "")
  }

  function OutcomeText(o: Outcome): string {
    match o
    case Succeeded => "succeeded"
    case Failed => "failed"
    case BlockedOutcome => "blocked"
    case Unavailable => "unavailable"
    case Inconclusive => "inconclusive"
    case OtherOutcome => ""
  }

  function FinishedStatus(run: Run, result: ExecutionResult, status: Status): Status {
    if run.status != Reconciling then status
    else if result.outcome == Succeeded then Cancelled
    else Blocked
  }

  function Reported(result: ExecutionResult): int {
    if result.model.Some? then result.model.value.inputTokens + result.model.value.outputTokens else 0
  }

  // A result under read-back settles the run, whatever status it asks for.
  function FinishedRun(run: Run, result: ExecutionResult, status: Status, stage: Stage): Run {
    var status' := FinishedStatus(run, result, status);
    run.(usage := run.usage.(tokensActual := run.usage.tokensActual + Reported(result)),
         status := status',
         stage := if run.status == Reconciling then run.stage else stage,
         blockers := if status' == Blocked then [OutcomeText(result.outcome) + ": " + result.summary] else [])
  }

  function Finish(e: Exec, now: int, actor: Principal, result: ExecutionResult, evidence: Sha,
                  status: Status, stage: Stage): Exec
    requires LoadStep(e).Some?
  {
    var step := LoadStep(e).value.(completedAt := Some(now), result := Some(result), evidence := evidence);
    Saved(WithStep(e.(run := FinishedRun(e.run, result, status, stage),
                      results := e.results[step.id := ResultRow(actor, evidence)]), step),
          ResultEvent, actor, Some(step.id), OutcomeText(result.outcome), evidence)
  }

  // A lease is taken back by ending it now and raising its fence.
  function Revoked(e: Exec, now: int): Exec
    requires LoadStep(e).Some?
  {
    var step := LoadStep(e).value;
    WithStep(e, step.(leaseUntil := now, fence := step.fence + 1))
  }

  const RECONCILE_WINDOW: nat := 300 * SECOND

  function Reconciled(e: Exec, now: int, credential: string): Exec
    requires LoadStep(e).Some?
  {
    Revoked(e.(run := e.run.(ownerCredential := credential, deadline := now + RECONCILE_WINDOW,
                             status := Reconciling,
                             blockers := ["operator_authorized_effect_read_back_only"])), now)
  }

  function Halted(e: Exec, now: int, action: Action, reason: string): Exec
  {
    if InFlight(e) && EffectStage(e.run.stage) then
      e.(run := e.run.(status := Reconciling, blockers := ["cancellation_requires_effect_read_back"]))
    else
      var h := e.(run := e.run.(status := if action == Cancel then Cancelled else Paused,
                                blockers := [reason]));
      if InFlight(e) then Revoked(h, now) else h
  }

  // ------------------------------------------------------------ transactions

  ghost function Create(db: Db, run: Run, g: Grants, credential: string, assignable: set<(Role, Principal)>)
    : (Db, Answer)
  {
    if !g.actor then (db, Fails(Forbidden))
    else if run.ownerCredential != credential || run.schema != EXECUTION_SCHEMA || run.status != Ready
            || run.version != 0 || run.stepNumber != 0 || run.usage != NO_USAGE || run.kind == OtherKind then
      (db, Fails(ValidationRequired))
    else if g.requirements.Some? then (db, Fails(g.requirements.value))
    else
      var same := set id | id in db && SameRequest(db[id].run, run);
      if same != {} then
        var first := Pick(same);
        if db[first].run.requestSha != run.requestSha then (db, Fails(VersionConflict))
        else (db, RunIs(db[first].run))
      else if !ParticipantsAssignable(run.target, assignable) then (db, Fails(Forbidden))
      else if |ActiveRuns(db, run.projectId, run.target.id)| >= run.target.budget.maxConcurrentRuns then
        (db, Fails(ResourceBusy))
      else if run.id in db then (db, Fails(Storage))
      else
        var e := Saved(Exec(run, [], [], map[], []), CreatedEvent, run.owner, None,
                       "accepted_intent_and_distinct_scoped_workers", "");
        (db[run.id := e], RunIs(e.run))
  }

  // Each participant is an active workload bound to its role and no other.
  predicate ParticipantsAssignable(t: Target, assignable: set<(Role, Principal)>) {
    forall role | role in t.participants :: (role, t.participants[role]) in assignable
  }

  predicate SameRequest(a: Run, b: Run) {
    a.projectId == b.projectId && a.owner == b.owner && a.idempotencyKey == b.idempotencyKey
  }

  function ActiveRuns(db: Db, project: string, target: string): set<RunId> {
    set id | id in db && db[id].run.projectId == project && db[id].run.target.id == target
             && Claimable(db[id].run.status)
  }

  // The row a query on a unique key returns.
  ghost function Pick(ids: set<RunId>): RunId
    requires ids != {}
  {
    var id :| id in ids; id
  }

  function ClaimExec(db: Db, e: Exec, tx: Tx, g: Grants, actor: Principal, token: string, sid: StepId): (Exec, Answer)
  {
    var pkg := e.run.Package();
    var reclaim := InFlight(e);
    if actor != e.run.Actor() || !g.actor || !g.owner then (e, Fails(Forbidden))
    else if !Claimable(e.run.status) then (e, Fails(ExecutionBlocked))
    else if g.requirements.Some? then (Stopped(e, actor, "accepted_context_changed"), Fails(g.requirements.value))
    else if e.run.deadline <= tx.now then (Stopped(e, actor, "deadline_exhausted"), Fails(BudgetExhausted))
    else if reclaim && LoadStep(e).value.leaseUntil > tx.now then (e, Fails(ResourceBusy))
    else if AtCapacity(db, ResourceOf(pkg), tx.start, pkg.concurrency) then (e, Fails(ResourceBusy))
    else if pkg.UsesModel() && ModelBudgetSpent(e.run) then
      (Stopped(e, actor, "model_budget_exhausted"), Fails(BudgetExhausted))
    else if reclaim then
      var c := ClaimAgain(e, tx.now, actor, token);
      (c, Claimed(c.run, LoadStep(c).value, token))
    else if StepIdUsed(db, sid) then (e, Fails(Storage))
    else
      var c := ClaimFresh(e, tx.now, actor, token, sid);
      (c, Claimed(c.run, c.steps[|c.steps| - 1], token))
  }

  // None when the lease is accepted.
  function LeaseError(e: Exec, now: int, g: Grants, l: Lease, actor: Principal): Option<Error> {
    if actor != e.run.Actor() || !g.actor || !g.owner then Some(Forbidden)
    else if LoadStep(e).None? then Some(Storage)
    else
      var step := LoadStep(e).value;
      if step.id != l.stepId || step.actor != actor || step.completedAt.Some? || step.fence != l.fence
         || step.leaseSha != Digest(l.token) || step.leaseUntil <= now
         || (e.run.status != Running && e.run.status != Reconciling) then Some(LeaseLost)
      else if e.run.deadline <= now then Some(BudgetExhausted)
      else g.requirements
  }

  function CompleteExec(e: Exec, now: int, g: Grants, l: Lease, actor: Principal, result: ExecutionResult,
                        evidence: Sha, status: Status, stage: Stage): (Exec, Answer)
  {
    if l.stepId in e.results then
      if e.results[l.stepId] != ResultRow(actor, evidence) then (e, Fails(VersionConflict))
      else if !g.actor then (e, Fails(Forbidden))
      else (e, RunIs(e.run))
    else
      var err := LeaseError(e, now, g, l, actor);
      if err.Some? then (e, Fails(err.value))
      else
        var step := LoadStep(e).value;
        if step.contextSha.None? || result.stage != step.stage
           || !ValidTransition(step.stage, result.outcome, status, stage) then (e, Fails(ValidationRequired))
        else
          var f := Finish(e, now, actor, result, evidence, status, stage);
          (f, RunIs(f.run))
  }

  function ControlExec(e: Exec, now: int, g: Grants, actor: Principal, version: int, action: Action,
                       reason: string, credential: string): (Exec, Answer)
  {
    if actor != e.run.owner || !g.actor then (e, Fails(Forbidden))
    else if e.run.version != version then (e, Fails(VersionConflict))
    else if Final(e.run.status) then (e, Fails(ExecutionBlocked))
    else
      match action
      case Reconcile =>
        if !InFlight(e) || !EffectStage(e.run.stage) || LoadStep(e).value.contextSha.None? then
          (e, Fails(ExecutionBlocked))
        else Controlled(Reconciled(e, now, credential), actor, action, reason)
      case Resume =>
        if e.run.status != Paused && e.run.status != Blocked then (e, Fails(ExecutionBlocked))
        else if !g.owner then (e, Fails(Forbidden))
        else if g.requirements.Some? then (e, Fails(g.requirements.value))
        else if e.run.deadline <= now then (e, Fails(BudgetExhausted))
        else Controlled(e.(run := e.run.(status := Ready, blockers := [])), actor, action, reason)
      case OtherAction => (e, Fails(ValidationRequired))
      case _ => Controlled(Halted(e, now, action, reason), actor, action, reason)
  }

  function Controlled(e: Exec, actor: Principal, action: Action, reason: string): (Exec, Answer) {
    var c := Saved(e, ControlEvent(action), actor, None, reason, "");
    (c, RunIs(c.run))
  }

  predicate SourceBudgetSpent(run: Run, limit: int) {
    || run.usage.sourceQueries >= run.target.budget.maxSourceQueries
    || run.usage.sourceRows + limit > run.target.budget.maxSourceRows
  }

  function ReserveExec(e: Exec, now: int, g: Grants, l: Lease, actor: Principal, q: SourceQuery): (Exec, Answer) {
    var err := LeaseError(e, now, g, l, actor);
    if err.Some? then (e, Fails(err.value))
    else if (e.run.stage != Diagnose && e.run.stage != VerifyRecovery) || q.projectId != e.run.projectId
            || q.productId != e.run.productId || q.sourceId !in e.run.target.sources
            || q.purpose !in e.run.target.purposes || q.limit < 1 then (e, Fails(Forbidden))
    else
      var sid := LoadStep(e).value.id;
      var prior := FindReservation(e.reservations, sid, q.idempotencyKey);
      if prior.Some? then
        (e, if prior.value != Digest(q) then Fails(VersionConflict) else Done)
      else if SourceBudgetSpent(e.run, q.limit) then (e, Fails(BudgetExhausted))
      else
        var usage := e.run.usage.(sourceQueries := e.run.usage.sourceQueries + 1,
                                  sourceRows := e.run.usage.sourceRows + q.limit);
        (Saved(e.(run := e.run.(usage := usage),
                  reservations := e.reservations + [Reservation(sid, q.idempotencyKey, Digest(q))]),
               SourceReservedEvent, actor, Some(sid), "bounded_query_reserved_before_dispatch", ""), Done)
  }

  // A step without a context has an empty digest.
  function Digested(sha: Sha): Option<Sha> { if sha == "" then None else Some(sha) }

  function RecordExec(e: Exec, now: int, g: Grants, l: Lease, actor: Principal, sha: Sha, bindContext: bool,
                      withinQuota: bool): (Exec, Answer)
  {
    var err := LeaseError(e, now, g, l, actor);
    if err.Some? then (e, Fails(err.value))
    else
      var step := LoadStep(e).value;
      if bindContext && step.contextSha.Some? && step.contextSha != Digested(sha) then (e, Fails(VersionConflict))
      else if !withinQuota then (e, Fails(BudgetExhausted))
      else if bindContext then (WithStep(e, step.(contextSha := Digested(sha))), Done)
      else (e, Done)
  }

  // ------------------------------------------------------- sequences of them

  datatype Op =
    | OpCreate(run: Run, credential: string, assignable: set<(Role, Principal)>)
    | OpClaim(project: string, id: RunId, actor: Principal, token: string, sid: StepId)
    | OpCheck(lease: Lease, actor: Principal)
    | OpComplete(lease: Lease, actor: Principal, result: ExecutionResult, evidence: Sha,
                 status: Status, stage: Stage)
    | OpControl(project: string, id: RunId, actor: Principal, version: int, action: Action,
                reason: string, credential: string)
    | OpReserve(lease: Lease, actor: Principal, query: SourceQuery)
    | OpRecord(lease: Lease, actor: Principal, sha: Sha, bindContext: bool, withinQuota: bool)
  {
    // The run an operation other than creation addresses.
    function Project(): string {
      match this
      case OpCreate(run, _, _) => run.projectId
      case OpClaim(project, _, _, _, _) => project
      case OpControl(project, _, _, _, _, _, _) => project
      case _ => lease.projectId
    }

    function Id(): RunId {
      match this
      case OpCreate(run, _, _) => run.id
      case OpClaim(_, id, _, _, _) => id
      case OpControl(_, id, _, _, _, _, _) => id
      case _ => lease.runId
    }
  }

  datatype Call = Call(tx: Tx, grants: Grants, op: Op)

  function OnExec(db: Db, e: Exec, c: Call): (Exec, Answer)
    requires !c.op.OpCreate?
  {
    var now := c.tx.now;
    match c.op
    case OpClaim(_, _, actor, token, sid) => ClaimExec(db, e, c.tx, c.grants, actor, token, sid)
    case OpCheck(l, actor) =>
      var err := LeaseError(e, now, c.grants, l, actor);
      (e, if err.Some? then Fails(err.value) else RunIs(e.run))
    case OpComplete(l, actor, result, evidence, status, stage) =>
      CompleteExec(e, now, c.grants, l, actor, result, evidence, status, stage)
    case OpControl(_, _, actor, version, action, reason, credential) =>
      ControlExec(e, now, c.grants, actor, version, action, reason, credential)
    case OpReserve(l, actor, q) => ReserveExec(e, now, c.grants, l, actor, q)
    case OpRecord(l, actor, sha, bind, quota) => RecordExec(e, now, c.grants, l, actor, sha, bind, quota)
  }

  ghost function Apply(db: Db, c: Call): (Db, Answer)
  {
    if c.op.OpCreate? then Create(db, c.op.run, c.grants, c.op.credential, c.op.assignable)
    else
      var e := Lock(db, c.op.Project(), c.op.Id());
      if e.None? then (db, Fails(Forbidden))
      else
        var (e', answer) := OnExec(db, e.value, c);
        (db[c.op.Id() := e'], answer)
  }

  ghost function RunAll(db: Db, calls: seq<Call>): Db
    decreases calls
  {
    if calls == [] then db else RunAll(Apply(db, calls[0]).0, calls[1..])
  }

  // One clock, read twice by a transaction; those that wait for each other may
  // read it in another order than they commit in.
  predicate Timed(calls: seq<Call>) {
    forall i | 0 <= i < |calls| :: calls[i].tx.start <= calls[i].tx.now
  }

  // The latest reading so far.
  function ClockAfter(clock: int, calls: seq<Call>): int
    decreases calls
  {
    if calls == [] then clock else ClockAfter(Max(clock, calls[0].tx.now), calls[1..])
  }
}
