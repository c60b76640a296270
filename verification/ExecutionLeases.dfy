// What a lease is good for, and how long.
module ExecutionLeases {
  import opened Wrappers
  import opened ExecutionDomain
  import opened ExecutionSpec
  import opened ExecutionInvariants
  import opened ExecutionSystem
  import opened ExecutionAnswers

  // The open step is at the lease's fence and token, and nothing has run out.
  predicate Live(e: Exec, now: int, g: Grants, l: Lease, actor: Principal) {
    && Entitled(e.run, g, actor) && g.requirements.None? && Open(e.steps)
    && (e.run.status == Running || e.run.status == Reconciling) && now < e.run.deadline
    && var s := e.steps[|e.steps| - 1];
       s.id == l.stepId && s.fence == l.fence && s.leaseSha.of == l.token && now < s.leaseUntil
  }

  lemma {:induction false} LiveMeans(e: Exec, clock: int, now: int, g: Grants, l: Lease, actor: Principal)
    requires ExecInv(e, clock)
    ensures LeaseError(e, now, g, l, actor).None? <==> Live(e, now, g, l, actor)
    ensures Live(e, now, g, l, actor) ==> LoadStep(e) == Some(e.steps[|e.steps| - 1])
  {
    hide StepsOk, ResultsOk, ChainOk, StatusOk, LeaseOk, EventsOk, UsageOk, SourcesOk;
    EntitledMeans(e, clock, g, actor);
    if Open(e.steps) {
      var s := e.steps[|e.steps| - 1];
      assert StepMatches(e.run.target, e.run.packages, s);
      assert s.leaseSha == Digest(l.token) <==> s.leaseSha.of == l.token;
    }
  }

  // The refusals of a lease, in their order.
  predicate RefusedLease(e: Exec, now: int, g: Grants, l: Lease, actor: Principal, error: Error) {
    if !Entitled(e.run, g, actor) then error == Forbidden
    else if |e.steps| == 0 then error == Storage
    else
      var s := e.steps[|e.steps| - 1];
      if s.completedAt.Some? || s.id != l.stepId || s.fence != l.fence || s.leaseSha.of != l.token
         || s.leaseUntil <= now || (e.run.status != Running && e.run.status != Reconciling) then error == LeaseLost
      else if e.run.deadline <= now then error == BudgetExhausted
      else g.requirements == Some(error)
  }

  lemma {:induction false} RefusedMeans(e: Exec, clock: int, now: int, g: Grants, l: Lease, actor: Principal)
    requires ExecInv(e, clock) && LeaseError(e, now, g, l, actor).Some?
    ensures RefusedLease(e, now, g, l, actor, LeaseError(e, now, g, l, actor).value)
  {
    hide StepsOk, ResultsOk, ChainOk, StatusOk, LeaseOk, EventsOk, UsageOk, SourcesOk;
    EntitledMeans(e, clock, g, actor);
    if |e.steps| > 0 { assert StepMatches(e.run.target, e.run.packages, e.steps[|e.steps| - 1]); }
  }

  // --------------------------------------------------------- calls under a lease

  predicate UsesLease(op: Op) { op.OpCheck? || op.OpComplete? || op.OpReserve? || op.OpRecord? }

  // The step has no result yet, so that a completion is not the repetition of one.
  predicate First(db: Db, c: Call)
    requires UsesLease(c.op)
  {
    c.op.OpComplete? && c.op.lease.runId in db ==> c.op.lease.stepId !in db[c.op.lease.runId].results
  }

  predicate LiveCall(db: Db, c: Call)
    requires UsesLease(c.op)
  {
    && Addressed(db, c.op.lease.projectId, c.op.lease.runId)
    && Live(db[c.op.lease.runId], c.tx.now, c.grants, c.op.lease, c.op.actor)
  }

  // Without a live lease a check, a first completion, a reservation and a record
  // fail alike and change nothing; a check with one answers the run.
  lemma {:induction false} LeaseDecides(db: Db, clock: int, c: Call)
    requires DbInv(db, clock) && UsesLease(c.op) && First(db, c)
    ensures !LiveCall(db, c) ==>
              && Apply(db, c).0 == db && Apply(db, c).1.Fails?
              && if !Addressed(db, c.op.lease.projectId, c.op.lease.runId) then Apply(db, c).1.error == Forbidden
                 else RefusedLease(db[c.op.lease.runId], c.tx.now, c.grants, c.op.lease, c.op.actor,
                                   Apply(db, c).1.error)
    ensures LiveCall(db, c) && c.op.OpCheck? ==> Apply(db, c) == (db, RunIs(db[c.op.lease.runId].run))
  {
    hide ExecInv, Live, LeaseError, Finish, ValidTransition, FindReservation, RefusedLease;
    var id, l := c.op.lease.runId, c.op.lease;
    if Addressed(db, l.projectId, id) {
      StoredInv(db, clock, id);
      LiveMeans(db[id], clock, c.tx.now, c.grants, l, c.op.actor);
      if LeaseError(db[id], c.tx.now, c.grants, l, c.op.actor).Some? {
        RefusedMeans(db[id], clock, c.tx.now, c.grants, l, c.op.actor);
      }
      assert db[id := db[id]] == db;
    }
  }

  // -------------------------------------------------------------- completion

  // Where a result leads, row by row.
  const LEADS: set<(Stage, Outcome, Status, Stage)> :=
    {(Build, Succeeded, Ready, Evaluate), (Evaluate, Succeeded, Ready, Deliver),
     (Deliver, Succeeded, Ready, VerifyDelivery), (VerifyDelivery, Succeeded, Completed, VerifyDelivery),
     (Diagnose, Succeeded, Ready, Stage.Remediate), (Stage.Remediate, Succeeded, Ready, VerifyRecovery),
     (VerifyRecovery, Succeeded, Completed, VerifyRecovery), (Evaluate, Failed, Ready, Build)}

  predicate Leads(from: Stage, outcome: Outcome, status: Status, to: Stage) {
    || (from, outcome, status, to) in LEADS
    || (status == Blocked && to == from && outcome != Succeeded && outcome != OtherOutcome)
  }

  lemma LeadsMeans(from: Stage, outcome: Outcome, status: Status, to: Stage)
    requires from != NoStage
    ensures ValidTransition(from, outcome, status, to) <==> Leads(from, outcome, status, to)
  {
  }

  // The step is closed with its result.
  predicate Closed(s: Step, t: Step, c: Call)
    requires c.op.OpComplete?
  {
    t == s.(completedAt := Some(c.tx.now), result := Some(c.op.result), evidence := c.op.evidence)
  }

  function TokensOf(result: ExecutionResult): int {
    match result.model
    case None => 0
    case Some(m) => m.inputTokens + m.outputTokens
  }

  // A result moves the run as it asks; under read-back it settles it where it
  // stands, cancelled after a success and blocked after anything else.
  predicate Settled(run: Run, after: Run, c: Call)
    requires c.op.OpComplete?
  {
    var outcome := c.op.result.outcome;
    && after.status == (if run.status != Reconciling then c.op.status
                        else if outcome == Succeeded then Cancelled else Blocked)
    && after.stage == (if run.status != Reconciling then c.op.stage else run.stage)
    && after.blockers == (if after.status == Blocked then [OutcomeText(outcome) + ": " + c.op.result.summary] else [])
    && after.usage == run.usage.(tokensActual := run.usage.tokensActual + TokensOf(c.op.result))
    && after == run.(status := after.status, stage := after.stage, blockers := after.blockers, usage := after.usage,
                     version := run.version + 1)
  }

  predicate Completion(e: Exec, f: Exec, c: Call)
    requires c.op.OpComplete?
  {
    && |f.steps| == |e.steps| > 0
    && var n := |e.steps| - 1;
       && f.steps[..n] == e.steps[..n] && Closed(e.steps[n], f.steps[n], c) && Settled(e.run, f.run, c)
       && f.results == e.results[e.steps[n].id := ResultRow(c.op.actor, c.op.evidence)]
       && f.reservations == e.reservations
       && f.events == e.events + [Event(ResultEvent, c.op.actor, Some(e.steps[n].id), e.run.version + 1,
                                        OutcomeText(c.op.result.outcome), c.op.evidence)]
  }

  ghost predicate CompleteOutcome(db: Db, c: Call, later: Db, answer: Answer)
    requires c.op.OpComplete? && c.op.lease.runId in db && |db[c.op.lease.runId].steps| > 0
  {
    var id := c.op.lease.runId;
    var e := db[id];
    if e.steps[|e.steps| - 1].contextSha.Some? && c.op.result.stage == e.run.stage
       && Leads(e.run.stage, c.op.result.outcome, c.op.status, c.op.stage) then
      && id in later && later == db[id := later[id]] && Completion(e, later[id], c) && answer == RunIs(later[id].run)
    else later == db && answer == Fails(ValidationRequired)
  }

  // A live lease completes its step exactly with a bound context and a result
  // of the run's stage that leads where it asks.
  lemma {:induction false} CompletesExactly(db: Db, clock: int, c: Call)
    requires DbInv(db, clock) && c.op.OpComplete? && First(db, c) && LiveCall(db, c)
    ensures CompleteOutcome(db, c, Apply(db, c).0, Apply(db, c).1)
  {
    hide ExecInv, LeaseError, Finish, ValidTransition, Live, Completion, Leads;
    var id, l := c.op.lease.runId, c.op.lease;
    StoredInv(db, clock, id);
    LiveMeans(db[id], clock, c.tx.now, c.grants, l, c.op.actor);
    LiveOpen(db[id], clock, c.tx.now, c.grants, l, c.op.actor);
    LeadsMeans(db[id].run.stage, c.op.result.outcome, c.op.status, c.op.stage);
    FinishCompletes(db[id], c);
    assert db[id := db[id]] == db;
  }

  lemma {:induction false} LiveOpen(e: Exec, clock: int, now: int, g: Grants, l: Lease, actor: Principal)
    requires ExecInv(e, clock) && Live(e, now, g, l, actor)
    ensures Open(e.steps) && e.run.stepNumber == |e.steps|
    ensures e.steps[|e.steps| - 1].stage == e.run.stage != NoStage
  {
    hide StepsMatch, StepsOk, ResultsOk, ChainOk, StatusOk, LeaseOk, EventsOk, UsageOk, SourcesOk, FrozenOk;
  }

  lemma {:induction false} FinishCompletes(e: Exec, c: Call)
    requires c.op.OpComplete? && e.run.stepNumber == |e.steps| > 0
    ensures Completion(e, Finish(e, c.tx.now, c.op.actor, c.op.result, c.op.evidence, c.op.status, c.op.stage), c)
  {
    hide OutcomeText;
  }

  // ------------------------------------------------------------- reservations

  // Sources are queried to diagnose and to verify a recovery, within what the
  // target was frozen with.
  predicate InScope(run: Run, stage: Stage, q: SourceQuery) {
    && (stage == Diagnose || stage == VerifyRecovery)
    && q.projectId == run.projectId && q.productId == run.productId
    && q.sourceId in run.target.sources && q.purpose in run.target.purposes && q.limit >= 1
  }

  predicate ReservedFor(rs: seq<Reservation>, stepId: StepId, key: string, q: SourceQuery) {
    exists i | 0 <= i < |rs| :: rs[i].stepId == stepId && rs[i].key == key && rs[i].query.of == q
  }

  predicate KeyTaken(rs: seq<Reservation>, stepId: StepId, key: string) {
    exists i | 0 <= i < |rs| :: rs[i].stepId == stepId && rs[i].key == key
  }

  lemma {:induction false} FoundIs(rs: seq<Reservation>, stepId: StepId, key: string, q: SourceQuery)
    requires forall i, j | 0 <= i < j < |rs| :: (rs[i].stepId, rs[i].key) != (rs[j].stepId, rs[j].key)
    ensures FindReservation(rs, stepId, key).Some? <==> KeyTaken(rs, stepId, key)
    ensures FindReservation(rs, stepId, key) == Some(Digest(q)) <==> ReservedFor(rs, stepId, key, q)
  {
    if rs != [] {
      var n := |rs| - 1;
      FoundIs(rs[..n], stepId, key, q);
      assert forall i | 0 <= i < n :: rs[..n][i] == rs[i];
      assert Digest(rs[n].query.of) == rs[n].query;
    }
  }

  predicate Reserved(e: Exec, f: Exec, c: Call)
    requires c.op.OpReserve? && |e.steps| > 0
  {
    var q, sid, version := c.op.query, e.steps[|e.steps| - 1].id, e.run.version + 1;
    && f.run == e.run.(usage := e.run.usage.(sourceQueries := e.run.usage.sourceQueries + 1,
                                             sourceRows := e.run.usage.sourceRows + q.limit),
                       version := version)
    && f.reservations == e.reservations + [Reservation(sid, q.idempotencyKey, Digest(q))]
    && f.steps == e.steps && f.results == e.results
    && f.events == e.events + [Event(SourceReservedEvent, c.op.actor, Some(sid), version,
                                     "bounded_query_reserved_before_dispatch", "")]
  }

  ghost predicate ReserveOutcome(db: Db, c: Call, later: Db, answer: Answer)
    requires c.op.OpReserve? && c.op.lease.runId in db && |db[c.op.lease.runId].steps| > 0
  {
    var id, q := c.op.lease.runId, c.op.query;
    var e := db[id];
    var sid, u, b := e.steps[|e.steps| - 1].id, e.run.usage, e.run.target.budget;
    if !InScope(e.run, e.run.stage, q) then later == db && answer == Fails(Forbidden)
    else if KeyTaken(e.reservations, sid, q.idempotencyKey) then
      later == db
      && answer == if ReservedFor(e.reservations, sid, q.idempotencyKey, q) then Done else Fails(VersionConflict)
    else if u.sourceQueries + 1 > b.maxSourceQueries || u.sourceRows + q.limit > b.maxSourceRows then
      later == db && answer == Fails(BudgetExhausted)
    else id in later && later == db[id := later[id]] && Reserved(e, later[id], c) && answer == Done
  }

  // A live lease reserves exactly queries in scope: once for a key, the same
  // query again for nothing, and while the budget lasts.
  lemma {:induction false} ReservesExactly(db: Db, clock: int, c: Call)
    requires DbInv(db, clock) && c.op.OpReserve? && LiveCall(db, c)
    ensures ReserveOutcome(db, c, Apply(db, c).0, Apply(db, c).1)
  {
    hide ExecInv, LeaseError, Live, FindReservation, KeyTaken, ReservedFor, Reserved, Saved;
    var id, l := c.op.lease.runId, c.op.lease;
    var e := db[id];
    StoredInv(db, clock, id);
    LiveMeans(e, clock, c.tx.now, c.grants, l, c.op.actor);
    LiveOpen(e, clock, c.tx.now, c.grants, l, c.op.actor);
    DistinctKeys(e, clock);
    FoundIs(e.reservations, e.steps[|e.steps| - 1].id, c.op.query.idempotencyKey, c.op.query);
    RowReserved(e, c);
    assert db[id := e] == db;
  }

  lemma RowReserved(e: Exec, c: Call)
    requires c.op.OpReserve? && |e.steps| > 0
    ensures var q, sid := c.op.query, e.steps[|e.steps| - 1].id;
            var usage := e.run.usage.(sourceQueries := e.run.usage.sourceQueries + 1,
                                      sourceRows := e.run.usage.sourceRows + q.limit);
            Reserved(e, Saved(e.(run := e.run.(usage := usage),
                                 reservations := e.reservations + [Reservation(sid, q.idempotencyKey, Digest(q))]),
                              SourceReservedEvent, c.op.actor, Some(sid), "bounded_query_reserved_before_dispatch", ""),
                     c)
  {
  }

  lemma DistinctKeys(e: Exec, clock: int)
    requires ExecInv(e, clock)
    ensures var rs := e.reservations;
            forall i, j | 0 <= i < j < |rs| :: (rs[i].stepId, rs[i].key) != (rs[j].stepId, rs[j].key)
  {
    hide StepsMatch, StepsOk, ResultsOk, ChainOk, StageOk, StatusOk, LeaseOk, EventsOk, UsageOk, FrozenOk;
  }

  // ------------------------------------------------------------------ records

  ghost predicate RecordOutcome(db: Db, c: Call, later: Db, answer: Answer)
    requires c.op.OpRecord? && c.op.lease.runId in db && |db[c.op.lease.runId].steps| > 0
  {
    var id, sha := c.op.lease.runId, c.op.sha;
    var e := db[id];
    var n := |e.steps| - 1;
    var bound := e.steps[n].contextSha;
    if c.op.bindContext && bound.Some? && (sha == "" || bound.value != sha) then
      later == db && answer == Fails(VersionConflict)
    else if !c.op.withinQuota then later == db && answer == Fails(BudgetExhausted)
    else
      && answer == Done
      && later == if c.op.bindContext && sha != "" then
                    db[id := e.(steps := e.steps[n := e.steps[n].(contextSha := Some(sha))])]
                  else db
  }

  // A live lease records within the quota, and binds a context once.
  lemma {:induction false} RecordsExactly(db: Db, clock: int, c: Call)
    requires DbInv(db, clock) && c.op.OpRecord? && LiveCall(db, c)
    ensures RecordOutcome(db, c, Apply(db, c).0, Apply(db, c).1)
  {
    hide ExecInv, LeaseError, Live;
    var id, l := c.op.lease.runId, c.op.lease;
    var e := db[id];
    StoredInv(db, clock, id);
    LiveMeans(e, clock, c.tx.now, c.grants, l, c.op.actor);
    LiveOpen(e, clock, c.tx.now, c.grants, l, c.op.actor);
    var n := |e.steps| - 1;
    assert db[id := e] == db && e.(steps := e.steps) == e;
    assert e.steps[n].contextSha.None? ==> e.steps[n := e.steps[n].(contextSha := None)] == e.steps;
  }
}
