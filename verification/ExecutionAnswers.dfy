// What each call answers and leaves, said of the stored rows and the packages'
// own fields.
module ExecutionAnswers {
  import opened Wrappers
  import opened ExecutionDomain
  import opened ExecutionSpec
  import opened ExecutionInvariants
  import opened ExecutionSystem
  import opened ExecutionCapacity

  // The run a call addresses is there.
  predicate Addressed(db: Db, project: string, id: RunId) { id in db && db[id].run.projectId == project }

  // The workload of the stage's role, and the authority of worker and owner.
  predicate Entitled(run: Run, g: Grants, actor: Principal) {
    && ExecutionRole(run.stage) in run.target.participants
    && actor == run.target.participants[ExecutionRole(run.stage)]
    && g.actor && g.owner
  }

  lemma {:induction false} EntitledMeans(e: Exec, clock: int, g: Grants, actor: Principal)
    requires ExecInv(e, clock)
    ensures Entitled(e.run, g, actor) <==> actor == e.run.Actor() && g.actor && g.owner
    ensures var role := ExecutionRole(e.run.stage); role in e.run.packages && e.run.packages[role] == e.run.Package()
    ensures Open(e.steps) <==> InFlight(e)
    ensures |e.steps| > 0 ==> LoadStep(e) == Some(e.steps[|e.steps| - 1])
    ensures |e.steps| == 0 ==> LoadStep(e).None?
  {
    hide StepsMatch, StepsOk, ResultsOk, ChainOk, StatusOk, LeaseOk, EventsOk, UsageOk, SourcesOk;
  }

  // ------------------------------------------------------------------- claims

  // No more leases than every package involved allows, with one to spare.
  ghost predicate Room(db: Db, pkg: Package, t: int) {
    && |Sharers(db, pkg, t)| < pkg.concurrency
    && forall id, i | (id, i) in Sharers(db, pkg, t) ::
         id in db && 0 <= i < |db[id].steps| && |Sharers(db, pkg, t)| < db[id].steps[i].packageSha.of.concurrency
  }

  predicate Affordable(run: Run, pkg: Package) {
    var u, b := run.usage, run.target.budget;
    pkg.model != "" ==>
      && u.modelCalls < b.maxModelCalls && u.attempts < b.maxAttempts
      && u.tokensCharged + pkg.maxInputBytes + |pkg.instructions| + 1024 + pkg.maxOutputTokens <= b.maxTokens
  }

  // The package of a run's stage.
  function StagePackage(run: Run): Package {
    var role := ExecutionRole(run.stage);
    if role in run.packages then run.packages[role] else NO_PACKAGE
  }

  predicate LiveStatus(status: Status) { status == Ready || status == Running || status == Reconciling }

  // Nobody holds the run's open step.
  predicate Unheld(e: Exec, now: int) { Open(e.steps) ==> e.steps[|e.steps| - 1].leaseUntil <= now }

  ghost predicate Usable(db: Db, c: Call)
    requires c.op.OpClaim? && c.op.id in db
  {
    var e := db[c.op.id];
    && Unheld(e, c.tx.now) && Room(db, StagePackage(e.run), c.tx.start)
  }

  lemma {:induction false} RoomMeans(db: Db, clock: int, pkg: Package, t: int)
    requires DbInv(db, clock)
    ensures Room(db, pkg, t) <==> !AtCapacity(db, ResourceOf(pkg), t, pkg.concurrency)
  {
    hide ExecInv, ResourceOf, Sharers, UniqueRequests, CapacityFrom;
    StepsRecorded(db, clock);
    CountedAreSharers(db, pkg, t);
    var users := Sharers(db, pkg, t);
    assert users == ActiveLeases(db, ResourceOf(pkg), t);
    forall id, i | id in db && 0 <= i < |db[id].steps|
      ensures (id, i) in users <==> HoldsLease(db[id].steps[i], ResourceOf(pkg), t)
    {
    }
  }

  // A claim is granted exactly to the stage's workload, of a live run, whose
  // requirements hold, before its deadline, with its open step unheld, room on
  // what its package shares and a budget that covers it.
  lemma {:induction false} ClaimGrantedExactly(db: Db, clock: int, c: Call)
    requires Reachable(db, clock) && c.op.OpClaim?
    ensures Apply(db, c).1.Claimed? <==>
              && Addressed(db, c.op.project, c.op.id)
              && var e := db[c.op.id];
                 && Entitled(e.run, c.grants, c.op.actor) && LiveStatus(e.run.status)
                 && c.grants.requirements.None? && c.tx.now < e.run.deadline
                 && Usable(db, c) && Affordable(e.run, StagePackage(e.run))
                 && (!Open(e.steps) ==> !StepIdUsed(db, c.op.sid))
  {
    hide DbInv, ExecInv, Entitled, AtCapacity, Room, ResourceOf, StepIdUsed, ClaimAgain, ClaimFresh, Stopped;
    ReachableInv(db, clock);
    if Addressed(db, c.op.project, c.op.id) {
      var e := db[c.op.id];
      StoredInv(db, clock, c.op.id);
      EntitledMeans(e, clock, c.grants, c.op.actor);
      RoomMeans(db, clock, e.run.Package(), c.tx.start);
    }
  }

  lemma StoredInv(db: Db, clock: int, id: RunId)
    requires DbInv(db, clock) && id in db
    ensures ExecInv(db[id], clock) && db[id].run.id == id
  {
    hide ExecInv, CapacityFrom, UniqueRequests;
  }

  // The run is blocked for a reason, and nothing else happens to it.
  predicate BlockedFor(e: Exec, f: Exec, actor: Principal, why: string) {
    var version := e.run.version + 1;
    && f.run == e.run.(status := Blocked, blockers := [why], version := version)
    && f == e.(run := f.run, events := e.events + [Event(BlockedEvent, actor, None, version, why, "")])
  }

  ghost predicate RefusalOf(db: Db, c: Call, e: Exec, f: Exec, answer: Answer)
    requires c.op.OpClaim? && c.op.id in db
  {
    if !Entitled(e.run, c.grants, c.op.actor) then f == e && answer == Fails(Forbidden)
    else if !LiveStatus(e.run.status) then f == e && answer == Fails(ExecutionBlocked)
    else if c.grants.requirements.Some? then
      BlockedFor(e, f, c.op.actor, "accepted_context_changed") && answer == Fails(c.grants.requirements.value)
    else if e.run.deadline <= c.tx.now then
      BlockedFor(e, f, c.op.actor, "deadline_exhausted") && answer == Fails(BudgetExhausted)
    else if !Usable(db, c) then f == e && answer == Fails(ResourceBusy)
    else if !Affordable(e.run, StagePackage(e.run)) then
      BlockedFor(e, f, c.op.actor, "model_budget_exhausted") && answer == Fails(BudgetExhausted)
    else f == e && answer == Fails(Storage)
  }

  // A refused claim leaves the store alone, or blocks the run for one of three
  // reasons; and each refusal has its own condition.
  lemma {:induction false} ClaimRefusedExactly(db: Db, clock: int, c: Call)
    requires Reachable(db, clock) && c.op.OpClaim? && !Apply(db, c).1.Claimed?
    ensures var (later, answer) := Apply(db, c);
            if !Addressed(db, c.op.project, c.op.id) then later == db && answer == Fails(Forbidden)
            else
              && c.op.id in later && later == db[c.op.id := later[c.op.id]]
              && RefusalOf(db, c, db[c.op.id], later[c.op.id], answer)
  {
    hide DbInv, ExecInv, Entitled, AtCapacity, Room, ResourceOf, StepIdUsed, ClaimAgain, ClaimFresh, Stopped,
         BlockedFor;
    ReachableInv(db, clock);
    if Addressed(db, c.op.project, c.op.id) {
      var e := db[c.op.id];
      StoredInv(db, clock, c.op.id);
      EntitledMeans(e, clock, c.grants, c.op.actor);
      RoomMeans(db, clock, e.run.Package(), c.tx.start);
      StoppedBlocks(e, c.op.actor, "accepted_context_changed");
      StoppedBlocks(e, c.op.actor, "deadline_exhausted");
      StoppedBlocks(e, c.op.actor, "model_budget_exhausted");
    }
  }

  lemma StoppedBlocks(e: Exec, actor: Principal, why: string)
    ensures BlockedFor(e, Stopped(e, actor, why), actor, why)
  {
  }

  // The usage after a granted claim: one attempt, one call and the whole charge
  // of a model package; nothing for any other.
  predicate ChargedFor(before: Usage, after: Usage, pkg: Package) {
    if pkg.model == "" then after == before
    else
      && after.modelCalls == before.modelCalls + 1 && after.attempts == before.attempts + 1
      && after.tokensCharged
         == before.tokensCharged + pkg.maxInputBytes + |pkg.instructions| + 1024 + pkg.maxOutputTokens
      && after.tokensActual == before.tokensActual
      && after.sourceQueries == before.sourceQueries && after.sourceRows == before.sourceRows
  }

  // The step a claim hands out, from the one it found open, if any.
  predicate HandedOver(e: Exec, s: Step, c: Call)
    requires c.op.OpClaim?
  {
    var pkg := StagePackage(e.run);
    var most := c.tx.now + (pkg.timeoutSeconds + 30) * SECOND;
    && s.completedAt.None? && s.number == (if Open(e.steps) then |e.steps| else |e.steps| + 1)
    && s.stage == e.run.stage && s.role == pkg.role && s.packageSha == Digest(pkg) && s.actor == c.op.actor
    && s.leaseSha == Digest(c.op.token)
    && s.leaseUntil == (if most < e.run.deadline then most else e.run.deadline)
    && if Open(e.steps) then
         var last := e.steps[|e.steps| - 1];
         s.id == last.id && s.fence == last.fence + 1 && s.contextSha == last.contextSha
       else s.id == c.op.sid && s.fence == 1 && s.contextSha.None? && s.result.None?
  }

  // All that a granted claim changes of its run.
  predicate Granted(e: Exec, f: Exec, c: Call)
    requires c.op.OpClaim?
  {
    var version := e.run.version + 1;
    && |f.steps| == (if Open(e.steps) then |e.steps| else |e.steps| + 1) && |f.steps| > 0
    && f.steps[..|f.steps| - 1] == (if Open(e.steps) then e.steps[..|e.steps| - 1] else e.steps)
    && HandedOver(e, f.steps[|f.steps| - 1], c)
    && ChargedFor(e.run.usage, f.run.usage, StagePackage(e.run))
    && f.run == e.run.(usage := f.run.usage, stepNumber := |f.steps|, version := version, blockers := [],
                       status := if e.run.status == Reconciling then Reconciling else Running)
    && f.results == e.results && f.reservations == e.reservations
    && f.events == e.events + [Event(if Open(e.steps) then ReclaimedEvent else ClaimedEvent, c.op.actor,
                                     Some(f.steps[|f.steps| - 1].id), version, CLAIM_REASON, "")]
  }

  predicate GrantOutcome(db: Db, c: Call, later: Db, answer: Answer)
    requires c.op.OpClaim?
  {
    var id := c.op.id;
    && Addressed(db, c.op.project, id) && id in later && later == db[id := later[id]]
    && Granted(db[id], later[id], c)
    && answer == Claimed(later[id].run, later[id].steps[|later[id].steps| - 1], c.op.token)
  }

  lemma {:induction false} ClaimGrants(db: Db, clock: int, c: Call)
    requires DbInv(db, clock) && c.op.OpClaim? && Apply(db, c).1.Claimed?
    ensures GrantOutcome(db, c, Apply(db, c).0, Apply(db, c).1)
  {
    hide ExecInv, AtCapacity, ResourceOf, StepIdUsed, ClaimAgain, ClaimFresh, Stopped, Granted;
    StoredInv(db, clock, c.op.id);
    var e := db[c.op.id];
    if InFlight(e) { AgainGrants(e, clock, c); } else { FreshGrants(e, clock, c); }
    assert Granted(e, Apply(db, c).0[c.op.id], c);
    LastOfGranted(e, Apply(db, c).0[c.op.id], c);
  }

  lemma LastOfGranted(e: Exec, f: Exec, c: Call)
    requires c.op.OpClaim? && Granted(e, f, c)
    ensures |f.steps| > 0 && f.run.projectId == e.run.projectId
  {
  }

  lemma {:induction false} AgainGrants(e: Exec, clock: int, c: Call)
    requires ExecInv(e, clock) && c.op.OpClaim? && InFlight(e) && c.op.actor == e.run.Actor()
    ensures var f := ClaimAgain(e, c.tx.now, c.op.actor, c.op.token);
            Granted(e, f, c) && LoadStep(f) == Some(f.steps[|f.steps| - 1])
  {
    hide StepsOk, ResultsOk, ChainOk, StatusOk, LeaseOk, EventsOk, UsageOk, SourcesOk;
    EntitledMeans(e, clock, c.grants, c.op.actor);
    assert StepMatches(e.run.target, e.run.packages, e.steps[|e.steps| - 1]);
  }

  lemma {:induction false} FreshGrants(e: Exec, clock: int, c: Call)
    requires ExecInv(e, clock) && c.op.OpClaim? && !InFlight(e)
    ensures Granted(e, ClaimFresh(e, c.tx.now, c.op.actor, c.op.token, c.op.sid), c)
  {
    hide StepsMatch, StepsOk, ResultsOk, ChainOk, StatusOk, LeaseOk, EventsOk, UsageOk, SourcesOk;
    EntitledMeans(e, clock, c.grants, c.op.actor);
  }

  // ----------------------------------------------------------------- creation

  // A request as the service submits it, under the owner's present credential.
  predicate Submittable(run: Run, credential: string) {
    && run.ownerCredential == credential && run.schema == EXECUTION_SCHEMA && run.status == Ready
    && run.version == 0 && run.stepNumber == 0 && run.usage == NO_USAGE
    && (run.kind == Feature || run.kind == Incident)
  }

  // The stored run of the same project, owner and key.
  predicate AskedBefore(db: Db, run: Run, id: RunId) {
    && id in db && db[id].run.projectId == run.projectId && db[id].run.owner == run.owner
    && db[id].run.idempotencyKey == run.idempotencyKey
  }

  // The live runs of a project's target.
  function LiveRuns(db: Db, project: string, target: string): set<RunId> {
    set id | id in db && db[id].run.projectId == project && db[id].run.target.id == target
             && LiveStatus(db[id].run.status)
  }

  lemma LiveRunsMeans(db: Db, project: string, target: string)
    ensures LiveRuns(db, project, target) == ActiveRuns(db, project, target)
  {
  }

  predicate AllAssignable(run: Run, assignable: set<(Role, Principal)>) {
    forall role | role in run.target.participants :: (role, run.target.participants[role]) in assignable
  }

  // A run as it is first stored.
  predicate Fresh(e: Exec, run: Run) {
    && e.run == run.(version := 1) && e.steps == [] && e.results == map[] && e.reservations == []
    && e.events == [Event(CreatedEvent, run.owner, None, 1, "accepted_intent_and_distinct_scoped_workers", "")]
  }

  // What becomes of a permitted request under a new key.
  ghost predicate Stores(db: Db, run: Run, assignable: set<(Role, Principal)>, later: Db, answer: Answer) {
    if !AllAssignable(run, assignable) then later == db && answer == Fails(Forbidden)
    else if |LiveRuns(db, run.projectId, run.target.id)| >= run.target.budget.maxConcurrentRuns then
      later == db && answer == Fails(ResourceBusy)
    else if run.id in db then later == db && answer == Fails(Storage)
    else
      run.id in later && later == db[run.id := later[run.id]] && Fresh(later[run.id], run)
      && answer == RunIs(later[run.id].run)
  }

  // A permitted request under a new key is stored exactly when every workload
  // may be assigned and the target has room; under a known key it answers the
  // stored run, or refuses another request.
  lemma {:induction false} CreatesExactly(db: Db, c: Call)
    requires UniqueRequests(db) && c.op.OpCreate? && c.grants.actor && c.grants.requirements.None?
    requires Submittable(c.op.run, c.op.credential)
    ensures forall id | AskedBefore(db, c.op.run, id) ::
              Apply(db, c) == (db, if db[id].run.requestSha == c.op.run.requestSha then RunIs(db[id].run)
                                   else Fails(VersionConflict))
    ensures (forall id :: !AskedBefore(db, c.op.run, id)) ==>
              Stores(db, c.op.run, c.op.assignable, Apply(db, c).0, Apply(db, c).1)
  {
    var run := c.op.run;
    hide LiveRuns, ActiveRuns, Stores, ParticipantsAssignable, Saved, UniqueRequests;
    var same := set id | id in db && SameRequest(db[id].run, run);
    forall id ensures AskedBefore(db, run, id) <==> id in same { }
    if id :| AskedBefore(db, run, id) {
      OnlyAsked(db, run, id);
    } else {
      NewKeyStores(db, c);
    }
  }

  lemma {:induction false} OnlyAsked(db: Db, run: Run, id: RunId)
    requires UniqueRequests(db) && AskedBefore(db, run, id)
    ensures forall other | AskedBefore(db, run, other) :: other == id
    ensures (set r | r in db && SameRequest(db[r].run, run)) == {id}
  {
  }

  lemma {:induction false} NewKeyStores(db: Db, c: Call)
    requires c.op.OpCreate? && c.grants.actor && c.grants.requirements.None?
    requires Submittable(c.op.run, c.op.credential) && forall id :: !AskedBefore(db, c.op.run, id)
    ensures Stores(db, c.op.run, c.op.assignable, Apply(db, c).0, Apply(db, c).1)
  {
    var run := c.op.run;
    hide LiveRuns, ActiveRuns, Saved, Fresh, ParticipantsAssignable, AllAssignable, SameRequest;
    NotAsked(db, run);
    LiveRunsMeans(db, run.projectId, run.target.id);
    FreshRun(run);
    AssignableMeans(run, c.op.assignable);
  }

  lemma NotAsked(db: Db, run: Run)
    requires forall id :: !AskedBefore(db, run, id)
    ensures (set id | id in db && SameRequest(db[id].run, run)) == {}
  {
    forall id | id in db && SameRequest(db[id].run, run) ensures false { assert AskedBefore(db, run, id); }
  }

  lemma FreshRun(run: Run)
    requires run.version == 0
    ensures Fresh(Saved(Exec(run, [], [], map[], []), CreatedEvent, run.owner, None,
                        "accepted_intent_and_distinct_scoped_workers", ""), run)
  {
  }

  lemma AssignableMeans(run: Run, assignable: set<(Role, Principal)>)
    ensures AllAssignable(run, assignable) <==> ParticipantsAssignable(run.target, assignable)
  {
  }

  lemma {:induction false} CreationRefused(db: Db, c: Call)
    requires c.op.OpCreate?
    requires !(c.grants.actor && c.grants.requirements.None? && Submittable(c.op.run, c.op.credential))
    ensures Apply(db, c).0 == db && Apply(db, c).1.Fails?
    ensures c.grants.actor && Submittable(c.op.run, c.op.credential) ==>
              Apply(db, c).1.error == c.grants.requirements.value
    ensures !c.grants.actor ==> Apply(db, c).1.error == Forbidden
    ensures c.grants.actor && !Submittable(c.op.run, c.op.credential) ==> Apply(db, c).1.error == ValidationRequired
  {
    hide ActiveRuns, ParticipantsAssignable, SameRequest;
  }

  // Once a request is answered a run, the same key answers that run as it then
  // is, whatever was called between, and any other request under it is refused.
  lemma {:induction false} RequestAnsweredOnce(db: Db, clock: int, first: Call, between: seq<Call>, again: Call)
    requires Reachable(db, clock) && first.tx.start <= first.tx.now && Submitted(first)
    requires Timed(between) && AllSubmitted(between)
    requires first.op.OpCreate? && Apply(db, first).1.RunIs?
    requires again.op.OpCreate? && again.op.run.projectId == first.op.run.projectId
    requires again.op.run.owner == first.op.run.owner && again.op.run.idempotencyKey == first.op.run.idempotencyKey
    requires again.grants.actor && again.grants.requirements.None? && Submittable(again.op.run, again.op.credential)
    ensures var id, mid := Apply(db, first).1.current.id, RunAll(Apply(db, first).0, between);
            && id in mid
            && Apply(mid, again) == (mid, if again.op.run.requestSha == first.op.run.requestSha then RunIs(mid[id].run)
                                          else Fails(VersionConflict))
  {
    hide ExecInv, Apply, CapacityFrom, RunAll, StepsEvolve, ResultsGrow, Submittable;
    ReachableInv(db, clock);
    ApplyKeeps(db, clock, first);
    RunAllKeeps(Apply(db, first).0, Max(clock, first.tx.now), between);
    AnsweredIsStored(db, clock, first);
    CreatesExactly(RunAll(Apply(db, first).0, between), again);
  }

  lemma {:induction false} AnsweredIsStored(db: Db, clock: int, c: Call)
    requires DbInv(db, clock) && c.op.OpCreate? && Apply(db, c).1.RunIs?
    ensures var (later, answer) := Apply(db, c);
            var id := answer.current.id;
            AskedBefore(later, c.op.run, id) && later[id].run.requestSha == c.op.run.requestSha
  {
    hide ExecInv, CapacityFrom, Apply, Submittable, LiveRuns, AllAssignable;
    if !(c.grants.actor && c.grants.requirements.None? && Submittable(c.op.run, c.op.credential)) {
      CreationRefused(db, c);
      assert false;
    }
    CreatesExactly(db, c);
    if id :| AskedBefore(db, c.op.run, id) { assert db[id].run.id == id; }
  }
}
