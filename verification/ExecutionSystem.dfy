// The whole store: many runs sharing resources, under any sequence of
// transactions.
module ExecutionSystem {
  import opened Wrappers
  import opened Sets
  import opened ExecutionDomain
  import opened ExecutionSpec
  import opened ExecutionInvariants
  import opened ExecutionPreservation

  ghost predicate Stored(db: Db, clock: int) {
    forall id | id in db :: db[id].run.id == id && ExecInv(db[id], clock)
  }

  ghost predicate UniqueRequests(db: Db) {
    forall a, b | a in db && b in db && SameRequest(db[a].run, db[b].run) :: a == b
  }

  // No lease active at t was granted by a package that allows fewer leases on
  // the resource than are active.
  ghost predicate WithinCapacity(db: Db, key: ResourceKey, t: int) {
    forall id, i | id in db && 0 <= i < |db[id].steps| && HoldsLease(db[id].steps[i], key, t) ::
      |ActiveLeases(db, key, t)| <= db[id].steps[i].concurrency
  }

  ghost predicate CapacityFrom(db: Db, clock: int) {
    forall key, t | t >= clock :: WithinCapacity(db, key, t)
  }

  ghost predicate DbInv(db: Db, clock: int) {
    Stored(db, clock) && UniqueRequests(db) && CapacityFrom(db, clock)
  }

  ghost predicate DbEvolves(db: Db, later: Db) {
    forall id | id in db :: id in later && Evolves(db[id], later[id])
  }

  // Calls as the service makes them: it submits only requests built from a
  // validated target.
  predicate Submitted(c: Call) {
    c.op.OpCreate? ==> AcceptedRequest(c.op.run)
  }

  predicate AllSubmitted(calls: seq<Call>) {
    forall i | 0 <= i < |calls| :: Submitted(calls[i])
  }

  // ------------------------------------------------------------------ leases

  // Every lease f holds at t, except that of step k, was held by e already.
  ghost predicate OldLeasesBut(e: Exec, f: Exec, k: int, t: int) {
    forall i, key | 0 <= i < |f.steps| && i != k && HoldsLease(f.steps[i], key, t) ::
      i < |e.steps| && HoldsLease(e.steps[i], key, t) && f.steps[i].concurrency == e.steps[i].concurrency
  }

  ghost predicate LeaseGranted(db: Db, e: Exec, f: Exec, tx: Tx, t: int) {
    && |f.steps| > 0
    && var last := f.steps[|f.steps| - 1];
       OldLeasesBut(e, f, |f.steps| - 1, t) && !AtCapacity(db, last.resource, tx.start, last.concurrency)
  }

  // A claim leases its step for the resource of the run's package.
  ghost predicate LeasesLast(e: Exec, f: Exec, t: int) {
    && |f.steps| > 0 && OldLeasesBut(e, f, |f.steps| - 1, t)
    && f.steps[|f.steps| - 1].resource == ResourceOf(e.run.Package())
    && f.steps[|f.steps| - 1].concurrency == e.run.Package().concurrency
  }

  lemma {:induction false} AgainLeases(e: Exec, clock: int, now: int, actor: Principal, token: string, t: int)
    requires ExecInv(e, clock) && InFlight(e)
    ensures LeasesLast(e, ClaimAgain(e, now, actor, token), t)
  {
    hide StepsOk, ResultsOk, ChainOk, StatusOk, LeaseOk, EventsOk, UsageOk, SourcesOk, FrozenOk, Charged, LeaseEnd;
  }

  lemma {:induction false} FreshLeases(e: Exec, now: int, actor: Principal, token: string, sid: StepId, t: int)
    ensures LeasesLast(e, ClaimFresh(e, now, actor, token, sid), t)
  {
    hide Charged, LeaseEnd;
    var f := ClaimFresh(e, now, actor, token, sid);
    assert f.steps == e.steps + [f.steps[|e.steps|]];
  }

  lemma {:induction false} ClaimLeases(db: Db, id: RunId, clock: int, tx: Tx, g: Grants, actor: Principal,
                                       token: string, sid: StepId, t: int)
    requires id in db && ExecInv(db[id], clock)
    ensures var f := ClaimExec(db, db[id], tx, g, actor, token, sid).0;
            OldLeasesBut(db[id], f, -1, t) || LeaseGranted(db, db[id], f, tx, t)
  {
    hide ExecInv, AtCapacity, ModelBudgetSpent, StepIdUsed, ClaimAgain, ClaimFresh, OldLeasesBut;
    var e := db[id];
    SameLeases(e, t);
    StoppedLeases(e, actor, "accepted_context_changed", t);
    StoppedLeases(e, actor, "deadline_exhausted", t);
    StoppedLeases(e, actor, "model_budget_exhausted", t);
    if InFlight(e) { AgainLeases(e, clock, tx.now, actor, token, t); }
    FreshLeases(e, tx.now, actor, token, sid, t);
  }

  lemma StoppedLeases(e: Exec, actor: Principal, why: string, t: int)
    ensures OldLeasesBut(e, Stopped(e, actor, why), -1, t)
  {
  }

  lemma {:induction false} ControlLeases(e: Exec, now: int, g: Grants, actor: Principal, version: int, action: Action,
                                         reason: string, credential: string, t: int)
    requires now <= t
    ensures OldLeasesBut(e, ControlExec(e, now, g, actor, version, action, reason, credential).0, -1, t)
  {
    ControlSteps(e, now, g, actor, version, action, reason, credential);
    hide ControlExec;
  }

  // Controlling a run leaves its steps, or takes the lease of the open one away.
  lemma {:induction false} ControlSteps(e: Exec, now: int, g: Grants, actor: Principal, version: int, action: Action,
                                        reason: string, credential: string)
    ensures var f := ControlExec(e, now, g, actor, version, action, reason, credential).0;
            f.steps == e.steps || (LoadStep(e).Some? && f.steps == Revoked(e, now).steps)
  {
  }

  lemma {:induction false} FinishLeases(e: Exec, now: int, actor: Principal, result: ExecutionResult, evidence: Sha,
                                        status: Status, stage: Stage, t: int)
    requires LoadStep(e).Some?
    ensures OldLeasesBut(e, Finish(e, now, actor, result, evidence, status, stage), -1, t)
  {
    hide FinishedStatus, Reported, OutcomeText;
  }

  lemma {:induction false} CompleteLeases(e: Exec, now: int, g: Grants, l: Lease, actor: Principal,
                                          result: ExecutionResult, evidence: Sha, status: Status, stage: Stage, t: int)
    ensures OldLeasesBut(e, CompleteExec(e, now, g, l, actor, result, evidence, status, stage).0, -1, t)
  {
    hide ValidTransition, Finish, OldLeasesBut;
    assert OldLeasesBut(e, e, -1, t) by { SameLeases(e, t); }
    if LoadStep(e).Some? { FinishLeases(e, now, actor, result, evidence, status, stage, t); }
  }

  lemma SameLeases(e: Exec, t: int)
    ensures OldLeasesBut(e, e, -1, t)
  {
  }

  lemma {:induction false} OtherLeases(db: Db, id: RunId, c: Call, t: int)
    requires id in db && !c.op.OpCreate? && !c.op.OpClaim? && c.tx.now <= t
    ensures OldLeasesBut(db[id], OnExec(db, db[id], c).0, -1, t)
  {
    hide ControlExec, CompleteExec, FindReservation, SourceBudgetSpent;
    var e, now := db[id], c.tx.now;
    match c.op
    case OpComplete(l, actor, result, evidence, status, stage) =>
      CompleteLeases(e, now, c.grants, l, actor, result, evidence, status, stage, t);
    case OpControl(_, _, actor, version, action, reason, credential) =>
      ControlLeases(e, now, c.grants, actor, version, action, reason, credential, t);
    case _ =>
  }

  lemma {:induction false} CapacityKept(db: Db, id: RunId, f: Exec, tx: Tx, key: ResourceKey, t: int)
    requires id in db && WithinCapacity(db, key, t)
    requires OldLeasesBut(db[id], f, -1, t)
    ensures WithinCapacity(db[id := f], key, t)
  {
    SubsetSize(ActiveLeases(db[id := f], key, t), ActiveLeases(db, key, t));
  }

  // After one more lease, the leases active at t are among those counted when
  // the claim was granted and the new one.
  lemma {:induction false} TakenSize(db: Db, id: RunId, f: Exec, start: int, key: ResourceKey, t: int)
    requires id in db && start <= t && |f.steps| > 0
    requires OldLeasesBut(db[id], f, |f.steps| - 1, t)
    ensures |ActiveLeases(db[id := f], key, t)| <= |ActiveLeases(db, key, start)| + 1
    ensures !HoldsLease(f.steps[|f.steps| - 1], key, t) ==>
              |ActiveLeases(db[id := f], key, t)| <= |ActiveLeases(db, key, t)|
  {
    hide HoldsLease, ActiveLeases, OldLeasesBut;
    var k := |f.steps| - 1;
    var before, counted := ActiveLeases(db, key, t), ActiveLeases(db, key, start);
    var after := ActiveLeases(db[id := f], key, t);
    assert before <= counted by { EarlierLeases(db, key, start, t); }
    NewLease(db, id, f, key, t);
    SubsetSize(after, counted + {(id, k)});
    assert |counted + {(id, k)}| <= |counted| + 1;
    if !HoldsLease(f.steps[k], key, t) { SubsetSize(after, before); }
  }

  lemma {:induction false} NewLease(db: Db, id: RunId, f: Exec, key: ResourceKey, t: int)
    requires id in db && |f.steps| > 0 && OldLeasesBut(db[id], f, |f.steps| - 1, t)
    ensures ActiveLeases(db[id := f], key, t) <= ActiveLeases(db, key, t) + {(id, |f.steps| - 1)}
    ensures !HoldsLease(f.steps[|f.steps| - 1], key, t) ==>
              ActiveLeases(db[id := f], key, t) <= ActiveLeases(db, key, t)
  {
    hide HoldsLease;
  }

  lemma {:induction false} EarlierLeases(db: Db, key: ResourceKey, start: int, t: int)
    requires start <= t
    ensures ActiveLeases(db, key, t) <= ActiveLeases(db, key, start)
  {
  }

  lemma {:induction false} CapacityTaken(db: Db, id: RunId, f: Exec, tx: Tx, key: ResourceKey, t: int)
    requires id in db && WithinCapacity(db, key, t) && tx.start <= t
    requires LeaseGranted(db, db[id], f, tx, t)
    ensures WithinCapacity(db[id := f], key, t)
  {
    hide ActiveLeases;
    var k, later := |f.steps| - 1, db[id := f];
    TakenSize(db, id, f, tx.start, key, t);
    forall r, i | r in later && 0 <= i < |later[r].steps| && HoldsLease(later[r].steps[i], key, t)
      ensures |ActiveLeases(later, key, t)| <= later[r].steps[i].concurrency
    {
      if r != id || i != k {
        assert r in db && 0 <= i < |db[r].steps| && HoldsLease(db[r].steps[i], key, t);
        assert HoldsLease(db[r].steps[i], key, tx.start);
        assert later[r].steps[i].concurrency == db[r].steps[i].concurrency;
      }
    }
  }

  lemma {:induction false} CapacityStep(db: Db, clock: int, c: Call)
    requires DbInv(db, clock) && c.tx.start <= c.tx.now
    requires !c.op.OpCreate?
    ensures CapacityFrom(Apply(db, c).0, Max(clock, c.tx.now))
  {
    hide ExecInv, OnExec, AtCapacity;
    var later := Apply(db, c).0;
    var id := c.op.Id();
    if Lock(db, c.op.Project(), id).Some? {
      var f := OnExec(db, db[id], c).0;
      forall key, t | t >= Max(clock, c.tx.now) ensures WithinCapacity(later, key, t) {
        assert WithinCapacity(db, key, t);
        OnExecLeases(db, id, clock, c, t);
        if OldLeasesBut(db[id], f, -1, t) {
          CapacityKept(db, id, f, c.tx, key, t);
        } else {
          CapacityTaken(db, id, f, c.tx, key, t);
        }
      }
    }
  }

  lemma {:induction false} OnExecLeases(db: Db, id: RunId, clock: int, c: Call, t: int)
    requires id in db && ExecInv(db[id], clock) && !c.op.OpCreate? && c.tx.now <= t
    ensures var f := OnExec(db, db[id], c).0;
            OldLeasesBut(db[id], f, -1, t) || LeaseGranted(db, db[id], f, c.tx, t)
  {
    hide ExecInv, ClaimExec, OldLeasesBut, LeaseGranted;
    if c.op.OpClaim? {
      ClaimLeases(db, id, clock, c.tx, c.grants, c.op.actor, c.op.token, c.op.sid, t);
    } else {
      OtherLeases(db, id, c, t);
    }
  }

  // ---------------------------------------------------------------- creation

  lemma {:induction false} CreatedInv(run: Run, clock: int)
    requires AcceptedRequest(run) && run.status == Ready && run.version == 0 && run.stepNumber == 0
    requires run.usage == NO_USAGE
    ensures ExecInv(Saved(Exec(run, [], [], map[], []), CreatedEvent, run.owner, None,
                          "accepted_intent_and_distinct_scoped_workers", ""), clock)
  {
  }

  lemma {:induction false} CreateCapacity(db: Db, clock: int, e: Exec)
    requires CapacityFrom(db, clock) && e.run.id !in db && e.steps == []
    ensures CapacityFrom(db[e.run.id := e], clock)
  {
    var later := db[e.run.id := e];
    forall key, t | t >= clock ensures WithinCapacity(later, key, t) {
      assert WithinCapacity(db, key, t);
      assert ActiveLeases(later, key, t) == ActiveLeases(db, key, t);
    }
  }

  lemma {:induction false} CreateUnique(db: Db, e: Exec)
    requires UniqueRequests(db) && e.run.id !in db
    requires forall id | id in db :: !SameRequest(db[id].run, e.run)
    ensures UniqueRequests(db[e.run.id := e])
  {
    var later := db[e.run.id := e];
    forall a, b | a in later && b in later && SameRequest(later[a].run, later[b].run) ensures a == b {
      hide SameRequest;
      assert a == e.run.id || !SameRequest(db[a].run, e.run);
    }
  }

  lemma {:induction false} CreateKeeps(db: Db, clock: int, c: Call)
    requires DbInv(db, clock) && c.op.OpCreate? && Submitted(c)
    ensures DbInv(Apply(db, c).0, Max(clock, c.tx.now)) && DbEvolves(db, Apply(db, c).0)
  {
    hide ExecInv, Evolves, AcceptedRequest, CapacityFrom, UniqueRequests, ActiveRuns, Apply;
    CreatedOnly(db, c);
    var next, run, later := Apply(db, c).0, c.op.run, Max(clock, c.tx.now);
    forall id | id in db ensures Keeps(db[id], db[id], later) { LaterClock(db[id], clock, later); }
    CapacityLater(db, clock, later);
    if next != db {
      CreatedInv(run, later);
      CreateUnique(db, next[run.id]);
      CreateCapacity(db, later, next[run.id]);
    }
  }

  // Creating adds the request as it was submitted, if its key is new.
  lemma {:induction false} CreatedOnly(db: Db, c: Call)
    requires c.op.OpCreate?
    ensures var next, run := Apply(db, c).0, c.op.run;
            next != db ==>
              && next == db[run.id := Saved(Exec(run, [], [], map[], []), CreatedEvent, run.owner, None,
                                            "accepted_intent_and_distinct_scoped_workers", "")]
              && run.id !in db && run.status == Ready && run.version == 0 && run.stepNumber == 0
              && run.usage == NO_USAGE && (forall id | id in db :: !SameRequest(db[id].run, run))
  {
    hide ActiveRuns, ParticipantsAssignable, SameRequest, Saved;
    var same := set id | id in db && SameRequest(db[id].run, c.op.run);
    forall id | id in db && SameRequest(db[id].run, c.op.run) ensures same != {} { assert id in same; }
  }

  lemma CapacityLater(db: Db, clock: int, now: int)
    requires CapacityFrom(db, clock) && clock <= now
    ensures CapacityFrom(db, now)
  {
  }

  lemma {:induction false} StoreLater(db: Db, clock: int, later: int)
    requires DbInv(db, clock) && clock <= later
    ensures DbInv(db, later)
  {
    hide ExecInv, Evolves, CapacityFrom, UniqueRequests;
    forall id | id in db ensures Keeps(db[id], db[id], later) { LaterClock(db[id], clock, later); }
    CapacityLater(db, clock, later);
  }

  // ------------------------------------------------- one call, then all calls

  lemma {:induction false} ApplyKeeps(db: Db, clock: int, c: Call)
    requires DbInv(db, clock) && c.tx.start <= c.tx.now && Submitted(c)
    ensures DbInv(Apply(db, c).0, Max(clock, c.tx.now)) && DbEvolves(db, Apply(db, c).0)
  {
    hide ExecInv, OnExec, CapacityFrom, Create;
    if c.op.OpCreate? {
      CreateKeeps(db, clock, c);
    } else {
      var later := Max(clock, c.tx.now);
      CapacityStep(db, clock, c);
      forall id | id in db ensures Keeps(db[id], db[id], later) { LaterClock(db[id], clock, later); }
      if Lock(db, c.op.Project(), c.op.Id()).Some? {
        OperationKeeps(db, c.op.Id(), clock, c);
      }
    }
  }

  lemma {:induction false} EvolvesTransitive(e: Exec, f: Exec, g: Exec)
    requires Evolves(e, f) && Evolves(f, g)
    ensures Evolves(e, g)
  {
  }

  // Whatever is called, in whatever order, the store keeps its invariants.
  lemma {:induction false} RunAllKeeps(db: Db, clock: int, calls: seq<Call>)
    requires DbInv(db, clock) && Timed(calls) && AllSubmitted(calls)
    ensures DbInv(RunAll(db, calls), ClockAfter(clock, calls)) && DbEvolves(db, RunAll(db, calls))
    decreases calls
  {
    hide ExecInv, Evolves, Apply, CapacityFrom;
    if calls == [] {
      forall id | id in db ensures Evolves(db[id], db[id]) { LaterClock(db[id], clock, clock); }
    } else {
      var next := Apply(db, calls[0]).0;
      ApplyKeeps(db, clock, calls[0]);
      RunAllKeeps(next, Max(clock, calls[0].tx.now), calls[1..]);
      forall id | id in db ensures id in RunAll(db, calls) && Evolves(db[id], RunAll(db, calls)[id]) {
        EvolvesTransitive(db[id], next[id], RunAll(db, calls)[id]);
      }
    }
  }

  lemma EmptyInv(clock: int)
    ensures DbInv(map[], clock)
  {
  }

  // A store some sequence of service calls leads to.
  ghost predicate Reachable(db: Db, clock: int) {
    exists start, calls :: Timed(calls) && AllSubmitted(calls)
                           && db == RunAll(map[], calls) && clock == ClockAfter(start, calls)
  }

  lemma {:induction false} ReachableInv(db: Db, clock: int)
    requires Reachable(db, clock)
    ensures DbInv(db, clock)
  {
    hide DbInv;
    var start, calls :| Timed(calls) && AllSubmitted(calls)
                        && db == RunAll(map[], calls) && clock == ClockAfter(start, calls);
    EmptyInv(start);
    RunAllKeeps(map[], start, calls);
  }
}
