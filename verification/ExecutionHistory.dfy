// What holds of a run because of the calls that were made before.
module ExecutionHistory {
  import opened ExecutionDomain
  import opened ExecutionSpec
  import opened ExecutionInvariants
  import opened ExecutionSystem
  import opened ExecutionAnswers
  import opened ExecutionLeases

  // ---------------------------------------------------------- how long a lease lasts

  // A claim of the run that was granted, and the lease it answered.
  ghost predicate Hands(db: Db, claim: Call, l: Lease) {
    && claim.op.OpClaim? && claim.tx.start <= claim.tx.now && Apply(db, claim).1.Claimed?
    && var answer := Apply(db, claim).1;
       l == Lease(claim.op.project, claim.op.id, answer.step.id, answer.step.fence, answer.token)
  }

  // Neither completed, nor handed on or taken back since.
  predicate StillIts(e: Exec, k: int, l: Lease) {
    && 0 <= k < |e.steps| && e.steps[k].fence == l.fence && e.steps[k].completedAt.None?
    && (e.run.status == Running || e.run.status == Reconciling)
  }

  predicate InTime(claimed: Exec, pkg: Package, at: int, later: Exec, now: int) {
    now < at + (pkg.timeoutSeconds + 30) * SECOND && now < claimed.run.deadline && now < later.run.deadline
  }

  lemma {:induction false} AfterClaim(db: Db, clock: int, claim: Call, l: Lease, between: seq<Call>) returns (at: int)
    requires DbInv(db, clock) && Hands(db, claim, l) && Timed(between) && AllSubmitted(between)
    ensures l.runId in db && l.runId in Apply(db, claim).0 && l.runId in RunAll(Apply(db, claim).0, between)
    ensures DbInv(RunAll(Apply(db, claim).0, between), at)
    ensures var e, f := db[l.runId], Apply(db, claim).0[l.runId];
            && claim.op.OpClaim? && Granted(e, f, claim)
            && HandsLast(f, claim.op, l)
            && Apply(db, claim).1 == Claimed(f.run, f.steps[|f.steps| - 1], claim.op.token)
            && Evolves(f, RunAll(Apply(db, claim).0, between)[l.runId])
  {
    hide DbInv, Evolves, Granted, Apply;
    ClaimGrants(db, clock, claim);
    ApplyKeeps(db, clock, claim);
    RunAllKeeps(Apply(db, claim).0, Max(clock, claim.tx.now), between);
    at := ClockAfter(Max(clock, claim.tx.now), between);
    LastOfGranted(db[l.runId], Apply(db, claim).0[l.runId], claim);
  }

  // The lease is of the run's last step, under the claim's token.
  predicate HandsLast(f: Exec, op: Op, l: Lease)
    requires op.OpClaim?
  {
    && |f.steps| > 0 && l.projectId == f.run.projectId && l.token == op.token
    && var s := f.steps[|f.steps| - 1];
       l.stepId == s.id && l.fence == s.fence
  }

  lemma {:induction false} CheckDecides(db: Db, clock: int, c: Call)
    requires DbInv(db, clock) && c.op.OpCheck? && c.op.lease.runId in db
    requires db[c.op.lease.runId].run.projectId == c.op.lease.projectId
    ensures Apply(db, c).1.RunIs? <==> Live(db[c.op.lease.runId], c.tx.now, c.grants, c.op.lease, c.op.actor)
    ensures UsesLease(c.op) && ExecInv(db[c.op.lease.runId], clock)
  {
    hide Live, Apply, ExecInv;
    LeaseDecides(db, clock, c);
    StoredInv(db, clock, c.op.lease.runId);
  }

  // The lease of one claim, checked any number of calls later: it is accepted
  // exactly from its own workload, while its step is still its, for the
  // package's time and thirty seconds from the claim and within the deadlines.
  lemma {:induction false} LeaseLastsExactly(db: Db, clock: int, claim: Call, l: Lease, between: seq<Call>, c: Call)
    requires Reachable(db, clock) && Hands(db, claim, l) && Timed(between) && AllSubmitted(between)
    requires c.op.OpCheck? && c.op.lease == l
    ensures l.runId in db && l.runId in RunAll(Apply(db, claim).0, between)
    ensures var answer, mid := Apply(db, claim).1, RunAll(Apply(db, claim).0, between);
            Apply(mid, c).1.RunIs? <==>
              && StillIts(mid[l.runId], answer.step.number - 1, l)
              && InTime(db[l.runId], answer.step.packageSha.of, claim.tx.now, mid[l.runId], c.tx.now)
              && c.op.actor == claim.op.actor && c.grants.actor && c.grants.owner && c.grants.requirements.None?
  {
    hide *;
    ReachableInv(db, clock);
    var at := AfterClaim(db, clock, claim, l, between);
    var next, mid := Apply(db, claim).0, RunAll(Apply(db, claim).0, between);
    SameProject(next[l.runId], mid[l.runId], claim.op, l);
    CheckDecides(mid, at, c);
    LiveLater(db[l.runId], next[l.runId], mid[l.runId], at, claim, l, c);
  }

  lemma SameProject(f: Exec, later: Exec, op: Op, l: Lease)
    requires op.OpClaim? && HandsLast(f, op, l) && Evolves(f, later)
    ensures later.run.projectId == l.projectId && |f.steps| > 0
  {
  }

  lemma {:induction false} LiveLater(e: Exec, f: Exec, mid: Exec, clock: int, claim: Call, l: Lease, c: Call)
    requires claim.op.OpClaim? && Granted(e, f, claim) && Evolves(f, mid) && ExecInv(mid, clock)
    requires UsesLease(c.op) && c.op.lease == l && HandsLast(f, claim.op, l)
    ensures var s := f.steps[|f.steps| - 1];
            Live(mid, c.tx.now, c.grants, l, c.op.actor) <==>
              && StillIts(mid, s.number - 1, l) && InTime(e, s.packageSha.of, claim.tx.now, mid, c.tx.now)
              && c.op.actor == claim.op.actor && c.grants.actor && c.grants.owner && c.grants.requirements.None?
  {
    hide ResultsOk, ChainOk, StatusOk, LeaseOk, EventsOk, UsageOk, SourcesOk, FrozenOk, ResultsGrow;
    var k := |f.steps| - 1;
    var s, t := f.steps[k], mid.steps[k];
    assert StepEvolves(s, t);
    assert StepMatches(mid.run.target, mid.run.packages, t);
    if Live(mid, c.tx.now, c.grants, l, c.op.actor) {
      assert mid.steps[|mid.steps| - 1].id == t.id;
    }
  }

  // Nor does any other call succeed under it: what a completion, a reservation
  // or a record of it is answered without failure is within the same bounds.
  lemma {:induction false} LeaseUsedInTime(db: Db, clock: int, claim: Call, l: Lease, between: seq<Call>, c: Call)
    requires Reachable(db, clock) && Hands(db, claim, l) && Timed(between) && AllSubmitted(between)
    requires UsesLease(c.op) && c.op.lease == l
    requires var mid := RunAll(Apply(db, claim).0, between); First(mid, c) && !Apply(mid, c).1.Fails?
    ensures l.runId in db && l.runId in RunAll(Apply(db, claim).0, between)
    ensures var answer, mid := Apply(db, claim).1, RunAll(Apply(db, claim).0, between);
            && StillIts(mid[l.runId], answer.step.number - 1, l)
            && InTime(db[l.runId], answer.step.packageSha.of, claim.tx.now, mid[l.runId], c.tx.now)
            && c.op.actor == claim.op.actor
  {
    hide *;
    ReachableInv(db, clock);
    var at := AfterClaim(db, clock, claim, l, between);
    var next, mid := Apply(db, claim).0, RunAll(Apply(db, claim).0, between);
    SameProject(next[l.runId], mid[l.runId], claim.op, l);
    UseIsLive(mid, at, c);
    LiveLater(db[l.runId], next[l.runId], mid[l.runId], at, claim, l, c);
  }

  lemma {:induction false} UseIsLive(db: Db, clock: int, c: Call)
    requires DbInv(db, clock) && UsesLease(c.op) && First(db, c) && !Apply(db, c).1.Fails?
    ensures c.op.lease.runId in db && ExecInv(db[c.op.lease.runId], clock)
    ensures Live(db[c.op.lease.runId], c.tx.now, c.grants, c.op.lease, c.op.actor)
  {
    hide Live, Apply, ExecInv;
    LeaseDecides(db, clock, c);
    StoredInv(db, clock, c.op.lease.runId);
  }

  // -------------------------------------------------- every lease was handed out

  lemma {:induction false} RunAllLast(db: Db, calls: seq<Call>)
    requires calls != []
    ensures RunAll(db, calls) == Apply(RunAll(db, calls[..|calls| - 1]), calls[|calls| - 1]).0
    decreases |calls|
  {
    hide Apply;
    if |calls| == 1 {
      assert calls[1..] == [] && calls[..0] == [];
    } else {
      var n := |calls| - 1;
      RunAllLast(Apply(db, calls[0]).0, calls[1..]);
      assert calls[1..][..n - 1] == calls[..n][1..] && calls[1..][n - 1] == calls[n] && calls[..n][0] == calls[0];
    }
  }

  // One of the calls handed the lease out.
  ghost predicate HandedBy(calls: seq<Call>, l: Lease) {
    exists n | 0 <= n < |calls| :: Hands(RunAll(map[], calls[..n]), calls[n], l)
  }

  function StepLease(e: Exec, s: Step): Lease { Lease(e.run.projectId, e.run.id, s.id, s.fence, s.leaseSha.of) }

  ghost predicate LeasesClaimed(calls: seq<Call>, db: Db, now: int) {
    forall id, i | id in db && 0 <= i < |db[id].steps| && db[id].steps[i].leaseUntil > now ::
      HandedBy(calls, StepLease(db[id], db[id].steps[i]))
  }

  // Other calls than claims leave a lease alone or end it.
  lemma {:induction false} OtherFences(db: Db, e: Exec, c: Call, i: nat)
    requires !c.op.OpCreate? && !c.op.OpClaim?
    ensures var f := OnExec(db, e, c).0;
            |f.steps| == |e.steps| && (i < |e.steps| ==>
              f.steps[i].fence == e.steps[i].fence || f.steps[i].leaseUntil <= c.tx.now)
  {
    hide FindReservation, SourceBudgetSpent, ValidTransition, ControlExec, FinishedStatus, Reported;
    if c.op.OpControl? {
      ControlSteps(e, c.tx.now, c.grants, c.op.actor, c.op.version, c.op.action, c.op.reason, c.op.credential);
    }
  }

  lemma {:induction false} HandedStill(calls: seq<Call>, c: Call, l: Lease)
    requires HandedBy(calls, l)
    ensures HandedBy(calls + [c], l)
  {
    var n :| 0 <= n < |calls| && Hands(RunAll(map[], calls[..n]), calls[n], l);
    assert (calls + [c])[..n] == calls[..n] && (calls + [c])[n] == calls[n];
  }

  // All steps but the last are as they were.
  predicate FormerKept(steps: Steps, later: Steps) {
    forall i | 0 <= i < |later| - 1 :: i < |steps| && later[i] == steps[i]
  }

  lemma {:induction false} GrantHands(db: Db, clock: int, c: Call)
    requires DbInv(db, clock) && c.op.OpClaim? && c.tx.start <= c.tx.now && Apply(db, c).1.Claimed?
    ensures c.op.id in db && c.op.id in Apply(db, c).0
    ensures var f := Apply(db, c).0[c.op.id];
            && |f.steps| > 0 && Hands(db, c, StepLease(f, f.steps[|f.steps| - 1]))
            && FormerKept(db[c.op.id].steps, f.steps)
    ensures Apply(db, c).0 == db[c.op.id := Apply(db, c).0[c.op.id]]
  {
    hide Apply, DbInv, Granted, FormerKept;
    ClaimGrants(db, clock, c);
    StoredId(db, clock, c.op.id);
    GrantedSteps(db[c.op.id], Apply(db, c).0[c.op.id], c);
  }

  lemma StoredId(db: Db, clock: int, id: RunId)
    requires DbInv(db, clock) && id in db
    ensures db[id].run.id == id
  {
    hide ExecInv, CapacityFrom, UniqueRequests;
  }

  lemma GrantedSteps(e: Exec, f: Exec, c: Call)
    requires c.op.OpClaim? && Granted(e, f, c)
    ensures |f.steps| > 0 && f.steps[|f.steps| - 1].leaseSha.of == c.op.token
    ensures f.run.id == e.run.id && f.run.projectId == e.run.projectId
    ensures FormerKept(e.steps, f.steps)
  {
    hide ChargedFor;
    forall i | 0 <= i < |f.steps| - 1 ensures i < |e.steps| && f.steps[i] == e.steps[i] {
      assert f.steps[i] == f.steps[..|f.steps| - 1][i];
    }
  }

  lemma {:induction false} LeasesStayClaimed(calls: seq<Call>, clock: int, c: Call, now: int)
    requires DbInv(RunAll(map[], calls), clock) && LeasesClaimed(calls, RunAll(map[], calls), now)
    requires c.tx.start <= c.tx.now <= now && Submitted(c)
    ensures LeasesClaimed(calls + [c], Apply(RunAll(map[], calls), c).0, now)
  {
    hide Apply, DbInv, Hands;
    var db := RunAll(map[], calls);
    var later := Apply(db, c).0;
    ApplyKeeps(db, clock, c);
    forall id, i | id in later && 0 <= i < |later[id].steps| && later[id].steps[i].leaseUntil > now
      ensures HandedBy(calls + [c], StepLease(later[id], later[id].steps[i]))
    {
      if OldLease(db, later, id, i) {
        HandedStill(calls, c, StepLease(db[id], db[id].steps[i]));
      } else {
        NewLeaseHanded(db, clock, c, id, i);
        assert (calls + [c])[..|calls|] == calls && (calls + [c])[|calls|] == c;
      }
    }
  }

  predicate OldLease(db: Db, later: Db, id: RunId, i: int)
    requires id in later && 0 <= i < |later[id].steps|
  {
    && id in db && i < |db[id].steps|
    && StepLease(later[id], later[id].steps[i]) == StepLease(db[id], db[id].steps[i])
    && later[id].steps[i].leaseUntil == db[id].steps[i].leaseUntil
  }

  lemma RefusedSteps(db: Db, e: Exec, c: Call)
    requires c.op.OpClaim? && !OnExec(db, e, c).1.Claimed?
    ensures OnExec(db, e, c).0.steps == e.steps
  {
    hide AtCapacity, ModelBudgetSpent, StepIdUsed, ClaimAgain, ClaimFresh;
  }

  // A lease that was not there before the call is the one the call handed out.
  lemma {:induction false} NewLeaseHanded(db: Db, clock: int, c: Call, id: RunId, i: int)
    requires DbInv(db, clock) && c.tx.start <= c.tx.now && Submitted(c)
    requires var later := Apply(db, c).0;
             id in later && 0 <= i < |later[id].steps| && later[id].steps[i].leaseUntil > c.tx.now
             && !OldLease(db, later, id, i)
    ensures var later := Apply(db, c).0; Hands(db, c, StepLease(later[id], later[id].steps[i]))
  {
    hide DbInv, OnExec, Hands, Create, OldLease;
    var later := Apply(db, c).0;
    ApplyKeeps(db, clock, c);
    if c.op.OpCreate? {
      CreatedOnly(db, c);
      SameIsOld(db, later, id, i);
    } else if id != c.op.Id() || !Addressed(db, c.op.Project(), id) {
      SameIsOld(db, later, id, i);
    } else if c.op.OpClaim? {
      if Apply(db, c).1.Claimed? {
        GrantHands(db, clock, c);
      } else {
        RefusedSteps(db, db[id], c);
      }
      KeptIsOld(db, later, id, i);
    } else {
      OtherFences(db, db[id], c, i);
      KeptIsOld(db, later, id, i);
    }
  }

  lemma SameIsOld(db: Db, later: Db, id: RunId, i: int)
    requires id in later && 0 <= i < |later[id].steps|
    ensures id in db && later[id] == db[id] ==> OldLease(db, later, id, i)
  {
  }

  lemma KeptIsOld(db: Db, later: Db, id: RunId, i: int)
    requires id in db && id in later && 0 <= i < |later[id].steps| && Evolves(db[id], later[id])
    ensures i < |db[id].steps| && later[id].steps[i].fence == db[id].steps[i].fence ==> OldLease(db, later, id, i)
  {
  }

  lemma {:induction false} AllLeasesClaimed(start: int, calls: seq<Call>, now: int)
    requires Timed(calls) && AllSubmitted(calls) && forall i | 0 <= i < |calls| :: calls[i].tx.now <= now
    ensures LeasesClaimed(calls, RunAll(map[], calls), now)
    ensures DbInv(RunAll(map[], calls), ClockAfter(start, calls))
    decreases |calls|
  {
    hide Apply, DbInv, HandedBy;
    EmptyInv(start);
    RunAllKeeps(map[], start, calls);
    if calls != [] {
      var init, c := calls[..|calls| - 1], calls[|calls| - 1];
      AllLeasesClaimed(start, init, now);
      RunAllLast(map[], calls);
      assert calls == init + [c];
      LeasesStayClaimed(init, ClockAfter(start, init), c, now);
    }
  }

  // A call under a lease, made no earlier than any before it, succeeds only if
  // one of them was the claim that handed out this lease, under this token.
  lemma {:induction false} UsedLeaseWasClaimed(calls: seq<Call>, c: Call)
    requires Timed(calls) && AllSubmitted(calls) && forall i | 0 <= i < |calls| :: calls[i].tx.now <= c.tx.now
    requires UsesLease(c.op) && First(RunAll(map[], calls), c) && !Apply(RunAll(map[], calls), c).1.Fails?
    ensures HandedBy(calls, c.op.lease)
  {
    hide *;
    AllLeasesClaimed(0, calls, c.tx.now);
    var db := RunAll(map[], calls);
    var at := ClockAfter(0, calls);
    UseIsLive(db, at, c);
    UseIsAddressed(db, at, c);
    LiveIsClaimed(calls, db, at, c);
  }

  lemma {:induction false} UseIsAddressed(db: Db, clock: int, c: Call)
    requires DbInv(db, clock) && UsesLease(c.op) && First(db, c) && !Apply(db, c).1.Fails?
    ensures Addressed(db, c.op.lease.projectId, c.op.lease.runId)
    ensures db[c.op.lease.runId].run.id == c.op.lease.runId
  {
    hide Live, Apply, ExecInv;
    LeaseDecides(db, clock, c);
    StoredInv(db, clock, c.op.lease.runId);
  }

  lemma {:induction false} LiveIsClaimed(calls: seq<Call>, db: Db, clock: int, c: Call)
    requires UsesLease(c.op) && Addressed(db, c.op.lease.projectId, c.op.lease.runId)
    requires db[c.op.lease.runId].run.id == c.op.lease.runId && LeasesClaimed(calls, db, c.tx.now)
    requires Live(db[c.op.lease.runId], c.tx.now, c.grants, c.op.lease, c.op.actor)
    ensures HandedBy(calls, c.op.lease)
  {
    hide HandedBy;
    var e := db[c.op.lease.runId];
    assert StepLease(e, e.steps[|e.steps| - 1]) == c.op.lease;
  }

  // --------------------------------------------------- what sources were asked

  // Every reservation was made by a step whose stage may query, within the
  // frozen target.
  ghost predicate ScopeKept(e: Exec) {
    forall k | 0 <= k < |e.reservations| :: AskedBy(e.run, e.steps, e.reservations[k])
  }

  ghost predicate AskedBy(run: Run, steps: Steps, r: Reservation) {
    && r.key == r.query.of.idempotencyKey
    && exists i | 0 <= i < |steps| :: steps[i].id == r.stepId && InScope(run, steps[i].stage, r.query.of)
  }

  ghost predicate ScopesKept(db: Db) { forall id | id in db :: ScopeKept(db[id]) }

  lemma OtherReservations(db: Db, e: Exec, c: Call)
    requires !c.op.OpCreate? && !c.op.OpReserve?
    ensures OnExec(db, e, c).0.reservations == e.reservations
  {
    hide LeaseError, ClaimExec, CompleteExec, ControlExec;
    match c.op
    case OpClaim(_, _, _, _, _) => ClaimReservations(db, e, c);
    case OpComplete(_, _, _, _, _, _) => CompleteReservations(db, e, c);
    case OpControl(_, _, _, _, _, _, _) => ControlReservations(db, e, c);
    case _ =>
  }

  lemma ClaimReservations(db: Db, e: Exec, c: Call)
    requires c.op.OpClaim?
    ensures OnExec(db, e, c).0.reservations == e.reservations
  {
    hide AtCapacity, ModelBudgetSpent, StepIdUsed, Charged, LeaseEnd, NewStep, InFlight;
  }

  lemma CompleteReservations(db: Db, e: Exec, c: Call)
    requires c.op.OpComplete?
    ensures OnExec(db, e, c).0.reservations == e.reservations
  {
    hide LeaseError, ValidTransition, FinishedRun, OutcomeText;
  }

  lemma ControlReservations(db: Db, e: Exec, c: Call)
    requires c.op.OpControl?
    ensures OnExec(db, e, c).0.reservations == e.reservations
  {
    hide InFlight, EffectStage;
  }

  lemma {:induction false} AskedStays(e: Exec, f: Exec, r: Reservation)
    requires AskedBy(e.run, e.steps, r) && RunFrozen(e.run, f.run) && StepsEvolve(e.steps, f.steps)
    ensures AskedBy(f.run, f.steps, r)
  {
    var i :| 0 <= i < |e.steps| && e.steps[i].id == r.stepId && InScope(e.run, e.steps[i].stage, r.query.of);
    assert StepEvolves(e.steps[i], f.steps[i]);
  }

  lemma {:induction false} ScopeStays(e: Exec, f: Exec)
    requires ScopeKept(e) && Evolves(e, f) && f.reservations == e.reservations
    ensures ScopeKept(f)
  {
    hide AskedBy, StepsEvolve, RunFrozen;
    forall k | 0 <= k < |f.reservations| ensures AskedBy(f.run, f.steps, f.reservations[k]) {
      AskedStays(e, f, e.reservations[k]);
    }
  }

  lemma {:induction false} ScopeGrows(e: Exec, f: Exec, c: Call)
    requires ScopeKept(e) && c.op.OpReserve? && |e.steps| > 0 && Reserved(e, f, c)
    requires Evolves(e, f) && e.steps[|e.steps| - 1].stage == e.run.stage && InScope(e.run, e.run.stage, c.op.query)
    ensures ScopeKept(f)
  {
    hide StepsEvolve;
    var n := |e.reservations|;
    forall k | 0 <= k < |f.reservations| ensures AskedBy(f.run, f.steps, f.reservations[k]) {
      if k < n {
        AskedStays(e, f, e.reservations[k]);
        assert f.reservations[k] == e.reservations[k];
      } else {
        assert f.steps[|e.steps| - 1].id == f.reservations[k].stepId;
      }
    }
  }

  lemma {:induction false} ReserveScope(db: Db, clock: int, c: Call)
    requires DbInv(db, clock) && c.tx.start <= c.tx.now && c.op.OpReserve? && ScopesKept(db)
    ensures ScopesKept(Apply(db, c).0)
  {
    hide DbInv, Apply, Live, ScopeKept, RefusedLease, Evolves;
    LeaseDecides(db, clock, c);
    if LiveCall(db, c) { LiveScope(db, clock, c); }
  }

  lemma {:induction false} LiveScope(db: Db, clock: int, c: Call)
    requires DbInv(db, clock) && c.tx.start <= c.tx.now && c.op.OpReserve? && ScopesKept(db) && LiveCall(db, c)
    ensures ScopesKept(Apply(db, c).0)
  {
    hide DbInv, Apply, Live, ScopesKept, ScopeKept, InScope, Reserved, ReserveOutcome, Evolves;
    var id := c.op.lease.runId;
    ApplyKeeps(db, clock, c);
    StoredInv(db, clock, id);
    LiveOpen(db[id], clock, c.tx.now, c.grants, c.op.lease, c.op.actor);
    ReservesExactly(db, clock, c);
    var later := Apply(db, c).0;
    ReserveCases(db, c, later, Apply(db, c).1);
    if later != db {
      ScopeOfOne(db, later, id);
      ScopeGrows(db[id], later[id], c);
    }
  }

  lemma ScopeOfOne(db: Db, later: Db, id: RunId)
    requires id in db && id in later && ScopesKept(db) && later == db[id := later[id]]
    ensures ScopeKept(db[id]) && (ScopeKept(later[id]) ==> ScopesKept(later))
  {
    hide ScopeKept;
  }

  lemma ReserveCases(db: Db, c: Call, later: Db, answer: Answer)
    requires c.op.OpReserve? && c.op.lease.runId in db && |db[c.op.lease.runId].steps| > 0
    requires ReserveOutcome(db, c, later, answer)
    ensures var id := c.op.lease.runId;
            later == db || (id in later && later == db[id := later[id]] && Reserved(db[id], later[id], c)
                            && InScope(db[id].run, db[id].run.stage, c.op.query))
  {
    hide Reserved, InScope, KeyTaken, ReservedFor;
  }

  lemma {:induction false} ScopesStay(db: Db, clock: int, c: Call)
    requires DbInv(db, clock) && c.tx.start <= c.tx.now && Submitted(c) && ScopesKept(db)
    ensures ScopesKept(Apply(db, c).0)
  {
    hide DbInv, OnExec, ScopeKept, Create;
    ApplyKeeps(db, clock, c);
    var later := Apply(db, c).0;
    if c.op.OpReserve? {
      ReserveScope(db, clock, c);
    } else if c.op.OpCreate? {
      CreatedOnly(db, c);
      if later != db { NoReservations(later[c.op.run.id]); }
    } else if Addressed(db, c.op.Project(), c.op.Id()) {
      OtherReservations(db, db[c.op.Id()], c);
      ScopeStays(db[c.op.Id()], later[c.op.Id()]);
    }
  }

  lemma NoReservations(e: Exec)
    ensures e.reservations == [] ==> ScopeKept(e)
  {
  }

  lemma {:induction false} AllScopesKept(calls: seq<Call>, db: Db, clock: int)
    requires DbInv(db, clock) && ScopesKept(db) && Timed(calls) && AllSubmitted(calls)
    ensures ScopesKept(RunAll(db, calls))
    decreases |calls|
  {
    hide DbInv, Apply, ScopesKept;
    if calls != [] {
      ScopesStay(db, clock, calls[0]);
      ApplyKeeps(db, clock, calls[0]);
      AllScopesKept(calls[1..], Apply(db, calls[0]).0, Max(clock, calls[0].tx.now));
    }
  }

  // In every reachable store each reserved query is of the run's project and
  // product, of a source and for a purpose the target was frozen with, and was
  // reserved by a diagnosis or a verification of recovery.
  lemma {:induction false} ReservationsInScope(db: Db, clock: int, id: RunId)
    requires Reachable(db, clock) && id in db
    ensures ScopeKept(db[id])
  {
    hide DbInv, ScopeKept;
    var start, calls :| Timed(calls) && AllSubmitted(calls)
                        && db == RunAll(map[], calls) && clock == ClockAfter(start, calls);
    EmptyInv(start);
    AllScopesKept(calls, map[], start);
  }
}
