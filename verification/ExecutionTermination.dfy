// Without an operator a run accepts only so many results, whatever its workers
// submit: the evaluate-to-build loop is paid for by attempts.
module ExecutionTermination {
  import opened ExecutionDomain
  import opened ExecutionSpec
  import opened ExecutionInvariants
  import opened ExecutionPreservation
  import opened ExecutionSystem

  // How far the stage is from the end; the first stage counts least before it
  // is claimed, since the claim pays an attempt.
  function Rank(stage: Stage, open: bool): nat {
    match stage
    case Build => if open then 4 else 0
    case Diagnose => if open then 4 else 0
    case Evaluate => 3
    case Remediate => 3
    case Deliver => 2
    case _ => 1
  }

  function Measure(e: Exec): int {
    5 * (e.run.target.budget.maxAttempts - e.run.usage.attempts) + Rank(e.run.stage, Open(e.steps))
  }

  function Potential(e: Exec): int {
    Measure(e) + if Claimable(e.run.status) then 1 else 0
  }

  // The part of a granted claim's effect the measure depends on.
  predicate ClaimedFrom(e: Exec, f: Exec) {
    f.run.target == e.run.target && f.run.stage == e.run.stage && Open(f.steps) && f.run.usage == Charged(e.run)
  }

  lemma {:induction false} ClaimCases(db: Db, e: Exec, tx: Tx, g: Grants, actor: Principal, token: string, sid: StepId)
    requires e.run.stepNumber == |e.steps|
    ensures var (f, answer) := ClaimExec(db, e, tx, g, actor, token, sid);
            if answer.Claimed? then
              ClaimedFrom(e, f) && Claimable(e.run.status)
              && (e.run.Package().UsesModel() || Charged(e.run) == e.run.usage)
            else
              f.steps == e.steps && f.run.target == e.run.target && f.run.stage == e.run.stage
              && f.run.usage == e.run.usage && (Claimable(f.run.status) ==> Claimable(e.run.status))
  {
    hide AtCapacity, ModelBudgetSpent, StepIdUsed, Charged, ClaimAgain, ClaimFresh, ClaimedFrom, LoadStep, LeaseEnd;
    NothingCharged(e.run);
    if InFlight(e) { AgainFrom(e, tx.now, actor, token); } else { FreshFrom(e, tx.now, actor, token, sid); }
  }

  lemma NothingCharged(run: Run)
    ensures !run.Package().UsesModel() ==> Charged(run) == run.usage
  {
  }

  lemma AgainFrom(e: Exec, now: int, actor: Principal, token: string)
    requires InFlight(e) && e.run.stepNumber == |e.steps|
    ensures ClaimedFrom(e, ClaimAgain(e, now, actor, token))
  {
    hide LeaseEnd, Charged;
  }

  lemma FreshFrom(e: Exec, now: int, actor: Principal, token: string, sid: StepId)
    ensures ClaimedFrom(e, ClaimFresh(e, now, actor, token, sid))
  {
    hide LeaseEnd, Charged;
  }

  lemma {:induction false} ClaimFalls(db: Db, id: RunId, clock: int, tx: Tx, g: Grants, actor: Principal,
                                      token: string, sid: StepId)
    requires id in db && ExecInv(db[id], clock)
    ensures var (f, answer) := ClaimExec(db, db[id], tx, g, actor, token, sid);
            && Potential(f) <= Potential(db[id])
            && (answer.Claimed? ==> Measure(f) <= Measure(db[id]))
            && (answer.Claimed? && db[id].run.stage == StartStage(db[id].run.kind) ==> Measure(f) < Measure(db[id]))
  {
    hide StepsMatch, StepsOk, ResultsOk, ChainOk, StatusOk, LeaseOk, EventsOk, UsageOk, SourcesOk, FrozenOk, ClaimExec;
    ClaimCases(db, db[id], tx, g, actor, token, sid);
    if Claimable(db[id].run.status) {
      OnlyStartUsesModel(db[id], clock);
      StageKnown(db[id], clock);
    }
  }

  lemma {:induction false} StageKnown(e: Exec, clock: int)
    requires ExecInv(e, clock) && !Final(e.run.status)
    ensures KindHas(e.run.kind, e.run.stage)
  {
    hide StepsMatch, StepsOk, ResultsOk, StatusOk, LeaseOk, EventsOk, UsageOk, SourcesOk, FrozenOk;
    StageOfKind(e.run.kind, e.steps, e.run.status, e.run.stage);
  }

  // A finished step leaves the run closed, at the next stage it was allowed.
  lemma {:induction false} FinishMeasures(e: Exec, now: int, actor: Principal, result: ExecutionResult, evidence: Sha,
                                          status: Status, stage: Stage)
    requires LoadStep(e).Some? && e.run.stepNumber == |e.steps|
    ensures var f := Finish(e, now, actor, result, evidence, status, stage);
            && !Open(f.steps) && f.run.target == e.run.target && f.run.usage.attempts == e.run.usage.attempts
            && f.run.stage == (if e.run.status == Reconciling then e.run.stage else stage)
            && f.run.status == FinishedStatus(e.run, result, status)
  {
    hide Reported, OutcomeText, FinishedStatus;
  }

  lemma RankFalls(kind: Kind, from: Stage, outcome: Outcome, status: Status, to: Stage)
    requires KindHas(kind, from) && ValidTransition(from, outcome, status, to)
    ensures status == Ready ==> Rank(to, false) < Rank(from, true)
    ensures Claimable(status) ==> status == Ready
    ensures Rank(to, false) <= Rank(from, true)
  {
  }

  lemma {:induction false} ResultFalls(e: Exec, clock: int, now: int, g: Grants, l: Lease, actor: Principal,
                                       result: ExecutionResult, evidence: Sha, status: Status, stage: Stage)
    requires ExecInv(e, clock)
    ensures var f := CompleteExec(e, now, g, l, actor, result, evidence, status, stage).0;
            f != e ==> Potential(f) < Potential(e) && (f.run.status == Ready ==> Measure(f) < Measure(e))
  {
    hide StepsMatch, StepsOk, ResultsOk, ChainOk, LeaseOk, EventsOk, UsageOk, SourcesOk, FrozenOk, StatusOk,
         Finish, Rank, ValidTransition, KindHas;
    if l.stepId !in e.results && LeaseError(e, now, g, l, actor).None? {
      StageKnown(e, clock);
      FinishMeasures(e, now, actor, result, evidence, status, stage);
      if ValidTransition(e.run.stage, result.outcome, status, stage) {
        RankFalls(e.run.kind, e.run.stage, result.outcome, status, stage);
      }
      RankKept(e.run.stage);
    }
  }

  lemma RankKept(stage: Stage)
    ensures Rank(stage, false) <= Rank(stage, true)
  {
  }

  lemma {:induction false} OtherCallsKeep(db: Db, id: RunId, clock: int, c: Call)
    requires id in db && ExecInv(db[id], clock)
    requires c.op.OpCheck? || c.op.OpReserve? || c.op.OpRecord?
    ensures Potential(OnExec(db, db[id], c).0) == Potential(db[id])
  {
    hide StepsMatch, StepsOk, ResultsOk, ChainOk, StageOk, StatusOk, LeaseOk, EventsOk, UsageOk, SourcesOk, FrozenOk,
         SourceBudgetSpent, FindReservation;
  }

  // An accepted new result of the run.
  ghost predicate IsResult(db: Db, id: RunId, c: Call) {
    c.op.OpComplete? && c.op.Id() == id && id in db && id in Apply(db, c).0 && Apply(db, c).0[id] != db[id]
  }

  ghost function CountResults(db: Db, id: RunId, calls: seq<Call>): nat
    decreases calls
  {
    if calls == [] then 0
    else (if IsResult(db, id, calls[0]) then 1 else 0) + CountResults(Apply(db, calls[0]).0, id, calls[1..])
  }

  predicate NoOperator(id: RunId, calls: seq<Call>) {
    forall i | 0 <= i < |calls| :: !(calls[i].op.OpControl? && calls[i].op.Id() == id)
  }

  lemma {:induction false} CallFalls(db: Db, id: RunId, clock: int, c: Call)
    requires DbInv(db, clock) && id in db
    requires !(c.op.OpControl? && c.op.Id() == id)
    ensures id in Apply(db, c).0
    ensures Potential(Apply(db, c).0[id]) + (if IsResult(db, id, c) then 1 else 0) <= Potential(db[id])
  {
    hide ExecInv, ClaimExec, CompleteExec, ControlExec, ReserveExec, RecordExec, LeaseError, Potential,
         CapacityFrom, UniqueRequests;
    var e := db[id];
    if !c.op.OpCreate? && c.op.Id() == id && Lock(db, c.op.Project(), id).Some? {
      match c.op
      case OpClaim(_, _, actor, token, sid) => ClaimFalls(db, id, clock, c.tx, c.grants, actor, token, sid);
      case OpComplete(l, actor, result, evidence, status, stage) =>
        ResultFalls(e, clock, c.tx.now, c.grants, l, actor, result, evidence, status, stage);
      case _ => OtherCallsKeep(db, id, clock, c);
    }
  }

  lemma {:induction false} PotentialPositive(e: Exec, clock: int)
    requires ExecInv(e, clock)
    ensures Potential(e) >= 0
  {
    hide StepsMatch, StepsOk, ResultsOk, ChainOk, StageOk, StatusOk, LeaseOk, EventsOk, SourcesOk, FrozenOk,
         ClaimCharge;
  }

  lemma {:induction false} ResultsBoundedFrom(db: Db, id: RunId, clock: int, calls: seq<Call>)
    requires DbInv(db, clock) && id in db && Timed(calls) && AllSubmitted(calls) && NoOperator(id, calls)
    ensures CountResults(db, id, calls) <= Potential(db[id])
    decreases calls
  {
    hide ExecInv, Apply, Potential, IsResult, CapacityFrom;
    if calls == [] {
      PotentialPositive(db[id], clock);
    } else {
      ApplyKeeps(db, clock, calls[0]);
      CallFalls(db, id, clock, calls[0]);
      ResultsBoundedFrom(Apply(db, calls[0]).0, id, Max(clock, calls[0].tx.now), calls[1..]);
    }
  }

  // Between operator actions at most five results for each attempt left, plus
  // those of the stage the run is in.
  lemma {:induction false} ResultsBounded(db: Db, id: RunId, clock: int, calls: seq<Call>)
    requires Reachable(db, clock) && id in db
    requires Timed(calls) && AllSubmitted(calls) && NoOperator(id, calls)
    ensures CountResults(db, id, calls)
            <= 5 * (db[id].run.target.budget.maxAttempts - db[id].run.usage.attempts) + 5
  {
    hide DbInv, CountResults, AllSubmitted, Timed, NoOperator;
    ReachableInv(db, clock);
    ResultsBoundedFrom(db, id, clock, calls);
  }
}
