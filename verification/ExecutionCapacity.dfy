// The capacity of what runs share, by what the packages of the steps pin.
module ExecutionCapacity {
  import opened ExecutionDomain
  import opened ExecutionSpec
  import opened ExecutionInvariants
  import opened ExecutionSystem

  // A step at work: not completed, and its lease not run out.
  predicate AtWork(s: Step, t: int) { s.completedAt.None? && s.leaseUntil > t }

  // The steps at work in one pinned evaluator image.
  function ImageUsers(db: Db, image: string, t: int): set<(RunId, int)> {
    set id, i | id in db && 0 <= i < |db[id].steps| && AtWork(db[id].steps[i], t)
                && db[id].steps[i].packageSha.of.evaluatorImage == image :: (id, i)
  }

  // Those on one local model, without an image.
  function ModelUsers(db: Db, sha: Sha, t: int): set<(RunId, int)> {
    set id, i | id in db && 0 <= i < |db[id].steps| && AtWork(db[id].steps[i], t)
                && db[id].steps[i].packageSha.of.evaluatorImage == "" && db[id].steps[i].packageSha.of.model != ""
                && db[id].steps[i].packageSha.of.modelSha == sha :: (id, i)
  }

  // Those of one role, with neither.
  function RoleUsers(db: Db, role: Role, t: int): set<(RunId, int)> {
    set id, i | id in db && 0 <= i < |db[id].steps| && AtWork(db[id].steps[i], t)
                && db[id].steps[i].packageSha.of.evaluatorImage == "" && db[id].steps[i].packageSha.of.model == ""
                && db[id].steps[i].packageSha.of.role == role :: (id, i)
  }

  // The steps at work on whatever a package shares.
  function Sharers(db: Db, pkg: Package, t: int): set<(RunId, int)> {
    if pkg.evaluatorImage != "" then ImageUsers(db, pkg.evaluatorImage, t)
    else if pkg.model != "" then ModelUsers(db, pkg.modelSha, t)
    else RoleUsers(db, pkg.role, t)
  }

  ghost predicate Recorded(db: Db) {
    forall id, i | id in db && 0 <= i < |db[id].steps| ::
      && db[id].steps[i].resource == ResourceOf(db[id].steps[i].packageSha.of)
      && db[id].steps[i].concurrency == db[id].steps[i].packageSha.of.concurrency
  }

  lemma {:induction false} StepsRecorded(db: Db, clock: int)
    requires DbInv(db, clock)
    ensures Recorded(db)
  {
    hide StepsOk, ResultsOk, ChainOk, StageOk, StatusOk, LeaseOk, EventsOk, UsageOk, SourcesOk, FrozenOk, CapacityFrom,
         UniqueRequests, ResourceOf;
    forall id, i | id in db && 0 <= i < |db[id].steps|
      ensures db[id].steps[i].resource == ResourceOf(db[id].steps[i].packageSha.of)
      ensures db[id].steps[i].concurrency == db[id].steps[i].packageSha.of.concurrency
    {
      assert ExecInv(db[id], clock);
      assert StepMatches(db[id].run.target, db[id].run.packages, db[id].steps[i]);
    }
  }

  // The rows counted for a package are the steps at work on what it shares.
  lemma {:induction false} CountedAreSharers(db: Db, pkg: Package, t: int)
    requires Recorded(db)
    ensures ActiveLeases(db, ResourceOf(pkg), t) == Sharers(db, pkg, t)
  {
  }

  // So many are allowed by the package of every one of them.
  ghost predicate Allowed(db: Db, users: set<(RunId, int)>) {
    forall id, i | (id, i) in users ::
      id in db && 0 <= i < |db[id].steps| && |users| <= db[id].steps[i].packageSha.of.concurrency
  }

  lemma {:induction false} SharersAllowed(db: Db, clock: int, pkg: Package, t: int)
    requires DbInv(db, clock) && t >= clock
    ensures Allowed(db, Sharers(db, pkg, t))
  {
    hide ExecInv, Sharers, ResourceOf, UniqueRequests;
    StepsRecorded(db, clock);
    CountedAreSharers(db, pkg, t);
    assert WithinCapacity(db, ResourceOf(pkg), t);
  }

  // From any reachable state on, the steps at work in one image, on one model
  // or in one role are never more than any of their packages allows.
  lemma {:induction false} SharedWithinCapacity(db: Db, clock: int, t: int)
    requires Reachable(db, clock) && t >= clock
    ensures forall image | image != "" :: Allowed(db, ImageUsers(db, image, t))
    ensures forall sha :: Allowed(db, ModelUsers(db, sha, t))
    ensures forall role :: Allowed(db, RoleUsers(db, role, t))
  {
    hide DbInv, ImageUsers, ModelUsers, RoleUsers, Allowed;
    ReachableInv(db, clock);
    forall image | image != "" ensures Allowed(db, ImageUsers(db, image, t)) {
      SharersAllowed(db, clock, NO_PACKAGE.(evaluatorImage := image), t);
    }
    forall sha ensures Allowed(db, ModelUsers(db, sha, t)) {
      SharersAllowed(db, clock, NO_PACKAGE.(model := "model", modelSha := sha), t);
    }
    forall role ensures Allowed(db, RoleUsers(db, role, t)) {
      SharersAllowed(db, clock, NO_PACKAGE.(role := role), t);
    }
  }
}
