# Verified model of the SDLC platform's core

This project models, in Dafny, the parts of the platform whose correctness spans several
operations, and proves what they promise over every run and every input.

* **The execution run protocol** (`Execution*.dfy`, `Registry.dfy`). Runs of features and
  incidents move through claim, lease check, completion, control, source reservation and
  artifact recording. Each call is one transaction. `ExecutionSpec` gives each as a function of
  the stored state, `ExecutionRepository` is the repository object whose methods update it and are
  proved against those functions, `ExecutionInvariants` and `ExecutionPreservation` hold what every
  transaction keeps, `ExecutionSystem` lifts that to many runs that share resources,
  `ExecutionTheorems`, `ExecutionHistory`, `ExecutionTokens` and `ExecutionTermination` state what
  follows for every sequence of calls; `ExecutionAnswers`, `ExecutionLeases`, `ExecutionControl` and
  `ExecutionCapacity` say of each call, in terms of the stored rows alone, when it succeeds and what it
  leaves.
* **External effects.** `Remedy.dfy`, `RemedyTraces.dfy` and `RemedyClient.dfy`: read, guard,
  conditional write and read-back against an HTTP endpoint, interleaved in every way. `Release.dfy` and
  `Staging.dfy`: staging a release on disk, with the process able to stop, and a write to be torn, at every step.
* **Unified diffs.** `Patch.dfy` and `FilePatch.dfy` print, `Diff.dfy` is an independent
  count-driven reader, `Hunks.dfy` and `Recount.dfy` re-count and check, `PatchRecount.dfy` shows
  when the two agree and `RecountReader.dfy` when the reader takes what was counted.
* **Graph expansion.** `Graph.dfy` defines undirected distance, the recursive query's walk and the
  traversal's trails; `GraphAnswers.dfy` the one right answer; `GraphMerge.dfy` the merging of limited
  rows and exactly when it is right; `GraphHydration.dfy` what a caller may see of an answer;
  `GraphStores.dfy` the two stores and the fallback between them.
* **File patterns.** `Regex.dfy` and `Glob.dfy` are a small compiler from globs to expressions with
  the meaning of both; `Policy.dfy` is the path policy on top.
* **The task queue** (`TaskQueue*.dfy`, `TaskStore.dfy`) and **the observation evaluator**
  (`Observations.dfy`).

`Wrappers.dfy`, `Sets.dfy`, `Text.dfy`, `Paths.dfy`, `Utf8.dfy` and `Sorting.dfy` are shared.
`dafny verify dfyconfig.toml` checks it all.

## Assumptions

* A transaction's later clock reading is not before its start. Transactions that wait for each other
  may commit in another order than they read the clock in. Packages and target are frozen in a run.
  Feature runs are submitted at `build`, incident runs at `diagnose`, from a validated target
  (internal/service/execution.go:129-135); the registry module proves what validation gives.
* Digests do not collide: a digest is modelled by the value it is taken of. The release model needs
  no such assumption and takes the digest as any function.
* Whether an actor, owner or participant is authorized, whether requirements are current, whether the
  artifact quota allows a record, whether evidence is accepted, which rows a limited query returns,
  what the network and the file system answer: all are parameters, so the theorems hold for every
  choice. A failed database call is a transaction that changed nothing.
* The remedy endpoint honours If-Match (section 13.1.1 of RFC 9110), nobody else writes to it, and
  the before and desired states differ. The staging directory has no other writer, and a process that
  ends keeps the file operations it completed, in their order (a power loss may not).
* Both graph stores see the same edges of one project, listed by type and id, and compare strings
  alike; which records exist, and in which project, is a parameter. The pattern matcher
  takes `path.Clean` as any function; `Paths` models it. Patterns are bytes and names code points.

## What the model found

* Token counts are checked for successes and failures of build and diagnose only, so the bound of used
  by charged tokens holds for metered results only; with metered results before, a
  result that passes the service's check is sure to keep it if and only if it is one of these
  (`ExecutionTokens.BoundKeptExactly`); `OverrunReachable` is a run that overruns.
* A printed patch is cut by the recount when an old last line `-- ...` ending in a newline meets a new
  first line `++ ...` (`PatchRecount.PrintedIsFixed` gives the exact condition, `CutPatch` an input).
* A release file torn by a crash makes its release unstageable for good (`Release.TornReleaseIsLost`).
* The traversal's limit counts paths, not nodes, and can drop a near node silently
  (`GraphStores.LimitLosesNode`); `GraphMerge.AnswerRightExactly` says exactly when it does no harm.
* The default forbidden patterns do not reach below a directory whose name holds a newline
  (`Policy.DefaultsProtect`, `NewlineSlipsPast`), since a dot does not match one.
* A workflow's queue can go on if and only if none of its tasks is blocked
  (`TaskQueueProgress.GoesOnExactly`); refusing a cloud review stops it for good (`QueueStops`).
* Nodes are hidden after the expansion, so a reported node may not hang together with the rest; the
  reported graph has its reported distance if and only if a shortest path to it is visible
  (`GraphHydration.ReportedDistance`).

## Model

| member | source | states |
|---|---|---|
| `ExecutionRepository.Repository.CreateExecution` | internal/postgres/execution.go:124-181 | One transaction: for every run, grant, clock and set of assignable workloads it answers and leaves exactly what the creation specification says; requests the service built from a validated target keep every invariant. |
| `ExecutionRepository.Repository.CheckParticipants` | internal/postgres/execution.go:153-165 | The loop over the participants accepts exactly targets all of whose participants are assignable to their roles. |
| `ExecutionRepository.Repository.InsertExecution` | internal/postgres/execution.go:130-181 | The order of the checks: owner, submitted zeros, requirements, replay of an idempotency key (same request or version conflict), each participant, concurrency of the target, insertion. |
| `ExecutionRepository.Repository.ClaimExecution` | internal/postgres/execution.go:274-395 | A claim of any run by any actor at any time refines the claim specification and keeps every invariant. |
| `ExecutionRepository.Repository.ClaimLocked` | internal/postgres/execution.go:282-360 | The refusals of a claim in their order; stale context, a passed deadline and a spent model budget block the run and are saved, the others change nothing. |
| `ExecutionRepository.Repository.Stop` | internal/postgres/execution.go:310-318 | Blocking a run saves the blocked status with one blocker, the next version and its event. |
| `ExecutionRepository.Repository.Grant` | internal/postgres/execution.go:361-395 | A granted claim raises the fence, renews or inserts the step, clears blockers and never turns a read-back into a running run; a colliding step id changes nothing. |
| `ExecutionRepository.Repository.CheckExecutionLease` | internal/postgres/execution.go:435-449 | Checking a lease changes nothing and answers exactly when the lease is accepted. |
| `ExecutionRepository.Repository.CompleteExecution` | internal/postgres/execution.go:451-521 | Completion refines its specification, replay of an acknowledged result included, and keeps every invariant. |
| `ExecutionRepository.Repository.CompleteLocked` | internal/postgres/execution.go:463-521 | A recorded result is replayed only to its own actor with its own evidence; otherwise lease, bound context, stage and transition are checked before anything is written. |
| `ExecutionRepository.Repository.FinishStep` | internal/postgres/execution.go:487-521 | The step, its result row, the run and the event are written together. |
| `ExecutionRepository.Repository.SettleRun` | internal/postgres/execution.go:501-516 | Token counts are added once; under read-back the requested status and stage are overruled by blocked or cancelled. |
| `ExecutionRepository.Repository.ControlExecution` | internal/postgres/execution.go:540-626 | Pause, cancel, resume and reconcile refine their specification and keep every invariant. |
| `ExecutionRepository.Repository.ControlLocked` | internal/postgres/execution.go:550-625 | Owner, version and finality are checked first; an effect in flight turns pause and cancel into read-back, otherwise the lease is revoked by a higher fence. |
| `ExecutionRepository.Repository.ReserveExecutionSource` | internal/postgres/execution.go:628-666 | A source reservation refines its specification: idempotent by key, refused outside the target's sources and budget. |
| `ExecutionRepository.Repository.ReserveLocked` | internal/postgres/execution.go:636-665 | The checks of a reservation in their order and the two counters it raises. |
| `ExecutionRepository.Repository.RecordExecutionArtifact` | internal/postgres/execution.go:668-705 | Recording an artifact refines its specification; a bound context digest is never replaced. |
| `ExecutionRepository.Repository.RecordLocked` | internal/postgres/execution.go:676-704 | A second, different context digest is a version conflict; quota is checked before the context is bound. |
| `ExecutionRepository.Repository.SaveStep` | internal/postgres/execution.go:255-261 | Only the current step's row changes. |
| `ExecutionRepository.Repository.SaveExecution` | internal/postgres/execution.go:99-122 | A run is stored under its next version together with the one event of that version. |
| `ExecutionPreservation.OnlyStartUsesModel` | internal/domain/execution.go:23-37 | Of a run's stages only build and diagnose have a package with a model, so only they are charged. |
| `ExecutionPreservation.RewriteClosedResults` | internal/postgres/execution.go:487-498 | Completing the open step adds exactly its row to the result table; no earlier row changes. |
| `ExecutionPreservation.ClaimFreshKeeps` | internal/postgres/execution.go:361-394 | A first claim of a stage keeps all run invariants and lets the run only evolve. |
| `ExecutionPreservation.ClaimAgainKeeps` | internal/postgres/execution.go:319-394 | A reclaim of an expired lease keeps all run invariants, changes only the lease of the open step, and never loses a bound context. |
| `ExecutionPreservation.FinishKeeps` | internal/postgres/execution.go:487-517 | An accepted result keeps all run invariants: only the last step may be incomplete, results and steps agree, stages follow the transition table. |
| `ExecutionPreservation.TransitionOk` | internal/postgres/execution.go:523-538 | The status and stage an accepted result leaves fit the stage machine for every outcome, read-back included. |
| `ExecutionPreservation.ReconciledKeeps` | internal/postgres/execution.go:565-583 | An operator's read-back decision keeps the invariants although it moves the deadline forward. |
| `ExecutionControl.ControlsExactly` | internal/postgres/execution.go:546-625 | Each action succeeds exactly for the owner, on the present version, of an unfinished run, under its own condition, and leaves exactly its status, blockers, lease, deadline and event: pause pauses, cancel cancels, both only ask for a read-back of an effect under way, resume makes ready, reconcile takes the lease back and gives five minutes. Refused, it changes nothing, with the error of the first check that fails. |
| `ExecutionControl.PauseThenResume` | internal/postgres/execution.go:584-618 | A run paused with no effect under way is resumed by its owner, before its deadline, to ready at the stage where it stood. |
| `ExecutionControl.CancelIsFinal` | internal/postgres/execution.go:556-557 | A run cancelled with no effect under way stays exactly as it is, whatever is called afterwards. |
| `ExecutionControl.EffectIsReadBack` | internal/postgres/execution.go:584-590 | With an effect under way neither pause nor cancel stops it: the run waits for its read-back and the step keeps its lease. |
| `ExecutionPreservation.ResumedKeeps` | internal/postgres/execution.go:604-618 | Resume keeps the invariants. |
| `ExecutionPreservation.FoundReservation` | internal/postgres/execution.go:641-650 | A reservation is found exactly when one with its step and key was made. |
| `ExecutionPreservation.ReserveKeeps` | internal/postgres/execution.go:628-666 | A reservation keeps queries equal to the number of reservations and rows to the sum of their limits, within budget. |
| `ExecutionPreservation.RecordKeeps` | internal/postgres/execution.go:668-705 | Binding a context keeps the invariants. |
| `ExecutionPreservation.OperationKeeps` | internal/postgres/execution.go:274-705 | Every transaction on a run keeps all run invariants and lets the run only evolve: fences never fall, completed steps, results, events and reservations never change, a finished run is never touched. |
| `ExecutionSystem.ClaimLeases` | internal/postgres/execution.go:325-344 | A claim adds at most the lease of the run's last step, and only below the capacity of that step's resource. |
| `ExecutionSystem.CapacityTaken` | internal/postgres/execution.go:325-381 | A lease granted below capacity keeps every resource within the smallest concurrency of its leases, at every later time. |
| `ExecutionSystem.CapacityStep` | internal/postgres/execution.go:325-344 | Every transaction keeps every resource within capacity at every time from its own clock reading on. |
| `ExecutionSystem.CreateUnique` | internal/postgres/execution.go:140-152 | Creation keeps idempotency keys unique per project and owner. |
| `ExecutionSystem.ApplyKeeps` | internal/postgres/execution.go:124-705 | Any transaction on a store with many runs keeps run invariants, unique requests and capacities of all of them. |
| `ExecutionSystem.RunAllKeeps` | internal/postgres/execution.go:124-705 | So does any sequence of transactions, and every run evolves along it. |
| `ExecutionSystem.ReachableInv` | internal/postgres/execution.go:124-705 | Every store reachable from the empty one by service calls satisfies the invariants. |
| `ExecutionCapacity.SharedWithinCapacity` | internal/postgres/execution.go:325-344 | From every reachable state on, the incomplete unexpired steps whose packages pin one evaluator image, or run one model without an image, or have one role with neither, are never more than the concurrency of any of their packages. |
| `ExecutionTheorems.CompletedFeature` | internal/postgres/execution.go:481-537 | Every reachable completed feature run ends in a successful build, then evaluate, deliver and verify_delivery in that order with only results that kept the stage between them, each by the target's workload for its role; builder, evaluator and deliverer are different workloads, and so are deliverer and verifier. |
| `ExecutionTheorems.CompletedIncident` | internal/postgres/execution.go:481-537 | The same for completed incident runs: diagnose, remediate and verify_recovery, by the workloads of diagnosis, remediation and evaluation. |
| `ExecutionTheorems.AcceptedLeaseUnique` | internal/postgres/execution.go:404-433 | Two leases accepted in one state are the same lease of the same actor. |
| `ExecutionTheorems.SupersededForever` | internal/postgres/execution.go:404-433 | A lease whose step is completed or fenced past is never accepted again, whatever is called next. |
| `ExecutionTheorems.LeaseEnded` | internal/postgres/execution.go:370-381 | Another claim, a completion, a reconcile decision, and a pause or cancel outside an effect each supersede the accepted lease. |
| `ExecutionTheorems.ClaimSupersedes` | internal/postgres/execution.go:361-381 | Every granted claim supersedes every lease handed out before for any step of the run, whether it could still be accepted or the run was blocked and resumed in between. |
| `ExecutionTheorems.LaterClaimFences` | internal/postgres/execution.go:361-433 | The lease of one granted claim is never accepted again after a later granted claim of the run, whatever is called before, between and after. |
| `ExecutionTheorems.ResultReplay` | internal/postgres/execution.go:459-473 | Whatever is called between, a completed step stays as it is and its result is replayed exactly to its own actor with its own evidence, changing nothing. |
| `ExecutionTheorems.ReservedOnce` | internal/postgres/execution.go:641-665 | Reserving twice counts once; the key cannot be reused for another query. |
| `ExecutionTheorems.ReconcilingExits` | internal/postgres/execution.go:504-516 | A reconciling run has an effect step in flight and leaves only to blocked or cancelled. |
| `ExecutionTheorems.EffectsNotDropped` | internal/postgres/execution.go:559-621 | In every reachable state no deliver or remediate step is in flight in a paused or cancelled run, finished runs never change, and events carry the versions 1, 2, 3, ... in order. |
| `ExecutionTheorems.BudgetsHold` | internal/postgres/execution.go:345-361 | In every reachable state attempts, model calls, charged tokens, source queries and rows stay in budget; charges are per claim, actuals the sum over completed steps, source counters those of distinct reservations, and the version the number of events. |
| `ExecutionAnswers.ClaimGrantedExactly` | internal/postgres/execution.go:282-360 | A claim is granted exactly to the workload of the stage's role, with its authority and the owner's, of a ready, running or reconciling run, whose requirements hold, before the deadline, with the open step's lease run out, room on what the package shares and a budget that covers its charge. |
| `ExecutionAnswers.ClaimRefusedExactly` | internal/postgres/execution.go:282-350 | Every refusal has its own condition and error; three of them block the run with their reason, the others leave the store alone. |
| `ExecutionAnswers.ClaimGrants` | internal/postgres/execution.go:345-394 | All a granted claim changes: the step with a raised fence, the token's digest and a lease of the package's time and thirty seconds or up to the deadline, the charge of a model package, the status and the event. |
| `ExecutionAnswers.CreatesExactly` | internal/postgres/execution.go:140-180 | Under a known key a permitted request answers the stored run, or is refused if it differs; under a new key it is stored exactly when every participant may be assigned and fewer runs of the target are live than allowed. |
| `ExecutionAnswers.CreationRefused` | internal/postgres/execution.go:130-139 | A request without authority, that is not as the service submits it or whose requirements fail changes nothing. |
| `ExecutionAnswers.RequestAnsweredOnce` | internal/postgres/execution.go:143-152 | Once a request is answered a run, the same key answers that run as it then is, whatever was called between, and another request under it is refused. |
| `ExecutionLeases.LeaseDecides` | internal/postgres/execution.go:404-449 | A check, a first completion, a reservation and a record without a live lease fail alike, with the error of the first check that fails, and change nothing; a check with one answers the run. |
| `ExecutionLeases.CompletesExactly` | internal/postgres/execution.go:477-538 | With a live lease a result is accepted exactly if a context is bound and the result is of the run's stage and leads where it asks by the table written out row by row; then step, result row, tokens, status, stage, blockers and event are as stated, under read-back cancelled after a success and blocked otherwise. |
| `ExecutionLeases.ReservesExactly` | internal/postgres/execution.go:636-665 | With a live lease a query is reserved exactly in diagnosis or verification of recovery, of the run's project and product, a frozen source and purpose and a positive limit, under a new key and within both budgets; the same query again is answered for nothing. |
| `ExecutionLeases.RecordsExactly` | internal/postgres/execution.go:674-704 | With a live lease a context is bound once, a different one is refused, and the quota is checked before. |
| `ExecutionHistory.LeaseLastsExactly` | internal/postgres/execution.go:373-433 | The lease a claim handed out, checked after any other calls, is accepted exactly from its own workload, while the step is at its fence and incomplete and the run running or reconciling, for the package's time and thirty seconds from the claim's clock reading, before the deadline then and now. |
| `ExecutionHistory.LeaseUsedInTime` | internal/postgres/execution.go:423-433 | Whatever is answered without failure under a lease is within the same bounds. |
| `ExecutionHistory.UsedLeaseWasClaimed` | internal/postgres/execution.go:372-394 | A call under a lease, no earlier than any before it, succeeds only if one of them was a granted claim that handed out this very lease with its token. |
| `ExecutionHistory.ReservationsInScope` | internal/postgres/execution.go:632-650 | In every reachable store each reserved query lies in the run's frozen scope and was made by a step of a stage that may query. |
| `ExecutionTokens.TokensWithinCharge` | internal/postgres/execution.go:501-503 | When every recorded result is within its package's bounds, tokens used never exceed tokens charged, which never exceed the budget. |
| `ExecutionTokens.BoundKeptExactly` | internal/postgres/execution.go:481-503 | While results are metered, every result of a given outcome that passes the service's check keeps used tokens within charged ones if and only if the outcome is a success or failure and the stage build or diagnose. |
| `ExecutionTokens.SlackCoversCharge` | internal/postgres/execution.go:345-361 | After metered results what is left covers the charge of the step in flight, so a metered result always fits. |
| `ExecutionTokens.ServiceMetersExactly` | internal/service/execution.go:578-603 | The service's check, with its bounds on the summary, makes results metered exactly for successes and failures of build and diagnose; blocked, unavailable and inconclusive ones, and every result of the other stages, may report any counts. |
| `ExecutionTokens.UnmeteredAccepted` | internal/postgres/execution.go:481-503 | In any run with an accepted lease and a bound context, a valid result that reports more than is left is accepted and breaks the bound. |
| `ExecutionTokens.OverrunReachable` | internal/postgres/execution.go:481-503 | Every startable request can be driven by four calls, the last with a result that passes the service's check, to a reachable store in which more tokens are used than were charged. |
| `ExecutionTokens.OverrunIsChecked` | internal/service/execution.go:578-590 | That last result, of an unavailable step with a summary, passes the service's check of stage, summary and outcome. |
| `ExecutionTokens.SampleStarts` | internal/domain/execution.go:81-113 | There is such a request, with packages that pass validation. |
| `ExecutionTermination.ClaimFalls` | internal/postgres/execution.go:345-361 | A granted claim never raises the measure of attempts left and stage rank, and lowers it when the first stage is claimed. |
| `ExecutionTermination.RankFalls` | internal/postgres/execution.go:523-538 | Every transition that leaves a run ready lowers the stage rank, the evaluate-to-build loop by way of the unclaimed build. |
| `ExecutionTermination.ResultFalls` | internal/postgres/execution.go:504-516 | Every accepted result lowers the measure. |
| `ExecutionTermination.CallFalls` | internal/postgres/execution.go:274-538 | No call but an operator's raises the measure of a run; each accepted result lowers it by one at least. |
| `ExecutionTermination.ResultsBounded` | internal/postgres/execution.go:523-537 | Between operator actions a run accepts at most five results for each attempt left plus those of its present stage, whatever its workers submit. |
| `Registry.ValidateRoles` | internal/execution/registry.go:95-110 | The loop accepts a target exactly when each of the five roles has a workload with a valid key and a matching package that fits the token budget, and the five workloads are distinct. |
| `Registry.ValidatedTargetFits` | internal/execution/registry.go:95-110 | A validated target with its packages satisfies all the protocol assumes of a frozen one. |
| `Hunks.HeaderComplete` | cmd/agent-ready-pilot/repair.go:201 | The scanner recognizes every header text and recovers its numbers and tail. |
| `Hunks.HeaderSound` | cmd/agent-ready-pilot/repair.go:201 | Whatever it recognizes is the text of the header it returns. |
| `Hunks.RewrittenHeader` | cmd/agent-ready-pilot/repair.go:176 | A header with new counts is a header again with those counts and the same starts and tail. |
| `Recount.RecountHunks` | cmd/agent-ready-pilot/repair.go:144-182 | Succeeds exactly on newline-terminated patches with a hunk and only valid body lines, with the error of the first check that fails, and returns the recounted lines. |
| `Recount.CountBody` | cmd/agent-ready-pilot/repair.go:157-175 | The inner loop counts the body up to the first line that cannot belong to it, and fails exactly on a foreign line. |
| `Recount.BodyEndIsFirst` | cmd/agent-ready-pilot/repair.go:159-162 | The body ends at the first line that breaks it. |
| `Recount.OnlyCountsChange` | cmd/agent-ready-pilot/repair.go:150-176 | Every line that is no header stays as it is; a header keeps its starts and its tail and gets the counts of its own body. |
| `Recount.RecountIdempotent` | cmd/agent-ready-pilot/repair.go:144-182 | Recounting recounted lines changes nothing and never fails. |
| `Recount.RecountTwice` | cmd/agent-ready-pilot/repair.go:144-182 | The same on patch text, through splitting and joining. |
| `Recount.HunkCountsOnly` | cmd/agent-ready-pilot/repair.go:219-234 | Holds exactly when the patches differ and only in the counts of headers. |
| `Recount.CheckRepairAnswer` | cmd/agent-ready-pilot/repair.go:203-217 | Accepts exactly answers that change nothing but hunk counts; the refusals in their order. |
| `Recount.RecountPassesCheck` | cmd/agent-ready-pilot/repair.go:144-234 | A recounted patch is the patch itself or passes the check of a repair. |
| `Recount.CountsOnlyExactly` | cmd/agent-ready-pilot/repair.go:219-234 | A changed patch passes the check exactly if it is recounted to the same text as the patch before. |
| `RecountReader.RecountedIsRead` | cmd/agent-ready-pilot/repair.go:157-176 | An independent reader given the recounted numbers takes exactly the body that was counted, if and only if its no-newline markers stand after lines. |
| `FilePatch.FilePatch` | internal/execution/file_patch.go:16-83 | The printer's result depends only on the two maps, whatever order the map is walked in; on success, applying the patch to base by a count-driven reader gives exactly base overlaid with the replacements. |
| `FilePatch.SortedNames` | internal/execution/file_patch.go:20-24 | The names are visited in ascending byte order, each once. |
| `FilePatch.InOrderUnique` | internal/execution/file_patch.go:20-24 | There is only one such order. |
| `FilePatch.WriteSection` | internal/execution/file_patch.go:45-74 | One file's section is appended to what is written. |
| `FilePatch.WriteHunk` | internal/execution/file_patch.go:55-74 | The one hunk that replaces every line is appended, starts and counts included. |
| `FilePatch.WriteSide` | internal/execution/file_patch.go:63-73 | Each line of a side is appended with its prefix, and the marker after a last line without newline. |
| `FilePatch.FirstFailure` | internal/execution/file_patch.go:32-78 | The first error met in name order is the one returned. |
| `FilePatch.SucceedsExactly` | internal/execution/file_patch.go:17-83 | It prints exactly one to thirty files, each with a name path.Clean leaves alone below the root and without the excluded characters and a content that is UTF-8 without NUL of at most 65536 bytes, some of them changed, and text that fits after each hunk. |
| `Paths.CleanBelow` | internal/execution/file_patch.go:33 | A relative name that path.Clean leaves alone and that does not lead out of its root is one whose segments are neither empty nor dots. |
| `Paths.CleanTwice` | internal/execution/file_patch.go:33 | Cleaning a cleaned path changes nothing, rooted or not. |
| `Utf8.ValidExactly` | internal/execution/file_patch.go:38 | The check accepts exactly the encodings of sequences of code points (RFC 3629). |
| `Patch.HunkApplies` | internal/execution/file_patch.go:52-74 | Reading a printed hunk back replaces all old lines by all new ones, for empty files and missing final newlines too. |
| `Patch.SectionApplies` | internal/execution/file_patch.go:45-74 | Applying a printed section writes its file and leaves the rest of the patch. |
| `Patch.PatchApplies` | internal/execution/file_patch.go:32-78 | Applying any number of printed sections is writing their files in order. |
| `Patch.PrintThenApply` | internal/execution/file_patch.go:16-83 | Printing then applying is the overlay, for every base and replacements the printer accepts. |
| `PatchRecount.HunkBreaks` | cmd/agent-ready-pilot/repair.go:157-162 | In a printed hunk only the last old line can be taken for a new file header, and only when the two middle lines look like file names. |
| `PatchRecount.HunkFixed` | cmd/agent-ready-pilot/repair.go:157-176 | A printed hunk is recounted to itself exactly when its middle does not look like file names. |
| `PatchRecount.SectionFixed` | cmd/agent-ready-pilot/repair.go:144-182 | The same for a file's section. |
| `PatchRecount.PatchFixed` | cmd/agent-ready-pilot/repair.go:144-182 | The same for a patch of any number of sections. |
| `PatchRecount.CutPatch` | internal/execution/file_patch.go:44-74 | Replacing the line `-- x` by `++ y` prints a patch that the recount changes. |
| `PatchRecount.PrintedIsFixed` | internal/execution/file_patch.go:44-74 | Recounting a printed patch always finds its content valid and leaves it alone if and only if no replacement puts a first line `++ ...` after a newline-terminated old last line `-- ...`. |
| `Graph.RowsAreNear` | internal/postgres/graphstore.go:79-93 | Every node of a row of depth d is within d steps of a seed. |
| `Graph.ShortestRow` | internal/postgres/graphstore.go:79-93 | Every node at distance d is the end of a node-distinct row of depth d. |
| `Graph.WalkIsDistance` | internal/postgres/graphstore.go:76-96 | The walk over node-distinct paths gives a node least depth d exactly when its undirected distance from the seeds is d and within the hops. |
| `Graph.RowsOfTrails` | internal/age/store.go:126-130 | The traversal's rows are the ends of edge-distinct trails of one to maxHops edges with their lengths. |
| `Graph.TrailsAreNear` | internal/age/store.go:126-130 | A trail of k edges ends, and uses edges, within k steps of a seed. |
| `Graph.ShortestTrail` | internal/age/store.go:126-130 | Every node at distance d ends a trail of d edges from some seed. |
| `GraphStores.CollectSeeds` | internal/postgres/graphstore.go:65-74 | The seeds of the three id lists, in their order. |
| `GraphStores.SeedsAre` | internal/postgres/graphstore.go:65-74 | Each id is a seed of its own list's type, in the order of the three lists. |
| `GraphStores.AppendSeeds` | internal/postgres/graphstore.go:67-72 | One list of ids appended with its node type. |
| `GraphAnswers.AnswerUnique` | internal/graph/fallback.go:43-50 | A request has at most one right answer: the nearest nodes with their distances, ordered, and whether there were more. |
| `GraphAnswers.AnswerOrdered` | internal/postgres/graphstore.go:92-93 | A right answer goes by distance, then type, then id. |
| `GraphAnswers.QueryHasAnswer` | internal/postgres/graphstore.go:76-96 | The recursive query has an answer for every graph, and it is the ordered distance list cut at its limit. |
| `GraphAnswers.KeptIsConnected` | internal/postgres/graphstore.go:94-117 | However many nodes are kept, each has a whole shortest path from a seed among the kept ones. |
| `GraphStores.ExpandRecursive` | internal/postgres/graphstore.go:61-124 | The recursive store returns the right answer, hydrated. |
| `GraphStores.MergeRows` | internal/age/store.go:268-273 | A row is taken when its node is new or nearer than before: the map is the least of all offers. |
| `GraphStores.MergeTrails` | internal/age/store.go:257-274 | The merged map gives each offered node its least distance, seeds at zero. |
| `GraphMerge.OffersSound` | internal/age/store.go:257-274 | Nothing offered is nearer than its true distance or beyond the hops. |
| `GraphMerge.MergedIsDistance` | internal/age/store.go:257-274 | When no per-seed limit is hit, the merged map is exactly the distance map. |
| `GraphStores.SortNodes` | internal/age/store.go:275-287 | The nodes of the map in order of distance, type and id. |
| `GraphMerge.MissesOfOne` | internal/age/store.go:126-130 | The rows that are not a given one are all rows less its count. |
| `GraphMerge.AlwaysOffered` | internal/age/store.go:126-130 | Some row of a given kind is offered whatever rows the limited queries answer, exactly when a seed is of that kind or, for some seed, fewer rows than the limit and than all are not. |
| `GraphMerge.SureIsNearest` | internal/age/store.go:257-274 | A node that is sure to be offered at its distance is mapped to it. |
| `GraphMerge.MapRightExactly` | internal/age/store.go:257-274 | The merged map is the distance map for every answer of the database exactly when every node in reach is sure to be offered at its distance. |
| `GraphMerge.AnswerRightExactly` | internal/age/store.go:257-291 | The reported nodes and truncation are right for every answer of the database exactly when each node to be kept is sure to be offered at its distance and, if more are in reach, one of those is sure to be offered at all. |
| `GraphMerge.AllRowsAreSure` | internal/age/store.go:126-130 | When no per-seed limit is hit this condition holds. |
| `GraphStores.ExpandAge` | internal/age/store.go:230-302 | Fails exactly on a stale projection; otherwise reports only nodes in reach, those sure to be offered at their distance, and under the exact condition the right answer, hydrated. |
| `GraphStores.UnlimitedIsSure` | internal/age/store.go:126-130 | A request that hits no per-seed limit satisfies the exact condition. |
| `GraphStores.ExpandWithFallback` | internal/graph/fallback.go:43-50 | The fallback is transparent: under the exact condition, or when the primary fails, the caller gets the one right answer, hydrated. |
| `GraphHydration.HydrateKnowledgeSubgraph` | internal/postgres/graphstore.go:127-209 | Reports the nodes with a record of the project in their order, the edges between them up to the limit, and whether edges were cut. |
| `GraphHydration.AddVisible` | internal/postgres/graphstore.go:151-171 | One type's records that belong to the project join the node set. |
| `GraphHydration.VisibleMeans` | internal/postgres/graphstore.go:148-171 | Visible are exactly nodes of the three types with a record of the project. |
| `GraphHydration.HydratedIsWhole` | internal/postgres/graphstore.go:148-209 | Of a right answer, only visible nodes are reported, at their distance and nearest first; no edge leaves them; truncation is reported exactly when some node in reach or some edge between reported nodes is missing, and otherwise every visible node in reach is there. |
| `GraphHydration.ReportedDistance` | internal/postgres/graphstore.go:148-209 | In the reported nodes and edges, unless edges were cut, no node is nearer than reported, and it is as near if and only if a whole shortest path to it is visible. |
| `GraphHydration.HydrationTells` | internal/postgres/graphstore.go:148-209 | With every node visible and no edge cut, different answers are hydrated differently. |
| `GraphStores.UnsureCanBeWrong` | internal/graph/fallback.go:43-50 | Without the exact condition there are rows the database may answer for which the primary's answer is wrong, and remains so hydrated when every node is visible and no edge is cut. |
| `GraphStores.LimitLosesNode` | internal/age/store.go:126-130 | The limit counts rows, not nodes: with four parallel edges a node at distance one is lost without truncation being reported. |
| `Regex.ReadQuoted` | components/workpacket/policy.go:240 | A quoted character reads as that character. |
| `Regex.RepeatedCharacters` | components/workpacket/policy.go:230-236 | A repeated character class accepts the words of its characters. |
| `Glob.ReadCode` | components/workpacket/policy.go:224-241 | What is emitted for each token reads back as the expression intended. |
| `Glob.ExpressionCompiles` | components/workpacket/policy.go:219-245 | The emitted expression always compiles, to the intended expression. |
| `Glob.TokenMeaning` | components/workpacket/policy.go:224-241 | Each token's expression accepts exactly the pieces the token stands for. |
| `Glob.PatternMeaning` | components/workpacket/policy.go:219-246 | The compiled expression accepts exactly what a direct recursive matcher accepts, for every pattern and name. |
| `Glob.GlobMatch` | components/workpacket/policy.go:219-246 | The compiler and matcher together decide exactly that match, on the normalised pattern. |
| `Glob.SameDepth` | components/workpacket/policy.go:224-236 | A pattern without a double star matches only names with as many slashes as it has. |
| `Glob.AnyDirectory` | components/workpacket/policy.go:228-230 | `**/p` matches exactly what `p` matches, at the root or below a directory without newlines. |
| `Glob.AnyDirectoryPlain` | components/workpacket/policy.go:228-230 | `**/x` for a plain x matches exactly x, and d/x for every d without newlines. |
| `Glob.QuestionMarks` | components/workpacket/policy.go:237-238 | A pattern without a star matches position by position, a question mark any character but the slash. |
| `Glob.StarBetween` | components/workpacket/policy.go:233-235 | One star between plain texts matches exactly what has any text without a slash between them. |
| `Glob.TidyMeans` | components/workpacket/policy.go:220 | A normalised name is the cleaned one with slashes for backslashes, without a leading ./ |
| `Policy.MergeForbidden` | components/workpacket/policy.go:163-178 | The defaults and the packet's values, normalised, without blanks, each where first met. |
| `Policy.KeptValues` | components/workpacket/policy.go:163-178 | No value twice, and exactly the normalised values. |
| `Policy.NormalMeans` | components/workpacket/policy.go:167-172 | A normalised value is the given one with slashes for backslashes, without the blanks around it. |
| `Policy.DefaultsStay` | components/workpacket/policy.go:11-18 | Whatever a packet lists, the six defaults stay forbidden. |
| `Policy.AllowedPath` | components/workpacket/policy.go:204-217 | Allowed exactly when some allowed pattern and no forbidden one matches. |
| `Policy.DefaultsProtect` | components/workpacket/policy.go:11-18 | The defaults match exactly .env files, .env.* files and the insides of .git directories, at any depth below a directory without newlines. |
| `Policy.EnvBelow` | components/workpacket/policy.go:11-18 | A .env file below a directory is protected exactly when the directory's path holds no newline. |
| `Policy.NewlineSlipsPast` | components/workpacket/policy.go:219-246 | Below a directory with a newline in its name it matches no default, and a single star can allow it. |
| `Policy.ProtectedIsNeverAllowed` | components/workpacket/policy.go:163-217 | No packet can allow such a file. |
| `Policy.CleanKeepsDefaults` | components/workpacket/policy.go:11-18 | path.Clean leaves the six defaults as they are. |
| `Policy.ProtectedForGood` | components/workpacket/policy.go:163-217 | So with path.Clean no packet can allow a protected file. |
| `Remedy.StepKeeps` | internal/sdlcworker/incident.go:167-262 | Every step of any execution, arrival of any write, and crash keeps the invariant of endpoint, writes under way and executions. |
| `Remedy.ReachableInv` | internal/sdlcworker/incident.go:167-262 | So it holds after every interleaving. |
| `Remedy.AtMostOneMove` | internal/sdlcworker/incident.go:210-242 | However many executions run, the endpoint changes at most once, from before to desired. |
| `Remedy.SuccessIsExact` | internal/sdlcworker/incident.go:243-245 | An execution that reports success leaves the endpoint in the desired state tagged with its own action, then and forever. |
| `Remedy.OneWinner` | internal/sdlcworker/incident.go:243-245 | Two executions can report success only for the same action. |
| `RemedyTraces.ChangeWasGuarded` | internal/sdlcworker/incident.go:210-242 | If the endpoint changed, some remediation of that action, outside any read-back, read the endpoint, was then granted the write by the first guard it asked, sent it, and it arrived, in this order in the sequence of steps. |
| `RemedyClient.Site.Remediate` | internal/sdlcworker/incident.go:167-262 | The step as the worker runs it, with any steps of others between: it sends a write exactly if the first reading is the state before, the stage remediate, the run not reconciling and the guard granted; it succeeds exactly if its last reading is the desired state by its own action and everything it needs was answered; undisturbed it moves the endpoint from before to desired. |
| `RemedyClient.Site.Write` | internal/sdlcworker/incident.go:214-242 | The guarded write and its read-back: the write is sent exactly if the guard grants it. |
| `RemedyClient.Site.Take` | internal/sdlcworker/incident.go:167-262 | One step of the system. |
| `RemedyClient.Site.Others` | internal/sdlcworker/incident.go:167-262 | Steps of others leave an execution's own record alone. |
| `Release.PutOnceKeeps` | internal/sdlcworker/delivery.go:127-159 | An immutable file changes no existing file and on success holds exactly its bytes. |
| `Release.StageSafe` | internal/sdlcworker/delivery.go:160-210 | One call, wherever it stops: release files stay, current.json changes only to a whole release and only from the expected predecessor. |
| `Release.StageKeeps` | internal/sdlcworker/delivery.go:160-210 | Every call at every stopping point keeps current.json naming a whole release. |
| `Release.AllKeep` | internal/sdlcworker/delivery.go:160-210 | So does every sequence of calls, whatever is torn, refused or killed on the way. |
| `Release.ReleasesStay` | internal/sdlcworker/delivery.go:127-159 | No sequence of calls changes a stored release file. |
| `Release.RepeatChangesNothing` | internal/sdlcworker/delivery.go:160-210 | Repeating a call that succeeded changes nothing but a leftover temporary file, wherever the repetition stops; undisturbed it succeeds again. |
| `Release.SmoothSucceedsIff` | internal/sdlcworker/delivery.go:160-210 | With no fault a call succeeds exactly when no file of its release is spoilt and its contract names the current release. |
| `Release.SpoiltForever` | internal/sdlcworker/delivery.go:127-159 | A spoilt release can never be staged again. |
| `Release.TornReleaseIsLost` | internal/sdlcworker/delivery.go:144-159 | A manifest write cut short does that to its own release: every retry fails. |
| `Release.LockedOut` | internal/sdlcworker/delivery.go:161-173 | Without an absolute root or while the lock is held nothing on disk is touched. |
| `Release.NamesPresent` | internal/sdlcworker/delivery.go:182-189 | A call succeeds only if it names the present release by its digest, or is it, or names none where there is none; undisturbed and unspoilt it then does. |
| `Release.NoLostUpdate` | internal/sdlcworker/delivery.go:160-210 | Of two calls for different releases that name the same predecessor only the first succeeds, and its release stays current. |
| `Release.NoLitter` | internal/sdlcworker/delivery.go:190-209 | A call that ends by itself leaves no temporary file. |
| `Staging.Root.ImmutableFile` | internal/sdlcworker/delivery.go:127-159 | The file steps of one immutable file, with every outcome of the system calls. |
| `Staging.Root.StageRelease` | internal/sdlcworker/delivery.go:160-210 | The whole call on the directory refines its specification and keeps current.json naming a whole release. |
| `Staging.Root.Switch` | internal/sdlcworker/delivery.go:190-209 | The temporary file and the rename. |
| `TaskStore.Store.CreateWorkflowTask` | internal/postgres/taskcheckpoints.go:89-169 | Creation by key: an unknown workflow is refused, an existing task is returned or refused, a new one gets the next ordinal of its workflow; the invariants are kept. |
| `TaskStore.Store.GetActivatableWorkflowTask` | internal/postgres/taskcheckpoints.go:183-196 | Returns the queued task of least ordinal exactly when nothing of the workflow is active. |
| `TaskStore.Store.Prepare` | internal/service/taskcheckpoint.go:177-330 | A transition is worked out from the state read by the transition table; an event without an entry, or that its caller may not make, is refused. |
| `TaskStore.Store.PickHead` | internal/service/taskcheckpoint.go:214-221 | An activation goes on exactly when its task is the queue's head. |
| `TaskStore.Store.TransitionWorkflowTask` | internal/postgres/taskcheckpoints.go:198-322 | Compare-and-set: a replayed key returns its event, a stale state or version or refused evidence changes nothing, else the task moves with one event. |
| `TaskQueueHistory.HistoriesExactly` | internal/service/taskcheckpoint.go:383-437 | The event histories of tasks over all runs are exactly those in which each event may follow the one before, given route and mode; both directions. |
| `TaskQueueHistory.JudgedThen` | internal/service/taskcheckpoint.go:417-431 | Learning is promoted only right after a passed validation, and a failed one is followed by a local revision. |
| `TaskQueueHistory.ReviewComesFirst` | internal/service/taskcheckpoint.go:393-416 | On the cloud route no validation comes before a recorded review and a local revision after it, and of a manual task the review was approved first. |
| `TaskQueueHistory.CompletedHow` | internal/service/taskcheckpoint.go:417-435 | A completed task reused validated work, or passed validation, was promoted and read back, as its last events. |
| `TaskQueueProofs.StepKeeps` | internal/postgres/taskcheckpoints.go:89-322 | Every step of any caller keeps the queue's invariants. |
| `TaskQueueProofs.ReachableInv` | internal/postgres/taskcheckpoints.go:89-322 | So do all interleavings. |
| `TaskQueueProofs.CurrentPickIsHead` | internal/postgres/taskcheckpoints.go:183-232 | Whatever was interleaved since its pick, an activation that can still be committed is of the queue's head with nothing active. |
| `TaskQueueProofs.FirstInFirstOut` | internal/postgres/taskcheckpoints.go:183-232 | At most one task of a workflow is active, and activations go in the order of the ordinals. |
| `TaskQueueProofs.EarlierHaveEnded` | internal/postgres/taskcheckpoints.go:183-232 | When a task is activated, every task queued before it has ended. |
| `TaskQueueHistory.TransitionExactly` | internal/postgres/taskcheckpoints.go:205-299 | A transition is made exactly under a fresh key, at the expected version and state, with its evidence, and changes only its task; a known key answers its event or is refused. |
| `TaskQueueHistory.EachVersionOnce` | internal/postgres/taskcheckpoints.go:221-232 | Of all requests for one version of a task at most one is ever committed, whatever happens between. |
| `TaskQueueHistory.SubmitsExactly` | internal/postgres/taskcheckpoints.go:89-135 | A submission under a new key adds one queued task behind all of its workflow; under a known key it answers that task if it is the same. |
| `TaskQueueProofs.CreateTwice` | internal/postgres/taskcheckpoints.go:103-121 | A submission that succeeded can be repeated: same answer, no change. |
| `TaskQueueProofs.TransitionTwice` | internal/postgres/taskcheckpoints.go:205-220 | A transition that succeeded can be repeated: same event, no change. |
| `TaskQueueProofs.BlockedForever` | internal/service/taskcheckpoint.go:383-437 | Nothing leaves blocked and it counts as active: after it no task of the workflow is ever activated again. |
| `TaskQueueProgress.GoesOnExactly` | internal/service/taskcheckpoint.go:383-437 | From any state that keeps the invariants, some continuation activates another task of a workflow if and only if none of its tasks is blocked. |
| `TaskQueueProgress.CanEnd` | internal/service/taskcheckpoint.go:383-437 | An active task that is not blocked can be brought to completed, moving no other task. |
| `TaskQueueProgress.QueueStops` | internal/service/taskcheckpoint.go:402-409 | A run from the empty store, a manual task whose cloud review is refused, ends with a workflow whose queue can never go on. |
| `Observations.CompareObservations` | internal/domain/product_evaluation.go:38-93 | The loops compute the comparison, with the reason of the first check that fails. |
| `Observations.CollectKeys` | internal/domain/product_evaluation.go:50-57 | Fails exactly on a missing or repeated left key. |
| `Observations.CollectValues` | internal/domain/product_evaluation.go:58-67 | Fails exactly on a missing or repeated right key or a missing value. |
| `Observations.Count` | internal/domain/product_evaluation.go:68-77 | The three counters are the numbers of matched, missing and mismatched keys. |
| `Observations.CountsAddUp` | internal/domain/product_evaluation.go:68-77 | With valid keys the three counts add up to the number of left rows. |
| `Observations.ViolatedIff` | internal/domain/product_evaluation.go:80-83 | Violated exactly when some left row is said to have another value, or has none and the right side covers the window. |
| `Observations.SatisfiedIff` | internal/domain/product_evaluation.go:80-91 | Satisfied exactly when both sides cover the window, the left has rows, and each has the expected value. |
| `Observations.SatisfiedExactly` | internal/domain/product_evaluation.go:38-93 | The same in terms of the data: schemas, one window no longer than allowed, both sides complete and watched to its end, distinct keys, and the expected value on the right for each of at least one left row. |
| `Observations.OrderDoesNotMatter` | internal/domain/product_evaluation.go:38-93 | Neither outcome nor counts depend on the order of rows on either side. |
| `Observations.ViolatedIsStable` | internal/domain/product_evaluation.go:80-83 | A violation stays one when valid rows are added, to the right only as long as it was not complete. |
| `Sorting.SortAscends` | internal/age/store.go:279-287 | Sorting keeps the elements and puts them in ascending order. |
| `Sorting.StringLessMeans` | internal/execution/file_patch.go:24 | Strings are ordered by their first difference, a prefix first. |

## Left out

- SQL text, JSON encoding, artifact storage, audit rows, credentials and role bindings: each transaction is one atomic step on mathematical state.
- Timestamps of runs and steps that no decision reads, event ids and the schema strings of packages.
- The number of concurrent runs of a target is checked on creation only, per owner, and not after a resume; it is no invariant of the code and none is claimed.
- ExecutionRepository.Repository.RecordExecutionArtifact: artifact rows are not stored, and the 256-item and 64 MiB limits are one yes-or-no input; completion adds evidence without them, so they bound nothing.
- ExecutionRepository.Repository.RecordLocked: the same limits are one yes-or-no input.
- Strings outside the protocol's own stages, statuses, roles and outcomes are one value each.
- ExecutionTokens.TokensWithinCharge: holds for runs all of whose results are metered, because the code accepts others; BoundKeptExactly is exact.
- GraphStores.ExpandAge: the right answer only under the exact condition, because the code's limit counts rows.
- GraphStores.ExpandWithFallback: transparent only under that condition, because without it the primary can be wrong (`UnsureCanBeWrong`).
- The remedy's selection from a diagnosis, URL checks and the content of receipts.
- The content of hydrated records and edges, and the repository and code graphs.
- Directory creation in staging is part of taking the lock; a read that fails is a refused step.
- Field validators of packets, the rest of Evaluate, and the routing of work packets.
- Overflow of durations in the observation window; times are unbounded integers.
- TaskStore.Store.Prepare: the role, provider and evidence rules of a transition are one yes-or-no input.
- Git delivery, Docker, Ollama, Milvus, the forge client, tool registration, command lines, configuration and scripts: I/O around the core.
