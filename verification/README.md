# Capability runtime and relay: a verified model

This project models the capability runtime in `packages/mcp/src` and two small protocols of the relay in
`packages/bridge/src/server.ts`, and proves what they promise. `dafny verify dfyconfig.toml` checks all of it.

- **Durable jobs** (`JobRecords`, `JobEngine`, `JobSafety`, `JobSteps`, `JobDrops`, `JobRuns`, `JobTheorems`,
  `JobHistory`, `JobOutcomes`, `JobRoots`, `JobWitnesses`, `JobCoordinator`). Every synchronous stretch between two awaits is one
  atomic step over the bounded store, the in-memory workers with their abort and timeout flags, and the output roots on
  disk. Steps are submission through the broker, worker start, step reports, handler return, enforcement, timeout,
  cancellation, restart, recovery and maintenance, in any order. `JobSafety` states the inductive invariant,
  `JobTheorems` the facts about whole runs, `JobHistory` traces stored successes back to the events they come from,
  `JobOutcomes` says how every job ends and what the broker answers,
  `JobRoots` accounts for output roots, and `JobWitnesses` exhibits runs. `JobCoordinator` carries out each step by
  updating the store in place, with a contract that equates it with the step.
- **Execution guard** (`SchemaValidation`, `Redaction`, `ResultEnforcement`, `OutputArtifact`, `Paths`, `GuardClaims`,
  `Authorization`, `AuthorizationTheorems`, `GuardRejections`). Imperative validators, walks and guards proved against declarative relations.
- **Plans and dispatch** (`CapabilityResolution`, `CandidateRanking`, `CapabilityPlanning`, `PlanStorage`,
  `PreExecution`, `ExecutionGate`). From ranking to the adapter call, with the two validators compared to each other.
- **Relay** (`RegistrationLimit`, `RelayRequests`).
- **Shared** (`Wrappers`, `Strings`, `JsonText`, `JsonInjectivity`): UTF-16 strings and their default order, JSON
  values, and the canonical printer behind fingerprints and digests.

## What the proofs found

- Planning and re-validation hash a grant's permission list as given, the check before execution hashes it sorted. A
  plan made from a grant whose list is not in order can be approved but never executed, in any state
  (`PreExecution.EverExecutableExactlyWhen`, `PreExecution.UnorderedGrant`).
- Output roots stay on disk exactly when a record whose artifact is pending or available is dropped from the store, which
  the state before the step tells (`JobRoots.OrphanedIsDropped`, `JobRoots.RunConservesRoots`). There are five ways: the
  300-record cap, the `maxRecords` limit of recovery or of maintenance, the age of a record that recovery marked
  recovered or failed although its queued or validating job never ended, and an artifact retention longer than that of
  records.
  `JobWitnesses` has a run for each.
- A plan can be reported as created and yet not be stored: the store keeps the plans whose identities sort last, and
  identities are random (`PlanStorage.NewPlanIsDroppedExactlyWhen`, `PlanStorage.CreatedPlanLost`).
- A broker run under a taken idempotency identity gets the old job back for the same capability and version, whatever
  its input; only another capability or version is a conflict, although resubmission to the coordinator compares the
  whole request (`JobOutcomes.TakenKeyAnswers`, `JobTheorems.ResubmissionIsIdempotent`).
- Re-validation reports changed sources as a changed provider (`CapabilityPlanning.StaleFor`).
- The fingerprint printer prints `[undefined]` and `[]` alike; without `undefined` elements it is unambiguous
  (`JsonInjectivity.PrintCanonical`).
- A relay request whose device send throws is answered with an error at once and stays registered, so its later response
  or timeout tries to answer again (`RelayRequests.SecondReplyExactlyWhen`).
- The rate limit allows up to nine registrations within one minute, and exactly up to 5k + 4 in k minutes
  (`RegistrationLimit.BoundAttained`, `RegistrationLimit.IntervalBound`).
- A requested artifact path whose first name starts with two dots, such as `..notes`, is rejected as a link
  (`AuthorizationTheorems.DottedNamesAreRefused`, `AuthorizationTheorems.DottedNotes`).
- With unique provider identities the ranking is independent of inventory order exactly when no two candidates of
  different providers tie, which takes a collation that does not tell their identities apart
  (`CandidateRanking.InventoryOrderExactlyWhen`). Candidates of one provider keep its own order and may tie freely.

## Assumptions

- SHA-256 is injective, so a digest is represented by the text it hashes. Generated identities are fresh, and the clock
  does not run backwards. Store writes and directory removals happen completely or not at all.
- Number formatting, serialized sizes, upper- and lower-casing, collation, the file system, the text redactor's regular
  expressions and the shared policies (`evaluateAutonomyPolicy`, `evaluateConnectedRepositoryPath`) are parameters, with
  the properties a proof needs as explicit preconditions. The shared package's policy code is not part of this model.
- Numbers are reals, so negative zero and zero are one number.

## Model

| member | source | states |
|---|---|---|
| `JsonInjectivity.PrintCanonical` | packages/mcp/src/capability-execution-coordinator.ts:185-190 | The canonical printer gives two well-formed values the same text exactly when they are the same value up to the order of object members (with `[undefined]` and `[]` identified, which print alike) |
| `JobTheorems.FingerprintDecides` | packages/mcp/src/capability-execution-coordinator.ts:192-203 | Two requests have the same fingerprint preimage exactly when capability, version, source, session, run, key, requester and input agree |
| `SchemaValidation.ValidateJsonValue` | packages/mcp/src/capability-runtime-enforcement.ts:198-228 | The accumulating validator with its node counter and 24-issue cutoff adds an issue exactly when the value does not conform or the node count passes 10,000 |
| `SchemaValidation.Accepts` | packages/mcp/src/capability-runtime-enforcement.ts:184-228 | Started with no issues and zero nodes, the issue list stays empty exactly when the value conforms to the closed schema and has at most 10,000 visited nodes |
| `Redaction.RedactValue` | packages/mcp/src/capability-runtime-enforcement.ts:569-586 | The redaction loop over sorted keys computes the structural redaction |
| `Redaction.RedactedIsScrubbed` | packages/mcp/src/capability-runtime-enforcement.ts:558-586 | After redaction no protected key at any depth holds anything but the mask, raw-output fields are masked, and every text is redacted text; only preserved references are exempt |
| `Redaction.RedactionIdempotent` | packages/mcp/src/capability-runtime-enforcement.ts:569-586 | Redacting twice is redacting once, for any idempotent text redactor that fixes the mask |
| `Redaction.RedactedKeepsShape` | packages/mcp/src/capability-runtime-enforcement.ts:569-586 | Redaction keeps key sets, array lengths and values, and masks protected and raw fields alone; only texts are rewritten, by the text redactor |
| `Redaction.RedactedItemCount` | packages/mcp/src/capability-runtime-enforcement.ts:604-608 | Redaction never increases the output item count |
| `ResultEnforcement.EnforceCapabilityResult` | packages/mcp/src/capability-runtime-enforcement.ts:618-669 | The enforcement steps with their early returns compute the enforced result, which the next two rows state in terms of the output, the limits and the verdicts |
| `ResultEnforcement.EnforcementSucceedsExactlyWhen` | packages/mcp/src/capability-runtime-enforcement.ts:618-669 | A handler success passes exactly when it serializes within 1 MiB, its redacted form serializes, conforms and is within 10,000 nodes, and either a declared limit is exceeded and overflow goes to evidence, or none is and every required verifier accepts; it is then inline or a bare reference accordingly |
| `ResultEnforcement.EnforcementFailsWith` | packages/mcp/src/capability-runtime-enforcement.ts:618-669 | A handler success that does not pass fails with no output and with the code of the first condition that does not hold, the first verifier that does not accept deciding between unavailable and failed |
| `ResultEnforcement.StoredInline` | packages/mcp/src/capability-execution-coordinator.ts:278-322 | An enforced success is stored inline exactly when the redacted output conforms, fits every limit including the coordinator's own, and every required verifier accepts |
| `ResultEnforcement.StoredSuccess` | packages/mcp/src/capability-execution-coordinator.ts:309-322 | A handler success is stored as a success exactly when it passes enforcement: without a failure, and by reference alone exactly when its output exceeds a declared limit or 256 KiB |
| `JobHistory.SuccessIsJustified` | packages/mcp/src/capability-execution-coordinator.ts:382-399 | In every run, the output of every job persisted as succeeded was returned by its handler at an earlier event of that run and passed enforcement: presentable, and either within every declared limit and accepted by every required verifier at the later event that ended enforcement, or over a limit and meant for evidence; it is stored inline and redacted exactly when it is within every limit and 256 KiB |
| `OutputArtifact.Visit` | packages/mcp/src/capability-output-artifact.ts:99-117 | The early-exit walk over one directory adds its exact totals, or fails exactly when an entry is irregular or a limit is passed |
| `OutputArtifact.ListOutputFiles` | packages/mcp/src/capability-output-artifact.ts:97-120 | Totals are returned exactly for trees of regular files and directories within 100 files and 16 MiB, and are then the exact sums |
| `OutputArtifact.ListingIgnoresOrder` | packages/mcp/src/capability-output-artifact.ts:97-120 | The listing is the same in whatever order the entries of each directory are read |
| `JobRuns.StepKeeps` | packages/mcp/src/capability-execution-coordinator.ts:324-436 | Every step of the protocol keeps the invariant, explains every stored record by an earlier one or a submission, and leaves no root behind but the ones it orphans |
| `JobTheorems.Reachable` | packages/mcp/src/capability-execution-coordinator.ts:348-408 | Every reachable engine satisfies the invariant that links persisted lifecycles, workers, timeout and abort flags, artifacts and roots |
| `JobTheorems.TerminalIsFrozen` | packages/mcp/src/capability-execution-coordinator.ts:324-346 | Over any continuation of any run a terminal job keeps its lifecycle, end time and result |
| `JobTheorems.CancelOutcome` | packages/mcp/src/capability-execution-coordinator.ts:465-491 | Cancelling is accepted exactly for a stored, matching job that has not ended; a queued job or one without a worker is cancelled at once, any other is marked and its worker aborted, and a refused call changes nothing |
| `JobTheorems.CancelledNeverSucceeds` | packages/mcp/src/capability-execution-coordinator.ts:465-491 | A job whose cancellation was accepted before it was terminal never ends succeeded, whatever follows |
| `JobOutcomes.ResumeDecides` | packages/mcp/src/capability-execution-coordinator.ts:380-401 | In every run, for an unended job whose race has settled, resuming stores failed with job_timeout if the worker timed out, cancelled if it was aborted without timing out, the result's own status and failure if that is no success, and otherwise moves on to validating or ends succeeded; the artifact ends accordingly and no other record changes |
| `JobOutcomes.EveryEndHasACause` | packages/mcp/src/capability-execution-coordinator.ts:324-408 | Every ended job of every run was ended by one event of the run with the status, code and end time that go with it: a resuming worker, a fault, a cancellation in the queue or without a worker, or a recovery |
| `JobOutcomes.FlagsExactlyWhen` | packages/mcp/src/capability-execution-coordinator.ts:367-379 | In every run a worker is marked timed out exactly when its timer fired while it waited, and aborted exactly when that happened or a cancellation was accepted after the queue |
| `JobOutcomes.TimeoutsEndAsTimeouts` | packages/mcp/src/capability-execution-coordinator.ts:373-399 | A job whose timer fired while its worker waited, and that has not ended when the worker resumes, is stored as failed with job_timeout, never as cancelled |
| `JobHistory.SuccessPassedEnforcement` | packages/mcp/src/capability-execution-coordinator.ts:380-401 | Every stored success has a handler return, a later end of enforcement and a still later store in its own run; the verdict and the handler result of those events pass enforcement and give the stored result, and the worker was neither aborted nor timed out |
| `JobWitnesses.AcceptedResultsSucceed` | packages/mcp/src/capability-execution-coordinator.ts:348-401 | Success is reachable: for every submission, with or without an output root, and every handler result that enforcement accepts there is a run that stores that result as succeeded, its artifact with the exact totals of the output tree |
| `JobTheorems.OneJobPerKey` | packages/mcp/src/capability-execution-coordinator.ts:412-436 | In every reachable store at most one job answers for a source, session, run and idempotency key, and at most 300 records are kept |
| `JobTheorems.ResubmissionIsIdempotent` | packages/mcp/src/capability-execution-coordinator.ts:418-423 | While a job is retained, resubmitting the same content returns it unchanged, and any other content under its key is a conflict; nothing is stored either way |
| `JobOutcomes.TakenKeyAnswers` | packages/mcp/src/capability-broker.ts:94-105 | In every reachable store a broker run under a taken idempotency identity changes nothing: it gets the stored job back when capability and version are the same, whatever its input, and otherwise a conflict, or a refusal of an invalid request |
| `JobOutcomes.FreeKeyAnswers` | packages/mcp/src/capability-execution-coordinator.ts:412-436 | Under a free identity an authorized run within the bounds creates a queued job with its worker, its root and a pending artifact, kept among the newest 300 records; any other run changes nothing |
| `JobRoots.OrphanedIsDropped` | packages/mcp/src/capability-execution-coordinator.ts:129-130 | The roots a step leaves behind are exactly those told from the state before it: of the oldest record of a full store, of records older than the last `keep`, or of old records that maintenance will drop although their artifact is live |
| `JobRoots.RootsConserved` | packages/mcp/src/capability-broker.ts:66-106 | A step from a state whose roots are exactly those of pending or available artifacts reaches such a state exactly when the state before tells that it orphans none |
| `JobRoots.RunConservesRoots` | packages/mcp/src/capability-execution-coordinator.ts:129-130 | Over a whole run the existing output roots are exactly those of pending or available artifacts if and only if no step was going to drop a record whose artifact was live |
| `JobWitnesses.CapLeavesRoot` | packages/mcp/src/capability-execution-coordinator.ts:129-130 | A run that leaves a root behind because 300 younger records push its pending job out |
| `JobWitnesses.RecoveryLimitLeavesRoot` | packages/mcp/src/capability-runtime-lifecycle.ts:32-32 | A run that leaves a root behind because recovery writes back fewer records than there are |
| `JobWitnesses.MaintenanceLimitLeavesRoot` | packages/mcp/src/capability-runtime-lifecycle.ts:38-38 | A run that leaves a root behind because maintenance keeps fewer records than there are |
| `JobWitnesses.AgeLeavesPendingRoot` | packages/mcp/src/capability-runtime-lifecycle.ts:28-38 | A run that leaves the root of a job that recovery marked recovered without ending it, once that record is old |
| `JobWitnesses.AgeLeavesAvailableRoot` | packages/mcp/src/capability-runtime-lifecycle.ts:36-38 | A run that leaves the root of an available artifact whose retention is longer than that of records |
| `JobRoots.RunBelowCapConservesRoots` | packages/mcp/src/capability-output-artifact.ts:122-143 | Runs that stay below the store cap and remove no records conserve the roots through submission, terminal saves, cancellation, recovery and expiry |
| `JobTheorems.RecoverySettles` | packages/mcp/src/capability-runtime-lifecycle.ts:19-34 | After recovery no record is active and every record that was not interrupted is untouched |
| `JobTheorems.RecoveryPartitions` | packages/mcp/src/capability-runtime-lifecycle.ts:19-34 | Recovered and failed identities are disjoint and together are exactly the interrupted records |
| `JobTheorems.RecoveryIsIdempotent` | packages/mcp/src/capability-runtime-lifecycle.ts:19-34 | A second recovery finds nothing to recover and nothing to fail |
| `JobTheorems.RecoveryEndsLostJobs` | packages/mcp/src/capability-execution-coordinator.ts:493-503 | Recovery fails every running or cancelling job with a lost worker and leaves every other job as it was, queued and validating ones included |
| `JobOutcomes.RecoveryDecides` | packages/mcp/src/capability-runtime-lifecycle.ts:19-33 | Record by record, recovery fails a running or cancelling job as lost, makes any other active record recovered if its provider and capability are valid and failed otherwise, and leaves the rest as they are |
| `JobCoordinator.ReportIsExact` | packages/mcp/src/capability-runtime-lifecycle.ts:19-34 | The identities recovery reports are exactly the recovered and the failed ones |
| `JobTheorems.MaintenanceSettles` | packages/mcp/src/capability-execution-coordinator.ts:505-527 | Maintenance expires exactly the available artifacts past their retention, finalizes exactly the pending artifacts of ended jobs by how the job ended, and changes nothing about a record that still needs its root |
| `JobTheorems.ArtifactFollowsJob` | packages/mcp/src/capability-output-artifact.ts:122-138 | In every run an artifact is pending until its job ends, and available only if its job succeeded and then with at most 100 files and 16 MiB |
| `JobTheorems.AvailableArtifactsAreRetained` | packages/mcp/src/capability-runtime-lifecycle.ts:36-40 | When artifacts expire no later than records, maintenance never removes by age a job whose artifact is still available |
| `JobCoordinator.Coordinator.Save` | packages/mcp/src/capability-execution-coordinator.ts:129-130 | Saving replaces the record with its identity in place or appends it, and keeps the newest 300 |
| `JobCoordinator.Coordinator.SaveJobTerminal` | packages/mcp/src/capability-execution-coordinator.ts:324-346 | Ends a job that is not terminal, finalizing its artifact and removing its root, and leaves a terminal one alone |
| `JobCoordinator.Coordinator.SubmitCapabilityJob` | packages/mcp/src/capability-execution-coordinator.ts:412-436 | One submission is exactly the submission step: invalid, conflict, existing or created, with the whole new state |
| `JobCoordinator.Coordinator.RunCapability` | packages/mcp/src/capability-broker.ts:52-109 | One broker call is exactly the broker step, including the removal of the root it created on every path that does not hand it to a job |
| `JobCoordinator.Coordinator.Start` | packages/mcp/src/capability-execution-coordinator.ts:348-357 | The worker runs only a job that is still queued and otherwise retires |
| `JobCoordinator.Coordinator.ReportStep` | packages/mcp/src/capability-execution-coordinator.ts:358-366 | A step report changes only the step of a job that is not terminal |
| `JobCoordinator.Coordinator.EnforcementReturns` | packages/mcp/src/capability-execution-coordinator.ts:391-394 | The enforcement verdict settles the race only if nothing settled it before |
| `JobCoordinator.Coordinator.Abort` | packages/mcp/src/capability-execution-coordinator.ts:369-372 | An abort settles the race with a cancellation unless the timer fired first |
| `JobCoordinator.Coordinator.FireTimer` | packages/mcp/src/capability-execution-coordinator.ts:373-378 | The timer marks the job timed out, aborts it and settles the race |
| `JobCoordinator.Coordinator.Resume` | packages/mcp/src/capability-execution-coordinator.ts:380-401 | The worker continues after its race exactly as the resuming step does, whose outcome JobOutcomes.ResumeDecides gives case by case |
| `JobCoordinator.Coordinator.CancelCapabilityJob` | packages/mcp/src/capability-execution-coordinator.ts:465-491 | Cancelling changes the state as the cancellation step says, and answers not found, an identity mismatch, or the job as it then is, an ended one included |
| `JobCoordinator.CancelAnswers` | packages/mcp/src/capability-execution-coordinator.ts:465-491 | In every reachable store a cancellation answers for exactly the stored job that matches, never loses it on the way, and returns an ended one unchanged |
| `JobCoordinator.Coordinator.RecoverCapabilityJobs` | packages/mcp/src/capability-execution-coordinator.ts:493-503 | The recovery loop ends exactly the running and cancelling jobs, saving them one by one, and reports them in order |
| `JobCoordinator.Coordinator.MaintainCapabilityJobArtifacts` | packages/mcp/src/capability-execution-coordinator.ts:505-527 | The maintenance loop expires and finalizes exactly the artifacts due, and reports the expired ones in order |
| `JobCoordinator.Coordinator.RecoverExecutions` | packages/mcp/src/capability-runtime-lifecycle.ts:22-31 | The loop over active execution records recovers or fails each, and reports recovered, failed and lease-expired ones in order |
| `JobCoordinator.Coordinator.RecoverCapabilityRuntime` | packages/mcp/src/capability-runtime-lifecycle.ts:19-33 | Runtime recovery is job recovery, then the record loop, then the bounded write; the recovered, failed and expired identities and the audit references it returns are exact |
| `JobCoordinator.Coordinator.MaintainCapabilityRuntime` | packages/mcp/src/capability-runtime-lifecycle.ts:35-39 | Runtime maintenance is artifact maintenance followed by the removal of old terminal records and the bounded write; the expired and removed identities and the audit references it returns are exact |
| `JobCoordinator.NoReferenceIsLost` | packages/mcp/src/capability-runtime-lifecycle.ts:37-37 | Maintenance returns every audit reference of every record it found, the removed ones included |
| `Paths.PrefixIsSegmentwise` | packages/mcp/src/capability-runtime-enforcement.ts:163-165 | On normal relative paths the textual prefix test is exactly the prefix order on path names |
| `Paths.PrefixIsSegmentwiseAbsolute` | packages/mcp/src/capability-runtime-enforcement.ts:163-165 | So it is on resolved absolute paths, the root directory included |
| `Paths.PrefixAntisymmetric` | packages/mcp/src/capability-runtime-enforcement.ts:163-165 | The test is antisymmetric on any text |
| `Paths.PrefixTransitive` | packages/mcp/src/capability-runtime-enforcement.ts:163-165 | The test is transitive on any text |
| `Paths.SafeStaysUnder` | packages/mcp/src/capability-runtime-enforcement.ts:243-246 | Resolving a safe relative path against any root stays under that root |
| `Paths.SafeRelativeMeans` | packages/mcp/src/capability-runtime-enforcement.ts:243-246 | The safe relative texts are exactly the nonempty names other than two dots joined by slashes, without a leading tilde, a backslash or a null |
| `Paths.ResolveRelative` | packages/mcp/src/capability-runtime-enforcement.ts:343-345 | Resolving the relative form of a path below a root gives that path back |
| `Paths.RealpathWithMissingTail` | packages/mcp/src/capability-runtime-enforcement.ts:248-258 | The upward search returns the real path of the deepest existing ancestor followed by the missing names, and nothing exactly when there is none or it cannot be resolved |
| `Paths.HasSymlinkComponent` | packages/mcp/src/capability-runtime-enforcement.ts:269-282 | For any two paths the walk reports a candidate outside the root, a relative path that starts with two dots, or a link on the way |
| `Paths.LinkOnTheWayMeans` | packages/mcp/src/capability-runtime-enforcement.ts:273-280 | The walk finds a link exactly when some component is a link and every component before it was read and is not |
| `GuardClaims.PathClaimsMean` | packages/mcp/src/capability-runtime-enforcement.ts:294-311 | A text is a path claim exactly when the field path, paths, file, files, writePath or writePaths is that text or an array holding it, or an input bound by a command-line template is that text, whatever the write mode; each is claimed once |
| `GuardClaims.WriteClaimsMean` | packages/mcp/src/capability-runtime-enforcement.ts:313-324 | A text is a write claim exactly when writePath or writePaths gives it, or path or paths does and the manifest writes at all, or a template does and the manifest is artifact-only |
| `GuardClaims.WriteClaimsArePathClaims` | packages/mcp/src/capability-runtime-enforcement.ts:294-324 | Whatever a call claims for writing it also claims as a path |
| `GuardClaims.NetworkClaimsMean` | packages/mcp/src/capability-runtime-enforcement.ts:326-341 | The network claims of a call are exactly the requests its arguments state, in any of the four places, with a known verb |
| `GuardClaims.NetworkClaimsCount` | packages/mcp/src/capability-runtime-enforcement.ts:326-341 | Each place that states a request counts once, even when two state the same request |
| `Authorization.ResolvePathClaim` | packages/mcp/src/capability-runtime-enforcement.ts:353-367 | A path claim is resolved, or rejected for the first reason that applies |
| `Authorization.ResolveWrites` | packages/mcp/src/capability-runtime-enforcement.ts:514-520 | Write claims reuse path bindings and resolve as the claims themselves would |
| `Authorization.CheckNetwork` | packages/mcp/src/capability-runtime-enforcement.ts:479-497 | The two network loops reject for the first reason that applies |
| `Authorization.AskPolicies` | packages/mcp/src/capability-runtime-enforcement.ts:415-443 | The policies are asked in order and the first that does not allow decides; a carried plan must then be executable, for this call, now, which the check before execution decides |
| `Authorization.ScopesMean` | packages/mcp/src/capability-runtime-enforcement.ts:393-405 | A policy is asked about exactly the targets, bound paths, capability or own scope that its category is about |
| `Authorization.AuthorizeCapabilityExecution` | packages/mcp/src/capability-runtime-enforcement.ts:499-556 | The guard computes its specified verdict; AcceptedExactlyWhenJustified says when it accepts and GuardRejections what it rejects for |
| `AuthorizationTheorems.AuthorizedIsJustified` | packages/mcp/src/capability-runtime-enforcement.ts:353-556 | On acceptance every text the call names as a path is bound under the canonical and a declared root and unprotected, and nothing else is; writes are path bindings in manifest and hard scopes, all counts and sizes meet every limit, every policy allows every scope, a carried plan is executable, and the timeout is in range |
| `AuthorizationTheorems.CarriedPlanFits` | packages/mcp/src/capability-runtime-enforcement.ts:429-441 | A plan carried by an accepted call is approved, unexpired, made for its session, provider and capability, and its active grant still gives every permission of the plan |
| `AuthorizationTheorems.DottedNamesAreRefused` | packages/mcp/src/capability-runtime-enforcement.ts:269-271 | No artifact-relative request whose text starts with two dots is ever bound; a safe one that stays under the root is refused as a link |
| `AuthorizationTheorems.DottedNotes` | packages/mcp/src/capability-runtime-enforcement.ts:269-271 | So is the request `..notes` directly below an artifact root, whatever the file system holds |
| `AuthorizationTheorems.AcceptedExactlyWhenJustified` | packages/mcp/src/capability-runtime-enforcement.ts:499-556 | The guard accepts exactly when a justified authorization exists, which is stated on the call, the manifest, the file system and the policies and names none of the functions that compute the verdict on paths, writes, policies or the working directory |
| `AuthorizationTheorems.NamedPathsAreBound` | packages/mcp/src/capability-runtime-enforcement.ts:499-520 | On acceptance every text the call names as a path is the request of a binding within scope, and every one it names to write is among the write bindings |
| `AuthorizationTheorems.CwdMeans` | packages/mcp/src/capability-runtime-enforcement.ts:369-389 | The guard settles on a working directory exactly when it is none, the root or the requested directory as the manifest's mode allows |
| `GuardRejections.EarlyRejections` | packages/mcp/src/capability-runtime-enforcement.ts:499-506 | Identity, input size and input conformance are looked at first, in this order |
| `GuardRejections.RejectedInOrder` | packages/mcp/src/capability-runtime-enforcement.ts:505-542 | A call with an accepted input is rejected for too many paths, or for its first rejected path, or else for the first of directory, writes, network, policies, confirmation and timeout that fails; writes never fail to resolve where paths do not |
| `GuardRejections.ClaimRejectedFor` | packages/mcp/src/capability-runtime-enforcement.ts:353-367 | A path is rejected for the first condition that does not hold: declared, safe, a root, below the root, without links, below a declared root, unprotected |
| `GuardRejections.CwdRejectedFor` | packages/mcp/src/capability-runtime-enforcement.ts:369-389 | A working directory is rejected for the first condition that does not hold of its shape, the mode, the source root, what the mode allows, and where it leads |
| `GuardRejections.WriteRejectedFor` | packages/mcp/src/capability-runtime-enforcement.ts:455-477 | Writing is rejected for the first condition that does not hold of mode, file count, scope, content size and artifact root |
| `GuardRejections.HardWriteRejectedFor` | packages/mcp/src/capability-runtime-enforcement.ts:472-475 | A hard policy then rejects writing for the first that does not hold of its permission, file count, content size and scope |
| `GuardRejections.NetworkRejectedFor` | packages/mcp/src/capability-runtime-enforcement.ts:479-491 | The network is rejected for the first condition that does not hold of mode, request count and scope, and then of the hard policy's permission and request count |
| `GuardRejections.HardTargetRejectedFor` | packages/mcp/src/capability-runtime-enforcement.ts:492-495 | The first request outside the hard lists decides, its target before its method |
| `GuardRejections.PolicyRejectedFor` | packages/mcp/src/capability-runtime-enforcement.ts:415-443 | The policies reject without a context for this run, for an applicable question that is not allowed, or for a plan without state or not executable |
| `AuthorizationTheorems.EveryPathAllowed` | packages/mcp/src/capability-runtime-enforcement.ts:393-425 | On acceptance every read and write policy allows every bound path |
| `AuthorizationTheorems.EveryTargetAllowed` | packages/mcp/src/capability-runtime-enforcement.ts:393-425 | On acceptance every network policy allows every requested target |
| `AuthorizationTheorems.CapabilityAllowed` | packages/mcp/src/capability-runtime-enforcement.ts:393-425 | On acceptance every capability policy allows this capability, and every other policy its own scope |
| `AuthorizationTheorems.SomeCallIsAuthorized` | packages/mcp/src/capability-runtime-enforcement.ts:499-556 | The guard is not always closed: a call without claims is authorized when its one policy allows it |
| `AuthorizationTheorems.CwdIsContained` | packages/mcp/src/capability-runtime-enforcement.ts:369-389 | An authorized working directory lies in the canonical source root, in a declared subdirectory where those are declared; it is the root when none is requested, and the real path of the requested directory otherwise, which in root-only mode is the root unless the file system resolves the root elsewhere |
| `AuthorizationTheorems.TighteningOnlyRejects` | packages/mcp/src/capability-runtime-enforcement.ts:347-351 | Tightening the hard write policy, the hard network policy or the protected paths never accepts what was rejected, and what both accept is authorized identically |
| `CapabilityResolution.ScoreCapability` | packages/mcp/src/capability-resolution.ts:98-116 | The score and its reasons are built up match by match |
| `CapabilityResolution.ScoreAddsUp` | packages/mcp/src/capability-resolution.ts:98-116 | A requested capability is worth 60, each word of the request in its identity 12 up to 24, each in its name and description 4 up to 16, its provider type 12, a shared context tag 12 and health 8, and the score is their sum up to 100 |
| `CapabilityResolution.ReasonsMean` | packages/mcp/src/capability-resolution.ts:108-115 | The match reasons are exactly those that are worth something |
| `CapabilityResolution.SeparatorSplits` | packages/mcp/src/capability-resolution.ts:90-90 | A separator splits a text into the words before it and the words after it |
| `CapabilityResolution.OverlapCounts` | packages/mcp/src/capability-resolution.ts:91-91 | The overlap counts the places of the one list that hold a word of the other |
| `CapabilityResolution.RefusedForCause` | packages/mcp/src/capability-resolution.ts:118-129 | A candidate is refused for exactly the reasons that apply |
| `CapabilityResolution.RefusalsMean` | packages/mcp/src/capability-resolution.ts:94-129 | What each of the seven refusals says of the provider, the capability, the context and the permissions |
| `CapabilityResolution.ScoreRange` | packages/mcp/src/capability-resolution.ts:108-115 | Scores lie in 0..100; an exactly requested capability scores at least 60 and any other at most 72 |
| `CapabilityResolution.ResolveCapabilities` | packages/mcp/src/capability-resolution.ts:136-153 | The nested loops produce the ranked and bounded list of all candidates |
| `CapabilityResolution.CandidatesMean` | packages/mcp/src/capability-resolution.ts:131-146 | The candidates are exactly those of every capability every provider offers, scored and refused by the first catalog entry that describes it or by an empty description |
| `CandidateRanking.RetainedAreTheBest` | packages/mcp/src/capability-resolution.ts:147-148 | What is retained is the first 500 of all candidates in order: the eligible first, then the higher score, then the earlier provider and capability |
| `CandidateRanking.SortRanks` | packages/mcp/src/capability-resolution.ts:147-147 | The list is sorted by the comparator and holds exactly the candidates |
| `CandidateRanking.EligibleFirst` | packages/mcp/src/capability-resolution.ts:147-147 | Eligible candidates precede ineligible ones, and higher scores lower ones |
| `CandidateRanking.CanonicalExactlyWithoutTies` | packages/mcp/src/capability-resolution.ts:147-147 | Sorting gives one list for every order of the candidates exactly when no two different candidates tie |
| `CandidateRanking.OrderIrrelevantExactlyWhen` | packages/mcp/src/capability-resolution.ts:136-153 | The candidate list is the same for every order of the inventory exactly when the tied candidates of any two providers come in the same order whichever provider is first |
| `CandidateRanking.InventoryOrderExactlyWhen` | packages/mcp/src/capability-resolution.ts:136-153 | With unique provider identities, it is the same for every order of the inventory exactly when no two candidates of different providers tie |
| `CandidateRanking.RankingIgnoresInventoryOrder` | packages/mcp/src/capability-resolution.ts:136-153 | With unique (provider, capability) pairs, and a collation that tells identities apart, the candidate list and its bounded form are the same for every order of the inventory |
| `CandidateRanking.PlannerTakesTheBest` | packages/mcp/src/capability-planning.ts:115-118 | The planner's choice is the retained match with the highest score and, among those, the least provider and capability |
| `CapabilityPlanning.ListDigestDecides` | packages/mcp/src/capability-planning.ts:81-87 | Two lists have the same digest exactly when they are the same list |
| `CapabilityPlanning.BudgetDigestDecides` | packages/mcp/src/capability-pre-execution.ts:95-96 | Two budgets have the same digest exactly when they are the same budget |
| `CapabilityPlanning.SortFixesOrdered` | packages/mcp/src/capability-pre-execution.ts:94-94 | Sorting leaves exactly the ordered lists alone |
| `CapabilityPlanning.PlanCoversRequest` | packages/mcp/src/capability-planning.ts:111-144 | A fresh plan carries exactly the requested permissions and sources in order, the requested budgets, expiry and risk or the risk its permissions imply, for an eligible selected candidate of a known provider, under an active grant that covers its pair, permissions and budgets |
| `CapabilityPlanning.CreatedExactlyWhen` | packages/mcp/src/capability-planning.ts:111-144 | When a plan is created and which failure is reported otherwise: an open request, then the first suiting candidate, its first provider and its first active grant decide, and the plan is made from exactly these |
| `CapabilityPlanning.SortTextsIs` | packages/mcp/src/capability-pre-execution.ts:94-94 | The sorted list is the one ordered list with the same texts, each as often |
| `PlanStorage.StoredPlanHistory` | packages/mcp/src/capability-planning.ts:179-220 | In every run of the store, every stored plan was created in the run and reached its approval by accepted moves of the table, each at its own later event |
| `PlanStorage.ApprovedWasReviewed` | packages/mcp/src/capability-planning.ts:186-197 | In every run of the store, an approved plan was created, then reviewed, then approved, by three events of the run in this order |
| `PlanStorage.StoreReadsBack` | packages/mcp/src/capability-planning.ts:151-167 | What any run leaves in the store is sorted and within its bound, so reading it back changes nothing and rejects nothing for its size |
| `PlanStorage.NewPlanIsDroppedExactlyWhen` | packages/mcp/src/capability-planning.ts:160-184 | A plan reported as created is dropped by the write that should store it exactly when the store is full and every plan in it sorts after the new one |
| `PlanStorage.CreatedPlanLost` | packages/mcp/src/capability-planning.ts:160-184 | A run in which that happens |
| `PlanStorage.PlanStore.Create` | packages/mcp/src/capability-planning.ts:179-184 | Creating a plan appends it and writes the store back sorted and bounded; a refused plan changes nothing |
| `PlanStorage.PlanStore.Transition` | packages/mcp/src/capability-planning.ts:190-197 | A listed move updates the first plan with the identity, returns it and writes the store back with it; a plan that is not found or a move that is not listed is refused and changes nothing |
| `PlanStorage.MoveIsStored` | packages/mcp/src/capability-planning.ts:186-197 | In every run one of the eight listed moves is stored on the first plan with the identity, every other plan staying as it is, and any other move changes nothing |
| `PlanStorage.CheckIsStored` | packages/mcp/src/capability-planning.ts:209-220 | In every run a re-validation marks the first plan with the identity in place if it is stale, and changes nothing otherwise |
| `PlanStorage.CreationIsStored` | packages/mcp/src/capability-planning.ts:179-184 | While there is room an accepted creation adds just the new plan, and a refused one changes nothing |
| `PlanStorage.PlansCanBeApproved` | packages/mcp/src/capability-planning.ts:179-197 | A plan created while there is room, then reviewed and approved, is stored as approved, with every other plan unchanged |
| `PlanStorage.PlanStore.Revalidate` | packages/mcp/src/capability-planning.ts:199-220 | Re-validation marks a stale plan in the store, and a marked plan stays rejected |
| `CapabilityPlanning.FreshExactlyWhenCurrent` | packages/mcp/src/capability-planning.ts:199-207 | Re-validation accepts exactly when session, sources, provider manifest and grant are those the plan was made from and it has not expired |
| `CapabilityPlanning.StaleFor` | packages/mcp/src/capability-planning.ts:199-207 | Which reason makes a plan stale, in order: a closed context, other sources or another manifest, both reported as a changed provider, a lapsed grant, a changed grant, and the expiry |
| `PreExecution.ValidateBeforeExecution` | packages/mcp/src/capability-pre-execution.ts:99-134 | The verdict is allowed exactly for an executable plan, its reasons are exactly the ones that apply, each once and in order, and the outcome is invalidated exactly for a stale plan, a changed provider or an expired context |
| `PreExecution.ExecutableExactlyWhenReady` | packages/mcp/src/capability-pre-execution.ts:99-134 | A plan made for given permissions and budgets is executable exactly when it is approved, unexpired and asked for with its own values, its context is confirmed with the same sources, its provider is intact, enabled, healthy and offers the capability, its grant holds just these permissions and budgets and covers the plan, and the policy allows its operation and its own risk class |
| `PreExecution.PlanReasonsMean` | packages/mcp/src/capability-pre-execution.ts:104-107 | What the three reasons about the plan say |
| `PreExecution.ContextReasonsMean` | packages/mcp/src/capability-pre-execution.ts:108-112 | What the four reasons about the context say |
| `PreExecution.ProviderReasonsMean` | packages/mcp/src/capability-pre-execution.ts:113-127 | What the reasons about the provider and the policies say, each risk class having its own permission |
| `PreExecution.GrantReasonsMean` | packages/mcp/src/capability-pre-execution.ts:120-124 | What the three reasons about the grant say |
| `PreExecution.ExecutableWithoutReasons` | packages/mcp/src/capability-pre-execution.ts:99-134 | A plan is executable exactly when no reason speaks against it |
| `PreExecution.ExecutableIsValid` | packages/mcp/src/capability-planning.ts:199-207 | What may be executed also passes re-validation at the same time, exactly when the grant lists its permissions in order |
| `PreExecution.PipelineIsComplete` | packages/mcp/src/capability-planning.ts:111-144 | A plan created, reviewed, approved and checked in an unchanged state is executable exactly when the grant lists its permissions in order |
| `PreExecution.SomePlanExecutes` | packages/mcp/src/capability-pre-execution.ts:99-134 | The pipeline is not empty: some plan is created and then executable |
| `PreExecution.EverExecutableExactlyWhen` | packages/mcp/src/capability-pre-execution.ts:94-94 | A created plan can ever be executed, by any request in any later state and whatever became of its approval, exactly when the grant it was made from lists its permissions in order |
| `PreExecution.UnorderedGrant` | packages/mcp/src/capability-pre-execution.ts:94-94 | A plan made from a grant that lists writing before reading: created, approved, unchanged and fresh to re-validation, and yet never executable |
| `ExecutionGate.SelectAdapter` | packages/mcp/src/capability-dispatch.ts:77-88 | The first supporting adapter decides, and later ones are never asked |
| `ExecutionGate.DispatchCapability` | packages/mcp/src/capability-dispatch.ts:90-111 | Dispatch is rejected for the first problem in source order, and otherwise goes to the selected adapter |
| `ExecutionGate.RefusedFor` | packages/mcp/src/capability-dispatch.ts:90-104 | Why dispatch is refused before any adapter is asked, in source order |
| `ExecutionGate.Run.Execute` | packages/mcp/src/capability-execution-coordinator.ts:134-167 | The saves and the adapter call of one execution, wherever a save fails or an audit or abort intervenes |
| `ExecutionGate.LifecycleIsAPath` | packages/mcp/src/capability-execution-coordinator.ts:142-167 | The persisted states always form a path from pending through validating, dispatching, running and completing, to a terminal state, left early only for failed or cancelled |
| `ExecutionGate.AdapterRunEnds` | packages/mcp/src/capability-execution-coordinator.ts:154-164 | An execution that passes the gate is recorded as running and then ends failed for an adapter that cannot run or rejects, cancelled for an abort before the run, and otherwise cancelled for an abort, expired for a timeout, and else as the run ended |
| `ExecutionGate.RefusedEnds` | packages/mcp/src/capability-execution-coordinator.ts:142-153 | An execution that does not pass the gate never gets past dispatching and always ends failed |
| `ExecutionGate.FailedSaveEnds` | packages/mcp/src/capability-execution-coordinator.ts:132-167 | When a save fails the states before it stay, followed by a recorded failure unless that save was the first or itself ended the record outside of completing |
| `ExecutionGate.AdapterGate` | packages/mcp/src/capability-execution-coordinator.ts:142-158 | Control reaches an adapter exactly when the plan is executable and bound to the request, dispatch accepted it, every save so far succeeded and the caller has not aborted |
| `ExecutionGate.UniqueAdapterIsChosen` | packages/mcp/src/capability-execution-coordinator.ts:154-154 | With unique adapter identities the adapter called is the first supporting one, healthy and willing |
| `RegistrationLimit.RateLimiter.CheckRegistrationRateLimit` | packages/bridge/src/server.ts:219-237 | One check updates the window of its address as specified |
| `RegistrationLimit.AcceptedExactlyWhen` | packages/bridge/src/server.ts:219-237 | In any run, at any clock, an attempt is accepted exactly when it opens a window of its address or fewer than five attempts of that address have been accepted since its current window was opened |
| `RegistrationLimit.IntervalBound` | packages/bridge/src/server.ts:216-237 | Under a monotone clock any half-open interval of k minutes holds at most 5k + 4 accepted registrations of one address |
| `RegistrationLimit.BoundAttained` | packages/bridge/src/server.ts:216-237 | The bound is attained for every k from one on: some run has 5k + 4 acceptances in k minutes |
| `RelayRequests.Server.ForwardCommand` | packages/bridge/src/server.ts:560-733 | A forwarded command gets a fresh identity, and is registered with its timer before it is sent |
| `RelayRequests.Server.HandleResponse` | packages/bridge/src/server.ts:1177-1194 | A device response settles the pending request it names and is otherwise ignored; what it leads to is stated by RelayRequests.FirstEndDecides |
| `RelayRequests.Server.HandleTimeout` | packages/bridge/src/server.ts:618-645 | The timeout removes the request and answers it |
| `RelayRequests.OneReplyEach` | packages/bridge/src/server.ts:617-719 | In every interleaving of responses, duplicates and timeouts a sent request has at most one reply and one matching terminal audit entry, and is pending exactly until it is answered |
| `RelayRequests.FirstEndDecides` | packages/bridge/src/server.ts:617-719 | In every run the first event that ends a sent request decides its reply and its audit entry: a result 200 and success, a device error 500 and error, the timeout 504 and timeout; until then it is unanswered |
| `RelayRequests.DirectIsAnswered` | packages/bridge/src/server.ts:573-615 | A command the relay answers itself is answered 200 and logged as a success, whatever follows |
| `RelayRequests.KnownWasIssued` | packages/bridge/src/server.ts:560-573 | Every request the relay knows of was issued by an event of the run, under the number of commands forwarded so far |
| `RelayRequests.SecondReplyExactlyWhen` | packages/bridge/src/server.ts:730-733 | A second reply is attempted for exactly the requests whose send threw and that were settled afterwards |
| `RelayRequests.ThrowingSendAnswersTwice` | packages/bridge/src/server.ts:721-733 | A run in which that happens |

## Left out

- File locks with stale-lock removal, temporary files and renames: each store update is one atomic step, and a store that cannot be read or written is not modelled, except for the saves of one execution in `ExecutionGate`.
- Cyclic values: JSON values are trees, so the `seen` sets of redaction and normalization never trigger. Normalized call arguments differ from the arguments only in member order, which is not modelled.
- Messages, evidence text and its bounds, retryable flags, references and audit event contents; rejections are modelled by their kind and order.
- Handler results with a status other than succeeded, failed or cancelled are excluded by type.
- The identity cross-check between a job request and its execution authority in `submitCapabilityJob`: the broker builds both from one request.
- Broker-side resolution of the capability, caller-supplied artifact roots and failure to create an output root: they return before any state changes.
- Creation of output roots outside source and protected roots, and artifact retrieval.
- The projections, listings and diagnostics of jobs, plans, dispatches and executions.
- Audit stores of planning, validation and dispatch, except whether they accept a record.
- `resolveCapabilities`: the summary lists of available and unavailable capabilities and provider health.
- `iso` and `validPlan`: timestamps are integers, and a malformed expiry is an absent one.
- JobCoordinator.Coordinator.RecoverCapabilityJobs: requires unique record identities and a bounded store, which every reachable store has (JobTheorems.Reachable).
- JobRoots.RunBelowCapConservesRoots: covers runs below the cap without record removal; JobRoots.RunConservesRoots says exactly what happens otherwise.
- ResultEnforcement.StoredInline: the verdict of a verifier is a function of its identity, so one verifier listed twice answers alike.
- Relay sessions, authentication, heartbeats, reconnection and the admin endpoints; the session and direct command endpoints repeat the protocol of the action proxy.
- Process execution, command-line adapters, the n8n workflow migration and the stores that only test scripts describe.
