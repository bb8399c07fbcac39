# Dispatcher model

This project models the runner dispatcher and proves properties of it in Dafny. The project file `dfyconfig.toml`
lists all its modules.

A participant polls the configured repositories for queued jobs, decides which of them its policy lets it run,
waits out a claim delay, registers a just-in-time runner, runs it in a directory of its own, and cleans up. After
a crash it rebuilds the truth from the runner directories alone. The modules follow those parts.

| module | part of the system | form |
|---|---|---|
| `Lifecycle` | any number of `Run` calls, `Reconcile`, process exits and crashes, interleaved one disk or process operation at a time, each of which may fail | step relation with an inductive invariant over all behaviours |
| `Instances` | `removeInstance` and one `Reconcile` pass, sequentially, against an operating system whose every call may fail | class `Manager` with loops, proved against specification functions |
| `Admission` | the counters at the head of `Run`, for any number of concurrent callers | step relation; the order of the additions is history |
| `Service` | the poller, the completion goroutines and the manager's counters, interleaved | step relation; registrations, calls and polls are history |
| `Polling` | `PollOnce`, `observe`, `offer`, `localCapacity`, `isActive` on the service's own fields | class `Participant`; every execution is shown to be a behaviour of `Service` |
| `Claims` | the bounded claim tracker and `eligibleClaims` | class `ClaimTracker` refining an unbounded history |
| `Policy`, `Labels` | the authorization decision, the final recheck, label comparisons | functions; label loops as methods |
| `Config`, `RuleIdentity` | validation of repositories and policies, `canonicalRule` | validator methods that decide predicates |
| `Redaction` | `Redact` | methods proved against a recursive specification |
| `PolicyEdits`, `Allowlist` | policy mutations and the interactive replacement of the repository list | class `ConfigFile` and methods on entry lists |
| `Jobs`, `Text`, `Sorting`, `Collections` | job identity, string operations, what sorting promises, common notions | functions |

## What the proofs found

Where a promised property does not hold of the code, the code is modelled as it is, a lemma shows a concrete
failure, and the property is proved under the condition that decides it.

- Recovery after a crash. The comment at internal/runner/manager.go:207-208 calls a directory without a valid
  manifest safe to discard. That holds (`Lifecycle.FaultlessRecovery`) except for processes hit by one of three
  faults: a termination that failed in a `Run` that then cleans up regardless, a crash between the start of a
  process and the write that records it, and a failed read of a manifest that names a live process. The three are
  exact: `ExcusesHaveCauses` shows there are no others, and by `FaultsAreExact` every behaviour in which one of them
  concerns a live process extends to one that loses that process. `TerminationsGetTried` and `SurvivorsGetRead` show
  that the situations arise.
- What a reconciliation pass reports. A pass after which every entry left is verified reports nothing, always. The
  converse fails for an entry that was verified at its turn and whose process a later, overdue entry of the same
  listing ends. `Instances.PassReportsUnverified` proves that this is the only case; distinct process identities
  exclude it, reused PIDs or not (`DistinctIdentitiesReportExactly`), and the manager never writes the same identity
  into two directories (`Lifecycle.NoSharedIdentities`).
- A second reconciliation pass. After a pass in which nothing failed, a second one changes nothing exactly if the
  removal of each undercut entry would change nothing, an entry being undercut when it was kept because of what ran
  under its PID and a later entry ended that (`Instances.SecondPassChangesNothingIff`). With a reused PID that happens
  (`Instances.SharedPidIsUndercut`); two entries that merely share a PID do no harm.
- Admission is safe but not exact. `Admission.RefusedExactlyWhen` says when a caller is refused, and by
  `Admission.SpuriousRefusalNeedsTransit` it is refused although the admitted and the recovered left room only on
  account of callers that were still undecided or backing out when it added itself. `Admission.RefusalCanBeSpurious`
  shows one.
- The final recheck preserves authorization exactly for repositories whose visibility is not blank or that have
  no policy (`Policy.AuthorizationIsCongruent`). Parsing and validation leave no blank visibility.
- `canonicalRule` is a normal form for values in which no NUL is followed by one of the tags `event:`, `actor:` and
  `label:`. Validation does not exclude such values, and two different rules then collide
  (`RuleIdentity.NulCollision`).
- `Redact` removes a secret whenever no placement of it can overlap the mask text and agree with it. For secrets
  without brackets that means exactly: not a substring of `REDACTED` (`Redaction.BracketFreeSecretIff`).
- `MutatePolicy` looks up the trimmed name but appends the policy as it was written, so removing a policy just
  added works exactly if the file names the repository without surrounding blanks
  (`PolicyEdits.RemoveUndoesAddIff`).
- Replacing the allowlist writes without validating. Validation accepts the result exactly if the selected names
  stay non-empty, distinct and of one owner after trimming (`Allowlist.ReplacementAcceptedIff`); a repository
  named by a blank passes every guard and breaks the file (`Allowlist.BlankNameBreaksTheFile`). An existing entry
  written with surrounding blanks is not recognized, and its policies are dropped (`Allowlist.RetainedIffTidy`).

## Assumptions

Instance IDs, registration IDs and process identities are fresh. Polls do not go back in time. A termination that
reports success has ended the process; one that reports failure has not. Writing a manifest and writing the
configuration file are single steps that happen or do not. Case folding is ASCII folding, so comparing lower-cased
strings and comparing case-insensitively coincide; blanks are space, tab, newline and carriage return. Times are
integers on one clock.

## Model

| member | source | states |
|---|---|---|
| `Lifecycle.StepKeeps` | internal/runner/manager.go:60-254 | every step of a `Run`, of the reconciler, of a process and every crash keeps the invariant linking disk, processes, ownership and threads |
| `Lifecycle.BehaviourInv` | internal/runner/manager.go:60-254 | the invariant holds in every state of every behaviour |
| `Lifecycle.RunningInstancesUntouched` | internal/runner/manager.go:184-198 | in every interleaving a reconciler step leaves the directory and the process of each `Run` that has not left alone |
| `Lifecycle.NoProcessLost` | internal/runner/manager.go:84-152 | every live process is owned by a `Run` in progress, named by a waiting or assigned manifest in its own directory, or excused by a fault |
| `Lifecycle.StartedOnlyWhenPrepared` | internal/runner/manager.go:84-103 | a process is started only in a directory that holds a valid manifest, still without a process, of a `Run` in progress |
| `Lifecycle.DiskMirrorsMemory` | internal/runner/manager.go:91-133 | before it starts its process, while it watches it, serves its job and stops on cancellation, a `Run` has on disk exactly the manifest it has in memory |
| `Lifecycle.ExcusesHaveCauses` | internal/runner/manager.go:205-220 | a process is excused only by one of the three named faults, which concerned that process |
| `Lifecycle.FaultlessRecovery` | internal/runner/manager.go:205-220 | without those faults no behaviour loses a live process, so discarding invalid entries is safe |
| `Lifecycle.CrashBeforeRecordLoses` | internal/runner/manager.go:98-113 | a crash after the start of a process and before it is recorded, or stopped for want of a record, always leaves a live process nobody owns and no manifest names |
| `Lifecycle.FailedTerminationLoses` | internal/runner/manager.go:110-152 | after a failed termination at any of the three places that go on regardless, the `Run` can finish and lose the process |
| `Lifecycle.FailedReadLoses` | internal/runner/manager.go:205-213 | after a failed read of a manifest that names a live process, the reconciler can delete its directory and lose it |
| `Lifecycle.FaultsAreExact` | internal/runner/manager.go:84-220 | every behaviour in which a fault concerns a live process extends to one that loses that process |
| `Lifecycle.TerminationsGetTried` | internal/runner/manager.go:110-140 | behaviours exist that reach each of those three terminations with the process alive |
| `Lifecycle.SurvivorsGetRead` | internal/runner/manager.go:181-205 | a behaviour exists in which, after a crash, the manifest of a process still alive comes to be read |
| `Lifecycle.NoSharedIdentities` | internal/runner/manager.go:107-110 | in no state do two directories name the same process |
| `Lifecycle.PhaseNeverMovesBack` | internal/runner/manager.go:84-179 | over failed writes, crashes, restored manifests and reconciliations, the rank of the phase on disk (preparing, waiting, assigned, ended, cleaning, cleanup failed) never goes back and the cleanup count never drops |
| `Lifecycle.PhasesFollowTheDiagram` | internal/runner/manager.go:84-174 | in every behaviour a `Run` moves only from preparing to waiting or failed, from waiting to assigned, timed out or exited, from assigned to exited, and from there to cleaning and its failure; it records an exit only once the process is gone |
| `Lifecycle.NoStepIsSkipped` | internal/runner/manager.go:80-179 | in every behaviour a `Run` comes to each point only from one that may precede it: nothing is watched or served before its record was tried, nothing ended before it was waited for or its termination failed after a timeout, nothing removed before its cleanup was announced |
| `Lifecycle.WaysToEnd` | internal/runner/manager.go:119-146 | assignment, timeout, cancellation and, once the process is gone, exit can each end the wait; a served process can exit or be cancelled |
| `Lifecycle.ServedRunsWaitForTheirProcess` | internal/runner/manager.go:122-135 | a `Run` that has come to serve a job reaches its outcome and its cleanup only with its process gone, whatever terminations returned, and no fault excuses it from that |
| `Lifecycle.AssignedNeverTimesOut` | internal/runner/manager.go:122-152 | a directory that has recorded an assigned runner never again records a waiting, timed-out or failed one |
| `Lifecycle.ReconcileEndsOnlyWaiting` | internal/runner/manager.go:239-249 | the reconciler ends a process only if an unowned directory records it as waiting for its job, and then removes that directory |
| `Lifecycle.AssignedRunnersSurvive` | internal/runner/manager.go:205-249 | once a process is on record as assigned, no crash and no reconciliation ends it, then or later |
| `Lifecycle.BehaviourCleansUp` | internal/runner/manager.go:169-179 | in every behaviour a `Run` counts one cleanup, before it begins to remove its directory, and is done only when the directory is gone, its failed removal is on the `Run`'s record, or nothing was started in it |
| `Lifecycle.LeavesOnlyAfterRemoval` | internal/runner/manager.go:80-179 | a `Run` is done only after a removal: the one that abandons a failed preparation, or its cleanup |
| `Lifecycle.RecordCanComeBack` | internal/runner/manager.go:284-292 | a `Run` that has removed its manifest but not its directory can put the manifest back |
| `Lifecycle.ProcessesGetWatched` | internal/runner/manager.go:84-119 | a behaviour exists that starts a process and reaches the state in which it is watched |
| `Instances.RemovalFacts` | internal/runner/manager.go:256-295 | success means the entry is gone; a failed attempt leaves a part of it; while workspace files remain the manifest is untouched; a failed last step restores it unless reading or rewriting it failed too; without failures no directory is left |
| `Instances.RemovalSucceedsIff` | internal/runner/manager.go:256-295 | a removal succeeds exactly if there is nothing, or a directory for which no call on the way fails |
| `Instances.ClearsUpTo` | internal/runner/manager.go:276-283 | the files go in listing order, up to the first that cannot be removed, the manifest excepted |
| `Instances.RestoredExactlyWhen` | internal/runner/manager.go:284-294 | when only the directory itself stays, it holds its manifest exactly if that could be read before and written back, and nothing else |
| `Instances.ExamineFacts` | internal/runner/manager.go:189-251 | one turn touches only its own entry, counts it exactly when it stays unowned, and reports a problem exactly when it stays unverified |
| `Instances.TurnByFields` | internal/runner/manager.go:189-251 | by the fields of entry and manifest: which entries a turn leaves, keeps with which problem, or removes, and whose process it ends |
| `Instances.PassEndsExactlyExpired` | internal/runner/manager.go:229-250 | a pass takes a process from the table exactly if an unowned entry, waiting with a deadline in the past, names it with the identity the table holds |
| `Instances.AssignedRunnersAreKept` | internal/runner/manager.go:239-249 | with distinct identities a pass keeps directory and process of an assigned runner, whatever its deadline |
| `Instances.PassCounts` | internal/runner/manager.go:187-252 | a completed pass stores exactly the number of unowned entries still present |
| `Instances.PassReportsUnverified` | internal/runner/manager.go:187-253 | if each entry left is a verified live process that is not overdue, the pass returned no error; if it returned none, each is, exactly when no entry was undercut |
| `Instances.DistinctIdentitiesReportExactly` | internal/runner/manager.go:187-253 | with distinct process identities, whatever their PIDs, it returns no error exactly when each entry left is verified |
| `Instances.TableAfter` | internal/runner/manager.go:229-250 | a pass ends exactly the processes that some overdue, matching entry names, and touches no other |
| `Instances.StrandedIffUndercut` | internal/runner/manager.go:189-251 | after a pass in which nothing failed, the entries left whose PID is gone are exactly the undercut ones |
| `Instances.SecondPassChangesNothingIff` | internal/runner/manager.go:187-253 | after a pass in which every removal and termination succeeded, a second one at the same time changes nothing and stores the same count exactly if removing the undercut entries would change nothing |
| `Instances.SecondPassUndercut` | internal/runner/manager.go:187-253 | without undercut entries nothing changes; if no call on their behalf fails, that is the only case |
| `Instances.DistinctPidsNeverUndercut` | internal/runner/manager.go:229-250 | distinct PIDs leave no entry undercut |
| `Instances.SharedPidIsUndercut` | internal/runner/manager.go:229-250 | with a shared identity a pass reports nothing although an entry it leaves lost its process; with a shared or reused PID a second pass removes an entry the first one kept |
| `Instances.Manager.RemoveInstance` | internal/runner/manager.go:256-295 | the result and the disk are those of the specified removal, and at every moment in between the manifest outlives the workspace files |
| `Instances.Manager.ClearWorkspace` | internal/runner/manager.go:276-283 | removes everything but the manifest in the listed order up to the first failure |
| `Instances.Manager.RemoveRest` | internal/runner/manager.go:284-294 | removes the manifest, then the directory, and puts the manifest back if the directory stays |
| `Instances.Manager.Reconcile` | internal/runner/manager.go:181-254 | a completed pass has the specified effect on disk, process table, counter and problems; a cancelled one leaves the counter alone; when it completes |
| `Instances.Manager.ExamineOne` | internal/runner/manager.go:193-250 | one loop turn has the specified effect |
| `Admission.StepKeeps` | internal/runner/manager.go:61-65 | each atomic addition, load, backing out, return and store keeps the ticket invariant |
| `Admission.AdmissionIsSafe` | internal/runner/manager.go:61-65 | in every interleaving at most `capacity` callers are past the check |
| `Admission.RefusedExactlyWhen` | internal/runner/manager.go:61-64 | a caller is refused exactly when those counted as it added itself, itself, and the recovered ones as it loads exceed the capacity |
| `Admission.SpuriousRefusalNeedsTransit` | internal/runner/manager.go:61-64 | a refusal although admitted and recovered left room needs callers in transit; with none in transit a caller is refused exactly when they had filled the capacity |
| `Admission.RefusalCanBeSpurious` | internal/runner/manager.go:61-64 | a caller can be refused with nothing running and nothing recovered |
| `Service.BehaviourInv` | internal/participant/participant.go:75-211 | conservation and justification invariants hold in every state of every behaviour |
| `Service.DropBranchUnreachable` | internal/participant/participant.go:177-182 | the branch that gives up a generated registration is never taken |
| `Service.RegistrationsConserved` | internal/participant/participant.go:171-208 | each registration gets at most one `Run` and one delete attempt, in that order, and exactly one of each once nobody holds it |
| `Service.OutstandingRegistrationsBounded` | internal/participant/participant.go:171-208 | generated registrations without a delete attempt never exceed the capacity and are at most one per job key |
| `Service.RefusalNeedsLeftovers` | internal/participant/participant.go:178-208 | localActive <= active <= capacity always; with nothing recovered a `Run` is admitted; a refused one never gets past the admission check, before which `Run` touches nothing |
| `Service.ActiveIsServed` | internal/participant/participant.go:178-208 | the active keys are exactly the keys the goroutines serve |
| `Service.OffersAreJustified` | internal/participant/participant.go:75-100 | every registration call is for a configured repository and a job authorized, queued and compatible in the latest poll and again after fetching it anew, seen for the claim delay without a gap beyond the staleness window |
| `Service.CallsMeetRequirements` | internal/participant/participant.go:142-173 | by the fields of each call: the job fetched anew is queued, its run queued or in progress, IDs, repository, visibility and labels agree, and the policy authorizes it |
| `Service.ConfiguredIsObserved` | internal/participant/participant.go:311-318 | with a valid configuration the repository looked up for an offer is the one the job was observed under |
| `Service.SecondAuthorizationAgrees` | internal/participant/participant.go:153-165 | with a valid configuration a consistent recheck is never denied by the second authorization or the label check |
| `Service.MatchingQueuedJobs` | internal/participant/participant.go:320-338 | exactly the jobs with status queued all of whose labels the participant has, by folded slug byte by byte with a proper prefix first, then run ID, then job ID |
| `Service.ObserveReasons` | internal/participant/participant.go:85-91 | after the tracker's turn every job in the claim queue is ripe |
| `Polling.Participant.PollOnce` | internal/participant/participant.go:75-100 | extends a behaviour of `Service` and ends idle; the queue holds exactly the due matching jobs in claim order; each gets the outcome its own turn must have in the state it began in, up to the first failed offer; the new calls are for exactly the jobs offered with success, in order |
| `Polling.Participant.Reconcile` | internal/participant/participant.go:76-79 | the recovered count is stored; a failed reconciliation ends the poll exactly when no capacity is left |
| `Polling.Participant.Observe` | internal/participant/participant.go:102-129 | the authorized jobs of every repository in order, or failure if a list call failed |
| `Polling.Authorize` | internal/participant/participant.go:116-125 | keeps exactly the authorized jobs of one repository, in order |
| `Polling.AuthorizedOf` | internal/participant/participant.go:116-125 | a job is kept if and only if it is listed and authorized |
| `Polling.GatheredIsObserved` | internal/participant/participant.go:102-129 | every job it returns belongs to a configured repository that authorizes it |
| `Polling.Participant.Track` | internal/participant/participant.go:85-91 | an observation step of `Service`; the queue holds exactly the due matching jobs, stamped with what the tracker noted, the one seen first at its head |
| `Polling.Participant.OfferAll` | internal/participant/participant.go:91-98 | each job gets the outcome of its own turn, in order; a failed offer is the last thing that happens; the new calls are for exactly the jobs offered with success |
| `Polling.Participant.Consider` | internal/participant/participant.go:92-97 | skipped exactly without free capacity or with the key active, each judged at the moment it is looked at; otherwise what the offer comes to |
| `Polling.Participant.Offer` | internal/participant/participant.go:142-211 | the outcome is decided by the answers and by the state in which it looks for room; a made offer holds its key and made one call |
| `Polling.Participant.Launch` | internal/participant/participant.go:166-208 | a rechecked job is registered and handed over, or the poll fails |
| `Polling.Participant.Generate` | internal/participant/participant.go:171-176 | a new registration is recorded with its call |
| `Polling.Participant.Admit` | internal/participant/participant.go:177-185 | the key is taken and the goroutine exists; giving the registration up instead is dead code |
| `Polling.Participant.Recheck` | internal/participant/participant.go:156-165 | passes exactly if the job is still queued, its run queued or in progress, identity, visibility, labels and, under a policy, workflow, event and actors agree, its labels are offered, and it is authorized; with a valid configuration the last two never decide |
| `Polling.Participant.Serve` | internal/participant/participant.go:187-208 | the goroutine's next step is the specified one |
| `Polling.Participant.LocalCapacity` | internal/participant/participant.go:294-302 | room is reported exactly when both counts are below the capacity, and a `Run` counted next is then still within it |
| `Polling.Participant.IsActive` | internal/participant/participant.go:304-309 | a job is found active exactly if some goroutine serves its key |
| `Polling.FindConfigured` | internal/participant/participant.go:311-318 | the first repository with that name up to case |
| `Polling.Participant.AlwaysSafe` | internal/participant/participant.go:75-211 | in every state of the running service: nothing dropped, capacity respected, outstanding registrations bounded, all calls justified |
| `Claims.ClaimTracker.Observe` | internal/participant/claim.go:24-53 | one poll keeps the tracker in agreement with the history and within its bound; each stamp is never before the start of the job's latest chain, and is that start if nothing overflowed |
| `Claims.ClaimTracker.ForgetStale` | internal/participant/claim.go:25-29 | exactly the entries not seen for longer than the staleness window are dropped |
| `Claims.ClaimTracker.Note` | internal/participant/claim.go:30-41 | each job's entry is refreshed or started, and the job stamped with its first-seen time |
| `Claims.ClaimTracker.Oldest` | internal/participant/claim.go:43-49 | a least recently seen entry, whatever the iteration order |
| `Claims.ClaimTracker.Shrink` | internal/participant/claim.go:42-51 | only least recently seen entries are evicted, and no more than needed |
| `Claims.ObserveTracks` | internal/participant/claim.go:24-53 | the bounded tracker refines the unbounded history, exactly without overflow and only late with it |
| `Claims.RunTracks` | internal/participant/claim.go:24-53 | the same over whole runs |
| `Claims.StampTrue` | internal/participant/claim.go:33-39 | what a stamp says about the job's sightings |
| `Claims.ChainStartMeaning` | internal/participant/claim.go:25-39 | the start of the latest chain is a sighting followed only by small gaps and preceded by a large one or by nothing |
| `Claims.SteadyKey` | internal/participant/claim.go:24-53 | a job seen in every poll keeps its first-seen time |
| `Claims.LatencyBound` | internal/participant/claim.go:55-61 | the first poll at or after first-seen plus delay is the first at which the job is eligible, and comes before first-seen + delay + period |
| `Claims.EligibleClaims` | internal/participant/claim.go:55-77 | a permutation of exactly the due jobs, by first-seen time, then folded slug byte by byte with a proper prefix first, then run ID, then job ID |
| `Jobs.JobKeyIdentity` | internal/participant/participant.go:361-363 | keys are equal exactly for the same owner and name up to case and the same job ID |
| `Labels.LabelsMatch` | internal/participant/participant.go:340-351 | every required label is available up to case |
| `Labels.SameLabels` | internal/participant/participant.go:229-245 | exactly multiset equality up to case |
| `Labels.CompatibleUpToCase` | internal/participant/participant.go:229-245 | label lists equal in that sense are compatible with the same participants |
| `Policy.JudgeCongruence` | internal/participant/policy.go:26-55 | jobs that agree on the metadata of the recheck get the same verdict with the same reason |
| `Policy.AuthorizationIsCongruent` | internal/participant/participant.go:213-227 | after a consistent recheck labels still match, and authorization persists exactly unless there is a policy and the visibility is blank |
| `Policy.ValidatedAuthorizationIsStable` | internal/participant/participant.go:156-165 | for a validated repository the recheck never changes the decision |
| `Policy.OnePathMatches` | internal/participant/policy.go:40-45 | two paths without `@` that match the same job are equal |
| `Policy.AtMostOneOfEachKind` | internal/participant/policy.go:26-45 | of a validated policy at most one ID entry and one path entry match a job |
| `Policy.FirstMatchDecides` | internal/participant/policy.go:26-38 | the decision is the verdict of the first matching entry |
| `Policy.AuthorizedExactlyWhen` | internal/participant/policy.go:10-55 | without a policy: a private repository; with one: complete metadata of the configured repository and visibility, and the first entry with its number or its file, bare or before `@`, has a rule that lists the event, requires no label the job lacks up to case, and trusts anyone or both the actor and the triggering actor up to case |
| `Policy.ReasonsMean` | internal/participant/policy.go:10-38 | which of the reasons is given, and when |
| `Policy.ConsistentExactlyWhen` | internal/participant/participant.go:213-227 | the recheck field by field |
| `Policy.OneKindDecision` | internal/participant/policy.go:26-38 | with entries of one kind: some workflow and some rule match, and all matching entries agree |
| `Policy.OneKindOrderIrrelevant` | internal/participant/policy.go:26-38 | with entries of one kind rearranging them never changes a decision |
| `Policy.OrderIrrelevantIff` | internal/participant/policy.go:26-38 | the order of entries is irrelevant to a job exactly when all matching entries agree |
| `Policy.RuleOrderIrrelevant` | internal/participant/policy.go:30-35 | rearranging rules never changes a verdict |
| `Config.ValidatePolicyValues` | internal/config/config.go:309-325 | trims, and reports no problem exactly for non-empty lists of well-formed values distinct up to case |
| `Config.ValidateRule` | internal/config/config.go:288-300 | the same for one rule, with the wildcard and advertised-label conditions |
| `Config.ValidateRules` | internal/config/config.go:281-307 | the same for a non-empty list of rules with distinct canonical strings |
| `Config.ValidateTrustedWorkflows` | internal/config/config.go:254-279 | the same for entries with exactly one valid identity each, all distinct |
| `Config.IdentitiesMean` | internal/config/config.go:269-276 | entries are distinct exactly if no two give the same file, or the same number without a file |
| `Config.WorkflowPathMeans` | internal/config/config.go:327-332 | a path is accepted exactly if it is a plain .yml or .yaml file under the workflow directory, without a ref, a query or a dot or empty segment |
| `Config.ValidateRepositories` | internal/config/config.go:215-252 | the same for the whole list: one owner, no duplicates, public only with a policy |
| `Config.ValidationIsIdempotent` | internal/config/config.go:215-325 | what validation leaves behind is trimmed throughout, and validated again is accepted again unchanged |
| `RuleIdentity.CanonicalIsNormalForm` | internal/config/config.go:334-347 | where no NUL is followed by a tag, equal strings exactly for rules with the same events and the same folded actors and labels as multisets |
| `RuleIdentity.NulFreeIsUnambiguous` | internal/config/config.go:334-347 | values without NUL meet that condition |
| `RuleIdentity.EqualFormsMatchAlike` | internal/config/config.go:301-305 | under the same condition rules with equal strings accept the same jobs |
| `RuleIdentity.NulCollision` | internal/config/config.go:334-347 | from any two different valid event names of moderate length come two different rules, with event values validation accepts, that share one string |
| `Redaction.FindTokenEnd` | internal/participant/log.go:38-41 | the first delimiter after the token, or the end |
| `Redaction.MaskPrefix` | internal/participant/log.go:37-43 | the search that restarts at the beginning each time masks each token exactly once |
| `Redaction.Redact` | internal/participant/log.go:30-46 | computes the specified text |
| `Redaction.FirstSecretIsMasked` | internal/participant/log.go:31-35 | the first occurrence of a secret becomes the mask, the text before it stays, what follows is treated alike |
| `Redaction.SecretsInOrder` | internal/participant/log.go:31-35 | secrets are masked one after the other in the order given |
| `Redaction.FirstTokenIsMasked` | internal/participant/log.go:36-44 | the first token with a prefix becomes the mask as a whole, up to its delimiter |
| `Redaction.FineGrainedFirst` | internal/participant/log.go:36 | fine-grained tokens are masked before classic ones |
| `Redaction.RedactedIsClear` | internal/participant/log.go:30-46 | neither token prefix remains, and no clean secret, in whatever order the secrets come and however they overlap |
| `Redaction.UntouchedWhenClear` | internal/participant/log.go:30-46 | text without secrets and token prefixes is left as it is |
| `Redaction.RedactedIdempotent` | internal/participant/log.go:30-46 | redacting twice is redacting once, for clean secrets |
| `Redaction.CleanWithoutBrackets` | internal/participant/log.go:31-35 | a secret without brackets that is no substring of `REDACTED` is clean |
| `Redaction.BracketFreeSecretIff` | internal/participant/log.go:31-35 | for secrets without brackets that condition is exact |
| `Redaction.BracketSurvives` | internal/participant/log.go:31-35 | a lone bracket is a secret that survives |
| `PolicyEdits.RepositoryNodeIndex` | internal/setup/policy.go:93-101 | the first entry with that name up to case |
| `PolicyEdits.ConfigFile.MutatePolicy` | internal/setup/policy.go:39-61 | the file becomes the specified list or stays exactly as it was |
| `PolicyEdits.AcceptedMeans` | internal/config/config.go:215-252 | a list is accepted exactly if each entry is valid, all have one owner, and trimmed folded names are distinct |
| `PolicyEdits.DefaultsMean` | internal/config/config.go:123-135 | a missing visibility means private and a missing runner group the first; nothing else changes |
| `PolicyEdits.MutationCases` | internal/setup/policy.go:39-61 | what a successful request writes, and where: a new entry at the end, the policy in place of the entry found, or the list without it |
| `PolicyEdits.MutationsActOnTheMap` | internal/setup/policy.go:39-61 | add, reconcile and remove are insert-if-absent, put and delete on a case-folded map, and keep the list valid |
| `PolicyEdits.RejectedExactlyWhen` | internal/setup/policy.go:39-60 | the complete list of reasons for a rejection |
| `PolicyEdits.OtherEntriesKept` | internal/setup/policy.go:45-56 | other entries and their order never change |
| `PolicyEdits.ReconcileIsIdempotent` | internal/setup/policy.go:46-51 | reconciling twice is reconciling once |
| `PolicyEdits.RemoveUndoesAddIff` | internal/setup/policy.go:41-56 | remove undoes add exactly if the policy file names the repository without surrounding blanks |
| `PolicyEdits.ValidUnderMutations` | internal/setup/policy.go:39-61 | a valid configuration stays valid under any sequence of mutations |
| `Allowlist.DiscoverRepositories` | internal/setup/setup.go:108-136 | fails exactly if some item is not private or its full name is not an owner, a slash and its stated name; otherwise the first item of each name, sorted |
| `Allowlist.WellFormedMeans` | internal/setup/setup.go:120-125 | the check by splitting accepts exactly the private items whose full name is a plain owner, one slash and the stated plain name |
| `Allowlist.FirstOfEachMeaning` | internal/setup/setup.go:117-132 | the kept items are exactly those whose name did not occur before, with distinct names covering all |
| `Allowlist.DiscoveryMeaning` | internal/setup/setup.go:108-136 | the list shown is well-formed, ascends byte by byte in the folded full names, and holds every reported name exactly once |
| `Allowlist.ParseSelection` | internal/setup/setup.go:179-213 | accepted exactly if every comma-separated part of the answer is a number or a range within the list; the result holds exactly the indices some part covers, each once, increasing |
| `Allowlist.PartMeans` | internal/setup/setup.go:182-194 | a part is a range exactly if its trimmed text is one number, or two with a single dash between them |
| `Allowlist.SelectionRoundTrip` | internal/setup/setup.go:181-197 | every list of ranges can be written as an answer that reads back as that list |
| `Allowlist.PickedApart` | internal/setup/setup.go:86-93 | a selection from a list of distinct repositories has distinct repositories |
| `Allowlist.CommonOwner` | internal/setup/setup.go:215-226 | exactly the non-empty selections with one owner up to case |
| `Allowlist.ReplaceAllowlist` | internal/setup/setup.go:228-261 | each selected repository gets its existing entry or a fresh one, in order |
| `Allowlist.EntryForMeans` | internal/setup/setup.go:244-256 | the first entry of that name up to case, or one that validation reads as private, in the default group and without policies |
| `Allowlist.ReplacementAcceptedIff` | internal/setup/setup.go:238-258 | validation accepts the unvalidated result exactly if the selected names survive trimming |
| `Allowlist.GuardedReplacementAccepted` | internal/setup/setup.go:238-258 | the guards of the interactive flow suffice for names without surrounding blanks |
| `Allowlist.BlankNameBreaksTheFile` | internal/setup/setup.go:120-125 | they do not suffice in general |
| `Allowlist.RetainedIffTidy` | internal/setup/setup.go:246-249 | an existing entry is kept as it is exactly if its own names carry no surrounding blanks |

## Left out

- HTTP client, retries, pagination and JSON decoding: each call is an arbitrary answer or error.
- Process control on Linux and Windows: start, inspect, terminate and wait are oracles under the assumptions above.
- Combining a listed run and a job of it into one observed job: the answers are observed jobs already.
- Copying the template, environment building, random IDs and symbolic links: one step that may fail, fresh IDs, and
  a "not a directory" entry.
- File paths: instances are named by their ID directly under the runner root, so the path guard of `removeInstance`
  has nothing to refuse.
- YAML syntax and encoding: the repository list is a list of typed entries; the rest of the configuration is
  assumed valid and unchanged.
- Command line, prompts, printing, workflow status marking, token instructions and log formatting.
- Duration, URL, API-version, path and label checks in the configuration.
- `watchAssignment` and `runnerAssigned`: an event that may or may not reach a waiting `Run`.
- Integer widths: counters, IDs and times are unbounded.
- The texts and field names of reported validation problems; only whether there are any, and their kinds, matter.
- Config.ValidateRepositories: returns the trimmed list as a new value instead of updating shared slices in place.
- PolicyEdits.ConfigFile.MutatePolicy: replaces the list in one assignment, so aliasing between the old and the new
  backing slice is not captured.
- Polling.Participant.PollOnce: other goroutines take steps during each call the poller makes to the outside and before
  each lock it takes; interleavings at other points are covered by the step relation in `Service`.
- Service.RefusalNeedsLeftovers: that a refused `Run` touches no disk and no process is read off a history flag set when
  admission succeeds; disk and processes are in `Lifecycle`, whose `Begin` step is the part of `Run` after admission.
- Lifecycle.NoProcessLost: says nothing about processes hit by the three named faults, because for those it is false.
- Claims.ClaimTracker.Observe: assumes that polls do not go back in time, as the tracker's own clock comparison does.
