# Verification of gh-housekeeper's deletion pipeline

gh-housekeeper deletes GitHub Actions runs, artifacts and caches by policy. This project models the
parts that decide what is deleted and the parts that do it, and proves what they can be trusted with.
`dafny verify dfyconfig.toml` checks everything.

## How the model is built

- **The provider may answer anything.** Each service holds an oracle: a record of functions from the
  whole history of calls and answers to the next answer. A theorem for every oracle is a theorem for
  every provider, however it changes its mind. A class (`Remote`, `CacheRemote`, `UsageWorld`) keeps the
  history; the services are methods over it, each proved to compute a specification function of the
  oracle and the history, and the theorems are about those functions.
- **A truthful store** is one particular oracle: deletes take effect, lookups tell the truth, and only a
  run's `updated_at` may move when its own logs or artifacts go. The refinement theorems are about it.
- **Concurrency** (protecting against purging, shutdown against the server loop) is a state machine over
  steps; its theorems hold for every interleaving. **Crashes** of the audit store are outcomes of every
  primitive file operation, before or after it takes effect.
- **Strings are their UTF-8 bytes**, one character per byte, so that length, order and ASCII case folding
  mean what they mean in Rust. Times are nanoseconds since 1970. Machine widths are written out:
  saturating and wrapping sums, 64-bit hashing, 32-bit failure counters.

| files | what they model |
|---|---|
| RunPurgePlan, RunPurgePlanning, RunPurgeRevalidation | run purge plans, their building and their review |
| RunPurgeRemote, RunPurgeExecution, RunPurgeExecutor | the purge executor: world, specification, loops |
| RunPurgeSafety, RunPurgeMessages, RunPurgeBatch, RunPurgeReport, RunPurgeHaltText | its safety, rate-limit containment, and what its states and halts mean |
| RunPurgeDrift, RunPurgeReading, RunPurgeBatchReading, RunPurgeReviewReading, RunPurgePlanningReading | whole reports, reviews and plans read off the history: every field stands for its answers, both ways |
| RunPurgeHonest, RunPurgeRefinement, RunPurgeEndToEnd | refinement to a truthful store |
| RunProtection, ProtectionRace | local protections, and the race with the purge |
| Policy, Fingerprint, PolicyIdentity, BusinessDays, KeepLatest, RunEngine | run policies |
| RetentionMeaning | what those policies mean, without the classifier's helpers |
| ArtifactEngine, ArtifactMeaning, CleanupPlan | artifact policies, their meaning, and cleanup plans |
| CachePurge, CachePurgeSafety, CachePurgeReading, AuditNames, CachePurgeAudit, CachePurgeApply | cache purges and their write-ahead audit |
| AccountUsage, AccountUsageSafety, AccountUsageReading, Monitoring, MonitoringSafety, MonitoringReading | quota alerts and the monitoring scheduler |
| Shutdown, FrameReader, GithubClient | daemon shutdown, the local socket's frames, the client's loops |
| Prelude, Domain, Sorting, Text | shared types, sorting, text |

## Where an expected property does not hold

Each is proved with a concrete case and with the exact condition under which the code does what one
would expect.

- A rate limit is recognised by searching the report for a phrase. For every provider and every batch,
  the batch halts exactly when a request was refused by the rate limit, headroom ran low, or an answer
  the report repeats contains the phrase in its free text: a stored reason, an explanation, a store
  failure, a provider message (`RunPurgeHaltText.TargetHaltsIff`, `BatchHaltsIff`; for caches
  `CachePurgeSafety.CacheBatchHaltsIff`). Cases: a stored reason (`ProtectionHaltsIff`,
  `SuchAReasonIsAllowed`) and a broken connection (`TransportErrorHaltsIff`).
- The lease is per key and the assessment per run id. A run can be deleted while a protection of its id
  under another repository id is in force (`ProtectionRace.OtherRepositorySlipsIn`), and over all
  interleavings exactly when the two keys use different lock files (`ProtectionRace.SameRunIdIsSafeIff`).
- A call of `shutdown` that did not change the state may return before the one that did has published,
  so its return does not guarantee the server a wake-up (`Shutdown.AnyReturnIsNotEnough`); the return of
  the call that changed the state does (`Shutdown.NoLostShutdown`; both at once in
  `Shutdown.ReturnIsEnoughIff`).
- Text after a frame's newline is rejected only if it arrives in the same read
  (`FrameReader.SecondMessageMaySlipBy`); `FrameReader.FrameMeaning` has the condition.
- Artifact keep-latest selections are keyed by artifact id alone: an artifact no rule keeps is spared
  exactly when a different artifact with its id is kept (`ArtifactEngine.SparedByIdIff`, `SparedExactly`;
  the case is `TwinIsSpared`).
- Signals do not tell when monitoring is switched on at a healthy level or switched off
  (`MonitoringSafety.SignalTellsIff`; the cases are `SilentChanges`).

## Model

| member | source | states |
|---|---|---|
| RunPurgePlans.NewPlan | crates/gh-housekeeper-core/src/run_purge.rs:98-195 | a plan is built exactly when the scan is complete, every run is completed, in the scan and requested once, and its artifacts are its own and distinct; it is then the sorted plan, intact, with the summary of the targets as requested; every refusal names a real fault |
| RunPurgePlans.ValidateIntegrity | crates/gh-housekeeper-core/src/run_purge.rs:229-293 | accepts exactly the intact plans; every refusal names something really wrong; the summary is blamed only when nothing else is |
| RunPurgePlans.CheckArtifacts | crates/gh-housekeeper-core/src/run_purge.rs:142-172 | one target's artifacts are accepted exactly when they belong to the run and are distinct; the saturating totals grow by exactly them |
| RunPurgePlans.PlanOfIsIntact | crates/gh-housekeeper-core/src/run_purge.rs:98-195 | every plan built from fitting targets passes its own integrity check after both sorts, and its summary is that of the requested targets |
| RunPurgePlans.PlanIsStrictlyOrdered | crates/gh-housekeeper-core/src/run_purge.rs:174-195 | plan targets are the requested ones, strictly increasing by repository and id |
| RunPurgePlans.PlanSays | crates/gh-housekeeper-core/src/run_purge.rs:174-195 | every field of a plan: the scan's time, account and scope, the selection, the capped exact totals, and for each requested target the same run and log permission with the same artifacts in ascending id order |
| RunPurgePlanning.BuildPlan | crates/gh-housekeeper-core/src/run_purge.rs:312-418 | a plan is built exactly when the scan is complete, the account is unchanged, every reading succeeds and what was read fits together; it is then the intact plan of exactly those readings; an error is the first failure of the readings, whose cause `PlanRunsMeaning` and `ReadingsMeaning` give, or names a real fault of what was read |
| RunPurgePlanning.PlannedTargetsWereRead | crates/gh-housekeeper-core/src/run_purge.rs:334-416 | whatever the provider answers: each planned target was read whole under its own lease, unprotected before, between and after the readings; planning deletes nothing; explicit ids are planned all or not at all |
| RunPurgePlanning.NotSkipped | crates/gh-housekeeper-core/src/run_purge.rs:1197-1221 | one assessment: only an all-clear lets a run through, and an explicitly named run is never skipped silently |
| RunPurgePlanningReading.PlanRunMeaning | crates/gh-housekeeper-core/src/run_purge.rs:334-416 | for every provider and store: the first of ten checks that does not let a run through decides; a local entry skips it, or is an error for explicit ids; a doubtful entry is an error in every mode; each other error has its own cause; without a stop the run is planned with the listed artifacts; a planned or skipped run leaves exactly its questions up to there and gives its lease back |
| RunPurgePlanningReading.PlanRunsMeaning | crates/gh-housekeeper-core/src/run_purge.rs:331-418 | a build gets through exactly when every selected run is free or skipped for its protection; it then plans exactly the free ones in order, and otherwise it fails with the error of the first run that is neither |
| RunPurgePlanningReading.SkippedIff | crates/gh-housekeeper-core/src/run_purge.rs:1197-1221 | a selected run is missing from a plan exactly where a local protection was its first stop and the selection is not by explicit ids |
| RunPurgePlanningReading.ReadingsMeaning | crates/gh-housekeeper-core/src/run_purge.rs:312-330 | the errors before the first run: incomplete scan, provider failure, changed account, unreadable protections, each exactly when it is the first that applies |
| RunPurgeRevalidation.Revalidate | crates/gh-housekeeper-core/src/run_purge.rs:488-652 | the review succeeds exactly for an intact plan, the same account and a readable protection store, and is then the whole per-target review, whose meaning `WholeReviewIsExact` gives; each refusal names the first of these that fails |
| RunPurgeRevalidation.ReviewMatchesPlan | crates/gh-housekeeper-core/src/run_purge.rs:502-643 | review items name the plan's targets one for one in order, and a review never deletes |
| RunPurgeRevalidation.OwnReviewAccepted | crates/gh-housekeeper-core/src/run_purge.rs:1155-1172 | the executor accepts a plan's own review exactly when every target is ready or already absent |
| RunPurgeRevalidation.ReviewRateLimitContained | crates/gh-housekeeper-core/src/run_purge.rs:530-643 | after a rate limit or low headroom every later target fails the review, only local snapshots are read, and the plan may not be executed |
| RunPurgeReviewReading.ReviewTurnIsTold | crates/gh-housekeeper-core/src/run_purge.rs:502-643 | for every provider and store, one target: Ready exactly when the protections just read do not name the run, nothing halted the review, more than 250 requests are left, the lookup returned the planned run and the listing shows no drift; AlreadyAbsent exactly when the lookup found nothing; Changed exactly for a different run or drift; failed otherwise; drift lists, current run, error and next halt reason read off the same answers |
| RunPurgeReviewReading.WholeReviewIsExact | crates/gh-housekeeper-core/src/run_purge.rs:502-643 | the history of a whole review falls into one such turn per target, in order, each handing its halt reason to the next |
| RunPurgeReviewReading.ReviewFailsWithItsStore | crates/gh-housekeeper-core/src/run_purge.rs:505-509 | a review fails as a whole exactly when the protections could not be read at some target's turn, with that failure |
| RunPurgeReviewReading.ReportVerdict | crates/gh-housekeeper-core/src/run_purge.rs:1155-1172 | any report, whoever wrote it, opens the way exactly when it is for this account and names and allows every target in order; each refusal has its cause |
| RunPurgeExecutor.ComputeDrift | crates/gh-housekeeper-core/src/run_purge.rs:661-694 | the two-map drift computation: sorted missing, changed and unexpected ids |
| RunPurgeSafety.DriftMeaning | crates/gh-housekeeper-core/src/run_purge.rs:661-694 | drift stops a purge exactly when a planned artifact that is still listed differs or something unplanned is listed |
| RunPurgeDrift.DriftIsExact | crates/gh-housekeeper-core/src/run_purge.rs:661-688 | for all listings, duplicates included: each of the three lists holds every id exactly as often as it must, in ascending order |
| RunPurgeDrift.DriftIsUnique | crates/gh-housekeeper-core/src/run_purge.rs:661-688 | these counts and the order leave no other report |
| RunPurgeDrift.NoDriftMeaning | crates/gh-housekeeper-core/src/run_purge.rs:661-688 | no drift means: of several entries with one id the last is the planned artifact, and every listed id is planned |
| RunPurgeExecutor.ExecuteTarget | crates/gh-housekeeper-core/src/run_purge.rs:864-1152 | one target's execution computes exactly the staged specification, history included; `WholeReportIsExact` says what its report means |
| RunPurgeExecutor.ExecuteTargets | crates/gh-housekeeper-core/src/run_purge.rs:808-847 | the batch loop computes exactly the batch specification |
| RunPurgeExecutor.Execute | crates/gh-housekeeper-core/src/run_purge.rs:796-862 | nothing is attempted unless the plan is intact, the review matches and is safe, and the account is the planned one; each refusal names the first of these that fails |
| RunPurgeSafety.EveryDeleteIsJustified | crates/gh-housekeeper-core/src/run_purge.rs:864-1152 | against any provider: a DELETE is sent only when the target's own history shows the lease, no protection, the run as planned, no drift; for the run also logs and every artifact answered gone, an empty fresh listing and a fresh lookup of the same identity |
| RunPurgeSafety.EachDeleteOnce | crates/gh-housekeeper-core/src/run_purge.rs:864-1152 | no object is deleted twice while one target is executed |
| RunPurgeSafety.DeletesHappenUnderLease | crates/gh-housekeeper-core/src/run_purge.rs:864-894 | the lease is taken first, given back last and never in between; a DELETE needs the lease and an all-clear |
| RunPurgeSafety.DeletedMeansVerified | crates/gh-housekeeper-core/src/run_purge.rs:1090-1140 | a run is reported deleted exactly when DELETE said deleted and the very next lookup found nothing |
| RunPurgeSafety.RunEvents | crates/gh-housekeeper-core/src/run_purge.rs:1090-1140 | each state of the run step stands for exactly one pattern of answers |
| RunPurgeReports.ArtifactReportIsExact | crates/gh-housekeeper-core/src/run_purge.rs:968-1020 | each artifact state is read off that artifact's own answers; a different artifact is never deleted |
| RunPurgeReports.LogsReportIsExact | crates/gh-housekeeper-core/src/run_purge.rs:945-966 | logs are touched only if the plan allows it, and reported by the one answer given |
| RunPurgeReports.ResidualReportIsExact | crates/gh-housekeeper-core/src/run_purge.rs:1022-1089 | a non-empty fresh listing keeps the run; exactly the artifacts still listed are reported as not verified |
| RunPurgeReports.EarlyStopIsExact | crates/gh-housekeeper-core/src/run_purge.rs:864-926 | a target stopped before its first DELETE is reported by the answer that stopped it |
| RunPurgeReading.WholeReportIsExact | crates/gh-housekeeper-core/src/run_purge.rs:864-1152 | for every provider and store: the whole report of a target, read off its own history; the state and error of the run, of the logs and of every artifact, both for targets stopped early and for targets that reached cleanup |
| RunPurgeReading.LogsDeletedIff | crates/gh-housekeeper-core/src/run_purge.rs:945-966 | logs are reported deleted exactly when the history holds their DELETE answered "deleted" |
| RunPurgeReading.ArtifactDeletedIff | crates/gh-housekeeper-core/src/run_purge.rs:968-1089 | an artifact is reported deleted exactly when the history holds its DELETE answered "deleted" and the final listing does not show its id again |
| RunPurgeReading.DeletedBytesAreGone | crates/gh-housekeeper-core/src/run_purge.rs:752-760 | the bytes a target contributes are the sizes of exactly those artifacts |
| RunPurgeReading.SuccessIff | crates/gh-housekeeper-core/src/run_purge.rs:762-779 | an item counts as a success exactly when its history found the run absent, or answered logs and artifacts gone, an empty fresh listing and the run gone |
| RunPurgeBatch.TargetTells | crates/gh-housekeeper-core/src/run_purge.rs:864-1152 | stage by stage, on every path: the report looks like a rate limit exactly when some answer of the target was one or carries the phrase |
| RunPurgeBatch.TargetMentions | crates/gh-housekeeper-core/src/run_purge.rs:864-1152 | so on every path the words of a real rate limit reach the report, wrapped messages included |
| RunPurgeBatch.RateLimitContained | crates/gh-housekeeper-core/src/run_purge.rs:808-847 | after a rate limit inside target i, or low headroom before it, every later target is reported blocked and adds no request to the history |
| RunPurgeBatch.LowHeadroomBlocks | crates/gh-housekeeper-core/src/run_purge.rs:819-830 | a target reached with 250 requests or fewer is blocked and ends the history |
| RunPurgeBatch.BatchReported | crates/gh-housekeeper-core/src/run_purge.rs:808-847 | report items match plan targets and their artifacts one for one in order |
| RunPurgeBatch.TurnShape | crates/gh-housekeeper-core/src/run_purge.rs:808-847 | each turn adds nothing, one headroom reading, or that and one target's segment |
| RunPurgeBatch.EveryBatchDeleteIsJustified | crates/gh-housekeeper-core/src/run_purge.rs:796-1152 | over a batch every DELETE stands in the segment of one planned target, which alone justifies it |
| RunPurgeBatchReading.EveryItemIsTold | crates/gh-housekeeper-core/src/run_purge.rs:808-847 | for every provider and batch: a target whose turn added nothing is reported unattempted with the halt reason, one with a reading of at most 250 unattempted for that reading, and any other as its own history says |
| RunPurgeBatchReading.ReclaimedBytesAreGone | crates/gh-housekeeper-core/src/run_purge.rs:752-760 | for every provider: the reclaimed bytes of a batch are the sizes of exactly the artifacts whose own DELETE said deleted and that were not listed again, capped at 64 bits |
| RunPurgeBatchReading.CompleteSuccessIff | crates/gh-housekeeper-core/src/run_purge.rs:762-779 | for every provider: a batch is a complete success exactly when every single target was attempted and its history reads as a success |
| RunPurgeBatchReading.HaltReasonIsExact | crates/gh-housekeeper-core/src/run_purge.rs:808-847 | for every provider: there is no halt reason unless something stopped the batch, and it names a low reading exactly when that is the last event |
| RunPurgeMessages.MessageTells | crates/gh-housekeeper-core/src/run_purge.rs:864-1152 | a sentence of the report contains the searched phrase exactly when the free text it repeats does or it repeats a rate limit; no fixed sentence and no id list ever contains or completes the phrase |
| RunPurgeHaltText.TargetHaltsIff | crates/gh-housekeeper-core/src/run_purge.rs:1233-1253 | for every provider and target: the report looks like a rate limit exactly when a request was refused by one or a repeated text contains the phrase; without such texts it is exactly the former |
| RunPurgeHaltText.BatchHaltsIff | crates/gh-housekeeper-core/src/run_purge.rs:808-847 | for every provider and batch: it ends halted exactly when its history holds a rate limit, a low headroom reading, or a repeated text with the phrase |
| RunPurgeHaltText.TurnedAwayIff | crates/gh-housekeeper-core/src/run_purge.rs:808-847 | a target is turned away without any request exactly when such an answer came before its turn |
| RunPurgeHaltText.OrdinaryBatchHaltsIff | crates/gh-housekeeper-core/src/run_purge.rs:808-847 | when no repeated text contains the phrase, the batch halts for rate limits and low headroom alone |
| RunPurgeHaltText.ProtectionHaltsIff | crates/gh-housekeeper-core/src/run_purge.rs:1233-1253 | case: a protected target makes no request, yet halts the batch exactly when the stored reason contains the phrase |
| RunPurgeHaltText.TransportErrorHaltsIff | crates/gh-housekeeper-core/src/run_purge.rs:896-926 | case: an unprotected target whose lookup breaks down halts the batch exactly when the message contains the phrase |
| RunPurgeHaltText.ProtectionBlocksBatchIff | crates/gh-housekeeper-core/src/run_purge.rs:808-847 | so one turn with such a protection leaves the batch halted, with nothing refused, exactly in that case |
| RunPurgeHaltText.SuchAReasonIsAllowed | crates/gh-housekeeper-core/src/run_protection.rs:64-86 | such a reason passes the store's own validation |
| RunPurgeHonest.HonestTarget | crates/gh-housekeeper-core/src/run_purge.rs:864-1152 | on a truthful store a target that is as planned is purged completely and reported object by object |
| RunPurgeHonest.HonestAbsentTarget | crates/gh-housekeeper-core/src/run_purge.rs:896-912 | an absent run is reported so and the store is left alone |
| RunPurgeRefinement.PurgeDisturbsNoOther | crates/gh-housekeeper-core/src/run_purge.rs:864-1152 | purging one target changes nothing another target depends on |
| RunPurgeRefinement.HonestPurge | crates/gh-housekeeper-core/src/run_purge.rs:752-862 | executing a settled plan on a truthful store removes exactly the planned runs, logs and artifacts, keeps everything else, reports complete success, and reclaims (capped at 64 bits) the bytes the store lost |
| RunPurgeRefinement.PurgeTwice | crates/gh-housekeeper-core/src/run_purge.rs:796-862 | executing the same plan again changes nothing and reports every target as already absent |
| RunPurgeEndToEnd.HonestReview | crates/gh-housekeeper-core/src/run_purge.rs:488-652 | on a truthful store the review reports each target's true state and changes nothing |
| RunPurgeEndToEnd.ReviewedPurge | crates/gh-housekeeper-core/src/run_purge.rs:488-862 | a plan made from any earlier state of the store, reviewed now with every target ready or absent, then executed: exactly the planned runs, logs and artifacts go, complete success is reported, and the bytes reported are the bytes lost; of the store it is only assumed that ids are unique and artifacts stay with their run |
| RunPurgeEndToEnd.PlanReviewPurge | crates/gh-housekeeper-core/src/run_purge.rs:312-1152 | plan, review and purge in a row: the plan is built, the review passes, and exactly the selected runs disappear with everything they own |
| RunProtections.NewIndex | crates/gh-housekeeper-core/src/run_protection.rs:122-131 | an index is built exactly from valid entries with distinct keys; a duplicate error names a real one |
| RunProtections.FullNameMeaning | crates/gh-housekeeper-core/src/run_protection.rs:64-86 | an entry's repository name is an owner and a name, both given, on the two sides of its only slash |
| RunProtections.NoEntryMeaning | crates/gh-housekeeper-core/src/run_protection.rs:137-189 | the all-clear is given exactly when no entry carries the run id on this provider installation |
| RunProtections.ProtectedMeaning | crates/gh-housekeeper-core/src/run_protection.rs:137-189 | protection is granted by exactly the entry that agrees with the run in every compared field |
| RunProtections.AssessmentMeaning | crates/gh-housekeeper-core/src/run_protection.rs:137-189 | every assessment has exactly one cause: nobody names the run, a fully matching entry, or a doubt, whose code is determined by the first field that differs |
| RunProtections.MoreEntriesNeverUnprotect | crates/gh-housekeeper-core/src/run_protection.rs:137-189 | adding entries can only take the all-clear away |
| RunProtections.RerunKeepsProtection | crates/gh-housekeeper-core/src/run_protection.rs:137-189 | attempt, status, conclusion and update time do not matter |
| ProtectionRace.NoDeleteWhileProtected | crates/gh-housekeeper-core/src/run_purge.rs:869-894 | in every interleaving of protecting, unprotecting and purging, wherever the executor is cut off: every DELETE is for one planned target, no protection of that exact run is in force, and every entry in force for that run id uses another lock file |
| ProtectionRace.TargetIsFree | crates/gh-housekeeper-core/src/run_purge.rs:869-894 | the same for every target whose segment the DELETE stands in |
| ProtectionRace.NothingCommitted | crates/gh-housekeeper-storage/src/run_protections.rs:198-250 | while the executor holds a lease, no entry whose key uses that lock file comes or goes |
| ProtectionRace.EntriesStayValid | crates/gh-housekeeper-storage/src/run_protections.rs:198-250 | the committed entries always form a valid index |
| ProtectionRace.ProtectionIsNeverLost | crates/gh-housekeeper-storage/src/run_protections.rs:198-250 | an entry stays in force until its own key is unprotected |
| ProtectionRace.OtherRepositorySlipsIn | crates/gh-housekeeper-core/src/run_protection.rs:137-189 | case: a batch deletes a run although a protection of its id under another repository id was committed after the assessment; the history is possible exactly when the lock files differ |
| ProtectionRace.SameRunIdIsSafeIff | crates/gh-housekeeper-core/src/run_protection.rs:137-219 | over all providers, batches and interleavings: some DELETE is sent for a run while a given protection of its run id is in force exactly when the two keys use different lock files |
| Policy.Validate | crates/gh-housekeeper-policy/src/config.rs:156-260 | a policy is accepted exactly when it is valid; every refusal names a rule that really has that fault, said field by field |
| Fingerprint.FingerprintDecodes | crates/gh-housekeeper-policy/src/config.rs:99-154 | decoding the fingerprint bytes of a validated policy gives the policy in canonical form |
| Fingerprint.EncodingIdentifiesPolicy | crates/gh-housekeeper-policy/src/config.rs:99-154 | two validated policies have the same bytes exactly when they have the same canonical form |
| Fingerprint.ComputeFingerprint | crates/gh-housekeeper-policy/src/config.rs:99-154 | the byte-by-byte hashing computes the fingerprint of exactly those bytes |
| Fingerprint.StepInjective | crates/gh-housekeeper-policy/src/config.rs:356-361 | one hashing step forgets neither the state nor the byte |
| Fingerprint.OneByteAlwaysShows | crates/gh-housekeeper-policy/src/config.rs:356-361 | two equally long encodings differing in exactly one byte never hash alike |
| Fingerprint.FingerprintSeesOneByte | crates/gh-housekeeper-policy/src/config.rs:99-154 | so a one-byte difference always changes the printed fingerprint |
| Fingerprint.XorMeaning | crates/gh-housekeeper-policy/src/config.rs:356-361 | each bit of the exclusive or is set exactly when the two bits differ |
| Fingerprint.StandardHash | crates/gh-housekeeper-policy/src/config.rs:99-154 | the constants are those of 64-bit FNV-1a, and "a" has its published hash |
| PolicyIdentity.SameEncodingSameDecisions | crates/gh-housekeeper-policy/src/run_engine.rs:75-352 | policies with equal bytes record the same keep-latest selections and classify every run snapshot alike, reasons included |
| PolicyIdentity.SameEncodingSameArtifacts | crates/gh-housekeeper-policy/src/engine.rs:131-294 | and every artifact snapshot alike |
| BusinessDays.BusinessDayDeadline | crates/gh-housekeeper-policy/src/run_engine.rs:370-387 | the week jump plus at most five counted days equals day-by-day counting for every start and every 64-bit count, including when there is no such date |
| BusinessDays.DeadlineMeaning | crates/gh-housekeeper-policy/src/run_engine.rs:370-387 | the deadline falls on a weekday with exactly N weekdays after the start, and is missing exactly when its day cannot be represented |
| BusinessDays.FiveMoreIsAWeek | crates/gh-housekeeper-policy/src/run_engine.rs:370-387 | five more business days are exactly one more week |
| BusinessDays.DeadlineOrder | crates/gh-housekeeper-policy/src/run_engine.rs:370-387 | deadlines are strictly later for larger counts |
| BusinessDays.ElapsedDaysIsExact | crates/gh-housekeeper-policy/src/run_engine.rs:354-368 | the saturating elapsed-days test agrees with exact arithmetic on every representable pair of times |
| KeepLatest.NewestIsTopK | crates/gh-housekeeper-policy/src/run_engine.rs:103-149 | each rule keeps exactly min(k, size) of a family, and nothing left out outranks anything kept |
| KeepLatest.RetainsIgnoresOrder | crates/gh-housekeeper-policy/src/run_engine.rs:103-149 | what is kept does not depend on the order of the scan |
| KeepLatest.SelectionsIgnoreOrder | crates/gh-housekeeper-policy/src/run_engine.rs:103-149 | the whole map of selections does not depend on the order of the scan |
| KeepLatest.KeepLatestSelections | crates/gh-housekeeper-policy/src/run_engine.rs:103-149 | the grouped and sorted maps record for each run exactly the rules that keep it, in policy order, once per place it holds among the newest |
| KeepLatest.RecordedOnce | crates/gh-housekeeper-policy/src/run_engine.rs:103-149 | with distinct identities a rule is recorded once for each run it keeps and for no other |
| RunEngine.DeleteMeaning | crates/gh-housekeeper-policy/src/run_engine.rs:151-352 | Delete exactly when completed, without any local entry, matched by no protecting rule, unselected, and expired under the one retention of the most specific rules or the default |
| RunEngine.ShieldedMeaning | crates/gh-housekeeper-policy/src/run_engine.rs:151-219 | Protected exactly when a matching local entry exists, or an unlisted completed run is protected by a rule |
| RunEngine.ReviewMeaning | crates/gh-housekeeper-policy/src/run_engine.rs:151-322 | manual review exactly when the local store cannot tell or no single retention is in force |
| RunEngine.ResolverMeaning | crates/gh-housekeeper-policy/src/run_engine.rs:248-352 | the resolver finds the retention in force, or reports a conflict exactly when there is none |
| RunEngine.InForceIsUnique | crates/gh-housekeeper-policy/src/run_engine.rs:248-352 | at most one retention can be in force |
| RunEngine.DeleteIsPermanent | crates/gh-housekeeper-policy/src/run_engine.rs:354-387 | a Delete stays a Delete as the scan time grows |
| RunEngine.ProtectionNeverAddsDelete | crates/gh-housekeeper-core/src/run_protection.rs:137-189 | recording more protections never adds a Delete |
| RunEngine.SafeRuleNeverAddsDelete | crates/gh-housekeeper-policy/src/run_engine.rs:103-352 | a rule that only protects or keeps the latest, put anywhere, never adds a Delete |
| RunEngine.CountsCover | crates/gh-housekeeper-policy/src/run_engine.rs:53-63 | the four decision counts add up to the scan |
| RunEngine.ClassifySnapshot | crates/gh-housekeeper-policy/src/run_engine.rs:75-101 | one decision per run in order, under selections computed once; `RetentionMeaning.DecisionIsTold` says what each decision means |
| RunEngine.DeleteIdentitiesMeaning | crates/gh-housekeeper-policy/src/run_engine.rs:65-72 | the identities handed on are exactly those of the runs to delete |
| RetentionMeaning.ExpiryMeaning | crates/gh-housekeeper-policy/src/run_engine.rs:354-387 | a retention has run out exactly when whole days of 86,400 seconds since creation reach it, or the first day by which that many weekdays have passed since the day of creation exists and its hour has come |
| RetentionMeaning.OverdueInDays | crates/gh-housekeeper-policy/src/run_engine.rs:354-363 | for moments the calendar can hold, elapsed days are exact days: the 64-bit limit never decides |
| RetentionMeaning.GoverningMeaning | crates/gh-housekeeper-policy/src/run_engine.rs:248-341 | the retention in force said with the rules' own selectors and numbers: the applying rules with most selectors, or the weekday default, or the elapsed default, or thirty days |
| RetentionMeaning.DecisionIsTold | crates/gh-housekeeper-policy/src/run_engine.rs:151-352 | every field of every decision: identity, decision, retention, and one reason per cited rule in policy order |
| RetentionMeaning.DeleteIsDue | crates/gh-housekeeper-policy/src/run_engine.rs:151-352 | Delete exactly when nothing speaks for the run and its one governing retention is overdue, measured from its creation |
| RetentionMeaning.DeletedAreDue | crates/gh-housekeeper-policy/src/run_engine.rs:65-101 | the identities handed on are exactly those of the runs that are due |
| RetentionMeaning.UpdatesChangeNothing | crates/gh-housekeeper-policy/src/run_engine.rs:151-387 | under given selections the time of the last update changes nothing in a decision |
| RetentionMeaning.KeptByRank | crates/gh-housekeeper-policy/src/run_engine.rs:103-149 | a rule keeps a completed run it applies to exactly when fewer than its number of family members come before it in the five keys |
| RetentionMeaning.SparedByRank | crates/gh-housekeeper-policy/src/run_engine.rs:103-149 | the map of selections holds a run exactly when some rule keeps it by that rank |
| ArtifactEngine.RetainedIsTopK | crates/gh-housekeeper-policy/src/engine.rs:131-159 | each rule keeps exactly min(k, matching) artifacts and nothing left out outranks anything kept |
| ArtifactEngine.KeepLatestIds | crates/gh-housekeeper-policy/src/engine.rs:131-159 | the map records for each id exactly the rules that keep an artifact with it, in policy order, once per kept artifact |
| ArtifactEngine.ArtifactDeleteMeaning | crates/gh-housekeeper-policy/src/engine.rs:161-294 | Delete exactly when no rule protects or keeps the artifact and the days in force have passed |
| ArtifactEngine.SparedByIdIff | crates/gh-housekeeper-policy/src/engine.rs:195-209 | the map is keyed by id alone: an artifact that no rule keeps is spared exactly when a different scanned artifact with its id is kept |
| ArtifactEngine.SparedExactly | crates/gh-housekeeper-policy/src/engine.rs:195-209 | the map is right about every artifact exactly when every artifact with a kept namesake is kept itself, as with distinct ids |
| ArtifactEngine.TwinIsSpared | crates/gh-housekeeper-policy/src/engine.rs:195-209 | case: of two artifacts with one id in two repositories only the newer is kept, and the older is spared too |
| ArtifactMeaning.ArtifactDecisionIsTold | crates/gh-housekeeper-policy/src/engine.rs:161-301 | every field of every artifact decision, said with the rules' own selectors and days since creation |
| ArtifactMeaning.KeptByRank | crates/gh-housekeeper-policy/src/engine.rs:131-159 | with distinct ids a rule keeps an artifact exactly when fewer than its number come before it in the three keys, across repositories |
| CleanupPlans.NewCleanupPlan | crates/gh-housekeeper-core/src/cleanup.rs:134-231 | accepts exactly complete scans whose summary fits and whose targets are distinct and scanned |
| CleanupPlans.CollectTargets | crates/gh-housekeeper-policy/src/planner.rs:22-51 | the zip accepts exactly matching identities and collects the Delete pairs |
| CleanupPlans.BuildCleanupPlan | crates/gh-housekeeper-policy/src/planner.rs:8-65 | a plan is built exactly when the scan is complete, the hash is not blank and no two Delete artifacts share an identity; the summary and the classification never disagree |
| CleanupPlans.PlanTargetsMeaning | crates/gh-housekeeper-policy/src/planner.rs:8-65 | the plan deletes exactly the condemned artifacts, sorted; with distinct identities a complete scan always gives a plan |
| CleanupPlans.SummarySays | crates/gh-housekeeper-policy/src/planner.rs:8-65 | each count of the summary is the number of decisions of that kind, and the reclaimable bytes are those of the Delete decisions |
| CleanupPlans.CleanupPlanSays | crates/gh-housekeeper-core/src/cleanup.rs:134-231 | a plan carries the scan's time, account and scope, the policy's hash, the summary, and the given targets by repository and id |
| CachePurges.NewCachePlan | crates/gh-housekeeper-core/src/cache_purge.rs:75-131 | built exactly from distinct caches of a complete scan, whatever the case of repository names; the result is sorted, intact, and sums the bytes |
| CachePurges.ValidateCachePlan | crates/gh-housekeeper-core/src/cache_purge.rs:133-162 | accepts exactly the intact plans |
| CachePurges.ExecuteCachePlan | crates/gh-housekeeper-core/src/cache_purge.rs:449-508 | executes exactly when plan, review and account allow it, and then runs the batch specification; a refusal names the first thing wrong, item by item in the review |
| CachePurges.ExecuteCache | crates/gh-housekeeper-core/src/cache_purge.rs:510-585 | one cache's execution computes the staged specification |
| CachePurgeSafety.CacheEvents | crates/gh-housekeeper-core/src/cache_purge.rs:510-585 | one lookup, a DELETE exactly if it returned the planned cache, one check after a reported deletion; of the seven states exactly the reported one fits the answers; the item looks like a rate limit exactly when an answer was one or its message says so |
| CachePurgeSafety.CacheRateLimitContained | crates/gh-housekeeper-core/src/cache_purge.rs:463-493 | after a rate limit or low headroom every later cache is blocked and nothing is requested for it |
| CachePurgeSafety.CacheBatchHaltsIff | crates/gh-housekeeper-core/src/cache_purge.rs:463-606 | for every provider: the batch ends halted exactly when an answer was a rate limit or low headroom, or a message the report repeats contains the searched phrase |
| CachePurgeSafety.EveryCacheDeleteIsPlanned | crates/gh-housekeeper-core/src/cache_purge.rs:463-585 | every DELETE names a planned cache seen unchanged just before |
| CachePurgeSafety.EachCacheDeletedOnce | crates/gh-housekeeper-core/src/cache_purge.rs:449-508 | no cache is deleted twice, however its repository name is spelled |
| CachePurgeSafety.CachesReported | crates/gh-housekeeper-core/src/cache_purge.rs:463-493 | report items match plan targets one for one in order |
| CachePurgeReading.WholeCacheReportIsExact | crates/gh-housekeeper-core/src/cache_purge.rs:510-585 | for every provider: state, error and the cache seen instead, read off the target's own answers |
| CachePurgeReading.EveryCacheItemIsTold | crates/gh-housekeeper-core/src/cache_purge.rs:463-493 | every item of a batch is the reading of its own turn, or blocked with the batch's reason or the low reading |
| CachePurgeReading.CacheHaltReasonIsExact | crates/gh-housekeeper-core/src/cache_purge.rs:463-493 | there is no halt reason unless something stopped the batch, and it names a low reading exactly when that is the last event |
| AuditNames.FileTextInjective | crates/gh-housekeeper-storage/src/cache_purge_audit.rs:108-110 | intents, records and temporary files are never spelled alike |
| CachePurgeAudits.AuditDirectory.WriteExact | crates/gh-housekeeper-storage/src/cache_purge_audit.rs:272-324 | a committed name appears complete or not at all and is never overwritten, whichever step fails or dies |
| CachePurgeAudits.AuditDirectory.AppendIntent | crates/gh-housekeeper-storage/src/cache_purge_audit.rs:95-140 | a new intent under a fresh id, or no change to any committed file; names run out only if all 10000 are taken |
| CachePurgeAudits.AuditDirectory.AppendRecord | crates/gh-housekeeper-storage/src/cache_purge_audit.rs:142-158 | completes exactly its own intent, or leaves it pending |
| CachePurgeApply.DeletionsArePlanned | crates/gh-housekeeper-cli/src/main.rs:3460-3468 | wherever an execution is cut off, only planned caches were requested to be deleted |
| CachePurgeApply.Apply | crates/gh-housekeeper-cli/src/main.rs:3451-3477 | no intent, no request: every DELETE is covered by a new durable intent holding this plan and review; committed files are kept, other intents are unaffected, and the run's own intent is completed or stays pending; a completed run executed the whole plan, sent exactly those requests, and its record holds exactly the items reported; a plan that may not be executed sends nothing |
| CachePurgeApply.ReadAll | crates/gh-housekeeper-storage/src/cache_purge_audit.rs:160-240 | reads back exactly the committed intents and records, with no unreadable file after any crash |
| CachePurgeApply.PendingMeaning | crates/gh-housekeeper-storage/src/cache_purge_audit.rs:63-74 | pending means recorded and never completed by a committed record |
| AccountUsage.PollCycle | crates/gh-housekeeper-core/src/account_usage_monitoring.rs:118-239 | the service's loops compute exactly the cycle specification |
| AccountUsageSafety.UniqueOwnersMeaning | crates/gh-housekeeper-core/src/account_usage_monitoring.rs:261-278 | one representative, in its first spelling, for every class of equal owners |
| AccountUsageSafety.EachAllowanceOnce | crates/gh-housekeeper-core/src/account_usage_monitoring.rs:157-184 | every allowance is handed to exactly one polled owner |
| AccountUsageSafety.CycleCoversEverything | crates/gh-housekeeper-core/src/account_usage_monitoring.rs:118-239 | each owner class is polled once per cycle; each allowance of a persisted owner yields one evaluation or one error when thresholds are set; a failed persistence yields nothing |
| AccountUsageSafety.CyclesWarranted | crates/gh-housekeeper-core/src/account_usage_monitoring.rs:186-238 | over any sequence of cycles an alert is sent only right after a lookup that said not delivered, and a receipt only right after a delivery |
| AccountUsageSafety.CyclesBalanced | crates/gh-housekeeper-core/src/account_usage_monitoring.rs:186-238 | deliveries of a key equal its Delivered plus ReceiptFailed reports |
| AccountUsageSafety.AlertsDeliveredOnce | crates/gh-housekeeper-core/src/account_usage_monitoring.rs:118-239 | with a store that remembers, each alert key is reported delivered at most once over any sequence of cycles |
| AccountUsageReading.WholeCycleIsExact | crates/gh-housekeeper-core/src/account_usage_monitoring.rs:118-239 | what a cycle must do, for all answers: one representative of every configured owner is polled; every allowance of a persisted owner is evaluated in order; every warning or critical evaluation with a key is looked up once, delivered if the store said not delivered, recorded if delivered, and reported by the kind that stands for just those answers |
| AccountUsageReading.AlertIsTold | crates/gh-housekeeper-core/src/account_usage_monitoring.rs:186-259 | one alert: its steps and its kind of notification, both ways, with the evaluation that is delivered |
| Monitoring.MoreBytesNeverBetter | crates/gh-housekeeper-core/src/monitoring.rs:25-84 | severity grows with the bytes, and a countdown of zero means the level is reached |
| Monitoring.RunScheduler | crates/gh-housekeeper-core/src/monitoring.rs:523-636 | the scheduler loop computes exactly the pass-by-pass specification |
| MonitoringSafety.CountersAreRight | crates/gh-housekeeper-core/src/monitoring.rs:523-636 | the counters summarise the emitted events, the failure counter is the trailing failure run, and attempts respect and meet the limit |
| MonitoringSafety.AttemptsAddUp | crates/gh-housekeeper-core/src/monitoring.rs:523-636 | attempts equal successes plus failures equal events, always so under a limit |
| MonitoringSafety.EveryEventIsRight | crates/gh-housekeeper-core/src/monitoring.rs:583-615 | every transition compares with the last successful report or the baseline, every failure carries its run length |
| MonitoringSafety.SignalTellsIff | crates/gh-housekeeper-core/src/monitoring.rs:357-396 | a signal tells the new level exactly unless monitoring was switched on at a healthy level or switched off |
| MonitoringSafety.SilentChanges | crates/gh-housekeeper-core/src/monitoring.rs:357-396 | cases: a healthy account is put under watch, and the watch on a critical one ends, without a signal |
| MonitoringSafety.SchedulerSignalsTellTheLevel | crates/gh-housekeeper-core/src/monitoring.rs:523-636 | over a comparable, configured stretch, folding the signals gives the current level |
| MonitoringSafety.ExclusionsCompareAsSets | crates/gh-housekeeper-core/src/monitoring.rs:322-330 | exclusion lists compare as case-insensitive sets |
| MonitoringReading.EvaluationIsExact | crates/gh-housekeeper-core/src/monitoring.rs:48-84 | the level and both countdowns of a total, against thresholds given or not |
| MonitoringReading.TransitionIsExact | crates/gh-housekeeper-core/src/monitoring.rs:257-330 | each verdict on two reports stands for one situation, both ways, with its numbers; accounts and scopes compare ignoring case, exclusions as sets |
| MonitoringReading.SignalIsExact | crates/gh-housekeeper-core/src/monitoring.rs:357-396 | each signal stands for one kind of change, both ways |
| MonitoringReading.WholeRunIsExact | crates/gh-housekeeper-core/src/monitoring.rs:523-636 | for every run: its events are the finished scans in order, and its summary names the first thing that ended it, cancellation or limit |
| Shutdown.InvHolds | crates/gh-housekeeper-cli/src/daemon_runtime.rs:107-137 | in every interleaving a parked server has an unread Stopping event or a publisher still on its way |
| Shutdown.NoLostShutdown | crates/gh-housekeeper-cli/src/local_ipc.rs:121-151 | once the call that changed the state has returned, a parked server has an enabled wake-up that leads out at once or at the next check |
| Shutdown.WaitsOnlyForThePublisher | crates/gh-housekeeper-cli/src/daemon_runtime.rs:107-123 | the wake-up is missing only while that call is between its lock and its publish |
| Shutdown.PublisherEnablesWakeUp | crates/gh-housekeeper-cli/src/daemon_runtime.rs:107-123 | that call needs at most two more steps to enable it |
| Shutdown.ReturnMeansCancelled | crates/gh-housekeeper-cli/src/daemon_runtime.rs:107-123 | whoever returns leaves the state Stopping and the scheduler cancelled |
| Shutdown.AnyReturnIsNotEnough | crates/gh-housekeeper-cli/src/daemon_runtime.rs:107-123 | a second call can return before the first has published, with the server parked and nothing to wake it |
| Shutdown.ReturnIsEnoughIff | crates/gh-housekeeper-cli/src/daemon_runtime.rs:107-137 | over all interleavings: the return of a call guarantees a parked server its wake-up exactly when that call changed the state |
| FrameReader.ReadFrame | crates/gh-housekeeper-cli/src/local_ipc.rs:252-298 | the chunked reader computes the specification and its buffer never exceeds 65536 bytes |
| FrameReader.FrameMeaning | crates/gh-housekeeper-cli/src/local_ipc.rs:252-298 | for every way of splitting the stream, the answer in every case: a frame exactly when the first newline is at 1 to 65536 and its read is blank after it; too long, no line, a second message or an empty line otherwise, each for its own cause |
| FrameReader.FrameIsUnambiguous | crates/gh-housekeeper-cli/src/local_ipc.rs:252-298 | two splittings never yield two different frames |
| FrameReader.SecondMessageMaySlipBy | crates/gh-housekeeper-cli/src/local_ipc.rs:274-281 | whether a second message is noticed depends on the splitting |
| FrameReader.RoundTrip | crates/gh-housekeeper-cli/src/local_ipc.rs:234-298 | what was written is read back exactly when the encoding is not empty and has no newline |
| GithubClient.Pacer.Reserve | crates/gh-housekeeper-github/src/lib.rs:152-172 | each mutation gets the slot of the sequence so far, others are not delayed and change nothing |
| GithubClient.SlotIsMaximum | crates/gh-housekeeper-github/src/lib.rs:152-172 | the n-th slot is the maximum of now_i plus two seconds for each later request |
| GithubClient.SlotsAreApart | crates/gh-housekeeper-github/src/lib.rs:152-172 | slots lie at least two seconds apart |
| GithubClient.WindowBound | crates/gh-housekeeper-github/src/lib.rs:152-172 | a window holds at most the ceiling of its length over two seconds of them |
| GithubClient.DelayedIff | crates/gh-housekeeper-github/src/lib.rs:152-172 | an idle client is not delayed, any other waits exactly for its slot |
| GithubClient.ListingMeaning | crates/gh-housekeeper-github/src/lib.rs:436-460 | a listing returns everything on the pages up to the first that is empty or completes the total it claims, or that page's error |
| GithubClient.FirstMeaning | crates/gh-housekeeper-github/src/lib.rs:462-496 | the match of a lookup is the first entry with the id, and there is none exactly when no entry has it |
| GithubClient.LookupAgreesWithListing | crates/gh-housekeeper-github/src/lib.rs:436-496 | on the same pages the early-exit lookup gives the listing's first match, not found only if the listing is complete without it, and fails only as the listing fails |
| GithubClient.LoopsEnd | crates/gh-housekeeper-github/src/lib.rs:436-496 | with a bounded total both loops end within max(total, 1) pages |
| GithubClient.RetriesAreBounded | crates/gh-housekeeper-github/src/lib.rs:174-250 | a mutation is sent once; a read at most four times with at most a minute of sleep between; the answer is always that of the last reply |
| GithubClient.RetryMeaning | crates/gh-housekeeper-github/src/lib.rs:174-254 | another attempt follows exactly for a read, before its fourth attempt, after a lost connection, a server failure or a rate limit of at most a minute; with the delay that is slept |
| GithubClient.FinalAnswerMeaning | crates/gh-housekeeper-github/src/lib.rs:203-248 | each kind of answer stands for one kind of final reply, both ways |

## Left out

- RunPurgeRefinement.HonestPurge: starts from a settled plan, in which a planned artifact id found in the store still belongs to its run; `RunPurgeEndToEnd.ReviewedPurge` derives this from a review and from artifacts staying with their run, without which the source would follow an artifact to its new run.
- RunPurgeHonest.HonestTarget: the truthful store has no protections and its request headroom lasts.
- CachePurgeApply.Apply: one process at a time works in the audit directory; two processes with the same process id in separate namespaces sharing one directory could race on a rename.
- CachePurgeApply.ReadAll: the order of the history (sorted by path) is not modelled, only its members; reading itself does not fail.
- CleanupPlans.BuildCleanupPlan: a scan holds fewer than 2^64 artifacts, and byte totals wrap as in a release build.
- BusinessDays.BusinessDayDeadline: the first and last representable day are those of the date library; its leap-second notation is not modelled.
- AccountUsage.PollCycle: the evaluation of one allowance (floating-point percentages) is an arbitrary function of observation, allowance and time.
- Monitoring.RunScheduler: the environment decides each pass of the loop; a run that never ends appears as all of its finite beginnings.
- GithubClient.SendWithPolicy: replies are classified already; headers, status codes and message texts are not parsed, and the pacing delay before a request is the business of `Pacer.Reserve`.
- Shutdown.NoLostShutdown: a request served on the socket is one more caller, so the server may return to its loop before that call ends, which only adds interleavings.
- RunPurgeHaltText.TargetHaltsIff: the debug text of a key inside a duplicate-protection error is not part of the model.
- ProtectionRace.NoDeleteWhileProtected: lock acquisition either succeeds or is not taken; waiting and timeouts are not modelled.
- Glob matching, Unicode white space and control characters are uninterpreted predicates.
- The explanations attached to classification reasons are not modelled.
- Report time stamps, telemetry counters, authorization kinds and the selections' own fields play no part in any decision and are not modelled.
- Cache planning and cache revalidation services: the same shape as the run services with one lookup per target.
- Cache policy classification, the artifact executor and the artifact revalidator: simpler copies of modelled code.
- HTTP, JSON and TOML text, command-line parsing, tables and prompts, real file systems and permissions, the graphical stub.
- Other storage modules (purge audit of runs, alert receipts, monitoring history): only the promises their traits make are used.
