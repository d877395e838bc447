# NovelAgent: what survives crashes, retries and concurrent workers

NovelAgent drives billable model calls and remote deliveries while it writes a book chapter by chapter.
This project models the parts that make those effects safe and proves what they guarantee. Each file is one module.

**Durable model calls.** `ModelCalls` is the append-only store of intents, response artifacts and receipts; hashes are
injective constructors. `CallProtocol` is the protocol as steps of many workers: a worker claims an intent by exclusive
creation, reserves budget, invokes the provider, writes the artifact, writes the receipt and settles. Workers may
crash anywhere and be started again with the same call; the world counts provider invocations. `CallSafety` and
`CallChain` prove what every interleaving keeps. `CallRuntime` gives the meaning of one whole `execute_attempt` with a
live budget tracker and shows that it is a schedule of the protocol, `CallOutcomes` and `CallCharges` say what it raises,
files and charges in terms of the provider's reply; `ModelCallRuntime` is the object whose methods
change the store, the tracker and the operation scope in that order, and `ScopeReceipts` says which receipts the scope gathers. `Hydration` and `CallSessions` prove that the
evidence rebuilds the tracker, over sessions in which a process executes, is granted elastic tokens, crashes and is
restarted; `CallRecovery` proves exactly when a restart after a crash runs through. It need not: an intent is claimed
before the tracker is asked, so a process that dies between claiming an attempt beyond the call limit and recording its
rejection leaves evidence that every later restart under the same limits refuses for calls. `AttemptIds` and `OperationScope` are the identifiers, `Retry` is the bounded loop around one operation.
At most one attempt of a call id can have reached the provider, as long as the id always comes with the same arguments or
conflicts are not taken for transient failures; `CallChain.ConflictTakenForTransient` shows that one of these is needed.

**Run budget.** `TokenUsage` reads provider usage and decides what to charge. `RunBudget` states each tracker operation
on a ledger value; `RunBudgetProofs` and `RunBudgetAuthority` prove what every run keeps, `RunBudgetGrants` that limits are
widened by exactly what is missing, `RunBudgetAnswers` which answer each operation gives; `RunBudgetTracking` is the
mutable tracker, each method tied to its ledger function. As in the code, elastic grants are recorded before the cost
check, so a refusal for cost leaves the limits widened, and the older `record_output` looks only at settled output.

**Delivery queue.** `Delivery` is what each locked operation does to a job, `NotionAdapter` what one attempt decides,
`DeliveryRuns` the protocol of many workers on one Notion job with leases, crashes, clock changes in any direction,
recovery and resolution, `DeliverySafety` and `DeliveryEvidence` what every step of them keeps, and `DeliveryTraces` what
every history obeys. `DeliveryAttempts` is an undisturbed attempt as a schedule of the protocol, `DeliveryOutcomes` how each
operation leaves a job in terms of what it found and saw, `DeliveryQueues` the queue object. The document `docs/durable-delivery-queue.md` (line 59) promises that an uncertain job is never posted again
before its absence was confirmed by a complete query after the quarantine. The code does not keep that, in three ways,
and each has a run for every Notion job in `DeliveryReposts`. A query-only attempt that ends `retryable_failed` reopens
the job; `DeliveryReopening` proves exactly which steps do that. A resolver confirms on the evidence it read before taking
the lock, even when the job was reopened and posted in between; `DeliveryConfirmations` proves what every confirmation does
rest on and exactly when its evidence is newer than the last announcement. And a worker does not look at its lease between
the durable mark and the post, so one that stalls there may post long after its lease has lapsed and others have posted.
`DeliveryConfirmations` proves that with the first two repaired, query-only attempts going back to `uncertain` and a
confirmation checking that its evidence is still the job's last attempt, the promise holds for announcements and for posts
made under their own leases; for late posts it does not, and `DeliveryTraces.PostIsLateExactly` says which posts are late. The same
document promises a quarantine before an absence is confirmed; the code never moves the moment a job first became
uncertain, so after a later post the quarantine counts from the first one (`DeliveryTraces.QuarantineCountsFromFirst`).

**Context under a budget.** `Selection` is greedy selection of whole entries, `Renderers` the JSON list and paragraph
renderers, `Paragraphs` the splitting of a text, `MarkdownSections` the compaction of one section, `MarkdownContext` the
loop that shrinks required sections until everything fits, `PromptCompiler` the search for the largest authority section
that still compiles, `TokenEstimates` the conservative token estimate and the fitting of its ratio over `Utf8` byte
counts. A paragraph selection can leave out a paragraph that would have fitted in the end. `ParagraphMaximality` says on
which texts that can happen: exactly, for texts longer than all their paragraphs rendered and for texts of at most three
paragraphs; `ParagraphGaps` has texts of each kind.

**State and evidence.** `SceneModel`, `SceneContinuity` and `SceneTransition` reduce scene deltas over whole runs;
`SceneHistory`, `SceneChanges` and `SceneFindings` read the resulting state, acceptance and findings off the events and
changes alone;
`StageChain` is the hash-linked chain of stage receipts; `DependencyDag` the cycle check; `LocalCommit` the commit
states; `QualityDecision` the merge of quality findings, and `QualityOrder` what in a finding depends on the order of its
candidates.

## Model

| member | source | states |
|---|---|---|
| CallSafety.AtMostOneInvocationPerAttempt | core/model_call_runtime.py:353-472 | under every interleaving, crash and restart the provider runs at most once per attempt id, never for a budget-rejected one, and exactly once for every other closed one, whose receipt reports what the reply shows: not sent exactly when no connection was established and no text came back, rejected only after a connection was |
| CallSafety.ReturnedResponseIsDurable | core/model_call_runtime.py:478-498 | a response a caller holds has a succeeded receipt, the matching artifact and the expected intent, and came from one invocation |
| CallSafety.LaterAttemptsReplay | core/model_call_runtime.py:735-771 | whatever happens later, the same arguments return the same text and metadata without the provider, unless the caller's own budget tracker refuses |
| CallSafety.EveryRunSafe | core/model_calls.py:519-533 | evidence only grows along every run, and the safety invariant holds throughout |
| CallSafety.AdvanceGrows | core/model_calls.py:619-638 | one step adds evidence only under its own attempt id and never alters any |
| CallChain.AtMostOneAttemptReaches | api/openai_client.py:135-156 | of all attempts of one logical call, across retries and restarts, every one before the last was invoked once with a reply that shows it never reached the provider, so at most one can have; for call ids with one set of arguments, or when no conflict is taken for transient |
| CallChain.ConflictTakenForTransient | core/model_call_runtime.py:651-691 | two calls with one id and different arguments, whose conflict is taken for transient, have a run in which two attempts may both have reached the provider |
| CallChain.EarlierAttemptsNotSent | core/model_call_runtime.py:540-586 | an attempt is opened only after all earlier ones have a not-sent receipt |
| ModelCalls.ClosedExactly | core/model_call_runtime.py:497-640 | the status of every closed attempt is what its reply shows, and an attempt stays open exactly when a connection was established, no text came back and the failure is no definitive rejection |
| CallOutcomes.FirstExecutionMeans | core/model_call_runtime.py:384-640 | a first attempt is refused by the tracker and filed as a budget rejection without a call, or runs once, files a receipt that reports the reply, or none if nothing tells, and raises or returns what the reply means |
| CallOutcomes.OthersConflictExactly | core/model_call_runtime.py:651-691 | another call under the same attempt raises a conflict exactly when provider, model, stage, request, output limit or a given number of input tokens differ, and then changes nothing |
| CallOutcomes.RepeatingRaisesTheSame | core/model_call_runtime.py:735-771 | whoever repeats an attempt with the same arguments gets the same again without a call, but for the partial text of a lost request and a budget rejection, which is an integrity error |
| CallCharges.FirstExecutionCharges | core/model_call_runtime.py:403-640 | a first attempt that ran adds exactly its call to the tracker: by the usage of its answer, nothing if it was never sent, and in full otherwise or if it ends too late; a refused one adds nothing |
| CallCharges.RepeatingCharges | core/model_call_runtime.py:735-771 | repeating an attempt before another tracker charges that one for the call that was made, unless it refuses or the attempt was refused, never sent or turned away |
| CallProtocol.RecordsExactly | core/model_calls.py:519-533 | a receipt goes on file exactly beside the intent whose ids and digest it names, and an artifact exactly unless another text is there |
| CallRuntime.ExecuteOnceRefinesProtocol | core/model_call_runtime.py:330-640 | a whole attempt with a live tracker is exactly a schedule of the protocol's steps, with the same store, outcome and number of invocations |
| ModelCallRuntime.ModelCallRuntimeContext.ExecuteAttempt | core/model_call_runtime.py:330-640 | leaves the store, the tracker and the outcome that one attempt means, for every reply of the provider, and a returned response has its receipt in the operation scope |
| ModelCallRuntime.ModelCallRuntimeContext.Replay | core/model_call_runtime.py:735-771 | replays a stored receipt: restores and settles for a success and notes it in the operation scope, raises again for every stored failure |
| ModelCallRuntime.ModelCallRuntimeContext.PersistResponseArtifact | core/model_call_runtime.py:773-787 | creates an artifact once and accepts one that is there only with the same text |
| ModelCallRuntime.ModelCallRuntimeContext.RecordReceiptFile | core/model_calls.py:519-533 | a receipt is stored only beside the intent it is linked to, and only once |
| ModelCallRuntime.ModelCallRuntimeContext.HydrateTrackerFromStore | core/model_call_runtime.py:283-328 | the loop over the stored intents leaves the tracker and the operation scope that hydration means, and stops at broken links, damaged responses and refusals |
| CallSessions.HydrationRebuildsTotals | core/model_call_runtime.py:283-328 | after any session of executions, elastic grants, crashes at any point and restarts, a fresh tracker hydrated in any order shows the live tracker's input, output and reserved output; calls differ by exactly the attempts never sent |
| CallSessions.CrashIsRecovered | core/model_call_runtime.py:283-328 | a process that dies between reserving and settling an attempt can be restarted, and its fresh tracker charges the attempt, in full until its receipt is written |
| CallRecovery.CrashRecoveredExactly | core/model_call_runtime.py:403-472 | wherever a process dies, a restart from its evidence runs through exactly when nothing is charged, or the restart is in time, the cost limit is not negative, the charged evidence can be restored, and the attempt was on record before, or its receipt is written, or a call was left for it |
| CallRecovery.CallLimitCanStopForGood | core/model_call_runtime.py:403-472 | a run that uses up its calls and dies after claiming one more attempt and before its rejection is recorded: under the same limits the process stays down whatever follows, and every restart in time is refused for calls |
| CallSessions.SessionInStep | core/model_call_runtime.py:438-470 | after every such session the evidence mirrors the live tracker entry by entry |
| CallSessions.KnownAttemptChangesNothing | core/model_call_runtime.py:353-384 | executing an attempt that is already on record changes neither store nor tracker and does not run the operation |
| Hydration.MirrorsDetermineTotals | core/model_call_runtime.py:283-328 | two trackers that mirror the same evidence agree on all token totals, and their call counts differ by the not-sent entries |
| Hydration.HydrateRebuilds | core/model_call_runtime.py:283-328 | whatever hydration runs through, in any order and with intents visited repeatedly, mirrors everything it visited |
| Hydration.HydrationRunsThrough | core/model_call_runtime.py:283-328 | hydration of evidence that mirrors a bounded tracker is neither refused nor stopped by damage, in any order |
| Hydration.HydrationRunsExactly | core/model_call_runtime.py:283-328 | a fresh tracker is hydrated from intact evidence, in whatever order, exactly when nothing is charged, or the time allows it, the charged attempts do not exceed the call limit, the cost limit is not negative, and every charged attempt has its ids and, if it succeeded, a valid usage |
| Hydration.HydrationStopsForCalls | core/model_call_runtime.py:303-319 | when only the call limit is exceeded, hydration is refused for calls |
| Hydration.DamageStopsHydration | core/model_call_runtime.py:294-300 | a receipt that does not belong to its intent stops hydration before anything is charged |
| AttemptIds.AttemptNameInjective | core/model_call_runtime.py:348-348 | different calls or attempt numbers never share an attempt id |
| OperationScope.CallIdsDiffer | core/model_call_runtime.py:204-217 | inside one operation two calls with different ordinals have different ids, whatever their providers and stages |
| OperationScope.PaddedInjective | core/model_call_runtime.py:217-217 | zero padding of the ordinal loses nothing |
| ModelCallRuntime.ModelCallRuntimeContext.BindOperation | core/model_call_runtime.py:181-202 | only a lowercase SHA-256 digest is a key, scopes do not nest, and they start counting at zero |
| ModelCallRuntime.ModelCallRuntimeContext.NewCallId | core/model_call_runtime.py:204-221 | inside a scope the id depends only on key, ordinal, provider and stage, so a restart produces it again |
| ModelCallRuntime.ModelCallRuntimeContext.RecordOperationReceipt | core/model_call_runtime.py:827-833 | each receipt hash is remembered once, in order of first use |
| ScopeReceipts.AttemptNotes | core/model_call_runtime.py:789-833 | an attempt adds at most its own receipt to the scope, only that of a success whose text is there, and always when the caller gets the response |
| ScopeReceipts.HydrationNotes | core/model_call_runtime.py:303-328 | hydration adds only receipts of successes it visited, each once, and when it runs through all of them |
| Retry.Execute | api/retry.py:118-253 | the loop ends after the first run that must end it, leaves one entry for every run, and never passes its last iteration |
| Retry.EndsOnce | api/retry.py:131-216 | the end of the loop and its reason are determined by the runs |
| Retry.ContinuesExactly | api/retry.py:236-270 | another run follows exactly after a transient failure without partial content that leaves an attempt, when the wait the provider asked for, or else the base moved within the jitter ratio, fits deadline and run budget |
| Retry.StopReasonsAreTrue | api/retry.py:174-189 | never more runs than allowed, one for the Notion create profile, and the reason reported is the first that is true of the last run, measured by the wait it would have had |
| Retry.ReportIsTrue | api/retry.py:159-216 | every entry shows the kind of failure, whether it may be tried again, its partial content, and the wait: what the provider asked for, 0 if negative, or the jittered base; the last entry shows none |
| Retry.PartialContentStops | api/retry.py:219-234 | the loop stops for partial content exactly after an outcome of a durable attempt that tells of some |
| Retry.EveryRunStartsInTime | api/retry.py:255-270 | no run starts at or after the deadline, each after the whole wait its predecessor's entry shows, and the time slept stays below the deadline |
| Retry.BackoffBounded | api/retry.py:272-276 | the wait stays within the jitter ratio around a base that never exceeds the maximum |
| Retry.BackoffDoubles | api/retry.py:272-273 | the wait before jitter begins with the configured one and doubles up to the maximum |
| Retry.BackoffGrows | api/retry.py:272-273 | the base never shrinks from one attempt to a later one |
| Retry.LoopFollowsProtocol | api/contracts.py:219-220 | whenever the loop goes on after an outcome of a durable attempt, the protocol's retry step does too |
| TokenUsage.InvalidMeansUnexplainable | core/context_budget.py:1224-1279 | usage is rejected exactly when a figure is malformed or no allocation explains all figures |
| TokenUsage.TotalAndPartChargeExactly | core/context_budget.py:1176-1221 | a valid usage with a total and a part is charged that total, as the only allocation that explains it |
| TokenUsage.SettlementNeverUnderstates | core/context_budget.py:1176-1221 | the charge is what the provider pins down, the reservation in a dimension about which nothing is said, covers every explaining allocation under a total, and everything when usage is rejected |
| RunBudgetAnswers.SettlementNeverOverstates | core/context_budget.py:1176-1221 | each part of a charge is a figure that was reported, reserved or returned |
| TokenUsage.FirstUsageIntegerMeaning | core/context_budget.py:1282-1309 | the value found is one of the reported figures, and it is valid exactly when all of them agree and are well formed |
| TokenUsage.ValidUsageIsExplained | core/context_budget.py:1224-1279 | a valid usage is explained by the allocation it stands for |
| RunBudgetProofs.EveryRunAccounts | core/context_budget.py:765-1024 | over every run total input is actual-if-settled-else-reserved, reserved output is the unsettled sum, total output the settled sum, calls the number of reservations |
| RunBudgetProofs.EveryRunBounded | core/context_budget.py:1067-1071 | over every run totals stay within the base limits plus grants unless some settled reservation carries an error |
| RunBudgetGrants.ReservationGrantsExactly | core/context_budget.py:789-846 | an accepted reservation that fits takes no grant; one that does not uses the current authorization for its stage, once, for exactly what is missing in each dimension, so that the limit is met with equality; a refusal leaves the limits, but for one for cost |
| RunBudgetGrants.RestoringGrantsExactly | core/context_budget.py:898-944 | restoring an unknown attempt adds exactly what is missing as a grant of its own, uses no authorization, and charges the attempt in full |
| RunBudgetGrants.SettlingGrantsExactly | core/context_budget.py:996-1024 | a settlement widens the limits exactly when its usage is valid, something is missing and the attempt was restored or authorized, and by exactly what is missing |
| RunBudgetGrants.LimitsFollowDemand | core/context_budget.py:1073-1150 | over every run the limits, however often widened, stay within the base limits or the most the run asked for at once |
| RunBudgetAuthority.EveryRunDisciplined | core/context_budget.py:677-734 | at most one authorization is active, each stage of it is consumed at most once, and every authorized grant is backed by its own consumption |
| RunBudgetAuthority.EveryRunFromFresh | core/context_budget.py:656-676 | all of these hold in every state reachable from a new tracker |
| RunBudgetAuthority.SupersededNeverRevives | core/context_budget.py:677-734 | an authorization that was superseded is never active again |
| RunBudgetAuthority.RefusedReservationChargesNothing | core/context_budget.py:789-846 | a refused reservation changes no charge; only a refusal for cost can leave the limits widened |
| RunBudgetAuthority.ReservationAcceptedExactly | core/context_budget.py:789-846 | a reservation is accepted exactly when time, calls, cost and the tokens, widened by a usable authorization, allow it |
| RunBudgetAuthority.RestoreAcceptedExactly | core/context_budget.py:898-944 | restoring a new attempt fails only for time, calls or cost, never for tokens |
| RunBudgetAnswers.ReservationAnswersExactly | core/context_budget.py:765-846 | which reason a reservation is refused for: time, form, a known attempt, calls, input, output or cost, in this order, over totals, limits and a usable authorization |
| RunBudgetAnswers.EnsuringAnswersExactly | core/context_budget.py:848-896 | a known attempt is confirmed exactly with the same call and amounts, and nothing changes |
| RunBudgetAnswers.RestoringAnswersExactly | core/context_budget.py:898-944 | restoring is refused for time, form, calls or a cost limit already passed, and for nothing else |
| RunBudgetAnswers.AuthorizingAnswersExactly | core/context_budget.py:677-734 | an authorization needs a key, a reason and a stage and must not contradict the known one; it becomes the current one with its stages in the order first named, the one before it is not active any more, and nothing else changes |
| RunBudgetAuthority.SettlingIsIdempotent | core/context_budget.py:960-972 | settling an attempt again changes nothing and gives the same answer |
| RunBudgetAuthority.SettlementIsTruthful | core/context_budget.py:973-1000 | settling enters exactly what the usage says, even when it then raises |
| RunBudgetAuthority.SettlementErrorExactly | core/context_budget.py:996-1024 | when a first settlement raises, with which of the codes for usage, input and output, and when it does not |
| RunBudgetAuthority.RecordOutputIgnoresReservations | core/context_budget.py:752-763 | a run with all output reserved in which the older entry point still breaks the output limit |
| RunBudgetAuthority.RecordOutputSafeExactly | core/context_budget.py:752-763 | an accepted older output record keeps the limits exactly when it stays within the remaining capacity the tracker reports |
| RunBudgetTracking.RunBudgetTracker.ReserveModelCall | core/context_budget.py:765-846 | the new tracker state and the outcome are those of the ledger operation |
| RunBudgetTracking.RunBudgetTracker.EnsureModelCall | core/context_budget.py:848-896 | a known attempt is compared, an unknown one reserved |
| RunBudgetTracking.RunBudgetTracker.RestoreModelCall | core/context_budget.py:898-944 | widens by the deficit, reserves without cost and marks the attempt restored |
| RunBudgetTracking.RunBudgetTracker.RecordModelResponse | core/context_budget.py:946-1024 | replaces the reserved amounts by the charge, checks the limits, stores the settlement with its error |
| RunBudgetTracking.RunBudgetTracker.AuthorizeElasticTokens | core/context_budget.py:677-734 | normalizes the stages, refuses a conflicting key, supersedes the previous authorization |
| RunBudgetTracking.RunBudgetTracker.ConsumeElasticAuthorization | core/context_budget.py:1073-1107 | consumes the active authorization for a permitted, unused stage when there is a deficit |
| RunBudgetTracking.RunBudgetTracker.RecordOutputTokens | core/context_budget.py:752-763 | the older output record, as it stands |
| DeliveryEvidence.EveryRunIsSafe | core/delivery.py:418-494 | every run keeps an orderly history, in which announcements, ends and confirmed absences have what they need before them, a lease exactly while delivering, receipts that fit their leases, and workers whose claims are theirs alone |
| DeliveryTraces.EveryRunHistory | core/delivery.py:423-482 | two announced mutations enclose a confirmed absence or a query-only attempt that ended retryable, and so do two posts made under their own leases; a post has its own earlier announcement and is made once; claims never repeat a number; query-only attempts never announce; an attempt ends once |
| DeliveryTraces.BetweenAnnouncements | core/delivery.py:470-482 | in an orderly history two announcements enclose a release |
| DeliveryTraces.BetweenHeldPosts | core/delivery.py:470-482 | in an orderly history two posts made under their own leases enclose a release |
| DeliveryTraces.PostIsLateExactly | core/delivery.py:728-735 | a post is logged as made under its lease exactly when its claim is still the lease on record, and it is late exactly when its attempt has ended meanwhile or the job is finished |
| DeliveryTraces.EveryPostAnnounced | core/delivery.py:728-735 | every post has its own earlier durable announcement and is never repeated |
| DeliveryTraces.QueryOnlyNeverAnnounces | core/delivery.py:477-478 | an attempt claimed query-only never announces a mutation |
| DeliveryTraces.PostsBounded | core/delivery.py:676-769 | in every run there is at most one more post than there were releases |
| DeliveryConfirmations.StickyNeedsConfirmation | docs/durable-delivery-queue.md:59-59 | if query-only attempts went back to uncertain, two announcements, or two posts made under their own leases, would enclose a confirmed absence that rests on a query made after a quarantine |
| DeliveryConfirmations.EveryConfirmationIsGrounded | core/delivery.py:372-400 | in every run each confirmed absence rests on a query-only attempt, claimed after a quarantine was over, that ended with a completed query without a match |
| DeliveryConfirmations.EvidenceIsLastExactly | core/delivery.py:381-395 | no attempt was claimed after the one a confirmation relies on exactly when that one is still the job's last |
| DeliveryConfirmations.EvidenceIsNewerExactly | core/delivery.py:391-400 | the query behind a confirmation is newer than every announcement exactly when no attempt since was left uncertain |
| DeliveryConfirmations.RecheckedKeepsThePromise | docs/durable-delivery-queue.md:59-59 | if, besides, a confirmation checked that its evidence is still the last attempt, two announcements, or two posts made under their own leases, would enclose a query claimed after the first, ended without a match, and confirmed before the second |
| DeliveryTraces.QuarantineNeverRestarts | core/delivery.py:1047-1050 | a job keeps the moment it first became uncertain through every later step until it succeeds |
| DeliveryTraces.QuarantineCountsFromFirst | core/delivery.py:372-378 | so until a success the quarantine is over exactly when the first one is, however recent the last post |
| DeliveryTraces.TerminalForGood | core/delivery.py:441-444 | a finished job never changes again, except that a clashing enqueue makes it a conflict |
| DeliveryTraces.LiveLeaseHolds | core/delivery.py:484-494 | while a lease is live without a receipt no other worker's step changes the job |
| DeliveryTraces.LostLeaseIsHarmless | core/delivery.py:470-494 | a worker whose claim is not the lease on record never changes the job, whatever lease or receipt there is |
| DeliveryReopening.UncertainReopensExactly | core/delivery.py:676-726 | an undisturbed attempt on an uncertain job reopens it exactly when the adapter is missing, set up for another database, lacks a required schema or raises on the answer; otherwise it stays uncertain or finished |
| DeliveryReopening.StepReopensExactly | core/delivery.py:423-438 | of all steps of any run, those that end a query-only attempt as a retryable failure are exactly the claim that finds its retryable receipt, or its lapsed lease without one, and its own finalizing of a retryable receipt; after the lapse the same step hands out a claim that may post |
| DeliveryReposts.PostedTwiceWithoutConfirmation | core/delivery.py:336-341 | every Notion job has a run with two posts and no confirmed absence |
| DeliveryReposts.PostedTwiceOnStaleEvidence | core/delivery.py:391-400 | every Notion job has a run in which two posts enclose a confirmed absence although nobody queried in between |
| DeliveryReposts.PostedTwiceByALateWorker | core/delivery.py:728-735 | every Notion job has a run, under each variant of the queue, in which a worker that stalled between the durable mark and the post wakes up after another post and posts too, with neither a query nor a confirmation in between and the job uncertain |
| DeliveryReopening.PostableJobIsPosted | core/delivery.py:728-735 | an attempt on a postable job with nothing visible remotely announces and posts exactly once |
| DeliveryReopening.PostedAttemptEnds | core/delivery.py:735-769 | left alone, a posting attempt ends in the state the remote side showed and gives up its lease |
| DeliveryAttempts.AttemptRefinesProtocol | core/delivery.py:258-318 | a whole attempt, however its clock readings fall, is a schedule of the protocol with the same claims, announcements, posts and ends |
| DeliveryAttempts.UndisturbedAttemptCloses | core/delivery.py:273-318 | without interference a granted attempt writes its receipt, and the job ends in the state the receipt names, never a postable one after an announcement |
| Delivery.OperationsKeepJobsValid | core/delivery.py:844-924 | enqueue, claim, announcement, finalizing and confirming keep every job valid |
| Delivery.RecoveryEqualsFinalizing | core/delivery.py:423-430 | recovering a receipt at the next claim has the effect of finalizing it up to timestamps, and finalizing it again changes nothing |
| NotionAdapter.ClassifiedExactly | core/delivery.py:974-1032 | success exactly when one page alone carries either identity and carries both with the payload; absence exactly when none carries either |
| NotionAdapter.CollectMatches | core/delivery.py:981-995 | the loop collects the pages that carry either identity, in order |
| NotionAdapter.AfterMutationIsSafe | core/delivery.py:728-769 | after an announcement the outcome is uncertain, conflict or a verified success |
| NotionAdapter.AnnouncesExactly | core/delivery.py:676-728 | a mutation is announced exactly by an attempt that may post, from a fitting set-up, after a completed query without a match |
| NotionAdapter.QueryOnlyEndsRetryableExactly | core/delivery.py:676-726 | a query-only delivery never announces, ends retryable exactly when misconfigured, and reports absence only after a query without a match |
| DeliveryOutcomes.DecidesExactly | core/delivery.py:676-728 | which state an attempt ends in without posting, over the set-up, the answer and the pages alone, for attempts that may post and for query-only ones |
| DeliveryOutcomes.ReadbackDecidesExactly | core/delivery.py:728-769 | which state an attempt ends in after posting, over the reply and the pages read back |
| DeliveryQueues.DeliveryQueue.EnqueueJob | core/delivery.py:143-235 | creates the job, returns an equal one, or turns a clashing one into a conflict and raises |
| DeliveryQueues.DeliveryQueue.ClaimFor | core/delivery.py:418-468 | settles a lease on record by its receipt or its expiry, then grants a claim, query-only for an uncertain job |
| DeliveryQueues.DeliveryQueue.MarkRemoteMutationStarted | core/delivery.py:470-482 | marks only a lease of this attempt that is not query-only |
| DeliveryQueues.DeliveryQueue.FinalizeAttempt | core/delivery.py:484-494 | applies the receipt to its own lease, accepts one already applied, refuses all others |
| DeliveryQueues.DeliveryQueue.Attempt | core/delivery.py:258-318 | one attempt leaves the job and its receipts as specified and no other job touched |
| DeliveryOutcomes.AttemptLeavesExactly | core/delivery.py:258-318 | the whole job, receipt and history that an attempt leaves, over the job it found and what it saw: one attempt more, no lease, the state the remote side calls for |
| DeliveryOutcomes.ClaimsExactly | core/delivery.py:418-468 | a claim is handed out exactly for a job that waits or whose lease has lapsed without a receipt, with the next number and a new lease, query-only for a job found uncertain; otherwise a lease is settled by its receipt or nothing happens |
| DeliveryOutcomes.EnqueuesExactly | core/delivery.py:143-235 | a new id becomes a waiting job, or one of which nothing is required; the same job changes nothing; another one under the same id makes the stored one a conflict and leaves the rest |
| DeliveryOutcomes.ConfirmsExactly | core/delivery.py:365-400 | confirming makes an uncertain job pending, notes when, and changes nothing else |
| DeliveryOutcomes.QuarantineExactly | core/delivery.py:372-378 | the quarantine is over exactly for an uncertain job that has been so for that many seconds |
| DeliveryOutcomes.MarksAndFinalizesExactly | core/delivery.py:470-494 | an announcement is accepted exactly from the attempt on record that may post, a receipt applied exactly for the attempt on record, and accepted again only if it was applied last |
| DeliveryQueues.DeliveryQueue.ResolveConfirmedAbsent | core/delivery.py:365-400 | makes the job pending exactly after the quarantine, one more attempt and a receipt showing a completed query without a match |
| DeliveryQueues.DeliveryQueue.Reconcile | core/delivery.py:320-342 | one pass over the listed jobs, up to the first attempt that raises |
| DeliveryQueues.VisitLeavesExactly | core/delivery.py:328-342 | a visit leaves a finished job alone and any waiting job as one attempt leaves it |
| DeliveryQueues.RoundIsPerJob | core/delivery.py:328-342 | each visited job is left as one visit leaves it whatever happened to the others, and only the last visit can have raised |
| DeliveryQueues.UnlistedUnchanged | core/delivery.py:328-342 | jobs that were not visited stay as they were |
| Selection.ChooseIndexes | core/structured_context.py:529-554 | fails exactly when the required entries are too many or too long; otherwise fits, keeps them, and every other entry is in exactly when it fitted at its turn |
| Selection.GreedyUnique | core/structured_context.py:545-554 | that condition determines the selection |
| Selection.NothingOmittedFits | core/structured_context.py:529-554 | with a renderer that never shrinks and no item limit no omitted entry would still fit |
| Selection.OrderIsRanking | core/structured_context.py:378-388 | the ranking is sorted by score, then position, and names every entry once |
| Selection.RelevanceFirstExactly | core/structured_context.py:630-634 | one more matching term always outranks recency exactly while there are at most ten thousand entries |
| Selection.ChosenByTurn | core/structured_context.py:529-554 | the required entries are in, and any other exactly when there was room and it fitted with those before it: a matching term counts as ten thousand places, then the later or the earlier entry first |
| Renderers.SelectJsonItems | core/structured_context.py:153-196 | keeps required items, fits, emits whole items in order, each other one exactly when it fitted at its turn, and without an item limit leaves out nothing that would fit |
| Renderers.JsonMonotone | core/structured_context.py:176-177 | a rendered list never gets shorter when items are added |
| Renderers.TextsInOrder | core/structured_context.py:176-177 | what a choice shows are the texts at the chosen places, in order |
| Renderers.PartsInOrder | core/structured_context.py:110-119 | a rendered choice shows the chosen paragraphs in order, with a marker exactly where some were skipped between two |
| Renderers.AddingShortensExactly | core/structured_context.py:110-119 | adding a paragraph shortens the text exactly when it closes a one-paragraph gap and is shorter than the marker |
| ParagraphGaps.OmittedParagraphWouldFit | core/structured_context.py:97-131 | a text of eleven characters under a limit of ten, on which the selection leaves out a paragraph that would fit in the end |
| ParagraphMaximality.MaximalExactly | core/structured_context.py:97-131 | on texts longer than all their paragraphs rendered, nothing left out of a selection would still fit, for every query, preference, required set and limit, exactly when no paragraph inside is shorter than the marker |
| ParagraphMaximality.CrowdedTextsAreMaximal | core/structured_context.py:97-131 | on every text it is enough that each paragraph inside is as long as the marker, or too long together with its two neighbours for any limit below the whole text |
| ParagraphMaximality.ThreeAreMaximalExactly | core/structured_context.py:97-131 | on texts of at most three paragraphs the selection is maximal in this sense exactly when no paragraph inside is shorter than the marker or the text is no longer than its rendering |
| ParagraphGaps.ThreeWordsNeverFail | core/structured_context.py:97-131 | three short words between blank lines are such a text that never fails, although a short paragraph stands inside |
| ParagraphGaps.FourWordsFail | core/structured_context.py:97-131 | four of them fail, although the text is no longer than its rendering |
| Renderers.ShortInsideIsNotMaximal | core/structured_context.py:110-131 | the query, preference, required paragraphs and limit under which the last short paragraph makes the selection leave out the one after it |
| Paragraphs.SelectTextBlocks | core/structured_context.py:85-150 | a long text is cut exactly, required paragraphs are kept, every other one is in exactly when it fitted at its turn, and the rendering fits; unless a short paragraph inside fits the limit together with its neighbours nothing left out would fit; or the required ones alone do not |
| Paragraphs.ParagraphEntries | core/structured_context.py:557-578 | the spans are those between blank lines, or lines; trimmed, in order, apart, around every visible character, and none crosses a blank line |
| Paragraphs.EntriesSplit | core/structured_context.py:557-578 | that cutting is exact for every text |
| Paragraphs.AppendNonblankSpan | core/structured_context.py:581-587 | appends the trimmed stretch, or nothing when it is all white space |
| Paragraphs.FindSeparators | core/structured_context.py:558-558 | finds the leftmost separators one after the other and misses none |
| MarkdownContext.CompactMarkdown | core/structured_context.py:257-352 | ends, and either fits with its manifest, holds every required section, its heading and what compaction kept of it, and every other section exactly when it fitted at its turn, or required sections cannot be shrunk further, or a section cannot be compacted to its own limit |
| MarkdownSections.CompactedFits | core/structured_context.py:391-454 | a required section, once compacted, keeps to its limit |
| MarkdownSections.CompactedIsVisible | core/structured_context.py:391-454 | a required section, once compacted, begins with its heading and ends with something visible |
| MarkdownSections.CompactedKeepsEntries | core/structured_context.py:457-527 | a JSON body that is cut keeps every entry of a required object of which none is demanded by name, every named entry, both ends of a required list, and each other entry that fits at its turn; it fails exactly when those that must stay are too long |
| MarkdownSections.CompactedKeepsParagraphs | core/structured_context.py:391-454 | any other body that is cut shows whole paragraphs, of a required one the first and the last, and each other one that fits at its turn; it fails exactly when the edges are too long |
| MarkdownSections.CutOtherwise | core/structured_context.py:391-454 | a heading without room stands alone or, if required, fails; a single value stays whole, or is dropped if not required |
| MarkdownSections.HeadingAndBody | core/structured_context.py:402-411 | the heading of a section that has one is its first line and its body all that follows but for white space around it; any other section is headed by its name |
| MarkdownSections.IdsInOrder | core/structured_context.py:485-515 | the ids reported are those of the chosen entries, in order |
| MarkdownContext.ShrinkToFit | core/structured_context.py:280-311 | every round makes the sections strictly shorter in total; failure means no try helps any more |
| MarkdownContext.ShrinkOne | core/structured_context.py:283-306 | replaces the longest required section that becomes shorter, of equals the first, or reports that none does |
| MarkdownContext.ChosenSectionsPresent | core/structured_context.py:267-278 | every chosen section is in the rendered text, whole |
| MarkdownContext.RenderedWhole | core/structured_context.py:267-278 | the text is nothing but the chosen sections, blank lines between them, and the manifest |
| MarkdownContext.TriesExactly | core/structured_context.py:283-306 | a try compacts a section to 32 characters less than would do, or to one, and brings it only if it got shorter |
| MarkdownContext.OneReplacementSuffices | core/structured_context.py:280-306 | one replacement that was not tried for a single character is enough if the manifest grows by no more than 32 characters |
| PromptCompiler.CompileStage | core/prompt_compiler.py:293-410 | compiles exactly when the required sections fit; keeps them and every preferred section that fitted at its turn, more matching terms first, then the later one |
| PromptCompiler.SearchLimit | core/prompt_compiler.py:461-488 | returns a limit that compiles; with ordered probes the largest one, and nothing only when none does |
| PromptCompiler.CompileWithDynamicAuthority | core/prompt_compiler.py:413-489 | whatever is returned fits, has every available required section and the preferred ones by turn; it searches only with protocol texts and an authority section, and then fails only when no limit compiles |
| PromptCompiler.HeadroomKept | core/prompt_compiler.py:492-501 | with protocol texts a choice fits exactly when it leaves 512 tokens free, or takes one under a smaller limit |
| TokenEstimates.BudgetedCoversRaw | core/context_budget.py:550-616 | budgeted tokens are never below raw tokens in any counting mode |
| Utf8.WidthIsLeast | core/context_budget.py:1398-1419 | every character takes the fewest bytes that can hold it, and one byte exactly when it is ASCII |
| TokenEstimates.ConservativeCovers | core/context_budget.py:1398-1419 | at least the plain estimate plus overhead and at least the ASCII bytes plus overhead |
| TokenEstimates.ConservativeGrows | core/context_budget.py:1398-1419 | never decreases when text is added at either end |
| TokenEstimates.Fit | core/token_calibration.py:23-43 | accepts exactly usable samples and returns the largest observed ratio |
| TokenEstimates.Normalize | core/token_calibration.py:154-205 | accepts exactly fully described calibration samples with distinct ids, text and a positive count |
| TokenEstimates.FittedNeverUnderestimates | core/token_calibration.py:35-43 | a fitted estimator never underestimates a sample it was fitted on |
| SceneContinuity.EveryRunConserves | core/scene_continuity.py:718-763 | over every run of accepted scenes each counter and inventory value is its start plus all declared changes |
| SceneContinuity.EveryRunTidy | core/scene_continuity.py:350-407 | completed ids never repeat, open actions have distinct ids that are not completed, the open action shown is the first one |
| SceneHistory.StateShowsTheEvents | core/scene_continuity.py:350-407 | after every run of accepted scenes the open actions are exactly the events that began and were neither begun again nor closed since, the completed ids those of the completed events, and the completed events those that had not happened before, all in order |
| SceneHistory.PlaceIsLast | core/scene_continuity.py:386-407 | after every run the place shown is that of the last event that has one, and those present are the people of its scene who were there |
| SceneContinuity.CompletedOnlyGrow | core/scene_continuity.py:378-385 | completed ids of an earlier point of a run are a prefix of those of a later one |
| SceneContinuity.ParticipantsArePlaced | core/scene_continuity.py:517-558 | whoever takes part in an event at a place and whose whereabouts were known is there before or after the scene |
| SceneContinuity.CleanEvent | core/scene_continuity.py:196-316 | an event without findings has a new id that is neither completed nor forbidden, repeats no recent completed event and restarts no open action under another id |
| SceneFindings.EventFindingsExactly | core/scene_continuity.py:196-316 | each finding about an event is reported exactly when the state, the plan and the events before it justify it, and no other |
| SceneContinuity.LastMoveDecides | core/scene_continuity.py:694-715 | after accepted location deltas an entity is where its last delta puts it |
| SceneChanges.AcceptedExactly | core/scene_continuity.py:150-421 | a scene is accepted exactly when every required event is there, no event justifies a finding, and all its changes start from the values on record |
| SceneChanges.FieldsShowLastChanges | core/scene_continuity.py:585-657 | over every run of accepted scenes each field of a character or relationship has the value of its last change, fields without one have none, and every change starts from where the one before it ended |
| SceneTransition.ValidateSceneTransition | core/scene_continuity.py:150-421 | reports exactly the specified findings and leaves the specified next state |
| SceneTransition.SceneState.ApplyNumericDeltas | core/scene_continuity.py:718-763 | applies number deltas in place and reports stale or inconsistent ones |
| SceneTransition.SceneState.ApplyLocationDeltas | core/scene_continuity.py:694-715 | applies location deltas in place and reports stale ones |
| SceneTransition.SceneState.ApplyCharacterDeltas | core/scene_continuity.py:585-599 | applies character fields in place and reports stale ones |
| SceneTransition.SceneState.ApplyRelationshipDeltas | core/scene_continuity.py:602-657 | the same for relationships, which must name an event, and one of the scene |
| SceneTransition.CheckEvents | core/scene_continuity.py:196-316 | reports every finding about the scene's events |
| StageChain.ChainsEndingAlikeAgree | core/stage_control.py:561-586 | two accepted chains ending in the same receipt hash are the same chain |
| StageChain.BuiltReceiptExtendsExactly | core/stage_control.py:327-348 | a built receipt matches its authorization, and extends a chain exactly when the authorization names its last hash and keeps scope and chapter |
| StageChain.ValidateChain | core/stage_control.py:561-586 | accepts exactly the sequences of valid, linked receipts of one scope and chapter |
| StageChain.BuildReceipt | core/stage_control.py:257-348 | builds a receipt exactly when the authorization is valid and the result would be accepted, and refuses evidence on unsuccessful stages |
| StageChain.BuildsExactly | core/stage_control.py:257-348 | when a receipt is built, over the fields of the authorization and the report, and that it carries exactly what they say |
| StageChain.AcceptedReceiptMeans | core/stage_control.py:561-586 | every receipt of an accepted chain is the hash of its body, names its predecessor, shares scope and chapter with the first, has output and evidence exactly if it succeeded, and model receipts as its kind demands |
| DependencyDag.ValidateDag | core/reliable_semantic_contracts.py:85-107 | succeeds exactly on graphs without a cycle among their keys, naming every key once with its dependencies before it |
| DependencyDag.DagCheck.Visit | core/reliable_semantic_contracts.py:92-103 | a visit ends, keeps the order sound and restores the set being visited, or has found a cycle |
| DependencyDag.OrderedMeansAcyclic | core/reliable_semantic_contracts.py:105-107 | a complete order with dependencies first rules out every cycle |
| DependencyDag.ReliablePipelineIsAcyclic | core/reliable_semantic_contracts.py:46-65 | the hash dependencies of the pipeline contain no cycle |
| LocalCommit.MarkedRunsCompleteOthersRollBack | core/reliable_semantic_contracts.py:68-82 | when recovery reads the marker correctly a commit completes only if its marker was set and rolls back only if it never was |
| LocalCommit.EveryCommitCanEnd | core/reliable_semantic_contracts.py:20-30 | a commit whose marker was set can still be completed, one whose marker was not can still be rolled back, and before that it can be marked |
| LocalCommit.RecoveryAndEndExactly | core/reliable_semantic_contracts.py:20-30 | recovery is called for exactly while publishing or rolling back, and exactly a finished commit has no next step |
| QualityDecision.AcceptedExactly | core/quality_decision.py:196-207 | accepted exactly when no candidate's severity, unknown ones counting as needing revision, reaches the threshold |
| QualityDecision.MoreCandidatesNeverAccept | core/quality_decision.py:201-202 | further candidates never turn a rejection into an acceptance |
| QualityDecision.MergeSummarizes | core/quality_decision.py:404-480 | each finding has the first category, the highest severity, all codes, sources and coverage, and the evidence in order of first mention, of the candidates with its identity, and every candidate is in one |
| QualityOrder.OrderDoesNotMatter | core/quality_decision.py:404-480 | permuting the candidates changes neither acceptance nor the set of findings, and in a finding at most the category, the repair and the order of the evidence |
| QualityOrder.CategoryStableExactly | core/quality_decision.py:441-453 | no permutation changes the category exactly when all candidates of the finding name the same one |
| QualityOrder.RepairStableExactly | core/quality_decision.py:471-472 | no permutation changes the repair exactly when all candidates that could supply it supply the same |
| QualityOrder.EvidenceStableExactly | core/quality_decision.py:467-467 | no permutation changes the list of evidence exactly when of any two candidates one cites what the other cites, in the same order, and possibly more after it |
| QualityDecision.RepairExactly | core/quality_decision.py:471-472 | a finding asks for manual review exactly when all its candidates do, and then has the first one's repair; otherwise it takes the first repair named |
| QualityOrder.OrderDecides | core/quality_decision.py:441-472 | two candidates that name different categories and repairs and cite different things first: all three follow the first one |
| QualityOrder.OrderDecidesForTwoProblems | core/quality_decision.py:253-286 | two problems of one validation whose codes belong to one family are such candidates |
| QualityDecision.MergeFindings | core/quality_decision.py:404-472 | the loop that updates the merged findings computes that merge |

## Left out

- Network and SDK code: the Notion transport, the OpenAI and Anthropic clients and stream parsing are inputs that say what was answered.
- Files, fsync and file locks: stores are maps with exclusive creation, and each locked section of the delivery queue is one step. Storage faults stop the process.
- Hash and canonical JSON bytes: hashes are injective. The canonical hash drops environment fields such as paths and times; none of the hashed records modelled here has such a field.
- Legacy `reserve_call`, tracker duck typing and the elapsed-time report of the run budget.
- RunBudgetProofs.EveryRunBounded: covers the model-call operations only, because `record_output` breaks the limits as `RunBudgetAuthority.RecordOutputIgnoresReservations` shows.
- CallProtocol: a conflict error carries no category and is classified by its text, which names the attempt; the model leaves that classification open as a choice. Fault injection hooks, type checks of arguments and id syntax checks are not modelled.
- ModelCallRuntime.ModelCallRuntimeContext.NewCallId: does not model the sanitizing and truncation of the label prefix, and outside a scope not the truncation of the random suffix; inside a scope the id is always short enough.
- DeliveryRuns: the file adapters and provider retry telemetry.
- DeliveryQueues.DeliveryQueue.EnqueueJob: checks of identifiers, digests and credentials in the target are not modelled.
- Renderers.SelectJsonItems: items are given as rendered text; the manifest and its hashes are not modelled.
- Paragraphs.SelectTextBlocks: extraction of query terms is an input that gives each paragraph its number of matching terms.
- ParagraphMaximality.MaximalExactly: texts of four or more paragraphs that are no longer than their rendering have no exact condition here; whether one fails depends on which combinations of paragraph lengths reach a limit.
- MarkdownContext.CompactMarkdown: JSON parsing and rendering and the manifest are inputs; a text without sections takes another path, which is not modelled.
- PromptCompiler: splitting, projecting and rendering of prompt sections are inputs.
- TokenEstimates: ratios are exact reals, not floating point; tokenizer assets and the holdout report are not modelled.
- SceneModel: the roster reducer and the prose checks of rosters, which call code that is not part of this model; strings are taken as already trimmed, numbers as exact.
- StageChain: receipts and authorizations of the legacy version 1.0, digest syntax and the derived readiness decisions.
- QualityDecision: building candidates from validator reports and identity digests; lists that are sorted in the end are sets or multisets.
- Command line, configuration, scripts, re-exporting modules, JSON schema files and credential scans.
