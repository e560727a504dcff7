# Verification of the learning, telemetry and provenance cores

A Dafny model of the parts of the system where correctness is hard to see from one function:

- **The durable learning protocol (H3).** `Protocol` is a step system: Phase 1 submissions; transactions of
  `begin_phase2`, `begin_execution` and `reconcile_stale_execution` interleaved statement by statement, each under its
  advisory lock with private writes until commit; rollbacks and crashes at any point, commits whose acknowledgement is
  lost; lock-free heartbeats, completions and failures by any id. `ProtocolSafety`, `ProtocolRuns` and
  `ProtocolAtomicity` hold the invariants, `ProtocolTheorems` what every run from empty tables guarantees,
  `ProtocolLimits` exactly where the guarantees end. `ExecutionStore` is the code that updates the tables; `SerialRuns`
  shows every call of it to be a run of the protocol, under the rules that allow the call, and so carries the guarantees
  over to every history of calls. `Ledger` is the append-only learning memory.
- **Calibration.** Brier score, binned ECE and confidence over the reals (`Bins`, `CalibrationModel`), outcome
  consolidation with its counter loops (`Consolidation`), rounding to four digits (`Rounding`) and the calibration
  history (`LearningHistory`).
- **Outcome attribution.** The dictionary-indexed joins against the relational join and against each other
  (`Attribution`), the advice drawn from them (`Refinement`), the decision-scoped signals (`LearningLoop`), and the whole
  computation from the tables to the signals (`LearningReports`).
- **Telemetry.** The canonical payload printer with a reader for its output (`Utf8`, `JsonText`, `JsonNumber`,
  `NumberTexts`, `Canonical`), the ingest transaction (`ObservationId`, `Ingest`, `IngestTheorems`) and the publisher,
  alone (`Publisher`) and in numbers (`PublisherRace`).
- **Cognitive trace.** The bulk reads and the assembly (`CognitiveTrace`), what the result means (`TraceTheorems`) and the
  order it is listed in (`TraceOrder`).
- **Concurrency utilities.** The circuit breaker under overlapping calls (`CircuitBreaker`) and the bounded batch
  scheduler under every schedule (`BoundedProcessor`).

`dafny verify dfyconfig.toml` checks everything. Clocks, random numbers, generated ids, hash functions, UUID and time
parsing and the outcome of every call to the database or the message bus are parameters or arbitrary functions.

## What the proofs found

Where the code and its own documentation differ, the model follows the code.

- `begin_execution` and `begin_phase2` document a skip for completed executions, but the query they use returns only
  pending and running rows, so those branches cannot run. A rerun after completion starts a second chain at attempt 1;
  idempotence holds for the ledger, not for executions (`RerunStartsANewChain`, `RerunAddsNoRow`).
- The fail mark after a rollback normally hits no row, because the rollback removed it. Phase 2 is all or nothing in
  every run from a quiet state exactly when no row is pending, nothing is failed by id that `begin_execution` or
  reconciliation did not hand out, and every commit is acknowledged (`AtomicIff`). Each condition is needed: a second
  worker may complete a pending row before the first one's mark arrives (`PendingRowBreaks`), the driver returns the id
  of its execution and `fail_execution` takes any id (`StrayFailBreaks`), and after a commit whose acknowledgement is
  lost the driver marks its own completed execution as failed (`LostCommitBreaks`). No code in the repository inserts a
  pending row (the column default is `pending`) or fails an execution by id apart from the driver's own mark.
- The lock protects a revision exactly if all callers that name it take the same lock (`OneActiveIffSharedKeys`). The
  only caller in the repository names the revision's own decision
  (`apps/gateway/api-gateway/src/service.py:465-487`), which suffices (`OneActiveAlways`).
- After a duplicate, the ledger hands back the newest row of the target, which may be another signal
  (`DedupReturnsMatchIff`, `DedupMayReturnAnotherSignal`).
- The trace reports a hypothesis as "not found" although it is stored, exactly when a confidence refers to it and no
  recommendation of a listed decision explains it (`WarningIsFalseIff`; `StoredButReported` is such a store).
- One corroborated outcome can deactivate a pattern: with a single contradicted outcome before it
  (`CorroborationHurtsIff`). The comment on the sample minimum speaks of decisions; the code counts outcomes. Degrading
  can raise a strength, by rounding alone, exactly for strengths whose part beyond the fourth digit exceeds half a
  ten-thousandth (`RoundingHelpsIff`).
- Attribution credits an insight without looking at the hypothesis, while scoping needs one: an insight that a decision is
  credited to gets no signal exactly when the hypothesis is not found (`CreditedInsightIsLearnedIff`).
- Consolidation skips decisions with a pending outcome status, but the view that the learning loop and the reports read
  has no status, so a pending decision with actual outcomes is counted (`PendingIsCountedIff`).
- The two non-competitor branches of `_revise_context` give the same answer.
- `explanatory_coherence` scores above 0 for a hypothesis that explains nothing but has a coherent ally, and its second
  neutral branch is dead (`CoherenceMeaning`, `ScopeIsCounted`).
- `canonical_float` documents scientific notation from 1e15 up and below 1e-6, but `repr` switches at 1e16 and 1e-4: the
  two differ exactly between those bounds and at zero (`DocumentationDiffersIff`). A float and an integer of the same
  value print alike exactly below 1e16 in magnitude (`FloatPrintsAsIntIff`, `EqualNumbersTwoTexts`), which is
  the only way in which equal bodies can differ in bytes (`SameBytesIff`, `EqualMeaningEqualBytes`).
- `metric_batches` uses the batch id as primary key: an id accepted once is a conflict for every other tenant or
  installation for good (`AcceptedIdIsTaken`).
- The publisher's sixty-second cap cannot be reached (`BackoffDoubles`), and it reads a single observation while ingest
  stores a combined object; a row it cannot read is dead-lettered (`OutboxDrains`).
- The publisher's claim is a statement of its own, so its row locks end before publishing. Any number of publishers still
  publish and give up with cause (`RaceIsJustified`), but a finished row stays finished exactly when at most one runs
  (`FinishedStaysIff`): a second one that read the row earlier can set a published row back to failed.
- A circuit breaker whose half-open trial is used up admits nothing more until a manual reset exactly when no older call
  is still in flight (`StuckIff`); a cancelled trial leads there for every threshold and timeout
  (`CancelledTrialIsReachable`). Its state is meaningful exactly for thresholds of at least one
  (`ClosedIffBelowThreshold`).
- `BoundedTenantProcessor` checks neither size: a batch size of zero raises, a negative one returns only `None`, and
  without permits `process_all` never returns (`ProcessAll`, `EveryScheduleFinishes`).

## Model

| member | source | states |
|---|---|---|
| `ProtocolTheorems.OneActiveAlways` | libs/learning/learning_execution_store.py:289-378 | whenever the callers of a revision take one lock, each outcome revision has at most one pending or running execution in every reachable state, with updates by any id and lost acknowledgements in between |
| `ProtocolTheorems.InsertNeverConflicts` | infrastructure/db-migrations/h3-learning-execution.sql:86-90 | at every insert no other row of the revision is active, committed or private, so the unique index never fires |
| `ProtocolTheorems.ChainsAlways` | libs/learning/learning_execution_store.py:627-707 | in every reachable state a retry chain stays in its revision, is as long as its attempt number, drops one attempt per link to a root with attempt 1, and everything below its head is over; no execution is retried twice |
| `ProtocolTheorems.LineageIsAttempts` | libs/learning/learning_execution_store.py:331-342 | the chain of parents of an execution: length, attempts, statuses and links |
| `ProtocolTheorems.RaisedRunLeavesNoTrace` | libs/memory/learning_loop.py:881-892 | in runs from any quiet state without pending rows, with acknowledged commits and no stray failures, neither a rollback nor a fail mark, however late, changes any table |
| `ProtocolRuns.StepKeeps` | libs/learning/learning_execution_store.py:424-511 | every enabled step that takes its revision's lock keeps the per-revision invariant: one active execution, linear chains, and what each open transaction has read staying true under its lock |
| `ProtocolRuns.CommitKeeps` | libs/memory/learning_loop.py:865-866 | merging a transaction's private rows keeps the invariant for its revision and every other open transaction |
| `ProtocolRuns.LockFreeKeeps` | libs/learning/learning_execution_store.py:380-420 | completions, failures and heartbeats of any id, and fail marks, keep the invariant without a lock, interleaved anywhere |
| `ProtocolRuns.RunKeeps` | libs/learning/learning_execution_store.py:424-511 | the invariant holds in every state of every run whose transactions take their revision's lock |
| `ProtocolSafety.InsertSound` | libs/learning/learning_execution_store.py:498-511 | inserting attempt 1, or the retry of a childless finished execution, keeps a revision sound |
| `ProtocolSafety.MarkSound` | libs/learning/learning_execution_store.py:684-692 | marking the only active execution stale leaves none active and frees it to be retried once |
| `ProtocolAtomicity.LedgerAppendOnly` | libs/memory/memory_ledger.py:109-120 | in every run the ledger only grows and holds at most one row per tenant, target type, target id and hash, uncommitted rows included |
| `ProtocolAtomicity.StepFresh` | libs/memory/learning_loop.py:842-892 | one step keeps: ledger rows name completed executions, transactions work on unpublished rows, and fail marks hit nothing; for acknowledged commits and failures by id of what was handed out |
| `ProtocolAtomicity.RunFresh` | libs/memory/learning_loop.py:724-892 | the same in every state of every such run that starts without pending rows, whichever locks the callers take |
| `ProtocolLimits.AtomicIff` | libs/memory/learning_loop.py:881-892 | every ledger row names a completed execution in all runs from a quiet state if and only if that state has no pending execution, nothing is failed by id that was not handed out, and commits are acknowledged |
| `ProtocolLimits.PendingRowBreaks` | libs/learning/learning_execution_store.py:474-491 | from any quiet state with a pending row, a run in which a fail mark hits a completed execution with ledger rows |
| `ProtocolLimits.StrayFailBreaks` | libs/learning/learning_execution_store.py:401-420 | from any quiet state, a run in which failing by id hits an execution that Phase 2 completed |
| `ProtocolLimits.LostCommitBreaks` | libs/memory/learning_loop.py:865-892 | from any quiet state, a run in which a lost acknowledgement makes the driver fail what it has committed |
| `ProtocolLimits.OneActiveIffSharedKeys` | libs/learning/learning_execution_store.py:308-319 | one active execution per revision in every run if and only if all pairs that callers name with a revision hash to one lock, for every lock function, revision and set of pairs |
| `ProtocolLimits.DifferentLocksBreak` | libs/learning/learning_execution_store.py:289-378 | two callers with different locks for a revision reach two active executions of it, for any revision and pairs |
| `LearningExecution.WalksAreShort` | libs/learning/learning_execution.py:46-52 | a walk of the abstract machine keeps an execution's identity and makes at most the transitions its status allows, so it ends after two |
| `ExecutionStore.LearningExecutionStore.SubmitOutcomesWithRevision` | libs/learning/learning_execution_store.py:220-285 | Phase 1: revision and decision together, or neither when the decision is missing |
| `ExecutionStore.LearningExecutionStore.FindActiveExecution` | libs/learning/learning_execution_store.py:57-68 | an active row of the revision with the highest attempt, or none exactly when there is none |
| `ExecutionStore.LearningExecutionStore.BeginPhase2` | libs/learning/learning_execution_store.py:424-511 | claims, retries, skips, creates or violates the foreign key, in a session of its own that leaves the store as it was |
| `ExecutionStore.LearningExecutionStore.BeginExecution` | libs/learning/learning_execution_store.py:289-378 | the same claim, committed |
| `ExecutionStore.LearningExecutionStore.CompleteExecution` | libs/learning/learning_execution_store.py:380-399 | completes by id whatever the status, and touches no other row |
| `ExecutionStore.LearningExecutionStore.FailExecution` | libs/learning/learning_execution_store.py:401-420 | fails by id whatever the status; an unknown id changes nothing |
| `ExecutionStore.LearningExecutionStore.UpdateHeartbeat` | libs/learning/learning_execution_store.py:570-577 | moves the heartbeat of a running execution only |
| `ExecutionStore.LearningExecutionStore.ReconcileStaleExecution` | libs/learning/learning_execution_store.py:627-707 | retries a stale execution once, unless it recovered, vanished or another is active |
| `ExecutionStore.LearningExecutionStore.RunH3LearningLoop` | libs/memory/learning_loop.py:697-892 | a whole Phase 2, raising before the claim, at any statement or after its commit: all signals persisted and the execution completed with their count, or nothing but the fail mark |
| `ExecutionStore.LearningExecutionStore.RunWork` | libs/memory/learning_loop.py:774-892 | the try block raises exactly at its first bad statement; otherwise every signal is persisted and the execution completed with their count |
| `ExecutionStore.Session.PersistInSession` | libs/memory/memory_ledger.py:222-265 | rejects unknown target types, ignores a conflicting key, appends otherwise; hands back the new row, or the newest row of the target |
| `ExecutionStore.Session.CompleteExecutionInSession` | libs/learning/learning_execution_store.py:513-538 | completes within the session and leaves the ledger alone |
| `SerialRuns.StoreIsSound` | libs/learning/learning_execution_store.py:220-707 | after every history of store calls that name a revision with its own pair: one active execution per revision, well-founded chains, and, without stray failures and lost acknowledgements, ledger rows that name completed executions |
| `SerialRuns.CallIsARun` | libs/learning/learning_execution_store.py:220-707 | every allowed call of every store method is a run of the protocol |
| `SerialRuns.FailIsARun` | libs/learning/learning_execution_store.py:401-420 | failing by id is a run for what was handed out, for unknown ids, and under rules that permit strays |
| `SerialRuns.H3IsARun` | libs/memory/learning_loop.py:697-892 | the driver's effect, raising or not, is reachable by the protocol's steps |
| `SerialRuns.BeginIsARun` | libs/learning/learning_execution_store.py:289-378 | begin_execution's effect is a run that hands the execution to a lock-free worker |
| `SerialRuns.ReconcileIsARun` | libs/learning/learning_execution_store.py:627-707 | reconciliation is a run that takes the stale row's own lock and hands its execution out |
| `SerialRuns.RerunAddsNoRow` | libs/memory/memory_ledger.py:222-265 | the same work again, however much later and after whatever was appended, adds no ledger row and does not raise on its own |
| `SerialRuns.LearningTwiceAddsNothing` | libs/memory/learning_loop.py:724-892 | the whole loop, from the tables to the ledger, twice over the same tables: one signal for the decision and one for each reported artifact it affects, both times, and no new ledger row |
| `SerialRuns.ComputationRaisesIff` | libs/memory/learning_loop.py:774-842 | over any tables the computed work raises if and only if the decision is gone or a credited pattern has no context; every computed signal passes its target-type check |
| `SerialRuns.RerunStartsANewChain` | libs/learning/learning_execution_store.py:57-68 | a rerun after completion creates a second execution at attempt 1 without parent, and no ledger row |
| `SerialRuns.RaisedRunRestoresIff` | libs/memory/learning_loop.py:881-892 | a run that raises leaves the tables as they were if and only if it had not claimed a pending row and its commit had not taken effect |
| `Ledger.PersistAllAppends` | libs/memory/memory_ledger.py:109-120 | persisting appends, keeps keys unique, tags new rows with the execution, and leaves every signal's key in the ledger |
| `Ledger.PersistAgainAddsNothing` | libs/memory/memory_ledger.py:222-265 | persisting the same signals again adds nothing, whatever was appended in between |
| `Ledger.DedupReturnsMatchIff` | libs/memory/memory_ledger.py:255-265 | after a conflict the returned row is surely the signal's own exactly when every other row of the target is strictly older |
| `Ledger.DedupMayReturnAnotherSignal` | libs/memory/memory_ledger.py:255-265 | a ledger in which a conflict hands back another signal's row |
| `CalibrationModel.BinsAreAPartition` | libs/cognitive_core/calibration_model.py:153-162 | the bins are disjoint and cover exactly [0, 1], the last one closed |
| `CalibrationModel.EceScore` | libs/cognitive_core/calibration_model.py:147-173 | the bin loop computes the mean of absolute per-bin sums, with its answers for no data, no bins and unequal lengths |
| `CalibrationModel.BiasBelowEce` | libs/cognitive_core/calibration_model.py:147-173 | the difference of mean prediction and mean outcome never exceeds the ECE |
| `CalibrationModel.FinerBinsRaiseEce` | libs/cognitive_core/calibration_model.py:147-173 | splitting every bin in k never lowers the ECE |
| `CalibrationModel.EceBelowAbsoluteError` | libs/cognitive_core/calibration_model.py:147-173 | the ECE never exceeds the mean absolute error |
| `CalibrationModel.EceSquaredBelowBrier` | libs/cognitive_core/calibration_model.py:142-173 | the squared ECE never exceeds the Brier score |
| `CalibrationModel.CalibrationChain` | libs/cognitive_core/calibration_model.py:142-173 | bias <= ECE_M <= ECE_kM <= mean absolute error, and ECE_kM squared <= Brier, for all probabilities and outcomes |
| `CalibrationModel.ScoresAreUnit` | libs/cognitive_core/calibration_model.py:142-173 | both scores lie in [0, 1], so 1 - ECE is a valid factor |
| `CalibrationModel.PoolTwo` | libs/cognitive_core/calibration_model.py:142-173 | pooling two sets of forecasts adds Brier masses and cannot raise the ECE mass |
| `CalibrationModel.FinalConfidenceRange` | libs/cognitive_core/calibration_model.py:175-187 | succeeds exactly on unit inputs; the clamp changes nothing; never above the larger of S and C; an ECE of 1 gives 0 |
| `CalibrationModel.FinalConfidenceAntitone` | libs/cognitive_core/calibration_model.py:175-187 | a worse calibration never raises the confidence |
| `CalibrationModel.ScopeIsCounted` | libs/cognitive_core/calibration_model.py:88-140 | every label in scope is counted, so the second neutral branch is dead |
| `CalibrationModel.CoherenceMeaning` | libs/cognitive_core/calibration_model.py:88-140 | with evidence the score is the ratio; 1 exactly when nothing counts against, 0 exactly when nothing counts for |
| `Consolidation.BuildActualByMetric` | libs/memory/consolidation.py:219-225 | indexes actual outcomes by metric |
| `Consolidation.LastActualWins` | libs/memory/consolidation.py:219-225 | a metric is known exactly when some actual outcome records it, and the last one that does is used |
| `Consolidation.ScanExpected` | libs/memory/consolidation.py:227-251 | the counter loop counts the details and collects the matched pairs |
| `Consolidation.BuildConsolidation` | libs/memory/consolidation.py:184-276 | the loops return what the decision's details say |
| `Consolidation.ConsolidationConserves` | libs/memory/consolidation.py:184-276 | corroborated + contradicted + inconclusive equals the expected count, and the matched pairs are the first two |
| `Consolidation.NoActualsNoVerdict` | libs/memory/consolidation.py:184-276 | without actual outcomes everything is inconclusive and there is no score |
| `Consolidation.FeedbackBounds` | libs/memory/consolidation.py:184-276 | feedback lies in [-1, 1], is positive exactly when corroborations outnumber contradictions, and 1 exactly when nothing contradicts; rounded, it stays in [-1, 1] and is positive exactly above half a ten-thousandth |
| `Consolidation.UnmatchedExpectationIsNeutral` | libs/memory/consolidation.py:134-276 | an expected outcome without an actual one, inserted anywhere, changes neither verdicts, feedback, scores nor signal |
| `Consolidation.ConsolidateDecisions` | libs/memory/consolidation.py:279-330 | a foreign decision rejects the batch, naming the first; otherwise the summed report is the pooled one |
| `Consolidation.PoolingTenant` | libs/memory/consolidation.py:279-330 | weighted by matches, the pooled ECE is at most the mean of the decisions' ECEs and the pooled Brier score is exactly the mean of theirs |
| `Consolidation.ReportedPooling` | libs/memory/consolidation.py:279-330 | the reported, rounded scores: the pooled ECE is at most the weighted mean of the reported ones and the pooled Brier score is that mean, each up to one ten-thousandth |
| `Consolidation.ComputeOutcomeSignal` | libs/learning/learning_loop.py:26-86 | the separate loop agrees with consolidation on every decision: None exactly when nothing matched, else 1 exactly when corroborated > contradicted |
| `LearningHistory.BuildLearningHistory` | libs/learning/learning_loop.py:145-195 | pairs each decided decision with its stored confidence, and scores from two pairs on, both numbers rounded to four digits |
| `LearningHistory.CalibrationNeverFlatters` | libs/learning/learning_loop.py:145-195 | the rounded calibration is exactly one minus the rounded ECE, in [0, 1]; up to half a ten-thousandth it is at most one minus the gap between mean confidence and success rate, and at least one minus the mean absolute gap |
| `Attribution.Index` | libs/memory/pattern_refinement.py:148-150 | a dictionary by id holds for each id the last row that has it |
| `Attribution.AttributeOutcomes` | libs/memory/pattern_refinement.py:135-180 | whatever the tables hold, the dictionary has exactly the patterns that are reached, with their totals |
| `Attribution.AttributeOutcomesToContexts` | libs/memory/context_revision.py:80-130 | the same per context, patterns without one left out |
| `Attribution.IndexJoinIsJoin` | libs/memory/pattern_refinement.py:148-180 | with primary keys the dictionary lookups produce the relational join of the four tables, row for row |
| `Attribution.ContextIsSumOfPatterns` | libs/memory/context_revision.py:110-130 | a context's total is the sum of its patterns' totals, in all four counters |
| `Attribution.AttributionsAgree` | libs/memory/context_revision.py:94-130 | the two dictionaries computed from the same tables agree: contexts are the push-forward of patterns |
| `Refinement.RefinementOnlyWeakens` | libs/memory/pattern_refinement.py:183-223 | the recommended strength lies between 0 and the current one, up to half a ten-thousandth; each action has an exact condition, and deactivation means at least two outcomes without a corroborating majority |
| `Refinement.RoundingHelpsIff` | libs/memory/pattern_refinement.py:204-206 | some counts, and some contradictions, raise a strength if and only if its part beyond the fourth digit exceeds half a ten-thousandth |
| `Refinement.ContradictionsNeverHelp` | libs/memory/context_revision.py:133-172 | more contradictions never lower the alarm for a context, nor raise the strength of a pattern that has one already, or at all beyond the rounding |
| `Refinement.CorroborationHurtsIff` | libs/memory/pattern_refinement.py:196-208 | one more corroborated outcome lowers the strength exactly when there was a single contradicted outcome before |
| `LearningLoop.TraceDecisionToArtifacts` | libs/memory/learning_loop.py:113-175 | for every decision, with a verdict or not: the ids and contexts of the patterns its links reach, and the insight when the hypothesis is found |
| `LearningLoop.AffectedAreCredited` | libs/memory/learning_loop.py:113-175 | for a decided decision those patterns are, one by one, the ones attribution credits it to |
| `LearningLoop.ComputeLearningSignals` | libs/memory/learning_loop.py:585-694 | the filtering loops produce the scoped signals in order |
| `LearningLoop.SignalsAreScoped` | libs/memory/learning_loop.py:603-694 | signals are exactly those of the decision and of each reported artifact it affects, all of accepted target types |
| `LearningLoop.SignalCount` | libs/memory/learning_loop.py:603-694 | their number is one plus the affected findings |
| `LearningLoop.OneSignalPerArtifact` | libs/memory/learning_loop.py:603-694 | when each report has one finding per artifact, no artifact gets two signals |
| `LearningReports.ComputeSignals` | libs/memory/learning_loop.py:774-842 | from the tables to the signals: consolidation, the three reports, the trace and the scoping, or the two ways to raise |
| `LearningReports.BuildPatternRefinement` | libs/memory/pattern_refinement.py:226-269 | one result for each listed pattern that some decision is credited to, in order, with the advice for its total; raises exactly when one of them has no context |
| `LearningReports.BuildContextRevision` | libs/memory/context_revision.py:186-231 | the same for listed contexts |
| `LearningReports.AttributeOutcomesToInsights` | libs/memory/insight_transformation.py:115-154 | a dictionary of exactly the credited insights with their totals, whatever the hypotheses are |
| `LearningReports.BuildInsightTransformation` | libs/memory/insight_transformation.py:193-241 | one result for every listed insight, credited or not, with its totals and its number of recommendations |
| `LearningReports.LearnedIff` | libs/memory/learning_loop.py:774-842 | for a listed, decided decision: a pattern gets a signal if and only if the decision affects it, a context or an insight if and only if the decision affects it and it is listed |
| `LearningReports.PatternSignalSays` | libs/memory/pattern_refinement.py:183-266 | a pattern's signal carries the advice for the total of all listed decisions |
| `LearningReports.CreditedInsightIsLearnedIff` | libs/memory/learning_loop.py:139-175 | an insight the decision is credited to gets its signal if and only if the recommendation's hypothesis is found |
| `LearningReports.PendingIsCountedIff` | libs/memory/pattern_refinement.py:41-60 | the counters of a decision read for attribution agree with its consolidation if and only if it is not pending or nothing would be counted |
| `Utf8.EncodeKeepsOrder` | libs/telemetry/canonical.py:65-79 | code point order of keys is UTF-8 byte order (section 1 of RFC 3629), for all strings of Unicode scalar values |
| `Utf8.EncodeIsInjective` | libs/telemetry/canonical.py:90-105 | UTF-8 encoding (section 3 of RFC 3629) loses nothing |
| `JsonText.QuoteReads` | libs/telemetry/canonical.py:65-85 | a printed string reads back (section 7 of RFC 8259), with or without escaping non-ASCII |
| `JsonText.SurrogatesRejoin` | libs/telemetry/canonical.py:68-79 | the surrogate pair printed for a character outside the basic plane denotes it |
| `JsonText.AsciiEscapeIsAscii` | libs/telemetry/canonical.py:100-105 | escaped keys hold printable ASCII only |
| `JsonNumber.CanonicalTextReads` | libs/telemetry/canonical.py:35-60 | the stripped text of a finite float reads back to its exact decimal value |
| `JsonNumber.CanonicalIsStripped` | libs/telemetry/canonical.py:35-60 | a fixed-notation result ends neither in a zero after the point nor in a point |
| `JsonNumber.IntReads` | libs/telemetry/canonical.py:84-85 | an integer's text reads back |
| `NumberTexts.ShapeByMagnitude` | libs/telemetry/canonical.py:51-58 | repr is in scientific shape exactly from 1e16 up and, short of zero, below 1e-4 |
| `NumberTexts.DocumentationDiffersIff` | libs/telemetry/canonical.py:37-58 | the text disagrees with the documented thresholds exactly in [1e15, 1e16), in [1e-6, 1e-4) and at zero |
| `NumberTexts.EqualFloatsPrintAlike` | libs/telemetry/canonical.py:35-60 | equal finite floats, signed zeros included, have one canonical text |
| `NumberTexts.FloatPrintsAsIntIff` | libs/telemetry/canonical.py:35-60 | a float and an integer of the same value, of either sign, print alike if and only if the value is below 1e16 in magnitude |
| `Canonical.KeysInByteOrder` | libs/telemetry/canonical.py:68-79 | printed members come in strictly increasing UTF-8 byte order of their keys |
| `Canonical.SerializeReads` | libs/telemetry/canonical.py:65-85 | a reader recovers the value from its text followed by anything |
| `Canonical.SerializeParses` | libs/telemetry/canonical.py:65-85 | parsing the printed text of any value gives its meaning |
| `Canonical.EqualBytesEqualMeaning` | libs/telemetry/canonical.py:90-105 | two bodies with the same canonical bytes say the same, batch_id aside |
| `Canonical.SameBodiesSameBytes` | libs/telemetry/canonical.py:90-105 | bodies equal as dictionaries, numbers by value, in any insertion order at any depth and with any batch ids, have the same bytes |
| `Canonical.SameBytesIff` | libs/telemetry/canonical.py:65-105 | two bodies have the same canonical bytes if and only if they are the same, batch_id aside, at every depth and in any insertion order, numbers paired as in NumbersPrintAlikeIff, and all numbers are finite |
| `Canonical.SerializeFailsOnNonFinite` | libs/telemetry/canonical.py:35-60 | printing fails exactly when some number, at any depth, is not finite |
| `Canonical.NumbersPrintAlikeIff` | libs/telemetry/canonical.py:65-85 | two numbers of one value print alike if and only if both are floats, both integers, or both below 1e16 in magnitude |
| `Canonical.EqualMeaningEqualBytes` | libs/telemetry/canonical.py:90-105 | bodies that say the same, batch_id aside, have the same bytes if no float reaches 1e16 in magnitude |
| `Canonical.EqualNumbersTwoTexts` | libs/telemetry/canonical.py:35-60 | the bound is sharp: 1e16 as float and as integer mean the same and print differently |
| `ObservationId.NameIsInjective` | libs/telemetry/observation_id.py:12-24 | different inputs never share a name, although fact types may hold colons |
| `Ingest.TelemetryIngestService.IngestBatch` | libs/telemetry/ingest_service.py:59-181 | the transaction: three tables together or none, a replay answered from the outbox, a conflict naming the stored hash |
| `Ingest.ValidateBody` | libs/telemetry/ingest_service.py:183-215 | accepts exactly bodies with a parsable batch id, non-empty samples with all four fields and a capture time |
| `Ingest.ValidateSequenceMonotonicity` | libs/telemetry/ingest_service.py:234-248 | accepts exactly the sequences 1, 2, ..., n, booleans counting as integers |
| `Ingest.Check` | libs/telemetry/ingest_service.py:72-92 | the checks before the transaction pass exactly when every one of them does |
| `Ingest.TelemetryIngestService.FetchExistingObservationIds` | libs/telemetry/ingest_service.py:265-280 | the ids of the first outbox row of the tenant's batch |
| `IngestTheorems.AlwaysConsistent` | libs/telemetry/ingest_service.py:94-173 | in every run each accepted batch has exactly one outbox row, its own, and samples numbered 1..n |
| `IngestTheorems.AcceptedIdIsTaken` | libs/telemetry/ingest_service.py:107-124 | once a batch is accepted, whatever is ingested later, a valid request with its id changes nothing: receipt for its own installation and hash, conflict naming the hash for another payload, conflict naming none for anyone else |
| `IngestTheorems.ReplayIsIdempotent` | libs/telemetry/ingest_service.py:107-124 | a replay that passes validation, with keys in any order and anything ingested in between, gets the first answer's ids and changes nothing |
| `IngestTheorems.AcceptedReplayIsTheSame` | libs/telemetry/ingest_service.py:107-124 | an accepted replay is the same body as the first request, key order and batch id aside, barring a SHA-256 collision |
| `IngestTheorems.NamesAreInjective` | libs/telemetry/observation_id.py:12-24 | names of samples that differ in tenant, installation, batch, position or fact type differ |
| `Publisher.ObservationPublisher.ClaimRows` | libs/telemetry/publisher.py:139-154 | claims distinct due rows, earliest first, leaving none out that is due earlier, up to the limit |
| `Publisher.ObservationPublisher.PublishOne` | libs/telemetry/publisher.py:158-214 | one publish: published, failed with a retry time, or dead-lettered at the fifth attempt; a crash records nothing |
| `Publisher.ObservationPublisher.PollOnce` | libs/telemetry/publisher.py:121-135 | publishes the claimed rows in order up to a crash and counts the successes |
| `Publisher.PublisherIsSafe` | libs/telemetry/publisher.py:121-214 | in every run with crashes: at most five recorded attempts, a published row's observation is in the stream, a finished row never changes |
| `Publisher.OutboxDrains` | libs/telemetry/publisher.py:121-214 | after five uncut polls per row at times when every retry is due, with any other polls in between, crashing ones included, every row is published or dead-lettered, and unreadable rows are dead-lettered |
| `Publisher.FreshOutboxDrains` | libs/telemetry/publisher.py:121-214 | both for every run from a freshly filled outbox: at most five publishes of a row besides those a crash cut off, and every row ends |
| `Publisher.BackoffDoubles` | libs/telemetry/publisher.py:35-39 | the wait doubles from two seconds within a quarter, and never exceeds twenty: the cap is unreachable |
| `PublisherRace.RaceIsJustified` | libs/telemetry/publisher.py:121-214 | in every interleaving of any number of publishers, crashes included: a published row's observation is in the stream, a dead-lettered row had at least five publishes, and no count exceeds them |
| `PublisherRace.FinishedStaysIff` | libs/telemetry/publisher.py:139-214 | finished rows never change in any interleaving if and only if at most one publisher runs |
| `PublisherRace.TwoPublishersBreak` | libs/telemetry/publisher.py:139-214 | two publishers claim one row; the first publishes it and the second sets it back to failed |
| `CognitiveTrace.BulkByIds` | apps/gateway/api-gateway/src/cognitive_trace.py:329-340 | only rows of the tenant, the table and the ids, and for each such row its id |
| `CognitiveTrace.Collect` | apps/gateway/api-gateway/src/cognitive_trace.py:736-756 | exactly the ids in one reference column of the rows read so far |
| `CognitiveTrace.LinksRaiseRank` | apps/gateway/api-gateway/src/cognitive_trace.py:40-51 | every reference leads to a type of higher rank |
| `CognitiveTrace.ReadRows` | apps/gateway/api-gateway/src/cognitive_trace.py:199-238 | the level-by-level reads hold exactly the wanted artifacts the tenant has |
| `CognitiveTrace.ExtractDecisionIds` | apps/gateway/api-gateway/src/cognitive_trace.py:344-363 | exactly the readable ids, malformed entries skipped |
| `CognitiveTrace.ValidateProvenance` | apps/gateway/api-gateway/src/cognitive_trace.py:367-473 | one warning for exactly each reference that leads out of the trace |
| `CognitiveTrace.AddEdges` | apps/gateway/api-gateway/src/cognitive_trace.py:649-733 | an edge exactly for each reference whose target is a node |
| `CognitiveTrace.GetTrace` | apps/gateway/api-gateway/src/cognitive_trace.py:168-304 | None exactly when the tenant has no such report; only the root without listed decisions; else the trace of the listed decisions |
| `TraceOrder.Arrange` | apps/gateway/api-gateway/src/cognitive_trace.py:295-304 | the nodes and edges listed in the order of types, ids and relations, each once |
| `TraceOrder.DisplayIsDeterminate` | apps/gateway/api-gateway/src/cognitive_trace.py:295-304 | equal traces are listed identically |
| `TraceTheorems.TraceIsReachability` | apps/gateway/api-gateway/src/cognitive_trace.py:187-238 | a row is in the trace exactly when a walk in the tenant's store leads to it from a listed decision |
| `TraceTheorems.TraceIsDeterminate` | apps/gateway/api-gateway/src/cognitive_trace.py:295-304 | nodes, edges and completeness do not depend on the order in which rows come back |
| `TraceTheorems.NodesAreReached` | apps/gateway/api-gateway/src/cognitive_trace.py:253-293 | every node belongs to the tenant and is reached from the report along edges |
| `TraceTheorems.EdgesAreAcyclic` | apps/gateway/api-gateway/src/cognitive_trace.py:40-51 | along any walk of edges the rank rises, so no walk returns and none exceeds nine edges (ids distinct across types) |
| `TraceTheorems.CompleteIffClosed` | apps/gateway/api-gateway/src/cognitive_trace.py:315-326 | complete exactly when no reference leads out of the node set |
| `TraceTheorems.WarningIsFalseIff` | apps/gateway/api-gateway/src/cognitive_trace.py:419-424 | a target the tenant has is reported missing if and only if a confidence refers to it and no stored recommendation of a listed decision explains it |
| `TraceTheorems.ExplainedIsRead` | apps/gateway/api-gateway/src/cognitive_trace.py:199-238 | a hypothesis is read through a recommendation exactly when the store explains it |
| `TraceTheorems.StoredButReported` | apps/gateway/api-gateway/src/cognitive_trace.py:419-424 | a store in which every reference resolves and whose trace is partial, with the warning named |
| `TraceTheorems.UnexplainedCalibrationIsReported` | apps/gateway/api-gateway/src/cognitive_trace.py:419-424 | such a store always yields a partial trace, stored hypothesis or not |
| `CircuitBreaker.Circuit.State` | libs/shared/circuit_breaker.py:56-65 | looking half-opens an open circuit whose timeout has passed |
| `CircuitBreaker.Circuit.Start` | libs/shared/circuit_breaker.py:67-80 | the admission of a call |
| `CircuitBreaker.Circuit.OnSuccess` | libs/shared/circuit_breaker.py:91-98 | the successful end of a call |
| `CircuitBreaker.Circuit.OnFailure` | libs/shared/circuit_breaker.py:100-114 | the failed end of a call |
| `CircuitBreaker.CountsFailures` | libs/shared/circuit_breaker.py:56-119 | while closed the count is the number of failures since the last success or reset |
| `CircuitBreaker.ClosedIffBelowThreshold` | libs/shared/circuit_breaker.py:56-119 | in every interleaving closed means below the threshold and open or half-open at or above it, if and only if the threshold is at least one |
| `CircuitBreaker.HalfOpenAdmitsOne` | libs/shared/circuit_breaker.py:77-80 | a half-open period admits at most one call |
| `CircuitBreaker.NoCallWhileCooling` | libs/shared/circuit_breaker.py:56-75 | while open no call is admitted within the timeout of any earlier failure |
| `CircuitBreaker.CancelledTrialBlocks` | libs/shared/circuit_breaker.py:82-89 | with the trial used up and no call in flight, nothing is admitted and the state stays until a manual reset |
| `CircuitBreaker.StuckIff` | libs/shared/circuit_breaker.py:67-114 | a half-open circuit with its trial used up admits no call without a reset if and only if no older call is in flight |
| `CircuitBreaker.CancelledTrialIsReachable` | libs/shared/circuit_breaker.py:82-114 | for every threshold and timeout some run with a cancelled trial ends in that state |
| `BoundedProcessor.BoundedTenantProcessor.ProcessAll` | libs/shared/concurrency.py:61-89 | for every choice of the event loop the results are the function's values in input order, with at most the semaphore's size in flight; sizes of zero and below give an error, all None, or no return |
| `BoundedProcessor.BoundedTenantProcessor.Create` | libs/shared/concurrency.py:46-59 | only a negative number of permits is refused |
| `BoundedProcessor.BoundedTenantProcessor.RunBatch` | libs/shared/concurrency.py:75-87 | one batch fills exactly its own indices |
| `BoundedProcessor.ResultsAreTheMap` | libs/shared/concurrency.py:73-89 | in every schedule: in-flight bound, no index written twice, and at the end each written once with its own value |
| `BoundedProcessor.BatchesPartition` | libs/shared/concurrency.py:80-86 | a task enters and leaves only while its own batch, index over batch size, is current |
| `BoundedProcessor.EveryScheduleFinishes` | libs/shared/concurrency.py:80-89 | no schedule exceeds three steps per tenant, and one that cannot go on has finished all batches if and only if there is a permit or nothing to do |

## Left out

- The older learning loop (`run_learning_loop_for_decision`): it passes positional arguments to a keyword-only function.
- Deadlocks between ledger inserts, and `fail_execution` itself failing.
- ProtocolLimits.AtomicIff: for callers that name the revision's own pair; for other callers the sufficient half is `AtomicForAllCallers`.
- SerialRuns.CallIsARun: histories of calls one after another; interleavings of calls are those of the step system itself.
- LearningReports.ComputeSignals: the texts of signals are arbitrary functions of the computed results, and the readers' fifty-row default page shows only in that the tables are what the readers list.
- Floating-point rounding, NaN in predictions, and the sigmoid of `evidential_support`: the scores are exact reals.
- SHA-256, UUIDv5, `float()`, `str()`, `strip` and `lower`: arbitrary functions, with facts about the strings fed to them.
- JsonNumber.CanonicalTextReads: `repr` is any text of exactly the shapes Python prints, not its shortest-digits rule; so a float is the decimal it prints.
- Canonical.EqualMeaningEqualBytes: a corollary for bodies in which no float reaches 1e16; the condition for all bodies is that of `SameBytesIff`.
- The JSON reader accepts only what the printer emits: no whitespace and no other escapes.
- The observation objects inside the outbox, quality classes, and delivery from ingest to the stream end to end.
- Ingest.Check: the error texts, and integers beyond the range of the sequence column.
- Publisher.PublisherIsSafe: one publisher, and so at most five attempts; `PublisherRace` says what several keep.
- CognitiveTrace.GetTrace: the payload of a node is not modelled.
- BoundedProcessor.BoundedTenantProcessor.ProcessAll: `process_fn` does not raise, and one call at a time uses the semaphore.
- CircuitBreaker.Circuit.Start: a call is split at its await; wrapping and re-raising are not modelled.
- Procedural catalogues, access control, gateway read stores, agents and the web front end: finite tables, plumbing or UI.
