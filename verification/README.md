# Verified model of the backend's state machines

This project models the parts of the backend whose correctness depends on every interleaving, every
history or every input, and proves what they keep.

**The asynchronous EC2 analysis jobs.** `ConsumerProtocol` is a state machine: a shared store with one job
record, three stage-run rows, a report and a clock, and any number of agents that hold stale copies. An
agent step is one storage operation with the local code up to the next one; it can be cut off by a crash
and can throw before or after its write took effect. `ProtocolSafety` gives the invariant and shows every
step keeps it, `ProtocolTheorems` draws the theorems for all reachable states and all runs,
`DeliveryBound` bounds the redeliveries of one job, `DeliveryProgress` shows when a delivery finishes it,
`FaultyDelivery` says what storage faults can do to a finished one, and `StageLease` relates the three
readings of a stage-run row. `ConsumerService` is the service as it is written, methods over a store that
other agents change at every wait; each of its storage operations is proved to be a step of the state
machine.

**Evidence over time.** `EvidenceHistory`, `StableEpoch` and `EvidenceMaturity` treat recorded
observation histories of any length: selection of the previous observation in its three forms, recording
and assessment, the epoch scan, the maturity class and the score; `LateArrival` drops the time order.
`GovernanceOrder` covers the governance order and the checkpoint.

**Versioned records with side tables.** `ExecutionOrchestrator` (snapshot, execute, verify, roll back),
`MembershipStore`, `MembershipService`, `MembershipCalls` and `MembershipOutcomes` (members and invitations,
over all interleavings and undisturbed), and `EngineOwnership` (write-once ownership).

**Migration and canonical text.** `JsonText` and `JsonPrinter` show that the migration's text comparison
is structural equality; `CanonicalJson` treats the fingerprint form; `Migration` covers the writes, counts
and verification of the migration script.

`Ordering` holds sorting and filtering, `Runs` the joining of two runs, `JobModels` the records of the job
protocol.

Check everything with `dafny verify dfyconfig.toml`.

## Findings

Where the code does not do what its text or a reader would expect, the model follows the code, and a
lemma says exactly when.

- An automatic rollback that fails is reported as ROLLBACK_FAILED, but the record stays FAILED: the write
  expects a version one ahead and its error is dropped. It is stored exactly when one other write came in
  between (`Orchestrator.StoreRollbackFailed`).
- An eligible run whose snapshot failed can be rolled back on request, and then the adapter is given the
  empty configuration, which was never captured (`RolledBackWithoutSnapshotIff`, `NeverCapturedIff`,
  `RollBackWithoutSnapshot`).
- A producer that records ENQUEUED between a consumer's read and its claim makes that consumer fail a
  healthy job for good (`NotRunnableIffStillQueued`, `EnqueueRaceFailsTheJob`).
- A storage fault during a duplicate delivery can turn a SUCCEEDED job into FAILED, exactly when the job
  has no retry left to spare (`FaultLosesFinishedJobIff`, `FinishedJobIsLost`); without faults only the
  scope and account rejection can.
- An account lookup that fails without a verdict acknowledges the message of a live job
  (`LookupFailureAcksALiveJob`); no other acknowledgement does (`AckIsFinal`, `ProcessValidatedMessage`).
- A score of 100 does not mean MATURE: rounding gives 100 from 23.52 hours on (`FullScoreIff`,
  `FullScoreNotMatureIff`).
- The two selections of the previous observation can differ on rows that tie
  (`SelectionsAgreeIff`); recorded histories have no such rows (`RecordedSelectionsAgree`).
- With late arrivals an observation can be STABLE and alone in its epoch, or in a longer epoch and not
  STABLE: exactly when it does not continue now as it did on arrival (`AgreesIff`). The hours of all epochs
  add up exactly when each observation that continues its neighbour was counted from it on arrival
  (`RecordedHoursIff`). For one late request `LateRequestAgreesIff` and `LateRequestHoursIff` say where it
  does no harm to states and to hours; in time order none does (`RecordedEpoch`).
- The membership key `tenant::user` is not injective; `TenantsCollideIff` says exactly for which tenants.
- An invitation that a removed user accepts is consumed, and the call fails (`AcceptInvitationAlone`).
- A supplied version can take a member out of REMOVED exactly when it is ahead of the record that the call
  read (`RevivesIffAhead`).
- An acceptance is recorded with the time of its check, before the expiry, but is written in time exactly
  when less time passes than was left then (`AcceptanceInTimeIff`).
- The canonical form keeps a value exactly if no key in it is `__proto__` (`CanonicalKeepsValueIff`,
  `ProtoKeyIsLost`).
- The same-scope block can appear on a clock that runs behind the job's last update (`BlockAppearsIff`,
  `BlockFadesIff`).

## Model

| member | source | states |
|---|---|---|
| ProtocolTheorems.StagesAreBacked | backend/services/ec2-async-job-consumer-service.ts:344-411 | in every reachable state of any number of consumers and producers, with crashes, storage faults and duplicate deliveries, a job past DISCOVERY, COST_ANALYSIS or SECURITY_ANALYSIS has the complete run of that stage, and SUCCEEDED means stage COMPLETE with a stored report |
| ProtocolTheorems.StageMovesOneAtATime | backend/services/ec2-async-job-consumer-service.ts:164-191 | each step moves the stage by at most one and never back, keeps FAILED, raises the version by exactly one on every change, and never replaces a stored report |
| ProtocolTheorems.OnlyCurrentCopyWrites | backend/services/ec2-async-job-consumer-service.ts:171-181 | only an agent whose copy is the stored record changes the job |
| ProtocolTheorems.StaleFailureIsHarmless | backend/services/ec2-async-job-consumer-service.ts:661-714 | the failure handler writes against the job read before the pipeline; once the stored job has moved on, its write has no effect and the delivery ends in a retry |
| ProtocolTheorems.SucceededLeftBy | backend/services/ec2-async-job-consumer-service.ts:244-280 | SUCCEEDED changes only to FAILED, and only through a rejection or an exhausted retry that holds the current record |
| ProtocolTheorems.SucceededLeftOnlyByRejection | backend/services/ec2-async-job-consumer-service.ts:629-647 | over every fault-free run, only the scope and account rejection takes a job out of SUCCEEDED |
| ProtocolTheorems.LeasesExclude | backend/repositories/ec2-stage-run-execution-claim.ts:33-105 | over every run, the claims of one stage run are numbered 1, 2, 3, ..., so owners never repeat and fences rise, and each follows the lease of the one before it or a recorded failure |
| ProtocolTheorems.OneHolderPerFence | backend/services/ec2-async-job-stage-execution.ts:21-45 | no two agents ever hold the same fence of a run |
| ProtocolTheorems.SupersededForever | backend/repositories/ec2-stage-run-execution-claim.ts:87-105 | a superseded fence stays superseded in every continuation |
| ProtocolTheorems.FencedOut | backend/services/ec2-async-job-consumer-service.ts:384-390 | a worker whose run was reclaimed can never complete it, however the system proceeds: its completion changes nothing and its delivery fails |
| ProtocolTheorems.CompletionIsFinal | backend/repositories/ec2-stage-run-execution-claim.ts:49-54 | a completed run is never claimed again and never becomes incomplete |
| ProtocolTheorems.LoopGuardUnreachable | backend/services/ec2-async-job-consumer-service.ts:549-607 | the step limit and the default exits of the stage loop are unreachable |
| ProtocolTheorems.NotRunnableIffStillQueued | backend/services/ec2-async-job-consumer-service.ts:545-547 | a delivery fails the job as not runnable exactly when it finds it still queued after its own claim attempt |
| ProtocolTheorems.EnqueueRaceFailsTheJob | backend/services/ec2-async-job-consumer-service.ts:116-160 | that happens without any fault: the producer stores ENQUEUED between the read and the claim, and a job that never ran is failed for good |
| ProtocolTheorems.ReachableOk | backend/services/ec2-async-job-consumer-service.ts:610-715 | the invariant of the store and of every agent's local copies holds in all reachable states |
| ProtocolTheorems.KnowledgeSurvives | backend/services/ec2-async-job-consumer-service.ts:610-715 | what an agent knows at a program point survives any steps of the others |
| ProtocolSafety.AgentStepOk | backend/services/ec2-async-job-consumer-service.ts:610-715 | every step of an agent, also one that throws before or after its write, keeps the invariant |
| ProtocolSafety.GrantShape | backend/repositories/ec2-stage-run-execution-claim.ts:63-84 | a granted claim writes a running row with the next attempt, a new owner and a version one higher |
| ProtocolSafety.CompletionTold | backend/repositories/dynamodb/dynamodb-ec2-cost-repository.ts:466-503 | a completion applies exactly under the current fence; the row is then complete exactly for success, full or partial, failed for good exactly if the service said so, and claimable again exactly after any other failure; nothing else changes |
| ProtocolTheorems.TerminalErrorIff | backend/services/ec2-async-job-consumer-service.ts:549-607 | inside the stage loop of any reachable state a step ends in the terminal error exactly when it looks at a stage whose run failed for good |
| ProtocolTheorems.FoundJobDecides | backend/services/ec2-async-job-consumer-service.ts:524-547 | what a delivery does with the job it finds, by its status and stage, in any store: works on RUNNING and PARTIAL, skips a finished or failed one, and takes any other for not runnable |
| ProtocolTheorems.LostWriteIsRetried | backend/services/ec2-async-job-consumer-service.ts:193-280 | a failure, rejection or exhausted retry written through a copy that is no longer the stored version changes nothing, and the message is delivered again |
| ProtocolTheorems.ProducerByQueueStatus | backend/services/ec2-async-job-producer-service.ts:128-205 | a producer creates a missing job, sends the message of one that is not known to be in the queue, and leaves an enqueued one alone |
| ProtocolTheorems.ThrownIsRetried | backend/services/ec2-async-job-consumer-service.ts:629-714 | an operation that throws, before or after it took effect, never acknowledges the message, and the handler counts against the job read before the pipeline |
| ProtocolTheorems.RefusedIsFailed | backend/services/ec2-async-job-consumer-service.ts:629-647 | a delivery whose scope or account is refused works on nothing: alone, it marks the job FAILED at its stage and is acknowledged |
| DeliveryBound.AtMostEightRetries | backend/services/ec2-async-job-consumer-service.ts:193-242 | of all sequential deliveries of one job on fault-free storage, with crashes anywhere, at most eight end in a retry, and at most as many as the stored job still has stages to leave and retries to count |
| DeliveryBound.RetryDescends | backend/services/ec2-async-job-consumer-service.ts:681-713 | each delivery that ends in a retry leaves fewer stages, or as many stages and fewer retries |
| DeliveryBound.StepPays | backend/services/ec2-async-job-consumer-service.ts:549-607 | no step raises what a message can still spend, and a step that ends in a retry spends one |
| DeliveryBound.AckIsFinal | backend/services/ec2-async-job-consumer-service.ts:649-664 | an acknowledgement leaves the job missing or terminal, unless the account lookup failed without a verdict |
| DeliveryBound.LookupFailureAcksALiveJob | backend/services/ec2-async-job-consumer-service.ts:632-646 | that exception: the message of a live job is acknowledged |
| DeliveryBound.FaultFailsAFinishedJob | backend/services/ec2-async-job-consumer-service.ts:661-713 | the run that loses a finished job at the limit of its retries: a failed read of a duplicate delivery counts a retry and marks it FAILED |
| FaultyDelivery.FaultLosesFinishedJobIff | backend/services/ec2-async-job-consumer-service.ts:193-242 | some accepted delivery with storage faults and crashes loses a finished job exactly when its retry count is one below the limit or higher; below that every such delivery leaves it SUCCEEDED |
| FaultyDelivery.FinishedJobIsLost | backend/services/ec2-async-job-consumer-service.ts:610-715 | such a job is reachable: it is retried four times, finishes, and is lost by a fault |
| DeliveryProgress.DeliveryFinishesIff | backend/services/ec2-async-job-consumer-service.ts:610-715 | a lone delivery without faults or crashes comes to an outcome within 31 steps, whatever the stage services do; it ends with the job SUCCEEDED and its retries uncounted exactly when the job was not FAILED and every stage it had yet to leave was complete, or claimable with a service that succeeds; and it is acknowledged exactly when the job is then terminal |
| DeliveryProgress.AcknowledgedAtLast | backend/services/ec2-async-job-consumer-service.ts:661-714 | a message delivered more often than the stored job has stages to leave and retries to count, and so one delivered nine times, is acknowledged with the job missing or terminal, whatever the services do |
| DeliveryProgress.DeliveryAfterFailure | backend/services/ec2-async-job-consumer-service.ts:610-715 | two deliveries: after a stage whose service ended in a recorded failure, the next delivery fails the job for good if the failure was permanent, and otherwise finishes it exactly if this service now succeeds and every later stage is complete, or claimable with a service that succeeds |
| ConsumerService.Worker.ClaimOrReconcileJob | backend/services/ec2-async-job-consumer-service.ts:106-162 | continues with the returned job: the same one unless it was queued, then the claimed one or, after a lost claim, the one loaded again; alone, a queued job is claimed at DISCOVERY |
| ConsumerService.Worker.ReloadJob | backend/services/ec2-async-job-consumer-service.ts:147-155 | after a lost claim the delivery goes on with the stored job; a lone consumer never loses one |
| ConsumerService.Worker.AdvanceStage | backend/services/ec2-async-job-consumer-service.ts:164-191 | returns the stored job, one stage and one version further and otherwise unchanged, or a conflict that leads to the failure handler; alone, it succeeds |
| ConsumerService.Worker.MarkRetrying | backend/services/ec2-async-job-consumer-service.ts:193-242 | counts a retry through the given copy or exhausts the job; alone, it succeeds exactly when the copy is current |
| ConsumerService.Worker.MarkTerminalFailure | backend/services/ec2-async-job-consumer-service.ts:244-280 | fails the job through the given copy; alone, it succeeds exactly when the copy is current |
| ConsumerService.Worker.ResolveProofBeforeExecution | backend/services/ec2-async-job-consumer-service.ts:299-309 | no error exactly when the stage is complete or may be claimed, whenever the planner would grant a claim there is none, and only a permanent failure is terminal |
| ConsumerService.Worker.ClaimExecution | backend/services/ec2-async-job-stage-execution.ts:21-45 | returns the fence of the claim, or the error of the planner or of the conditional write |
| ConsumerService.Worker.StartAnalysis | backend/services/ec2-async-job-consumer-service.ts:366-399 | completes the run only under the fence it claimed, and the row then says how the work ended; alone, a service that finishes has its completion stored |
| ConsumerService.Worker.RunStage | backend/services/ec2-async-job-consumer-service.ts:311-503 | claim, run, re-read the proof and advance: lands at the next stage or in the failure handler |
| ConsumerService.Worker.RunGovernanceStage | backend/services/ec2-async-job-consumer-service.ts:505-521 | advances only on a complete security run |
| ConsumerService.Worker.ProjectReport | backend/services/ec2-async-report-projection-service.ts:34-62 | create-if-absent: the returned report is the stored one |
| ConsumerService.Worker.RunFinalizing | backend/services/ec2-async-job-consumer-service.ts:568-598 | on success the stored job is the returned SUCCEEDED job |
| ConsumerService.Worker.RunStages | backend/services/ec2-async-job-consumer-service.ts:549-607 | the loop ends in a finished job or an error, never at its limit |
| ConsumerService.Worker.ExecuteIntelligencePipeline | backend/services/ec2-async-job-consumer-service.ts:523-608 | on success the stored job is terminal and is the one returned |
| ConsumerService.Worker.RecordFailure | backend/services/ec2-async-job-consumer-service.ts:661-714 | an acknowledgement after a failure means that the job is terminal |
| ConsumerService.Worker.ProcessValidatedMessage | backend/services/ec2-async-job-consumer-service.ts:610-715 | under any interference of other agents, an acknowledgement means that the job is missing or terminal at that moment, unless the account lookup gave no verdict |
| ConsumerService.Worker.ProcessRecord | backend/ec2-analysis-consumer/process-sqs-batch.ts:29-53 | an unparsable body is acknowledged; every answer is recorded with the store it left; a lone consumer pays every retry out of the job's budget |
| ConsumerService.Worker.ProcessBatch | backend/ec2-analysis-consumer/process-sqs-batch.ts:12-27 | reports, in order, exactly the records whose processing asked for a retry; every other one did not parse, had no account verdict, or left the job missing or terminal; alone, at most as many as the budget, so at most eight however long the batch |
| ConsumerService.Worker.StartIntelligenceJob | backend/services/ec2-async-job-producer-service.ts:84-205 | an active job that blocks the scope is returned and nothing is written; otherwise the job is created once and sent |
| ConsumerService.Worker.CreateAndSend | backend/services/ec2-async-job-producer-service.ts:128-205 | the result is the stored ENQUEUED job; alone, the stored queue status, the reuse flag and the refusal of a key used for another request are determined by the earlier job and the send |
| StageLease.PlannerMatchesProof | backend/repositories/ec2-stage-run-execution-claim.ts:33-85 | the planner grants exactly when the proof asks for a claim, and each refusal names one proof state |
| StageLease.PlannerByFields | backend/repositories/ec2-stage-run-execution-claim.ts:33-85 | by the fields of the row: when a claim is granted, and when it is refused for a complete run, an active lease or a permanent failure |
| StageLease.ClaimHoldsSixMinutes | backend/repositories/ec2-stage-run-execution-claim.ts:33-105 | a claim planned and written on the same row leaves it running under the next attempt and its owner with no trace of an earlier outcome; every other claim is refused for its lease for six minutes and granted from then on |
| StageLease.PlanIsForItsRow | backend/repositories/ec2-stage-run-execution-claim.ts:87-92 | a planned claim is refused on every row but the one it was made for |
| StageLease.BlocksByFields | backend/services/ec2-async-job-scope-blocker.ts:41-113 | by the fields of job and row, for every status and stage: exactly when a job blocks its scope |
| StageLease.ClaimStaysGranted | backend/repositories/ec2-stage-run-execution-claim.ts:33-85 | a claim judged necessary at one time is granted at every later time on the unchanged row |
| StageLease.BlockIsActiveLease | backend/services/ec2-async-job-scope-blocker.ts:41-68 | for a running job, not failed to enqueue, on a lease-backed stage whose row exists and is understood, blocked scope, active proof and active-lease error coincide |
| StageLease.BlockOnlyFades | backend/services/ec2-async-job-scope-blocker.ts:41-113 | from the last update on the block never comes back and ends by the later of lease expiry and 360 s after the update |
| StageLease.BlockAppearsIff | backend/services/ec2-async-job-scope-blocker.ts:41-113 | for a running or partial job on a lease-backed stage, a block that was not there appears exactly when the clock passes the last update, within the lease window, on a row that is missing or not understood |
| StageLease.BlockFadesIff | backend/services/ec2-async-job-scope-blocker.ts:41-113 | from a time on the block only fades exactly when the last update is not later, the row decides, or the job failed to enqueue |
| StageLease.BlockCanAppearBeforeLastUpdate | backend/services/ec2-async-job-scope-blocker.ts:102-113 | an instance of a block that appears |
| StageLease.ReclaimFences | backend/repositories/ec2-stage-run-execution-claim.ts:87-105 | a reclaim never overrides an active lease, raises attempt and version by one and leaves an active lease |
| JobModels.NextStage | backend/services/ec2-async-job-stage-order.ts:24-30 | undefined only at COMPLETE, else one rank higher |
| JobModels.RegionsEqualAsMultisets | backend/services/ec2-async-job-stage-order.ts:32-39 | equal exactly when both lists hold the same regions equally often |
| EvidenceHistory.SelectIsLatest | backend/persistence-intelligence/observation-ordering.ts:45-59 | the sorted selection is the greatest relevant observation, or none exists |
| EvidenceHistory.FoldIsLatest | backend/repositories/evidence-observation-prior-query.ts:23-44 | the one-pass fold is the greatest relevant observation, or none exists |
| EvidenceHistory.FoldEqualsSortedSelection | backend/repositories/evidence-observation-prior-query.ts:23-44 | both pick the same observation on every list of one tenant with distinct logical ids |
| EvidenceHistory.SelectionsAgreeIff | backend/repositories/evidence-observation-prior-query.ts:23-44 | on the rows of one tenant the fold and the sorted selection agree for every arrangement exactly when no two different relevant rows tie for the greatest |
| EvidenceHistory.RecordedSelectionsAgree | backend/repositories/evidence-observation-prior-query.ts:23-44 | no recorded history has such a tie, in whatever order it was recorded, so there they agree |
| EvidenceHistory.SelectionsDifferOnRepeatedIds | backend/repositories/evidence-observation-prior-query.ts:31-43 | an instance of a tie, where they differ |
| EvidenceHistory.AssessmentNeverFails | backend/persistence-intelligence/persistence-state-machine.ts:29-106 | the negative-duration error cannot occur |
| EvidenceHistory.RecordedIsChained | backend/repositories/mock/mock-evidence-observation-repository.ts:115-188 | in a history of one finding recorded in rising time order, with any replays, every observation is compared with its immediate predecessor |
| EvidenceHistory.FindRelevantPreviousObservation | backend/repositories/dynamodb/dynamodb-evidence-observation-repository.ts:150-203 | the paged query, newest row first, stops at the row that the fold picks from all rows, whatever the pages |
| EvidenceHistory.ChosenRowSuffices | backend/repositories/mock/mock-evidence-observation-repository.ts:133-146 | assessing a new request against the one chosen row gives what assessing it against all rows of its finding gives, when no two of them tie for the latest |
| EvidenceHistory.FoundIsOwn | backend/repositories/mock/mock-evidence-observation-repository.ts:120-131 | with a digest that keeps keys apart, the stored row that answers a replay is of the request's own finding, run and time |
| EvidenceHistory.ReplayIsIdempotent | backend/repositories/mock/mock-evidence-observation-repository.ts:128-131 | for requests of any findings in any order: replaying any recorded observation finds it, returns its first assessment and changes nothing |
| StableEpoch.ComputeCurrentStableEpoch | backend/evidence-maturity/stable-epoch.ts:10-59 | the backward scan computes the specified epoch |
| StableEpoch.SuffixStartMaximal | backend/evidence-maturity/stable-epoch.ts:33-40 | the scanned suffix is the longest with the fingerprint |
| StableEpoch.RecordedEpoch | backend/evidence-maturity/stable-epoch.ts:26-50 | for every history recorded in rising time order, with any replays: the epoch is the maximal same-fingerprint run ending at the source, has two members or more exactly when the source was assessed STABLE, and its hours are the sum of the persistence hours after the first |
| LateArrival.EpochGrewIffContinues | backend/evidence-maturity/stable-epoch.ts:26-44 | for any history with distinct ids: the epoch of an observation has two members or more exactly when the one just before it in the whole history has its fingerprint |
| LateArrival.RecordedRemembers | backend/repositories/mock/mock-evidence-observation-repository.ts:115-188 | for requests of any findings in any order: an observation is STABLE exactly when the latest earlier one of its finding had its fingerprint at its arrival, and its persistence hours are counted from that one, or are none |
| LateArrival.AgreesIff | backend/evidence-maturity/stable-epoch.ts:26-44 | so, for requests of any findings in any order, epoch and state agree exactly when the observation continues now as it did on arrival |
| LateArrival.HoursAgreeIff | backend/evidence-maturity/stable-epoch.ts:26-50 | for any history with distinct ids: the hours of all epochs are the sums of the persistence hours of their members after the first exactly when every observation that has the fingerprint of the one just before it counts its hours from that one |
| LateArrival.RecordedHoursIff | backend/evidence-maturity/stable-epoch.ts:26-50 | so, for requests of any findings in any order, the hours of all epochs add up exactly when every observation that continues the one now just before it was counted from the time of that one on arrival |
| LateArrival.LateRequestAgreesIff | backend/evidence-maturity/stable-epoch.ts:26-44 | one more request into a history of its finding recorded in order, wherever it falls in time and also at the time of a recorded one, leaves all epochs in agreement exactly when it matches the later neighbour exactly if the earlier neighbour does, and, if it ties with the earlier neighbour, matches that one exactly if it matches the one before that |
| LateArrival.LateRequestHoursIff | backend/evidence-maturity/stable-epoch.ts:46-50 | and it leaves the hours of all epochs equal to the sums of their persistence hours exactly when it differs in fingerprint from the later neighbour, unless it has the time from which that one was counted, and, if it ties with the earlier neighbour and that one is not the first, differs from it too |
| StableEpoch.LateArrivalSplitsEpoch | backend/evidence-maturity/stable-epoch.ts:26-40 | an instance: a STABLE observation alone in its epoch |
| StableEpoch.EpochOfAbsent | backend/evidence-maturity/stable-epoch.ts:26-44 | a source that is not stored counts as the last of its finding: its epoch is the run of its fingerprint that ends there, and itself |
| StableEpoch.EpochIsMaximalRun | backend/evidence-maturity/stable-epoch.ts:26-44 | the epoch of each observation is the maximal same-fingerprint run ending at it |
| StableEpoch.StableIffEpochGrew | backend/evidence-maturity/stable-epoch.ts:33-44 | it has at least two members exactly when the observation was assessed STABLE |
| StableEpoch.EpochHoursAreSummed | backend/evidence-maturity/stable-epoch.ts:46-50 | its hours are the sum of the persistence hours of its members after the first, and positive exactly when STABLE |
| EvidenceMaturity.Decide | backend/evidence-maturity/maturity-evaluator.ts:83-159 | the class with its reason codes: for each of the fourteen codes exactly when it is given, no code twice, no blocking code beside a class above IMMATURE |
| EvidenceMaturity.EvaluateEvidenceMaturity | backend/evidence-maturity/maturity-evaluator.ts:70-187 | the class of the source's epoch, with the reason codes given exactly where they apply; the score as the sum of its four parts, each determined by the input; within the cap of the telemetry, and 100 for MATURE; count and hours of the epoch |
| EvidenceMaturity.ClassByFields | backend/evidence-maturity/maturity-evaluator.ts:33-159 | the class in terms of state, count, hours, thresholds and telemetry, for all thresholds |
| EvidenceMaturity.DefaultClass | backend/evidence-maturity/maturity-evaluator.ts:33-159 | under the default thresholds, with usable telemetry: MATURE from three observations and 24 hours on, above IMMATURE from two observations and more than no time on |
| EvidenceMaturity.ClassMonotone | backend/evidence-maturity/maturity-evaluator.ts:33-68 | more observations, more hours and no worse telemetry never lower the class |
| EvidenceMaturity.RecordingKeepsOrResets | backend/evidence-maturity/maturity-evaluator.ts:83-159 | recording one more observation never lowers the class if the fingerprint stays and the telemetry is no worse, and resets it to IMMATURE with an epoch of one if the fingerprint changes, for any history and any thresholds |
| EvidenceMaturity.ChainedChangeResets | backend/evidence-maturity/maturity-evaluator.ts:90-91 | a changed fingerprint gives IMMATURE, state CHANGED and an epoch of one |
| EvidenceMaturity.MatureMeansThreeOverADay | backend/evidence-maturity/maturity-evaluator.ts:33-55 | MATURE under the default thresholds means three or more equal-fingerprint observations over at least 24 hours |
| EvidenceMaturity.ScoreByParts | backend/evidence-maturity/maturity-score.ts:13-112 | for non-negative inputs and positive thresholds the score is 25 for STABLE and 0 for the other states, the shares of both thresholds rounded half up, and 25, 15, 5 or 0 for the telemetry |
| EvidenceMaturity.ScoreIsDetermined | backend/evidence-maturity/maturity-score.ts:13-112 | these parts leave one score only |
| EvidenceMaturity.ScoreMonotone | backend/evidence-maturity/maturity-score.ts:24-46 | more observations or hours never lower the score |
| EvidenceMaturity.ScoreNeedsNoClamp | backend/evidence-maturity/maturity-score.ts:93-112 | the factors sum to 0..100 for all thresholds, so the clamp is never needed |
| EvidenceMaturity.MatureScoresFull | backend/evidence-maturity/maturity-score.ts:24-112 | MATURE scores 100 |
| EvidenceMaturity.ScoreCapIff | backend/evidence-maturity/maturity-score.ts:24-112 | for all thresholds: the telemetry caps the score at 100, 90, 80 or 75, reached exactly by a STABLE observation with 98 hundredths of the count and hours for MATURE |
| EvidenceMaturity.FullScoreIff | backend/evidence-maturity/maturity-score.ts:24-112 | exactly when the score is 100 under the default thresholds: from 23.52 hours on |
| EvidenceMaturity.FullScoreNotMatureIff | backend/evidence-maturity/maturity-score.ts:36-46 | a score of 100 is MATURE exactly from 24 hours on, so 100 does not mean MATURE |
| GovernanceOrder.CompareIsStrictTotalOrder | backend/governance-convergence/observation-ordering.ts:64-81 | the three-key comparison is a strict total order |
| GovernanceOrder.CompareByFields | backend/governance-convergence/observation-ordering.ts:64-81 | it is the ascending lexicographic order of time, start of the run and id |
| GovernanceOrder.SelectsLatestBefore | backend/governance-convergence/observation-ordering.ts:38-118 | by the fields of the rows: the selected row is not the excluded one, lies before the current place in time, start of the run (the row's time where it has none) and id, and no other such row lies after it |
| GovernanceOrder.SelectsImmediatePredecessor | backend/governance-convergence/observation-ordering.ts:101-118 | the selected row is eligible and no eligible row lies between it and the current key |
| GovernanceOrder.SelectionIsOrderFree | backend/governance-convergence/observation-ordering.ts:101-118 | with distinct keys the selection depends only on which rows are stored |
| GovernanceOrder.EndsAtLatest | backend/governance-convergence/observation-ordering.ts:140-157 | the checkpoint ends at a candidate, or the incumbent, that none sorts after |
| GovernanceOrder.EndsAtGreatest | backend/governance-convergence/observation-ordering.ts:140-157 | by the fields: the checkpoint ends at the greatest time and there at the greatest id, and stays the incumbent unless a candidate is strictly later |
| GovernanceOrder.ConfluentIffUniqueLatest | backend/governance-convergence/observation-ordering.ts:140-157 | all orders and repetitions of the candidates end at one checkpoint exactly when a single candidate is latest |
| GovernanceOrder.DistinctKeysConverge | backend/governance-convergence/observation-ordering.ts:152-157 | distinct keys are enough |
| JsonText.LexByUnits | backend/scripts/migrate-memory-to-dynamodb.ts:644 | the order in which keys are sorted: at the first difference the smaller code unit comes first, and a beginning comes before what it begins |
| JsonText.EscapesAre | backend/scripts/migrate-memory-to-dynamodb.ts:634-648 | the escapes of string literals by their characters |
| JsonText.EscapedUnits | backend/scripts/migrate-memory-to-dynamodb.ts:634-648 | exactly which units are escaped, and in which of the two ways |
| JsonPrinter.PrintedTexts | backend/scripts/migrate-memory-to-dynamodb.ts:634-648 | the printed texts of the simple values, of a list and of an object |
| JsonText.ReadEscaped | backend/scripts/migrate-memory-to-dynamodb.ts:634-648 | reading a printed string literal gives the string back, for any UTF-16 text |
| JsonPrinter.PrintApart | backend/scripts/migrate-memory-to-dynamodb.ts:634-648 | printing is injective, and no printed value can be mistaken for the beginning of another |
| JsonPrinter.StableIsPrintOfArranged | backend/scripts/migrate-memory-to-dynamodb.ts:634-648 | the sorted-key printer prints the value with its keys arranged at every depth |
| JsonPrinter.PrintedArrangement | backend/scripts/migrate-memory-to-dynamodb.ts:634-648 | for any total key order, printed arrangements are equal exactly when the values are structurally equal |
| JsonPrinter.ItemsDeepEqualIsSame | backend/scripts/migrate-memory-to-dynamodb.ts:650-655 | the text comparison is exactly structural equality up to key order |
| CanonicalJson.CanonicalizeJsonValue | backend/persistence-intelligence/canonical-json.ts:6-19 | the recursive rebuild computes the specified canonical form |
| CanonicalJson.CanonicalizeObject | backend/persistence-intelligence/canonical-json.ts:13-18 | assigning the sorted keys one by one, with the enumeration order of objects, builds the arranged object |
| CanonicalJson.AssignReads | backend/persistence-intelligence/canonical-json.ts:15-17 | an assigned property has its value and every other property keeps its own, except under `__proto__`, where nothing happens |
| CanonicalJson.IndexIff | backend/persistence-intelligence/canonical-json.ts:13-18 | the keys that are enumerated first are exactly the decimal numerals of 0 to 4294967294 |
| CanonicalJson.IndicesInOrder | backend/persistence-intelligence/canonical-json.ts:13-18 | and these are enumerated in the order of their numbers |
| CanonicalJson.CanonicalIdempotent | backend/persistence-intelligence/canonical-json.ts:6-19 | canonicalising twice is canonicalising once |
| CanonicalJson.FingerprintTextIff | backend/persistence-intelligence/canonical-json.ts:21-23 | two values have the same text exactly when they agree in structure on every key but `__proto__` |
| CanonicalJson.KeyOrderDoesNotMatter | backend/persistence-intelligence/canonical-json.ts:21-23 | permuting keys at any depth leaves the text unchanged |
| CanonicalJson.CanonicalKeepsValueIff | backend/persistence-intelligence/canonical-json.ts:13-18 | the canonical form is the value again, up to key order, exactly when no object has a key `__proto__` |
| CanonicalJson.ProtoKeyIsLost | backend/persistence-intelligence/canonical-json.ts:15-17 | two different values with the same text |
| Migration.InsertKeeps | backend/scripts/migrate-memory-to-dynamodb.ts:665-720 | an insert-only write changes no item that is there and adds only its own or the other writer's, under faults, stale reads and races |
| Migration.RunKeepsExisting | backend/scripts/migrate-memory-to-dynamodb.ts:740-811 | so a whole run changes no item that was there before |
| Migration.CountsAddUp | backend/scripts/migrate-memory-to-dynamodb.ts:748-808 | inserted, skipped, conflicted and failed add up to the attempted items |
| Migration.SectionConserved | backend/scripts/migrate-memory-to-dynamodb.ts:942-943 | and to the exported items of each section |
| Migration.TrackedCount | backend/scripts/migrate-memory-to-dynamodb.ts:761-781 | as many keys are tracked as were inserted or skipped |
| Migration.TrackedIsThere | backend/scripts/migrate-memory-to-dynamodb.ts:813-836 | every tracked key is in the table at the end |
| Migration.VerificationReads | backend/scripts/migrate-memory-to-dynamodb.ts:950-957 | the count comparison never fails and no tracked key is missing |
| Migration.FirstItemWins | backend/scripts/migrate-memory-to-dynamodb.ts:673-699 | on a clear run an item is inserted exactly when its key was free and no earlier item had it, and then it is what the table holds |
| Migration.KeysAfter | backend/scripts/migrate-memory-to-dynamodb.ts:740-811 | the table ends with the keys it had and those of the export |
| Migration.SecondRunInsertsNothing | backend/scripts/migrate-memory-to-dynamodb.ts:665-720 | a second run inserts nothing, fails nothing, changes nothing and meets the same conflicts at the same items |
| Migration.LastItemWins | backend/scripts/migrate-memory-to-dynamodb.ts:722-738 | an upsert run ends with the last item of each key |
| Migration.Migrator.WriteInsertOnlyItem | backend/scripts/migrate-memory-to-dynamodb.ts:665-720 | read, conditional put and re-read give the write that InsertKeeps and FirstItemWins are about, under faults, stale reads and races |
| Migration.Migrator.WriteUpsertItem | backend/scripts/migrate-memory-to-dynamodb.ts:722-738 | the put gives the write that LastItemWins is about |
| Migration.Migrator.MigrateSectionItems | backend/scripts/migrate-memory-to-dynamodb.ts:740-811 | tables, counts and tracked keys of a section, or the stop at the first fatal conflict |
| Migration.Migrator.VerifyWrittenKeys | backend/scripts/migrate-memory-to-dynamodb.ts:813-836 | true exactly when every key reads back |
| Migration.Migrator.DryRun | backend/scripts/migrate-memory-to-dynamodb.ts:911-924 | counts every item as inserted and writes nothing |
| Migration.Migrator.MigrateSections | backend/scripts/migrate-memory-to-dynamodb.ts:926-948 | the sections in turn are one run over all their items; each section's counts are those of its own items, and those of a section without items are zero |
| Migration.Migrator.RunMigration | backend/scripts/migrate-memory-to-dynamodb.ts:849-970 | exactly when a run is rejected, by sections, items and configuration; rejected and dry runs write nothing; an insert-only run leaves every earlier item alone; without faults a finished insert-only run leaves each exported item under the table of its section, its own `pk` and `sk`, the earliest where several share them, and no other new key, and an aborted one stopped at an item whose key holds another; an upsert run leaves the latest; the counts of each of the five sections add up to its items |
| Migration.OutcomeTells | backend/scripts/migrate-memory-to-dynamodb.ts:665-720 | what an insert-only write reports, exactly, by its reads, its put and the other writer |
| Migration.RunIsMigrated | backend/scripts/migrate-memory-to-dynamodb.ts:665-679 | over all five sections: a key is in the table after a clear insert-only run exactly if it was before or an exported item has that table, `pk` and `sk`; earlier items stay; a free key holds the earliest item that has it |
| Migration.ConflictMeansTaken | backend/scripts/migrate-memory-to-dynamodb.ts:686-713 | an exported item conflicts exactly if another one is under its key, and then the key was taken before or an earlier exported item has the same table, `pk` and `sk` |
| Migration.RunOverwrites | backend/scripts/migrate-memory-to-dynamodb.ts:722-738 | an upsert run leaves the latest exported item under each key and all else as it was |
| ExecutionOrchestrator.Orchestrator.Run | backend/execution/execution-orchestrator.ts:32-248 | only a production run of a valid request writes; under any interference SUCCEEDED is reported or stored only after an execution and a verification that did their part, and the adapter is asked to roll back only an eligible run that went wrong, to the captured configuration, after FAILED is stored; undisturbed, by the adapter's answers: exactly which outcome is reported, which statuses are stored and which calls are made |
| ExecutionOrchestrator.Orchestrator.Produce | backend/execution/execution-orchestrator.ts:94-165 | nothing is executed before the snapshot is stored |
| ExecutionOrchestrator.Orchestrator.Perform | backend/execution/execution-orchestrator.ts:167-190 | an executed run is settled or rolled back under its own snapshot |
| ExecutionOrchestrator.Orchestrator.Settle | backend/execution/execution-orchestrator.ts:188-248 | stores the result before it verifies; a refused verification stores FAILED and goes to the rollback; SUCCEEDED is stored and reported only after a verification that did its part |
| ExecutionOrchestrator.Orchestrator.HandleFailureWithRollback | backend/execution/execution-orchestrator.ts:388-525 | FAILED is stored first; an eligible run is then rolled back to the captured configuration |
| ExecutionOrchestrator.Orchestrator.StoreRolledBack | backend/execution/execution-orchestrator.ts:442-470 | the expected version is one ahead, so an undisturbed write conflicts and succeeds on the re-read record |
| ExecutionOrchestrator.Orchestrator.StoreRollbackFailed | backend/execution/execution-orchestrator.ts:495-505 | ROLLBACK_FAILED is stored exactly when a single other write came in between; undisturbed, nothing is stored |
| ExecutionOrchestrator.Orchestrator.PersistFailure | backend/execution/execution-orchestrator.ts:527-555 | a failed snapshot is stored as FAILED |
| ExecutionOrchestrator.Orchestrator.RollbackRun | backend/execution/execution-orchestrator.ts:253-386 | refused exactly for a run that may not be rolled back; the adapter gets the stored snapshot, and a configuration that was never captured exactly when no snapshot was stored; undisturbed, the reported status is the stored one |
| ExecutionOrchestrator.StoryIsDeserved | backend/execution/execution-orchestrator.ts:96-480 | the effects of an undisturbed run, in order, are those that the adapter's answers call for |
| ExecutionOrchestrator.NeverCapturedIff | backend/execution/execution-orchestrator.ts:304-307 | in any consistent history the configuration given was never captured exactly when the record has none, and then it is the empty one |
| ExecutionOrchestrator.RolledBackWithoutSnapshotIff | backend/execution/execution-orchestrator.ts:106-165 | an undisturbed run may afterwards be rolled back without a snapshot exactly when it was eligible and its capture failed |
| ExecutionOrchestrator.RollBackWithoutSnapshot | backend/execution/execution-orchestrator.ts:253-307 | such a run and its rollback, ending with the empty configuration handed to the adapter |
| ExecutionOrchestrator.StoredUnlessRollbackFailed | backend/execution/execution-orchestrator.ts:498-505 | an undisturbed run has stored what it reports exactly when that is not ROLLBACK_FAILED, which leaves FAILED |
| ExecutionOrchestrator.RestoresWhatWasCaptured | backend/execution/execution-orchestrator.ts:429-433 | over any history of runs and rollbacks a run is rolled back to the configuration it was executed under |
| MembershipStore.TenantsCollideIff | backend/membership/membership.store.ts:59-61 | two tenants can share a key exactly when one name continues the other with `:` or `::` |
| MembershipStore.KeyInjectiveInUser | backend/membership/membership.store.ts:59-61 | within a tenant the key tells users apart |
| MembershipStore.PutInverseIff | backend/membership/membership.store.ts:75-76 | a new record keeps the two maps inverse exactly when its member id is fresh |
| MembershipStore.StoreStaysInverse | backend/membership/membership.store.ts:54-181 | over every run of store operations with generated ids the two maps stay inverse |
| MembershipStore.OneBootstrap | backend/membership/membership.store.ts:91-127 | at most one owner bootstrap per tenant ever succeeds, whatever is deleted in between |
| MembershipStore.InMemoryMembershipRepository.CreateMember | backend/membership/membership.store.ts:63-79 | creates at version 1, or refuses an existing key |
| MembershipStore.InMemoryMembershipRepository.TenantHasAnyMembershipRecords | backend/membership/membership.store.ts:81-89 | true exactly when some record belongs to the tenant |
| MembershipStore.InMemoryMembershipRepository.Bootstrap | backend/membership/membership.store.ts:91-127 | the first owner, or the three refusals |
| MembershipStore.InMemoryMembershipRepository.GetMemberById | backend/membership/membership.store.ts:134-141 | the record behind the index |
| MembershipStore.InMemoryMembershipRepository.UpdateMember | backend/membership/membership.store.ts:143-167 | applies only at the expected version, and then raises it by one |
| MembershipStore.DeleteByFields | backend/membership/membership.store.ts:169-181 | a deletion takes the record and its member id away, if the record is there at the version given, and keeps the bootstrap mark |
| MembershipStore.InMemoryMembershipRepository.DeleteMember | backend/membership/membership.store.ts:169-181 | removes the record from both maps, or refuses |
| MembershipStore.InMemoryInvitationRepository.CancelInvitation | backend/membership/membership.store.ts:247-271 | applies only at the expected version |
| MembershipStore.InMemoryInvitationRepository.AcceptInvitation | backend/membership/membership.store.ts:273-304 | one atomic check and write: pending and not expired at the given time |
| MembershipService.StatusTakesAllowedEdges | backend/membership/membership.service.ts:282-300 | over all interleavings every step leaves a member's status or moves it along an allowed edge, if no caller supplies a version newer than the record |
| MembershipService.RemovedIsFinal | backend/membership/membership.service.ts:193-280 | a removed member's record never changes again |
| MembershipService.PendingRevivesIff | backend/membership/membership.service.ts:236-243 | a pending change of status takes a member out of REMOVED exactly when the stored version is the supplied one |
| MembershipService.RevivesIffAhead | backend/membership/membership.service.ts:193-243 | with enough idle callers some continuation, honest but for this call, brings a removed member back through it exactly when the version it was given is ahead of the one it read |
| MembershipService.FutureVersionRevives | backend/membership/membership.service.ts:212 | an instance of that |
| MembershipService.InvitationIsSettledOnce | backend/membership/membership.service.ts:338-409 | an accepted or cancelled invitation never changes again |
| MembershipService.AcceptAndCancelExclude | backend/membership/membership.service.ts:338-409 | of all accepts and cancels of an invitation at most one succeeds |
| MembershipService.OnlyAcceptedActivates | backend/membership/membership.service.ts:375-474 | over all interleavings a call that is about to make a member out of an invitation holds one that is stored as accepted, by that user for a new member, with its tenant and role; so an acceptance that lost its race makes nobody a member |
| MembershipService.AcceptedBeforeExpiry | backend/membership/membership.service.ts:375-388 | the recorded time of every acceptance is before the expiry |
| MembershipService.AcceptanceInTimeIff | backend/membership/membership.service.ts:375-409 | over all interleavings a successful accept records the time of its check, before the expiry, and writes before the expiry exactly when less time passed in between than was left at the check |
| MembershipService.SuccessIgnoresClock | backend/membership/membership.store.ts:285-292 | whether the write succeeds does not depend on the clock, so any amount can pass |
| MembershipService.AcceptedAfterExpiry | backend/membership/membership.service.ts:383-391 | an instance of a write after the expiry |
| MembershipCalls.Service.AddMember | backend/membership/membership.service.ts:115-147 | the call is its run in the interleaving model |
| MembershipCalls.Service.BootstrapOwner | backend/membership/membership.service.ts:152-173 | the call is its run in the interleaving model |
| MembershipCalls.Service.UpdateMember | backend/membership/membership.service.ts:193-243 | read, status checks and versioned write, with other callers in between |
| MembershipCalls.Service.RemoveMember | backend/membership/membership.service.ts:251-280 | a removed member is returned as it is; any other is removed under the version read |
| MembershipCalls.Service.InviteMember | backend/membership/membership.service.ts:307-331 | a pending invitation for seven days |
| MembershipCalls.Service.CancelInvitation | backend/membership/membership.service.ts:338-364 | only a pending invitation, under the version read |
| MembershipCalls.Service.AcceptInvitation | backend/membership/membership.service.ts:375-409 | accept once, then activate, with other callers at every wait |
| MembershipCalls.Service.ActivateMembershipFromInvitation | backend/membership/membership.service.ts:432-474 | creates the member, reactivates any but a removed one, under the version read |
| MembershipOutcomes.AddMemberAlone | backend/membership/membership.service.ts:115-147 | undisturbed: a member is stored at version 1 exactly if the key is free |
| MembershipOutcomes.BootstrapOwnerAlone | backend/membership/membership.service.ts:152-173 | undisturbed: an active first owner exactly if the tenant has no record of any status, was never bootstrapped and the key is free |
| MembershipOutcomes.UpdateMemberAlone | backend/membership/membership.service.ts:193-243 | undisturbed: exactly when an update applies, by the statuses and the version supplied, and the record it leaves, field by field |
| MembershipOutcomes.RemoveMemberAlone | backend/membership/membership.service.ts:251-280 | undisturbed: a member is marked REMOVED under the version supplied; a removed one stays as it is and the call succeeds |
| MembershipOutcomes.InviteMemberAlone | backend/membership/membership.service.ts:307-331 | undisturbed: an open invitation for seven days under a new id, found by its token |
| MembershipOutcomes.CancelInvitationAlone | backend/membership/membership.service.ts:338-364 | undisturbed: an open invitation is cancelled, and nothing else changes |
| MembershipOutcomes.UnusableToken | backend/membership/membership.service.ts:375-388 | a token without an open invitation that has not expired does nothing |
| MembershipOutcomes.AcceptInvitationAlone | backend/membership/membership.service.ts:375-474 | undisturbed: a usable invitation is consumed in any case; the user becomes an active member with its role, except a removed user, for whom the call then fails |
| MembershipCalls.DriveIsRun | backend/membership/membership.service.ts:193-474 | a call among other callers is a run of the interleaving model, so its theorems apply |
| EngineOwnership.OwnerNeverChanges | backend/persistence/engine-ownership.ts:40-86 | in every interleaving a stored item, and so its owner, never changes |
| EngineOwnership.ReturnMeansOwned | backend/persistence/engine-ownership.ts:40-86 | a normal return means that the caller's tenant is the stored owner ever after; a conflict means that another is |
| EngineOwnership.OneOwner | backend/persistence/engine-ownership.ts:40-86 | callers of two tenants never both return |
| EngineOwnership.ReadDecides | backend/persistence/engine-ownership.ts:10-86 | what a caller concludes from a read: its own if the item names it as owner or, without an owner, as tenant; a conflict if it names another; otherwise it writes, or fails when it has written before |
| EngineOwnership.OthersOnlyFill | backend/persistence/engine-ownership.ts:40-86 | all that any steps of any callers do to the item is to fill it if it is absent: what a call's waits allow the others |
| EngineOwnership.OthersCanFill | backend/persistence/engine-ownership.ts:62-73 | and another caller can fill an absent one with its own tenant, so a call meets such an item after its first read |
| EngineOwnership.OwnershipTable.EnsureEngineOwnership | backend/persistence/engine-ownership.ts:40-86 | under interference and faults the outcome tells the stored owner; without faults, whatever the others do, it is exactly a return, a conflict or an error for an item of the caller, of another or of nobody |

## Left out

- DynamoDB, SQS, STS, HTTP routes and other input and output: they are parameters of the model, or inputs of a step.
- Repositories of jobs and stage runs: an update applies only at the expected version and raises it by one; creation only if nothing is stored.
- Discovery, cost and security analysis inside a stage: a step that completes the run row under its fence as SUCCEEDED, PARTIAL or FAILED, or throws.
- Eventually consistent reads in the job protocol: an agent can act on old copies, but a read sees the stored record; the proofs are read consistently in the source.
- Several jobs at once: the model has one job; the active job that a start finds, and whether a key was used for another request, are inputs of the start.
- ConsumerService.Worker.StartIntelligenceJob: the account check, the regions and the request fingerprint that come before the search are not modelled.
- Scope comparison and account check of a message: their verdict is an input.
- The content of the report and the paging of recommendations: the model keeps only from which version of the job the stored report was built.
- Events, audit records, log lines, error summaries and timestamps that no decision reads.
- Timestamps are integers in milliseconds: texts that do not parse, and the choice among updatedAt, startedAt and createdAt, are not modelled.
- Hours and ratios are real numbers: the rounding of floating point is not modelled.
- Hashing: the key of a logical id is hashed by a function parameter; two keys may have one hash, and then the second is a replay, also across findings and accounts, which the two stores tell apart.
- The lookup by id and the query of a finding read all rows stored before; two recordings of one finding at once are not modelled.
- `localeCompare`: identifiers have the order of the integers that stand for them, without ties between different ones.
- EvidenceMaturity.EvaluateEvidenceMaturity: the input checks, the fields copied from the input and the details of the score factors are left out; a score for thresholds that are not positive is not modelled.
- Numbers in JSON are their canonical texts; `undefined`, functions and `toJSON` are not JSON values here.
- The account, target and checksum confirmations of a migration: one verdict `confirmed`; of the checks of exported items only those of `pk` and `sk` are modelled.
- Migration.Migrator.RunMigration: does not model deletions by others during a run.
- Other writers in the orchestrator change the status and version of a record only; audit events cannot fail.
- Roles, e-mail checks, paging and the display status of invitations.
- Invitations are keyed by their generated id alone; the store's tenant prefix is not modelled.
- The membership rows in DynamoDB: the in-memory store stands for them, with the same versioned updates.
- Expiry by time to live in any table.
- Action policy, decision readiness, contradiction detector, release qualification and the convergence table: finite case tables.
- The workflow orchestrator and its store, AWS account queries, tenant keys and tokens.
