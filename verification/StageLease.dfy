/** Three readings of one stage-run row: the claim planner, the proof classifier and the
    same-scope blocker. They are separate pieces of code in the source; here they are shown
    to agree with each other, also while time passes. */
module StageLease {
  import opened JobModels

  const LEASE_SECONDS: int := 360
  const LEASE_MS: int := LEASE_SECONDS * 1000

  predicate LeaseActive(lease: Option<int>, now: int) {
    lease.Some? && lease.value > now
  }

  function LeaseExpiry(now: int): int { now + LEASE_MS }

  // ----- the claim planner

  datatype ClaimPlan =
    | Create(attempt: nat, owner: Owner, leaseUntil: int)
    | Reclaim(expectedVersion: nat, attempt: nat, owner: Owner, leaseUntil: int)

  datatype ClaimError = AlreadyComplete | ActiveLease | PermanentFailure | NotClaimable

  datatype PlanResult = Planned(plan: ClaimPlan) | Refused(error: ClaimError)

  function NextAttempt(run: RunRow): nat {
    (if run.attemptCount.Some? then run.attemptCount.value else 1) + 1
  }

  function PlanReclaim(lane: Lane, run: RunRow, now: int): ClaimPlan {
    var attempt := NextAttempt(run);
    Reclaim(run.version, attempt, Owner(lane, attempt), LeaseExpiry(now))
  }

  function PlanClaim(lane: Lane, run: Option<RunRow>, now: int): PlanResult {
    if run.None? then
      Planned(Create(1, Owner(lane, 1), LeaseExpiry(now)))
    else if run.value.status in {RunSucceeded, RunPartial} && run.value.completed then
      Refused(AlreadyComplete)
    else if run.value.status == RunRunning then
      if LeaseActive(run.value.lease, now) then Refused(ActiveLease)
      else Planned(PlanReclaim(lane, run.value, now))
    else if run.value.status == RunFailed && run.value.completed then
      if run.value.failureRetryable == Some(false) then Refused(PermanentFailure)
      else Planned(PlanReclaim(lane, run.value, now))
    else
      Refused(NotClaimable)
  }

  /** The row written by a first claim. */
  function CreatedRow(plan: ClaimPlan): RunRow
    requires plan.Create?
  {
    RunRow(RunRunning, false, Some(plan.leaseUntil), Some(plan.attempt), None, Some(plan.owner), 1)
  }

  /** The conditional reclaim write: refused unless the stored version is the planned one. */
  function ApplyReclaim(existing: RunRow, plan: ClaimPlan): Option<RunRow>
    requires plan.Reclaim?
  {
    if existing.version != plan.expectedVersion then None
    else Some(RunRow(RunRunning, false, Some(plan.leaseUntil), Some(plan.attempt), None,
                     Some(plan.owner), existing.version + 1))
  }

  /** The row that a planned write leaves, if it is not refused. */
  function ClaimedRowOf(prior: Option<RunRow>, plan: ClaimPlan): Option<RunRow> {
    if plan.Create? then (if prior.None? then Some(CreatedRow(plan)) else None)
    else (if prior.None? then None else ApplyReclaim(prior.value, plan))
  }

  // ----- the proof classifier

  datatype ProofState =
    | Missing
    | ProofComplete
    | InProgressActive
    | InProgressStale
    | FailedRetryable
    | FailedPermanent
    | Ambiguous

  function Classify(run: Option<RunRow>, now: int): ProofState {
    if run.None? then Missing
    else if run.value.status == RunRunning then
      if LeaseActive(run.value.lease, now) then InProgressActive else InProgressStale
    else if run.value.status in {RunSucceeded, RunPartial} && run.value.completed then ProofComplete
    else if run.value.status == RunFailed && run.value.completed then
      if run.value.failureRetryable == Some(false) then FailedPermanent else FailedRetryable
    else Ambiguous
  }

  predicate RequiresClaim(proof: ProofState) {
    proof in {Missing, InProgressStale, FailedRetryable}
  }

  // ----- the same-scope blocker

  predicate JobActive(job: Job) {
    && job.queueStatus != EnqueueFailed
    && (job.status in {Queued, Running} || (job.status == Partial && job.stage != Complete))
  }

  predicate WithinLeaseWindow(job: Job, now: int) {
    0 <= now - job.updatedAt < LEASE_MS
  }

  predicate ClassifyScopeBlock(job: Job, proof: ProofState, now: int) {
    match proof
    case InProgressActive => true
    case InProgressStale => false
    case FailedRetryable => false
    case FailedPermanent => false
    case ProofComplete => false
    case Missing => if LaneOf(job.stage).None? then true else WithinLeaseWindow(job, now)
    case Ambiguous => if LaneOf(job.stage).None? then true else WithinLeaseWindow(job, now)
  }

  /** `run` is the row of the job's own stage; a stage without a row is read as ambiguous. */
  predicate BlocksSameScope(job: Job, run: Option<RunRow>, now: int) {
    if !JobActive(job) then false
    else if job.status == Queued then true
    else ClassifyScopeBlock(job, if LaneOf(job.stage).Some? then Classify(run, now) else Ambiguous, now)
  }

  // ----- agreement

  /** The consumer's decision to claim and the planner's decision to grant coincide on every row,
      and each refusal of the planner names exactly one proof state. */
  lemma PlannerMatchesProof(lane: Lane, run: Option<RunRow>, now: int)
    ensures PlanClaim(lane, run, now).Planned? <==> RequiresClaim(Classify(run, now))
    ensures PlanClaim(lane, run, now) == Refused(ActiveLease) <==> Classify(run, now) == InProgressActive
    ensures PlanClaim(lane, run, now) == Refused(AlreadyComplete) <==> Classify(run, now) == ProofComplete
    ensures PlanClaim(lane, run, now) == Refused(PermanentFailure) <==> Classify(run, now) == FailedPermanent
    ensures PlanClaim(lane, run, now) == Refused(NotClaimable) <==> Classify(run, now) == Ambiguous
  {
  }

  /** By the fields of the row: a claim is granted on no row, on a running one whose lease is absent or over, and
      on a failed one that is completed and not marked as failed for good; and each refusal by its reason. */
  lemma PlannerByFields(lane: Lane, run: Option<RunRow>, now: int)
    ensures PlanClaim(lane, run, now).Planned? <==>
              match run
              case None => true
              case Some(row) =>
                || (row.status == RunRunning && (row.lease.Some? ==> row.lease.value <= now))
                || (row.status == RunFailed && row.completed && row.failureRetryable != Some(false))
    ensures PlanClaim(lane, run, now) == Refused(ActiveLease) <==>
              run.Some? && run.value.status == RunRunning && run.value.lease.Some? && run.value.lease.value > now
    ensures PlanClaim(lane, run, now) == Refused(AlreadyComplete) <==>
              run.Some? && run.value.completed && (run.value.status == RunSucceeded || run.value.status == RunPartial)
    ensures PlanClaim(lane, run, now) == Refused(PermanentFailure) <==>
              run.Some? && run.value.completed && run.value.status == RunFailed && run.value.failureRetryable == Some(false)
  {
  }

  /** A claim planned at t and written on the same row is applied. The row is then running under the next
      attempt and its owner, with no trace of an earlier outcome; for six minutes every other claim is refused
      for its lease, and from then on the row can be claimed again. */
  lemma ClaimHoldsSixMinutes(lane: Lane, run: Option<RunRow>, t: int, now: int)
    requires PlanClaim(lane, run, t).Planned?
    ensures var written := ClaimedRowOf(run, PlanClaim(lane, run, t).plan);
            var attempt := match run case None => 1
                                     case Some(row) => (match row.attemptCount case None => 2 case Some(n) => n + 1);
            && written.Some?
            && written.value == RunRow(RunRunning, false, Some(t + 360000), Some(attempt), None, Some(Owner(lane, attempt)),
                                       if run.None? then 1 else run.value.version + 1)
            && (PlanClaim(lane, written, now) == Refused(ActiveLease) <==> now < t + 360000)
            && (PlanClaim(lane, written, now).Planned? <==> now >= t + 360000)
  {
  }

  /** A plan is refused on any row but the one it was made for: a first claim once there is a row, a later one
      once the version has moved. */
  lemma PlanIsForItsRow(lane: Lane, run: Option<RunRow>, t: int, other: Option<RunRow>)
    requires PlanClaim(lane, run, t).Planned?
    ensures ClaimedRowOf(other, PlanClaim(lane, run, t).plan).Some? <==>
              if run.None? then other.None? else other.Some? && other.value.version == run.value.version
  {
  }

  /** A claim judged necessary at t1 is granted at every later time if the row did not change:
      between the proof read and the plan the decision cannot flip. */
  lemma ClaimStaysGranted(lane: Lane, run: Option<RunRow>, t1: int, t2: int)
    requires t1 <= t2
    requires RequiresClaim(Classify(run, t1))
    ensures PlanClaim(lane, run, t2).Planned?
    ensures RequiresClaim(Classify(run, t2))
  {
    PlannerMatchesProof(lane, run, t2);
  }

  /** By the fields: a job blocks its scope while its message is not known to be lost and it is queued, or running
      or partial before its last stage and either without a row of its own stage, or under a lease that runs, or
      updated in the last six minutes with a row that is missing or says nothing. */
  lemma BlocksByFields(job: Job, run: Option<RunRow>, now: int)
    ensures BlocksSameScope(job, run, now) <==>
              && job.queueStatus != EnqueueFailed
              && (|| job.status == Queued
                  || ((job.status == Running || (job.status == Partial && job.stage != Complete))
                      && (|| (job.stage != Discovery && job.stage != CostAnalysis && job.stage != SecurityAnalysis)
                          || (run.Some? && run.value.status == RunRunning
                              && run.value.lease.Some? && run.value.lease.value > now)
                          || ((run.None? || run.value.status == RunUnknown
                               || (run.value.status != RunRunning && !run.value.completed))
                              && job.updatedAt <= now < job.updatedAt + 360000))))
  {
  }

  /** For a running job on a lease-backed stage whose row exists in a recognised state, the scope is
      blocked exactly while the proof is active, which is exactly while the planner reports an
      active lease. */
  lemma BlockIsActiveLease(job: Job, lane: Lane, row: RunRow, now: int)
    requires job.status == Running && job.queueStatus != EnqueueFailed
    requires LaneOf(job.stage) == Some(lane)
    requires Classify(Some(row), now) != Ambiguous
    ensures BlocksSameScope(job, Some(row), now) <==> Classify(Some(row), now) == InProgressActive
    ensures BlocksSameScope(job, Some(row), now) <==>
            PlanClaim(lane, Some(row), now) == Refused(ActiveLease)
  {
    PlannerMatchesProof(lane, Some(row), now);
  }

  function BlockEnd(job: Job, run: Option<RunRow>): int {
    var window := job.updatedAt + LEASE_MS;
    if run.Some? && run.value.lease.Some? && run.value.lease.value > window
    then run.value.lease.value else window
  }

  /** On an unchanged row the block of a running, lease-backed job never comes back once it is gone,
      counted from the job's last update, and it is gone at BlockEnd. */
  lemma BlockOnlyFades(job: Job, run: Option<RunRow>, t1: int, t2: int)
    requires job.status in {Running, Partial} && LaneOf(job.stage).Some?
    requires job.updatedAt <= t1 <= t2
    ensures BlocksSameScope(job, run, t2) ==> BlocksSameScope(job, run, t1)
    ensures t2 >= BlockEnd(job, run) ==> !BlocksSameScope(job, run, t2)
  {
  }

  /** When the job's age decides: the row is missing or not understood. */
  predicate AgeDecides(run: Option<RunRow>, now: int) { Classify(run, now) in {Missing, Ambiguous} }

  /** Exactly when a block appears that was not there: the clock passes the job's last update, within the
      lease window, on a row that is missing or not understood. */
  lemma BlockAppearsIff(job: Job, run: Option<RunRow>, t1: int, t2: int)
    requires job.status in {Running, Partial} && LaneOf(job.stage).Some? && t1 <= t2
    ensures BlocksSameScope(job, run, t2) && !BlocksSameScope(job, run, t1) <==>
              && job.queueStatus != EnqueueFailed && AgeDecides(run, t1)
              && t1 < job.updatedAt <= t2 < job.updatedAt + LEASE_MS
  {
  }

  /** So from t1 on the block only fades exactly when the job was last updated by then, or its age does
      not decide. */
  lemma BlockFadesIff(job: Job, run: Option<RunRow>, t1: int)
    requires job.status in {Running, Partial} && LaneOf(job.stage).Some?
    ensures (forall t2 :: t1 <= t2 && BlocksSameScope(job, run, t2) ==> BlocksSameScope(job, run, t1)) <==>
              job.updatedAt <= t1 || !AgeDecides(run, t1) || job.queueStatus == EnqueueFailed
  {
    forall t2 | t1 <= t2
      ensures BlocksSameScope(job, run, t2) && !BlocksSameScope(job, run, t1) <==>
              && job.queueStatus != EnqueueFailed && AgeDecides(run, t1)
              && t1 < job.updatedAt <= t2 < job.updatedAt + LEASE_MS
    {
      BlockAppearsIff(job, run, t1, t2);
    }
    if t1 < job.updatedAt { BlockAppearsIff(job, run, t1, job.updatedAt); }
  }

  /** The block that appears when a clock behind the writer's catches up. */
  lemma BlockCanAppearBeforeLastUpdate()
    ensures var job := Job(Running, Enqueued, Discovery, 0, 2, 1000);
            !BlocksSameScope(job, None, 999) && BlocksSameScope(job, None, 1000)
  {
  }

  /** A reclaim never runs while the previous lease is active, raises the attempt count by one and
      the version by one, and renames the owner. */
  lemma ReclaimFences(lane: Lane, row: RunRow, now: int)
    requires PlanClaim(lane, Some(row), now).Planned?
    ensures var plan := PlanClaim(lane, Some(row), now).plan;
            && plan.Reclaim?
            && ApplyReclaim(row, plan).Some?
            && var next := ApplyReclaim(row, plan).value;
               && next.version == row.version + 1
               && next.attemptCount == Some(NextAttempt(row))
               && (row.attemptCount == Some(NextAttempt(row) - 1) || row.attemptCount.None?)
               && Classify(Some(next), now) == InProgressActive
               && (row.status == RunRunning ==> !LeaseActive(row.lease, now))
               && (row.status != RunRunning ==> Classify(Some(row), now) == FailedRetryable)
  {
  }
}
