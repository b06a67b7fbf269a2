/** Safety of the consumer protocol over every interleaving: what every reachable state satisfies
    and what every step may do to the job and to the stage-run rows. */
module ProtocolSafety {
  import opened JobModels
  import opened StageLease
  import opened ConsumerProtocol

  // ----- the invariant

  /** A stage-run row that recorded success, full or partial. */
  predicate RunDone(store: Store, lane: Lane) {
    && lane in store.runs
    && store.runs[lane].status in {RunSucceeded, RunPartial}
    && store.runs[lane].completed
  }

  predicate JobShape(job: Job) {
    && job.version >= 1
    && job.status != Partial
    && (job.status == Queued ==> job.stage == Enqueue)
    && (job.status == Running ==> 1 <= Rank(job.stage) <= 5)
    && (job.status == Succeeded ==> job.stage == Complete)
    && (job.stage == Complete ==> job.status in {Succeeded, Failed})
  }

  /** Every stage the job has left has its durable output. */
  predicate Backed(job: Job, store: Store) {
    && (Rank(job.stage) >= Rank(CostAnalysis) ==> RunDone(store, DiscoveryLane))
    && (Rank(job.stage) >= Rank(SecurityAnalysis) ==> RunDone(store, CostLane))
    && (Rank(job.stage) >= Rank(GovernanceAnalysis) ==> RunDone(store, SecurityLane))
    && (Rank(job.stage) >= Rank(Complete) ==> store.report.Some?)
  }

  /** A copy of the job read at some earlier time: older than the stored one, or equal to it. */
  predicate Copy(job: Job, store: Store) {
    && store.job.Some?
    && JobShape(job)
    && Backed(job, store)
    && job.version <= store.job.value.version
    && Rank(job.stage) <= Rank(store.job.value.stage)
    && (job.version == store.job.value.version ==> job == store.job.value)
  }

  /** Attempts count up from one, each under its own owner; fences rise; and between two grants the
      earlier lease ran out or a retryable failure was recorded. */
  ghost predicate ClaimsOrdered(lane: Lane, claims: seq<ClaimRecord>) {
    && (forall i :: 0 <= i < |claims| ==>
         && claims[i].attempt == i + 1
         && claims[i].owner == Owner(lane, i + 1)
         && claims[i].leaseUntil == LeaseExpiry(claims[i].plannedAt))
    && (forall i, j :: 0 <= i < j < |claims| ==> claims[i].fence < claims[j].fence)
    && (forall i :: 0 < i < |claims| ==>
         claims[i].afterFailure || claims[i].plannedAt >= claims[i - 1].leaseUntil)
  }

  function LastFence(claims: seq<ClaimRecord>): nat {
    if claims == [] then 0 else claims[|claims| - 1].fence
  }

  ghost predicate RowOk(lane: Lane, run: Option<RunRow>, claims: seq<ClaimRecord>) {
    && ClaimsOrdered(lane, claims)
    && (run.None? <==> claims == [])
    && (run.Some? ==>
         var row := run.value;
         && row.attemptCount == Some(|claims|)
         && (if row.status == RunRunning
             then row.version == LastFence(claims) && row.lease == Some(claims[|claims| - 1].leaseUntil)
             else row.version == LastFence(claims) + 1 && row.completed && row.status != RunUnknown))
  }

  ghost predicate StoreOk(store: Store) {
    && (store.job.Some? ==> JobShape(store.job.value) && Backed(store.job.value, store))
    && (forall lane :: RowOk(lane, RunOf(store, lane), ClaimsOf(store, lane)))
  }

  /** A plan still describes the row it was made for, unless that row has moved on. */
  predicate PlanOk(store: Store, lane: Lane, plan: ClaimPlan) {
    var plannedAt := plan.leaseUntil - LEASE_MS;
    match plan
    case Create(_, _, _) => PlanClaim(lane, None, plannedAt) == Planned(plan)
    case Reclaim(expected, _, _, _) =>
      && lane in store.runs
      && expected <= store.runs[lane].version
      && (expected == store.runs[lane].version ==>
           PlanClaim(lane, Some(store.runs[lane]), plannedAt) == Planned(plan))
  }

  predicate FenceOk(store: Store, lane: Lane, fence: nat) {
    lane in store.runs && 1 <= fence <= LastFence(ClaimsOf(store, lane))
  }

  /** What holds inside the stage loop. The step counter never outruns the stage, so the eight
      steps are never used up. */
  predicate PipelineOk(store: Store, base: Job, job: Job, step: nat) {
    && Copy(base, store) && Copy(job, store)
    && base.status == Running && job.status == Running
    && step + 1 <= Rank(job.stage)
  }

  ghost predicate PointOk(store: Store, job: Job, point: Point) {
    match point
    case Look => true
    case PlanClaimFor(lane) => LaneOf(job.stage) == Some(lane)
    case WriteClaimOf(lane, plan) => LaneOf(job.stage) == Some(lane) && PlanOk(store, lane, plan)
    case Start(lane, fence) => LaneOf(job.stage) == Some(lane) && FenceOk(store, lane, fence)
    case RunWork(lane, fence) => LaneOf(job.stage) == Some(lane) && FenceOk(store, lane, fence)
    case Recheck(lane) => LaneOf(job.stage) == Some(lane)
    case Advance => GuardLane(job.stage).Some? && RunDone(store, GuardLane(job.stage).value)
    case Succeed => job.stage == Finalizing && store.report.Some?
    case _ => job.stage == Finalizing
  }

  ghost predicate LocalOk(store: Store, l: Local) {
    match l
    case Idle => true
    case Done(_) => true
    case Holding(job, _) => Copy(job, store)
    case Producing(job, _) => Copy(job, store)
    case InStage(base, job, step, point) => PipelineOk(store, base, job, step) && PointOk(store, job, point)
    case Handling(base, error) =>
      Copy(base, store) && (error == TerminalError ==> base.status in {Queued, Running})
    case Exhausting(updated) => Copy(updated, store)
  }

  predicate HoldsFence(l: Local) { l.InStage? && (l.point.Start? || l.point.RunWork?) }

  predicate SameFence(l: Local, m: Local) {
    HoldsFence(l) && HoldsFence(m) && l.point.lane == m.point.lane && l.point.fence == m.point.fence
  }

  ghost predicate Inv(s: System) {
    && StoreOk(s.store)
    && (forall i :: 0 <= i < |s.agents| ==> LocalOk(s.store, s.agents[i]))
    && (forall i, j :: 0 <= i < j < |s.agents| ==> !SameFence(s.agents[i], s.agents[j]))
  }

  // ----- what a completion says

  /** The row says how the work ended: done for success, full or partial, and otherwise failed, for good only
      if the service said that trying again is of no use. */
  predicate Ended(store: Store, lane: Lane, result: WorkStatus) {
    && (Proof(store, lane) == ProofComplete <==> result in {WorkSucceeded, WorkPartial})
    && (Proof(store, lane) == FailedPermanent <==> result == WorkFailed(Some(false)))
    && (Proof(store, lane) == FailedRetryable <==> result in {WorkFailed(None), WorkFailed(Some(true))})
  }

  /** A completion applies exactly under the current fence. Then the row says how the work ended, it may be
      claimed again exactly after a failure that may be tried again, and nothing else has changed. */
  lemma CompletionTold(store: Store, lane: Lane, fence: nat, result: WorkStatus)
    ensures var completed := CompleteRun(store, lane, fence, result);
            && (completed.Some? <==> lane in store.runs && store.runs[lane].version == fence)
            && (completed.Some? ==>
                  var after := completed.value;
                  && Ended(after, lane, result)
                  && (forall now :: PlanClaim(lane, RunOf(after, lane), now).Planned? <==>
                        result in {WorkFailed(None), WorkFailed(Some(true))})
                  && after.runs[lane].completed
                  && (after.runs[lane].status == RunSucceeded <==> result == WorkSucceeded)
                  && (after.runs[lane].status == RunPartial <==> result == WorkPartial)
                  && (after.runs[lane].status == RunFailed <==> result.WorkFailed?)
                  && after.runs[lane].lease.None? && after.runs[lane].owner.None?
                  && after.runs[lane].attemptCount == store.runs[lane].attemptCount
                  && after.runs[lane].version == fence + 1
                  && (forall other :: other != lane ==> RunOf(after, other) == RunOf(store, other))
                  && (after.job, after.report, after.claims, after.now) == (store.job, store.report, store.claims, store.now))
  {
  }

  // ----- what no step undoes

  ghost predicate RowGrows(before: Store, after: Store, lane: Lane) {
    && (lane in before.runs ==>
         && lane in after.runs
         && before.runs[lane].version <= after.runs[lane].version
         && (before.runs[lane].version == after.runs[lane].version ==> before.runs[lane] == after.runs[lane]))
    && LastFence(ClaimsOf(before, lane)) <= LastFence(ClaimsOf(after, lane))
    && (RunDone(before, lane) ==> RunDone(after, lane))
  }

  ghost predicate Grows(before: Store, after: Store) {
    && before.now <= after.now
    && (before.report.Some? ==> after.report == before.report)
    && (before.job.Some? ==>
         && after.job.Some?
         && before.job.value.version <= after.job.value.version
         && (before.job.value.version == after.job.value.version ==> before.job == after.job)
         && Rank(before.job.value.stage) <= Rank(after.job.value.stage)
         && (before.job.value.status == Failed ==> after.job.value.status == Failed))
    && (forall lane :: RowGrows(before, after, lane))
  }

  predicate OneStage(before: Store, after: Store) {
    before.job.Some? && after.job.Some? ==> Rank(after.job.value.stage) <= Rank(before.job.value.stage) + 1
  }

  lemma GrowsFurther(before: Store, middle: Store, after: Store)
    requires Grows(before, middle) && Grows(middle, after)
    ensures Grows(before, after)
  {
    forall lane ensures RowGrows(before, after, lane) {
      assert RowGrows(before, middle, lane) && RowGrows(middle, after, lane);
    }
  }

  lemma BackedKept(job: Job, before: Store, after: Store)
    requires Backed(job, before)
    requires before.report.Some? ==> after.report.Some?
    requires forall lane :: RowGrows(before, after, lane)
    ensures Backed(job, after)
  {
    assert RowGrows(before, after, DiscoveryLane) && RowGrows(before, after, CostLane)
        && RowGrows(before, after, SecurityLane);
  }

  lemma CopyKept(job: Job, before: Store, after: Store)
    requires Copy(job, before) && Grows(before, after)
    ensures Copy(job, after)
  {
    BackedKept(job, before, after);
  }

  lemma PointKept(job: Job, point: Point, before: Store, after: Store)
    requires PointOk(before, job, point) && Grows(before, after)
    ensures PointOk(after, job, point)
  {
    var lane := if GuardLane(job.stage).Some? then GuardLane(job.stage).value else DiscoveryLane;
    assert RowGrows(before, after, lane);
  }

  /** What an agent knows stays true while other agents step. */
  lemma LocalKept(l: Local, before: Store, after: Store)
    requires LocalOk(before, l) && Grows(before, after)
    ensures LocalOk(after, l)
  {
    match l
    case Idle =>
    case Done(_) =>
    case Holding(job, _) => CopyKept(job, before, after);
    case Producing(job, _) => CopyKept(job, before, after);
    case InStage(base, job, step, point) => {
      CopyKept(base, before, after);
      CopyKept(job, before, after);
      PointKept(job, point, before, after);
    }
    case Handling(base, _) => CopyKept(base, before, after);
    case Exhausting(updated) => CopyKept(updated, before, after);
  }

  // ----- job writes

  /** A conditional write through a copy replaces exactly that copy, or does nothing. If the new
      record is well formed, backed and at most one stage ahead, everything is kept. */
  lemma JobWritten(store: Store, job: Job, changes: JobChanges)
    requires StoreOk(store) && Copy(job, store)
    requires var next := Merge(job, changes, store.now);
             && JobShape(next) && Backed(next, store)
             && Rank(job.stage) <= Rank(next.stage) <= Rank(job.stage) + 1
             && (job.status == Failed ==> next.status == Failed)
    ensures var updated := UpdateJob(store, job.version, changes);
            && (updated.Some? <==> store.job.value == job)
            && (updated.Some? ==>
                 && updated.value == store.(job := Some(Merge(job, changes, store.now)))
                 && StoreOk(updated.value) && Grows(store, updated.value) && OneStage(store, updated.value)
                 && Copy(Merge(job, changes, store.now), updated.value))
  {
    var updated := UpdateJob(store, job.version, changes);
    if updated.Some? {
      RowsKept(store, updated.value);
      BackedKept(Merge(job, changes, store.now), store, updated.value);
    }
  }

  lemma RowsKept(store: Store, after: Store)
    requires forall lane :: RowOk(lane, RunOf(store, lane), ClaimsOf(store, lane))
    requires after.runs == store.runs && after.claims == store.claims
    ensures forall lane :: RowOk(lane, RunOf(after, lane), ClaimsOf(after, lane))
    ensures forall lane :: RowGrows(store, after, lane)
  {
    forall lane ensures RowOk(lane, RunOf(after, lane), ClaimsOf(after, lane)) {
      assert RowOk(lane, RunOf(store, lane), ClaimsOf(store, lane));
    }
  }

  lemma JobUntouched(store: Store, after: Store)
    requires StoreOk(store)
    requires after.runs == store.runs && after.claims == store.claims && after.job == store.job
    requires store.now <= after.now
    requires store.report.Some? ==> after.report == store.report
    ensures StoreOk(after) && Grows(store, after)
  {
    RowsKept(store, after);
    if store.job.Some? { BackedKept(store.job.value, store, after); }
  }

  // ----- row writes

  lemma RowWritten(store: Store, after: Store, lane: Lane)
    requires StoreOk(store)
    requires after == store.(runs := after.runs, claims := after.claims)
    requires forall other :: other != lane ==>
               RunOf(after, other) == RunOf(store, other) && ClaimsOf(after, other) == ClaimsOf(store, other)
    requires RowOk(lane, RunOf(after, lane), ClaimsOf(after, lane)) && RowGrows(store, after, lane)
    ensures StoreOk(after) && Grows(store, after)
  {
    forall other ensures RowOk(other, RunOf(after, other), ClaimsOf(after, other)) {
      assert RowOk(other, RunOf(store, other), ClaimsOf(store, other));
    }
    forall other ensures RowGrows(store, after, other) {
      if other != lane {
        assert RunOf(after, other) == RunOf(store, other) && ClaimsOf(after, other) == ClaimsOf(store, other);
      }
    }
    if store.job.Some? { BackedKept(store.job.value, store, after); }
  }

  lemma ClaimAppended(lane: Lane, claims: seq<ClaimRecord>, record: ClaimRecord)
    requires ClaimsOrdered(lane, claims)
    requires record.attempt == |claims| + 1 && record.owner == Owner(lane, |claims| + 1)
    requires record.leaseUntil == LeaseExpiry(record.plannedAt)
    requires record.fence > LastFence(claims)
    requires claims != [] ==> record.afterFailure || record.plannedAt >= claims[|claims| - 1].leaseUntil
    ensures ClaimsOrdered(lane, claims + [record])
  {
    var grown := claims + [record];
    forall i, j | 0 <= i < j < |grown| ensures grown[i].fence < grown[j].fence {
      assert i < |claims| - 1 ==> claims[i].fence < claims[|claims| - 1].fence;
    }
  }

  /** The row and the history after a granted claim, from the row and the plan alone. */
  lemma ClaimedRow(lane: Lane, prior: Option<RunRow>, claims: seq<ClaimRecord>, row: RunRow, record: ClaimRecord, plannedAt: int)
    requires RowOk(lane, prior, claims)
    requires PlanClaim(lane, prior, plannedAt).Planned?
    requires var plan := PlanClaim(lane, prior, plannedAt).plan;
             && Some(row) == (if plan.Create? then Some(CreatedRow(plan)) else ApplyReclaim(prior.value, plan))
             && record == ClaimRecord(plan.attempt, plan.owner, row.version, plannedAt, plan.leaseUntil,
                                      prior.Some? && prior.value.status == RunFailed)
    ensures RowOk(lane, Some(row), claims + [record])
    ensures LastFence(claims) < LastFence(claims + [record]) == row.version
  {
    ClaimAppended(lane, claims, record);
  }

  /** A write that is granted was planned on the very row it replaces. */
  lemma GrantShape(store: Store, lane: Lane, plan: ClaimPlan)
    requires PlanOk(store, lane, plan) && WriteClaim(store, lane, plan).Some?
    ensures PlanClaim(lane, RunOf(store, lane), plan.leaseUntil - LEASE_MS) == Planned(plan)
    ensures !RunDone(store, lane)
    ensures var (after, fence) := WriteClaim(store, lane, plan).value;
            && after == store.(runs := after.runs, claims := after.claims)
            && lane in after.runs && fence == after.runs[lane].version
            && |ClaimsOf(after, lane)| == |ClaimsOf(store, lane)| + 1
            && (forall other :: other != lane ==> RunOf(after, other) == RunOf(store, other)
                                                  && ClaimsOf(after, other) == ClaimsOf(store, other))
  {
  }

  /** A granted claim opens a new fence above all earlier ones; it is never granted while the
      earlier lease is still running. */
  lemma ClaimWritten(store: Store, lane: Lane, plan: ClaimPlan)
    requires StoreOk(store) && PlanOk(store, lane, plan)
    requires WriteClaim(store, lane, plan).Some?
    ensures var (after, fence) := WriteClaim(store, lane, plan).value;
            && StoreOk(after) && Grows(store, after)
            && fence == LastFence(ClaimsOf(after, lane)) > LastFence(ClaimsOf(store, lane))
            && FenceOk(after, lane, fence)
  {
    var (after, fence) := WriteClaim(store, lane, plan).value;
    var claims := ClaimsOf(store, lane);
    assert RowOk(lane, RunOf(store, lane), claims);
    GrantShape(store, lane, plan);
    var record := ClaimsOf(after, lane)[|claims|];
    ClaimedRow(lane, RunOf(store, lane), claims, after.runs[lane], record, plan.leaseUntil - LEASE_MS);
    RowWritten(store, after, lane);
  }

  lemma RunCompleted(store: Store, lane: Lane, fence: nat, result: WorkStatus)
    requires StoreOk(store) && FenceOk(store, lane, fence)
    requires CompleteRun(store, lane, fence, result).Some?
    ensures var after := CompleteRun(store, lane, fence, result).value;
            StoreOk(after) && Grows(store, after)
  {
    var after := CompleteRun(store, lane, fence, result).value;
    assert RowOk(lane, RunOf(store, lane), ClaimsOf(store, lane));
    assert ClaimsOf(after, lane) == ClaimsOf(store, lane);
    RowWritten(store, after, lane);
  }

  // ----- every step keeps the invariant

  ghost predicate StepOk(store: Store, result: (Store, Local)) {
    && StoreOk(result.0) && Grows(store, result.0) && OneStage(store, result.0)
    && LocalOk(result.0, result.1)
  }

  lemma Unchanged(store: Store)
    requires StoreOk(store)
    ensures Grows(store, store)
  {
    JobUntouched(store, store);
  }

  lemma IdleOk(store: Store, input: Input)
    requires StoreOk(store)
    ensures StepOk(store, StepIdle(store, input))
  {
    var (after, l') := StepIdle(store, input);
    Unchanged(store);
    if after != store { RowsKept(store, after); }
  }

  lemma MarkFailedOk(store: Store, job: Job)
    requires StoreOk(store) && Copy(job, store)
    ensures StepOk(store, AfterUpdate(store, MarkFailed(store, job), j => Done(Ack), Done(Retry)))
  {
    Unchanged(store);
    JobWritten(store, job, NoChange.(status := Some(Failed), stage := Some(job.stage)));
  }

  lemma ClaimOk(store: Store, job: Job)
    requires StoreOk(store) && Copy(job, store)
    ensures StepOk(store, StepClaim(store, job))
  {
    Unchanged(store);
    if job.status == Queued {
      JobWritten(store, job, NoChange.(status := Some(Running), stage := Some(Discovery)));
    }
  }

  lemma RefreshOk(store: Store, job: Job)
    requires StoreOk(store) && Copy(job, store)
    ensures LocalOk(store, StepRefresh(store, job))
  {
  }

  lemma HoldingOk(store: Store, job: Job, task: Task, input: Input)
    requires StoreOk(store) && Copy(job, store)
    ensures StepOk(store, StepHolding(store, job, task, input))
  {
    Unchanged(store);
    match task
    case Reject => MarkFailedOk(store, job);
    case Claim => ClaimOk(store, job);
    case Refresh => RefreshOk(store, job);
    case _ =>
  }

  lemma HandlingOk(store: Store, base: Job, error: ErrorKind)
    requires StoreOk(store) && LocalOk(store, Handling(base, error))
    ensures StepOk(store, StepHandling(store, base, error))
  {
    if error == TerminalError {
      MarkFailedOk(store, base);
    } else {
      Unchanged(store);
      JobWritten(store, base, NoChange.(retryCount := Some(base.retryCount + 1)));
    }
  }

  lemma ProducingOk(store: Store, job: Job, sent: Option<bool>, input: Input)
    requires StoreOk(store) && Copy(job, store)
    ensures StepOk(store, StepProducing(store, job, sent, input))
  {
    Unchanged(store);
    JobWritten(store, job, NoChange.(queueStatus := Some(Enqueued)));
    JobWritten(store, job, NoChange.(queueStatus := Some(EnqueueFailed)));
  }

  /** Inside the loop neither the step guard nor the exits for a finished or unsupported stage are
      ever taken. */
  lemma LookOk(store: Store, base: Job, job: Job, step: nat)
    requires PipelineOk(store, base, job, step)
    ensures LocalOk(store, StepLook(store, base, job, step))
    ensures step < MAX_STEPS && job.stage != Complete && job.stage != Enqueue
  {
    LookInTime(store, base, job, step);
    hide Backed;
  }

  lemma LookInTime(store: Store, base: Job, job: Job, step: nat)
    requires PipelineOk(store, base, job, step)
    ensures step < MAX_STEPS && job.stage != Complete && job.stage != Enqueue
  {
  }

  lemma ReadOk(store: Store, base: Job, job: Job, step: nat, point: Point, input: Input)
    requires PipelineOk(store, base, job, step) && PointOk(store, job, point)
    requires point.PlanClaimFor? || point.Start? || point.Recheck? || point.Project? || point.RereadReport?
    ensures StepInStage(store, base, job, step, point, input).0 == store
    ensures LocalOk(store, StepInStage(store, base, job, step, point, input).1)
  {
  }

  lemma WriteClaimOk(store: Store, base: Job, job: Job, step: nat, lane: Lane, plan: ClaimPlan)
    requires StoreOk(store) && PipelineOk(store, base, job, step)
    requires PointOk(store, job, WriteClaimOf(lane, plan))
    ensures StepOk(store, StepWriteClaim(store, base, job, step, lane, plan))
  {
    Unchanged(store);
    var written := WriteClaim(store, lane, plan);
    if written.Some? {
      ClaimWritten(store, lane, plan);
      LocalKept(InStage(base, job, step, Look), store, written.value.0);
    }
  }

  lemma FinishOk(store: Store, base: Job, job: Job, step: nat, lane: Lane, fence: nat, status: WorkStatus)
    requires StoreOk(store) && PipelineOk(store, base, job, step)
    requires PointOk(store, job, RunWork(lane, fence))
    requires CompleteRun(store, lane, fence, status).Some?
    ensures var after := CompleteRun(store, lane, fence, status).value;
            && StoreOk(after) && Grows(store, after)
            && LocalOk(after, InStage(base, job, step, Recheck(lane)))
            && LocalOk(after, Handling(base, OtherError))
  {
    RunCompleted(store, lane, fence, status);
    LocalKept(InStage(base, job, step, Recheck(lane)), store, CompleteRun(store, lane, fence, status).value);
  }

  lemma WorkRefused(store: Store, base: Job, job: Job, step: nat, lane: Lane, fence: nat, input: Input)
    requires PipelineOk(store, base, job, step) && PointOk(store, job, RunWork(lane, fence))
    requires input.Work? && input.result.Finished? ==> CompleteRun(store, lane, fence, input.result.status).None?
    ensures StepWork(store, base, job, step, lane, fence, input).0 == store
    ensures LocalOk(store, StepWork(store, base, job, step, lane, fence, input).1)
  {
  }

  lemma WorkOk(store: Store, base: Job, job: Job, step: nat, lane: Lane, fence: nat, input: Input)
    requires StoreOk(store) && PipelineOk(store, base, job, step)
    requires PointOk(store, job, RunWork(lane, fence))
    ensures StepOk(store, StepWork(store, base, job, step, lane, fence, input))
  {
    if input.Work? && input.result.Finished? && CompleteRun(store, lane, fence, input.result.status).Some? {
      FinishOk(store, base, job, step, lane, fence, input.result.status);
    } else {
      Unchanged(store);
      WorkRefused(store, base, job, step, lane, fence, input);
    }
  }

  lemma AdvanceOk(store: Store, base: Job, job: Job, step: nat)
    requires StoreOk(store) && PipelineOk(store, base, job, step) && PointOk(store, job, Advance)
    ensures StepOk(store, StepAdvance(store, base, job, step))
  {
    Unchanged(store);
    var changes := NoChange.(status := Some(job.status), stage := NextStage(job.stage));
    assert Rank(Merge(job, changes, store.now).stage) == Rank(job.stage) + 1;
    JobWritten(store, job, changes);
    var updated := UpdateJob(store, job.version, changes);
    if updated.Some? { CopyKept(base, store, updated.value); }
  }

  lemma SaveReportOk(store: Store, base: Job, job: Job, step: nat)
    requires StoreOk(store) && PipelineOk(store, base, job, step) && PointOk(store, job, SaveReport)
    ensures StepOk(store, StepSaveReport(store, base, job, step))
  {
    var (after, l') := StepSaveReport(store, base, job, step);
    JobUntouched(store, after);
    LocalKept(InStage(base, job, step, RereadReport), store, after);
  }

  lemma SucceedOk(store: Store, base: Job, job: Job, step: nat)
    requires StoreOk(store) && PipelineOk(store, base, job, step) && PointOk(store, job, Succeed)
    ensures StepOk(store, StepSucceed(store, base, job))
  {
    Unchanged(store);
    JobWritten(store, job, NoChange.(status := Some(Succeeded), stage := Some(Complete)));
  }

  lemma InStageOk(store: Store, base: Job, job: Job, step: nat, point: Point, input: Input)
    requires StoreOk(store) && PipelineOk(store, base, job, step) && PointOk(store, job, point)
    ensures StepOk(store, StepInStage(store, base, job, step, point, input))
  {
    match point
    case WriteClaimOf(lane, plan) => WriteClaimOk(store, base, job, step, lane, plan);
    case RunWork(lane, fence) => WorkOk(store, base, job, step, lane, fence, input);
    case Advance => AdvanceOk(store, base, job, step);
    case SaveReport => SaveReportOk(store, base, job, step);
    case Succeed => SucceedOk(store, base, job, step);
    case Look => Unchanged(store); LookOk(store, base, job, step);
    case _ => Unchanged(store); ReadOk(store, base, job, step, point, input);
  }

  lemma ProceedOk(store: Store, l: Local, input: Input)
    requires StoreOk(store) && LocalOk(store, l)
    ensures StepOk(store, Proceed(store, l, input))
  {
    match l
    case Idle => IdleOk(store, input);
    case Holding(job, task) => HoldingOk(store, job, task, input);
    case InStage(base, job, step, point) => InStageOk(store, base, job, step, point, input);
    case Handling(base, error) => HandlingOk(store, base, error);
    case Exhausting(updated) => MarkFailedOk(store, updated);
    case Done(_) => Unchanged(store);
    case Producing(job, sent) => ProducingOk(store, job, sent, input);
  }

  lemma OnThrowOk(store: Store, l: Local)
    requires LocalOk(store, l)
    ensures LocalOk(store, OnThrow(l))
  {
  }

  /** One agent step, also one that throws before or after its write, or crashes. */
  lemma AgentStepOk(store: Store, l: Local, input: Input)
    requires StoreOk(store) && LocalOk(store, l)
    ensures StepOk(store, Step(store, l, input))
  {
    var (after, l') := Step(store, l, input);
    Unchanged(store);
    OnThrowOk(store, l);
    match input
    case Wait(_) => {
      JobUntouched(store, after);
      LocalKept(l, store, after);
    }
    case Fault(true) => {
      ProceedOk(store, l, Go);
      LocalKept(OnThrow(l), store, after);
    }
    case Fault(false) =>
    case Crash =>
    case _ => ProceedOk(store, l, input);
  }
}
