/** The consumer and the producer as the source writes them: a service whose methods read and conditionally update the
    durable store, loop over the stages and translate exceptions. At every await other agents may
    change the store in any way the protocol allows; every storage operation of the service is itself
    a step of the protocol. */
module ConsumerService {
  import opened JobModels
  import opened StageLease
  import opened ConsumerProtocol
  import opened ProtocolSafety
  import opened ProtocolTheorems
  import opened DeliveryBound

  datatype Result<T> = Ok(value: T) | Err(error: ErrorKind)

  /** One queue record: what the scope and account checks will say, and what each stage's own
      service will do if it is started. */
  datatype Delivery = Delivery(verdict: Verdict, work: map<Lane, WorkResult>)

  datatype Started = Started(job: Job, reused: bool, enqueued: bool)

  /** What a lone producer leaves behind: the job as it was or as it is created, with the queue status of
      the send, and nothing else. */
  predicate CreatedAndSent(before: Store, after: Store, sameRequest: bool, sends: bool, result: Option<Started>) {
    var job := GetOr(before.job, Job(Queued, Pending, Enqueue, 0, 1, before.now));
    var refused := before.job.Some? && !sameRequest;
    && after.report == before.report && after.runs == before.runs
    && (result.Some? <==> !refused && (job.queueStatus == Enqueued || sends))
    && (result.Some? ==> (result.value.reused <==> job.queueStatus != Pending))
    && if refused then after.job == before.job
       else
         && after.job.Some?
         && after.job.value.(queueStatus := Pending, version := 0, updatedAt := 0) ==
            job.(queueStatus := Pending, version := 0, updatedAt := 0)
         && after.job.value.queueStatus == (if job.queueStatus == Enqueued || sends then Enqueued else EnqueueFailed)
  }

  datatype Answer = Answer(outcome: Outcome, store: Store)

  /** What an acknowledgement means: the record did not parse, the account lookup gave no verdict, or the
      job is missing or terminal. */
  predicate Answered(record: Option<Delivery>, answer: Answer) {
    answer.outcome == Ack ==>
      || record.None? || record.value.verdict == LookupFailed
      || answer.store.job.None? || Terminal(answer.store)
  }

  /** The local state after a stage method returns or throws. */
  function Landing<T>(base: Job, result: Result<T>, landed: T -> Local): Local {
    match result
    case Ok(value) => landed(value)
    case Err(error) => Handling(base, error)
  }

  /** A process that works on the store, as a consumer or as a producer. */
  class Worker {
    var store: Store
    /** Says that no other agent works on the store. */
    const alone: bool
    ghost var at: Local
    ghost var first: Store
    ghost var trace: seq<Input>
    /** How each record was answered, and the store at that moment. */
    ghost var answers: seq<Answer>

    /** For a lone consumer, the inputs recorded since `first` lead the protocol to here. */
    ghost predicate Follows(s: Store)
      reads this
    {
      StoreOk(first) && NoFaults(trace) && RunAgent(first, Idle, trace) == (s, at) && Alone(s, at)
    }

    ghost predicate ValidIn(s: Store)
      reads this
    {
      StoreOk(s) && LocalOk(s, at) && (alone ==> Follows(s))
    }

    ghost predicate Valid()
      reads this
    {
      ValidIn(store)
    }

    constructor (initial: Store, alone: bool)
      requires StoreOk(initial)
      ensures Valid() && store == initial && at == Idle && this.alone == alone
    {
      store := initial;
      this.alone := alone;
      first := initial;
      trace := [];
      answers := [];
      at := Idle;
    }

    /** Matches an update of the store with the protocol step that makes it. */
    ghost method Record(before: Store, input: Input)
      requires ValidIn(before) && !input.Fault?
      requires store == Step(before, at, input).0
      modifies this`trace, this`at
      ensures Valid() && at == Step(before, old(at), input).1
    {
      AgentStepOk(before, at, input);
      if alone {
        RunJoin(first, Idle, trace, [input]);
        RunFirst(before, at, input, []);
        StepPays(before, at, input);
      }
      trace := trace + [input];
      at := Step(before, at, input).1;
    }

    /** Time passes while the service waits for an answer; other agents may step. Callers know of the
        new store only what every interference leaves true (KnowledgeSurvives). */
    method Await()
      requires Valid()
      modifies this`store, this`trace, this`at
      ensures Valid() && at == old(at)
      ensures store.now >= old(store).now
      ensures if alone then store == old(store).(now := store.now) else Interfered(old(store), store)
    {
      if alone {
        var ms: nat :| ms >= 0;
        ghost var before := store;
        store := store.(now := store.now + ms);
        Record(before, Wait(ms));
      } else {
        NoInterference(store);
      }
    }

    // ----- the repositories

    method GetJob() returns (job: Option<Job>)
      ensures job == store.job
    {
      job := store.job;
    }

    /** A conditional update; a refused one is a conflict. */
    method TryUpdateJob(expectedVersion: nat, changes: JobChanges) returns (updated: Option<Job>)
      modifies this`store
      ensures var result := UpdateJob(old(store), expectedVersion, changes);
              && store == GetOr(result, old(store))
              && updated == if result.Some? then result.value.job else None
    {
      if store.job.None? || store.job.value.version != expectedVersion {
        return None;
      }
      var job := Merge(store.job.value, changes, store.now);
      store := store.(job := Some(job));
      return Some(job);
    }

    // ----- claim, failure and retry

    method ClaimOrReconcileJob(job: Job) returns (claimed: Job)
      requires Valid() && at == Holding(job, Claim)
      modifies this`store, this`trace, this`at
      ensures Valid() && at == Holding(claimed, Refresh)
      ensures job.status != Queued ==> claimed == job
      ensures alone && job.status == Queued ==>
                claimed == job.(status := Running, stage := Discovery, version := job.version + 1, updatedAt := store.now)
    {
      hide StoreOk;
      Await();
      if job.status == Succeeded && job.stage == Complete {
        Record(store, Go);
        return job;
      }
      if job.status == Failed {
        Record(store, Go);
        return job;
      }
      if job.status == Queued {
        ghost var before := store;
        var updated := TryUpdateJob(job.version, NoChange.(status := Some(Running), stage := Some(Discovery)));
        Record(before, Go);
        if updated.Some? {
          return updated.value;
        }
        claimed := ReloadJob(job);
        return;
      }
      Record(store, Go);
      return job;
    }

    /** After a lost race for the job, whatever is stored now goes on. */
    method ReloadJob(job: Job) returns (reloaded: Job)
      requires Valid() && at == Holding(job, Reload)
      modifies this`store, this`trace, this`at
      ensures Valid() && at == Holding(reloaded, Refresh) && !alone
      ensures store.job == Some(reloaded)
    {
      hide StoreOk;
      Await();
      var stored := GetJob();
      Record(store, Go);
      return stored.value;
    }

    /** Fails the job through the given copy; a copy that is no longer the stored record changes
        nothing. */
    method MarkTerminalFailure(job: Job) returns (failed: Result<Job>)
      requires Valid()
      requires at == Holding(job, Reject) || at == Handling(job, TerminalError) || at == Exhausting(job)
      modifies this`store, this`trace, this`at
      ensures Valid()
      ensures failed.Ok? ==> at == Done(Ack) && store.job == Some(failed.value) && failed.value.status == Failed
      ensures failed.Err? ==> failed.error == ConflictError && at == Done(Retry)
      ensures alone ==> (failed.Ok? <==> old(store).job == Some(job))
    {
      Await();
      ghost var before := store;
      var updated := TryUpdateJob(job.version, NoChange.(status := Some(Failed), stage := Some(job.stage)));
      Record(before, Go);
      if updated.None? {
        return Err(ConflictError);
      }
      return Ok(updated.value);
    }

    /** Counts a retry through the copy read before the pipeline. Ok(true) means exhausted. */
    method MarkRetrying(job: Job) returns (exhausted: Result<bool>)
      requires Valid() && at.Handling? && at.base == job && at.error != TerminalError
      modifies this`store, this`trace, this`at
      ensures Valid() && at == Done(if exhausted == Ok(true) then Ack else Retry)
      ensures exhausted == Ok(true) ==> store.job.Some? && store.job.value.status == Failed
      ensures exhausted == Ok(false) ==>
                store.job.Some? && store.job.value.retryCount == job.retryCount + 1 < MAX_RECEIVE_COUNT
      ensures alone ==> (exhausted.Ok? <==> old(store).job == Some(job))
    {
      hide StoreOk;
      Await();
      ghost var before := store;
      var updated := TryUpdateJob(job.version, NoChange.(retryCount := Some(job.retryCount + 1)));
      Record(before, Go);
      if updated.None? {
        return Err(RetryableError);
      }
      if updated.value.retryCount >= MAX_RECEIVE_COUNT {
        var failed := MarkTerminalFailure(updated.value);
        if failed.Err? {
          return Err(RetryableError);
        }
        return Ok(true);
      }
      return Ok(false);
    }

    // ----- the stages

    method AdvanceStage(ghost base: Job, job: Job, ghost step: nat, stage: Stage) returns (result: Result<Job>)
      requires Valid() && at == InStage(base, job, step, Advance) && NextStage(job.stage) == Some(stage)
      modifies this`store, this`trace, this`at
      ensures Valid() && at == Landing(base, result, next => InStage(base, next, step + 1, Look))
      ensures result.Ok? ==>
                && store.job == Some(result.value)
                && Rank(result.value.stage) == Rank(job.stage) + 1
                && result.value == job.(stage := stage, version := job.version + 1, updatedAt := store.now)
      ensures result.Err? ==> result.error == ConflictError
      ensures alone ==> result.Ok?
    {
      hide StoreOk, Backed, RunAgent, NoFaults;
      Await();
      ghost var before := store;
      var updated := TryUpdateJob(job.version, NoChange.(status := Some(job.status), stage := Some(stage)));
      Record(before, Go);
      if updated.None? {
        return Err(ConflictError);
      }
      return Ok(updated.value);
    }

    /** No error means that the stage is done or that the planner will grant a claim on such a row; a
        permanent failure, and only that, ends the job. */
    method ResolveProofBeforeExecution(proof: ProofState) returns (error: Option<ErrorKind>)
      ensures error.None? <==> proof == ProofComplete || RequiresClaim(proof)
      ensures error == Some(TerminalError) <==> proof == FailedPermanent
      ensures error.Some? ==> error.value in {TerminalError, RetryableError}
      ensures forall lane, run, now :: Classify(run, now) == proof && PlanClaim(lane, run, now).Planned? ==> error.None?
    {
      if proof == InProgressActive { return Some(RetryableError); }
      if proof == FailedPermanent { return Some(TerminalError); }
      if proof == Ambiguous { return Some(RetryableError); }
      return None;
    }

    method ReadProof(ghost base: Job, ghost job: Job, ghost step: nat, lane: Lane) returns (proof: ProofState)
      requires Valid() && at == InStage(base, job, step, Look) && GuardLane(job.stage) == Some(lane)
      modifies this`store, this`trace, this`at
      ensures Valid()
      ensures at == if proof == ProofComplete then InStage(base, job, step, Advance)
                    else if !RequiresClaim(proof) then Handling(base, ResolveError(proof))
                    else if LaneOf(job.stage).Some? then InStage(base, job, step, PlanClaimFor(lane))
                    else Handling(base, RetryableError)
    {
      hide StoreOk;
      Await();
      LookOk(store, base, job, step);
      proof := Proof(store, lane);
      Record(store, Go);
    }

    method RecheckProof(ghost base: Job, ghost job: Job, ghost step: nat, lane: Lane) returns (proof: ProofState)
      requires Valid() && at == InStage(base, job, step, Recheck(lane))
      modifies this`store, this`trace, this`at
      ensures Valid()
      ensures at == if proof == ProofComplete then InStage(base, job, step, Advance) else Handling(base, RetryableError)
    {
      hide StoreOk;
      Await();
      proof := Proof(store, lane);
      Record(store, Go);
    }

    method PlanExecution(ghost base: Job, ghost job: Job, ghost step: nat, lane: Lane) returns (plan: PlanResult)
      requires Valid() && at == InStage(base, job, step, PlanClaimFor(lane))
      modifies this`store, this`trace, this`at
      ensures Valid()
      ensures at == if plan.Planned? then InStage(base, job, step, WriteClaimOf(lane, plan.plan))
                    else Handling(base, if plan.error == ActiveLease then ActiveLeaseError else OtherError)
    {
      Await();
      plan := PlanClaim(lane, RunOf(store, lane), store.now);
      Record(store, Go);
    }

    method WriteExecution(ghost base: Job, ghost job: Job, ghost step: nat, lane: Lane, plan: ClaimPlan)
      returns (fence: Result<nat>)
      requires Valid() && at == InStage(base, job, step, WriteClaimOf(lane, plan))
      modifies this`store, this`trace, this`at
      ensures Valid() && at == Landing(base, fence, version => InStage(base, job, step, Start(lane, version)))
    {
      Await();
      ghost var before := store;
      var written := WriteClaim(store, lane, plan);
      if written.None? {
        Record(before, Go);
        return Err(ConflictError);
      }
      store := written.value.0;
      Record(before, Go);
      return Ok(written.value.1);
    }

    /** Claims the run of a stage; the version it returns is the fence of the execution. */
    method ClaimExecution(ghost base: Job, ghost job: Job, ghost step: nat, lane: Lane) returns (fence: Result<nat>)
      requires Valid() && at == InStage(base, job, step, PlanClaimFor(lane))
      modifies this`store, this`trace, this`at
      ensures Valid() && at == Landing(base, fence, version => InStage(base, job, step, Start(lane, version)))
    {
      var plan := PlanExecution(base, job, step, lane);
      if plan.Refused? {
        return Err(if plan.error == ActiveLease then ActiveLeaseError else OtherError);
      }
      fence := WriteExecution(base, job, step, lane, plan.plan);
    }

    method CheckClaimedRow(ghost base: Job, ghost job: Job, ghost step: nat, lane: Lane, fence: nat)
      returns (matches: bool)
      requires Valid() && at == InStage(base, job, step, Start(lane, fence))
      modifies this`store, this`trace, this`at
      ensures Valid()
      ensures at == if matches then InStage(base, job, step, RunWork(lane, fence)) else Handling(base, OtherError)
      ensures matches <==> lane in store.runs && store.runs[lane].status == RunRunning && store.runs[lane].version == fence
      ensures alone ==> store == old(store).(now := store.now)
    {
      Await();
      var row := RunOf(store, lane);
      Record(store, Go);
      matches := row.Some? && row.value.status == RunRunning && row.value.version == fence;
    }

    method CompleteWork(ghost base: Job, ghost job: Job, ghost step: nat, lane: Lane, fence: nat, status: WorkStatus, throws: bool)
      returns (result: Result<bool>)
      requires Valid() && at == InStage(base, job, step, RunWork(lane, fence))
      modifies this`store, this`trace, this`at
      ensures Valid() && at == Landing(base, result, done => InStage(base, job, step, Recheck(lane)))
      ensures result.Ok? ==> !throws
      ensures result.Err? ==> result.error == ConflictError || (throws && result.error == OtherError)
      ensures result != Err(ConflictError) ==> Ended(store, lane, status)
      ensures alone && lane in old(store).runs && old(store).runs[lane].version == fence ==> result != Err(ConflictError)
    {
      hide StoreOk, LocalOk, Ended, Proof, RunAgent, NoFaults, Backed;
      Await();
      ghost var before := store;
      CompletionTold(store, lane, fence, status);
      var completed := CompleteRun(store, lane, fence, status);
      store := GetOr(completed, store);
      result := if completed.None? then Err(ConflictError) else if throws then Err(OtherError) else Ok(true);
      WorkStep(before, base, job, step, lane, fence, status, throws);
      Record(before, Work(Finished(status, throws)));
    }

    /** The stage's own service, up to its completion write under the fence. */
    method StartAnalysis(ghost base: Job, ghost job: Job, ghost step: nat, lane: Lane, fence: nat, work: WorkResult)
      returns (result: Result<bool>)
      requires Valid() && at == InStage(base, job, step, Start(lane, fence))
      modifies this`store, this`trace, this`at
      ensures Valid() && at == Landing(base, result, done => InStage(base, job, step, Recheck(lane)))
      ensures result.Ok? ==> work.Finished? && !work.throws && Ended(store, lane, work.status)
      ensures alone && work.Finished? && lane in old(store).runs
              && old(store).runs[lane].version == fence && old(store).runs[lane].status == RunRunning ==>
                (result.Ok? <==> !work.throws) && Ended(store, lane, work.status)
    {
      hide StoreOk, LocalOk, Ended, Proof, RunAgent, NoFaults, Interfered, Alone;
      var matches := CheckClaimedRow(base, job, step, lane, fence);
      if !matches {
        return Err(OtherError);
      }
      if work.Thrown? {
        Record(store, Work(work));
        return Err(OtherError);
      }
      result := CompleteWork(base, job, step, lane, fence, work.status, work.throws);
    }

    /** The discovery, cost and security stages differ only in their row and their service. */
    method RunStage(ghost base: Job, job: Job, ghost step: nat, lane: Lane, work: WorkResult)
      returns (result: Result<Job>)
      requires Valid() && at == InStage(base, job, step, Look) && LaneOf(job.stage) == Some(lane)
      modifies this`store, this`trace, this`at
      ensures Valid() && at == Landing(base, result, next => InStage(base, next, step + 1, Look))
    {
      var proof := ReadProof(base, job, step, lane);
      if proof != ProofComplete {
        var error := ResolveProofBeforeExecution(proof);
        if error.Some? {
          return Err(error.value);
        }
        var fence := ClaimExecution(base, job, step, lane);
        if fence.Err? {
          return Err(fence.error);
        }
        var started := StartAnalysis(base, job, step, lane, fence.value, work);
        if started.Err? {
          return Err(started.error);
        }
        var after := RecheckProof(base, job, step, lane);
        if after != ProofComplete {
          return Err(RetryableError);
        }
      }
      result := AdvanceStage(base, job, step, NextStage(job.stage).value);
    }

    method RunGovernanceStage(ghost base: Job, job: Job, ghost step: nat) returns (result: Result<Job>)
      requires Valid() && at == InStage(base, job, step, Look) && job.stage == GovernanceAnalysis
      modifies this`store, this`trace, this`at
      ensures Valid() && at == Landing(base, result, next => InStage(base, next, step + 1, Look))
    {
      var proof := ReadProof(base, job, step, SecurityLane);
      if proof != ProofComplete {
        var error := ResolveProofBeforeExecution(proof);
        return Err(if error.Some? then error.value else RetryableError);
      }
      result := AdvanceStage(base, job, step, Finalizing);
    }

    /** Stores the report unless one is there; false means that another agent was first. */
    method SaveReportIfAbsent(ghost base: Job, job: Job, ghost step: nat) returns (saved: bool)
      requires Valid() && at == InStage(base, job, step, SaveReport)
      modifies this`store, this`trace, this`at
      ensures Valid() && store.report.Some?
      ensures at == InStage(base, job, step, if saved then Succeed else RereadReport)
    {
      Await();
      ghost var before := store;
      saved := store.report.None?;
      if saved {
        store := store.(report := Some(job.version));
      }
      Record(before, Go);
    }

    method LoadReport(ghost base: Job, ghost job: Job, ghost step: nat) returns (existing: Option<nat>)
      requires Valid() && at == InStage(base, job, step, Project)
      modifies this`store, this`trace, this`at
      ensures Valid() && existing == store.report
      ensures at == InStage(base, job, step, if existing.Some? then Succeed else SaveReport)
    {
      Await();
      existing := store.report;
      Record(store, Go);
    }

    method ReloadReport(ghost base: Job, ghost job: Job, ghost step: nat) returns (raced: Option<nat>)
      requires Valid() && at == InStage(base, job, step, RereadReport)
      modifies this`store, this`trace, this`at
      ensures Valid() && raced == store.report
      ensures at == if raced.Some? then InStage(base, job, step, Succeed) else Handling(base, RetryableError)
    {
      Await();
      raced := store.report;
      Record(store, Go);
    }

    /** Create-if-absent: a report stored by someone else is taken as it is. */
    method ProjectReport(ghost base: Job, job: Job, ghost step: nat) returns (report: Result<nat>)
      requires Valid() && at == InStage(base, job, step, Project)
      modifies this`store, this`trace, this`at
      ensures Valid() && at == Landing(base, report, stored => InStage(base, job, step, Succeed))
      ensures report.Ok? ==> store.report == Some(report.value)
    {
      var existing := LoadReport(base, job, step);
      if existing.Some? {
        return Ok(existing.value);
      }
      var saved := SaveReportIfAbsent(base, job, step);
      if saved {
        return Ok(store.report.value);
      }
      var raced := ReloadReport(base, job, step);
      if raced.Some? {
        return Ok(raced.value);
      }
      return Err(RetryableError);
    }

    method FinishJob(ghost base: Job, job: Job, ghost step: nat) returns (result: Result<Job>)
      requires Valid() && at == InStage(base, job, step, Succeed)
      modifies this`store, this`trace, this`at
      ensures Valid() && at == Landing(base, result, done => Done(Ack))
      ensures result.Ok? ==> result.value.status == Succeeded && store.job == Some(result.value)
    {
      hide StoreOk, Backed, RunAgent, NoFaults;
      Await();
      ghost var before := store;
      var done := TryUpdateJob(job.version, NoChange.(status := Some(Succeeded), stage := Some(Complete)));
      Record(before, Go);
      if done.None? {
        return Err(ConflictError);
      }
      return Ok(done.value);
    }

    method RunFinalizing(ghost base: Job, job: Job, ghost step: nat) returns (result: Result<Job>)
      requires Valid() && at == InStage(base, job, step, Look) && job.stage == Finalizing
      modifies this`store, this`trace, this`at
      ensures Valid() && at == Landing(base, result, done => Done(Ack))
      ensures result.Ok? ==> result.value.status == Succeeded && store.job == Some(result.value)
    {
      LookOk(store, base, job, step);
      Record(store, Go);
      var report := ProjectReport(base, job, step);
      if report.Err? {
        return Err(report.error);
      }
      result := FinishJob(base, job, step);
    }

    /** The stage loop. It is left through a finished job or an error, never through its limit. */
    method RunStages(initialJob: Job, work: map<Lane, WorkResult>) returns (result: Result<Job>)
      requires Valid() && at == InStage(initialJob, initialJob, 0, Look)
      modifies this`store, this`trace, this`at
      ensures Valid() && at == Landing(initialJob, result, done => Done(Ack))
      ensures result.Ok? ==> result.value.status == Succeeded && store.job == Some(result.value)
    {
      hide StoreOk;
      var job := initialJob;
      var step := 0;
      LookOk(store, initialJob, job, step);
      while step < MAX_STEPS
        invariant step < MAX_STEPS
        invariant Valid() && at == InStage(initialJob, job, step, Look)
        decreases MAX_STEPS - step
      {
        LookOk(store, initialJob, job, step);
        if job.stage == Finalizing {
          result := RunFinalizing(initialJob, job, step);
          return;
        }
        var next: Result<Job>;
        if job.stage == GovernanceAnalysis {
          next := RunGovernanceStage(initialJob, job, step);
        } else {
          var lane := LaneOf(job.stage).value;
          next := RunStage(initialJob, job, step, lane, if lane in work then work[lane] else Thrown);
        }
        if next.Err? {
          return Err(next.error);
        }
        job := next.value;
        step := step + 1;
        LookOk(store, initialJob, job, step);
      }
      assert false;
    }

    method ExecuteIntelligencePipeline(initialJob: Job, work: map<Lane, WorkResult>) returns (result: Result<Job>)
      requires Valid() && at == Enter(initialJob) && store.job == Some(initialJob)
      modifies this`store, this`trace, this`at
      ensures Valid() && at == Landing(initialJob, result, done => Done(Ack))
      ensures result.Ok? ==> Terminal(store) && store.job == Some(result.value)
    {
      if initialJob.status == Succeeded && initialJob.stage == Complete {
        Record(store, Go);
        return Ok(initialJob);
      }
      if initialJob.status == Failed {
        return Ok(initialJob);
      }
      if initialJob.status != Running && initialJob.status != Partial {
        return Err(TerminalError);
      }
      result := RunStages(initialJob, work);
    }

    // ----- one delivery

    method RejectMessage(job: Job) returns (outcome: Outcome)
      requires Valid() && at == Holding(job, Reject)
      modifies this`store, this`trace, this`at
      ensures Valid() && at == Done(outcome)
      ensures outcome == Ack ==> Terminal(store)
    {
      var failed := MarkTerminalFailure(job);
      return if failed.Ok? then Ack else Retry;
    }

    /** The catch block of a delivery: every failure is written through the job read before the
        pipeline; a conflict while writing it is a retry. */
    method RecordFailure(job: Job, error: ErrorKind) returns (outcome: Outcome)
      requires Valid() && at == Handling(job, error)
      modifies this`store, this`trace, this`at
      ensures Valid() && at == Done(outcome)
      ensures outcome == Ack ==> Terminal(store)
    {
      if error == TerminalError {
        var failed := MarkTerminalFailure(job);
        return if failed.Ok? then Ack else Retry;
      }
      var exhausted := MarkRetrying(job);
      return if exhausted == Ok(true) then Ack else Retry;
    }

    method RefreshJob(claimed: Job) returns (latest: Job)
      requires Valid() && at == Holding(claimed, Refresh)
      modifies this`store, this`trace, this`at
      ensures Valid() && at == Enter(latest) && store.job == Some(latest)
    {
      Await();
      var reread := GetJob();
      latest := if reread.Some? then reread.value else claimed;
      Record(store, Go);
    }

    method RunAccepted(loaded: Job, work: map<Lane, WorkResult>) returns (outcome: Outcome)
      requires Valid() && at == Holding(loaded, Claim)
      modifies this`store, this`trace, this`at
      ensures Valid() && at == Done(outcome)
      ensures outcome == Ack ==> Terminal(store)
    {
      var claimed := ClaimOrReconcileJob(loaded);
      var latest := RefreshJob(claimed);
      var result := ExecuteIntelligencePipeline(latest, work);
      if result.Ok? {
        return Ack;
      }
      outcome := RecordFailure(latest, result.error);
    }

    /** At the moment of an acknowledgement the job is missing or terminal, whatever the other agents
        do; only an account lookup without a verdict acknowledges a live job. */
    method ProcessValidatedMessage(delivery: Delivery) returns (outcome: Outcome)
      requires Valid() && at == Idle
      modifies this`store, this`trace, this`at
      ensures Valid() && at == Done(outcome)
      ensures outcome == Ack && delivery.verdict != LookupFailed ==> store.job.None? || Terminal(store)
    {
      Await();
      var loaded := GetJob();
      Record(store, Deliver);
      if loaded.None? {
        return Ack;
      }
      Await();
      Record(store, Judge(delivery.verdict));
      match delivery.verdict
      case RefusedScopeOrAccount => outcome := RejectMessage(loaded.value);
      case LookupFailed => outcome := Ack;
      case Accepted => outcome := RunAccepted(loaded.value, delivery.work);
    }

    // ----- the batch

    /** One queue record; a body that does not parse has no delivery and is acknowledged. A lone
        consumer pays for every retry out of the job's budget. */
    method ProcessRecord(record: Option<Delivery>) returns (outcome: Outcome)
      requires Valid() && at == Idle
      modifies this`store, this`trace, this`at, this`first, this`answers
      ensures Valid() && at == Idle
      ensures record.None? ==> outcome == Ack
      ensures answers == old(answers) + [Answer(outcome, store)] && Answered(record, Answer(outcome, store))
      ensures alone ==> Budget(store) + (if outcome == Retry then 1 else 0) <= Budget(old(store))
    {
      if record.None? {
        answers := answers + [Answer(Ack, store)];
        return Ack;
      }
      first := store;
      trace := [];
      outcome := ProcessValidatedMessage(record.value);
      if alone {
        RunPays(first, Idle, trace);
        LastRetryCounts(first, Idle, trace);
      }
      Record(store, Go);
      answers := answers + [Answer(outcome, store)];
    }

    /** The items to deliver again, in order: exactly those whose processing asked for it, so an item
        that is not reported was acknowledged for good. A lone consumer reports at most as many as the
        budget the job had, so never more than eight, however long the batch. */
    method ProcessBatch(records: seq<Option<Delivery>>) returns (batchItemFailures: seq<nat>)
      requires Valid() && at == Idle
      modifies this`store, this`trace, this`at, this`first, this`answers
      ensures Valid() && at == Idle
      ensures old(answers) <= answers && |answers| == |old(answers)| + |records|
      ensures forall i :: 0 <= i < |records| ==>
                && (i in batchItemFailures <==> answers[|old(answers)| + i].outcome == Retry)
                && Answered(records[i], answers[|old(answers)| + i])
      ensures forall i, j :: 0 <= i < j < |batchItemFailures| ==> batchItemFailures[i] < batchItemFailures[j]
      ensures forall i :: 0 <= i < |batchItemFailures| ==>
                batchItemFailures[i] < |records| && records[batchItemFailures[i]].Some?
      ensures alone ==> |batchItemFailures| + Budget(store) <= Budget(old(store)) <= 8
    {
      batchItemFailures := [];
      ghost var given := |answers|;
      for i := 0 to |records|
        invariant Valid() && at == Idle
        invariant old(answers) <= answers && |answers| == given + i
        invariant forall j :: 0 <= j < i ==>
                    && (j in batchItemFailures <==> answers[given + j].outcome == Retry)
                    && Answered(records[j], answers[given + j])
        invariant forall j, k :: 0 <= j < k < |batchItemFailures| ==> batchItemFailures[j] < batchItemFailures[k]
        invariant forall k :: 0 <= k < |batchItemFailures| ==>
                    batchItemFailures[k] < i && records[batchItemFailures[k]].Some?
        invariant alone ==> |batchItemFailures| + Budget(store) <= Budget(old(store))
      {
        var outcome := ProcessRecord(records[i]);
        if outcome == Retry {
          batchItemFailures := batchItemFailures + [i];
        }
      }
    }

    // ----- the producer

    /** A start of an analysis. `found` is the newest active job of the same request with the row of its
        stage; while that blocks the scope it is returned, and nothing is created or sent. None is an error. */
    method StartIntelligenceJob(found: Option<(Job, Option<RunRow>)>, sameRequest: bool, sends: bool)
      returns (result: Option<Started>, ghost decidedAt: int)
      requires Valid() && at == Idle
      modifies this`store, this`trace, this`at
      ensures Valid() && at == Idle
      ensures old(store).now <= decidedAt <= store.now
      ensures found.Some? && BlocksSameScope(found.value.0, found.value.1, decidedAt) ==>
                && result == Some(Started(found.value.0, true, found.value.0.queueStatus == Enqueued))
                && (alone ==> store == old(store).(now := store.now))
      ensures !(found.Some? && BlocksSameScope(found.value.0, found.value.1, decidedAt)) ==>
                && (result.Some? ==> store.job == Some(result.value.job) && result.value.job.queueStatus == Enqueued)
                && (result.Some? ==> result.value.enqueued)
                && (alone ==> CreatedAndSent(old(store), store, sameRequest, sends, result))
    {
      Await();
      decidedAt := store.now;
      if found.Some? && BlocksSameScope(found.value.0, found.value.1, store.now) {
        return Some(Started(found.value.0, true, found.value.0.queueStatus == Enqueued)), decidedAt;
      }
      result := CreateAndSend(sameRequest, sends);
    }

    /** Creates the job once, sends its message and stores how that went, under the version it holds: a
        consumer that was faster makes the last write fail. None is the error of that, of the send, or of
        a key that was used for another request. */
    method CreateAndSend(sameRequest: bool, sends: bool) returns (result: Option<Started>)
      requires Valid() && at == Idle
      modifies this`store, this`trace, this`at
      ensures Valid() && at == Idle && store.now >= old(store).now
      ensures result.Some? ==> store.job == Some(result.value.job) && result.value.job.queueStatus == Enqueued
      ensures result.Some? ==> result.value.enqueued
      ensures alone ==> CreatedAndSent(old(store), store, sameRequest, sends, result)
    {
      hide StoreOk, LocalOk;
      Await();
      if store.job.Some? && !sameRequest {
        return None;
      }
      ghost var before := store;
      if store.job.None? {
        store := store.(job := Some(Job(Queued, Pending, Enqueue, 0, 1, store.now)));
      }
      var job := store.job.value;
      Record(before, Produce);
      if job.queueStatus == Enqueued {
        return Some(Started(job, true, true));
      }
      var reused := job.queueStatus == EnqueueFailed;
      var updated := SendMessage(job, sends);
      if updated.None? || !sends {
        return None;
      }
      return Some(Started(updated.value, reused, true));
    }

    method SendMessage(job: Job, sends: bool) returns (updated: Option<Job>)
      requires Valid() && at == Producing(job, None)
      modifies this`store, this`trace, this`at
      ensures Valid() && at == Idle && store.now >= old(store).now
      ensures updated.Some? ==>
                store.job == updated && updated.value.queueStatus == (if sends then Enqueued else EnqueueFailed)
      ensures alone ==>
                && updated == Some(job.(queueStatus := if sends then Enqueued else EnqueueFailed,
                                        version := job.version + 1, updatedAt := store.now))
                && store.report == old(store).report && store.runs == old(store).runs
    {
      hide StoreOk, LocalOk;
      Await();
      Record(store, Sent(sends));
      Await();
      ghost var before := store;
      ProduceStep(store, job, sends);
      var changes := NoChange.(queueStatus := Some(if sends then Enqueued else EnqueueFailed));
      updated := TryUpdateJob(job.version, changes);
      Record(before, Go);
    }
  }

  lemma ProduceStep(store: Store, job: Job, sent: bool)
    ensures Step(store, Producing(job, Some(sent)), Go) ==
            (GetOr(UpdateJob(store, job.version, NoChange.(queueStatus := Some(if sent then Enqueued else EnqueueFailed))), store), Idle)
  {
  }

  lemma WorkStep(store: Store, base: Job, job: Job, step: nat, lane: Lane, fence: nat, status: WorkStatus, throws: bool)
    ensures var completed := CompleteRun(store, lane, fence, status);
            Step(store, InStage(base, job, step, RunWork(lane, fence)), Work(Finished(status, throws))) ==
              (GetOr(completed, store),
               if completed.None? then Handling(base, ConflictError)
               else if throws then Handling(base, OtherError)
               else InStage(base, job, step, Recheck(lane)))
  {
  }

  lemma {:induction false} LastRetryCounts(store: Store, l: Local, inputs: seq<Input>)
    ensures RunAgent(store, l, inputs).1 == Done(Retry) != l ==> Retries(store, l, inputs) >= 1
    decreases |inputs|
  {
    if inputs != [] {
      var (after, l') := Step(store, l, inputs[0]);
      LastRetryCounts(after, l', inputs[1..]);
    }
  }
}
