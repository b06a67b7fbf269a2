/** The EC2 job consumer as a state machine. Any number of agents share one store: consumers
    working on deliveries of the same job, and producers that create and enqueue it. Every await in
    the source is a point where other agents may step, so each agent step here is one storage
    operation together with the local code up to the next one. An agent keeps the copies of the job
    that it read earlier; they may be stale. */
module ConsumerProtocol {
  import opened JobModels
  import opened StageLease

  const MAX_RECEIVE_COUNT: nat := 5
  const MAX_STEPS: nat := 8

  // ----- the store

  /** One granted claim. `afterFailure` says the row it replaced had recorded a retryable failure. */
  datatype ClaimRecord = ClaimRecord(
    attempt: nat,
    owner: Owner,
    fence: nat,
    plannedAt: int,
    leaseUntil: int,
    afterFailure: bool)

  /** `report` holds the version of the job from which the stored report was built. `claims` is a
      history of granted claims for stating properties; no decision reads it. */
  datatype Store = Store(
    job: Option<Job>,
    runs: map<Lane, RunRow>,
    report: Option<nat>,
    claims: map<Lane, seq<ClaimRecord>>,
    now: int)

  function RunOf(store: Store, lane: Lane): Option<RunRow> {
    if lane in store.runs then Some(store.runs[lane]) else None
  }

  function ClaimsOf(store: Store, lane: Lane): seq<ClaimRecord> {
    if lane in store.claims then store.claims[lane] else []
  }

  function Proof(store: Store, lane: Lane): ProofState {
    Classify(RunOf(store, lane), store.now)
  }

  /** The named fields of an update; None keeps the stored value. */
  datatype JobChanges = JobChanges(
    status: Option<JobStatus>,
    stage: Option<Stage>,
    retryCount: Option<nat>,
    queueStatus: Option<QueueStatus>)

  function GetOr<T>(o: Option<T>, default: T): T {
    if o.Some? then o.value else default
  }

  function Merge(job: Job, changes: JobChanges, now: int): Job {
    Job(GetOr(changes.status, job.status),
        GetOr(changes.queueStatus, job.queueStatus),
        GetOr(changes.stage, job.stage),
        GetOr(changes.retryCount, job.retryCount),
        job.version + 1,
        now)
  }

  /** The conditional job update: refused (None) unless the stored version is the expected one. */
  function UpdateJob(store: Store, expectedVersion: nat, changes: JobChanges): Option<Store> {
    if store.job.None? || store.job.value.version != expectedVersion then None
    else Some(store.(job := Some(Merge(store.job.value, changes, store.now))))
  }

  /** The conditional claim write for a plan made earlier. */
  function WriteClaim(store: Store, lane: Lane, plan: ClaimPlan): Option<(Store, nat)> {
    var prior := RunOf(store, lane);
    var written := ClaimedRowOf(prior, plan);
    if written.None? then None
    else
      var row := written.value;
      var record := ClaimRecord(plan.attempt, plan.owner, row.version, plan.leaseUntil - LEASE_MS,
                                plan.leaseUntil, prior.Some? && prior.value.status == RunFailed);
      Some((store.(runs := store.runs[lane := row],
                   claims := store.claims[lane := ClaimsOf(store, lane) + [record]]),
            row.version))
  }

  datatype WorkStatus = WorkSucceeded | WorkPartial | WorkFailed(retryable: Option<bool>)

  function FinishedRow(row: RunRow, result: WorkStatus): RunRow {
    row.(status := match result case WorkSucceeded => RunSucceeded case WorkPartial => RunPartial
                               case WorkFailed(_) => RunFailed,
         completed := true,
         lease := None,
         owner := None,
         failureRetryable := Some(result.WorkFailed? && GetOr(result.retryable, true)),
         version := row.version + 1)
  }

  /** The conditional completion write under the fence taken by the claim. */
  function CompleteRun(store: Store, lane: Lane, fence: nat, result: WorkStatus): Option<Store> {
    if lane !in store.runs || store.runs[lane].version != fence then None
    else Some(store.(runs := store.runs[lane := FinishedRow(store.runs[lane], result)]))
  }

  // ----- agents

  /** What an exception means to the failure handler. */
  datatype ErrorKind = RetryableError | ConflictError | ActiveLeaseError | TerminalError | OtherError

  datatype Outcome = Ack | Retry

  /** What a consumer does with the job it loaded, up to the pipeline. */
  datatype Task = Validate | Reject | Claim | Reload | Refresh | Skip

  /** The next storage operation inside the stage loop. */
  datatype Point =
    | Look
    | PlanClaimFor(lane: Lane)
    | WriteClaimOf(lane: Lane, plan: ClaimPlan)
    | Start(lane: Lane, fence: nat)
    | RunWork(lane: Lane, fence: nat)
    | Recheck(lane: Lane)
    | Advance
    | Project
    | SaveReport
    | RereadReport
    | Succeed

  /** Where an agent stands and the local variables it holds. `base` is the job as read before the
      pipeline; the failure handler writes against it. `sent` is set once the queue has answered. */
  datatype Local =
    | Idle
    | Holding(job: Job, task: Task)
    | InStage(base: Job, job: Job, step: nat, point: Point)
    | Handling(base: Job, error: ErrorKind)
    | Exhausting(updated: Job)
    | Done(outcome: Outcome)
    | Producing(job: Job, sent: Option<bool>)

  datatype Verdict = Accepted | RefusedScopeOrAccount | LookupFailed

  datatype WorkResult = Finished(status: WorkStatus, throws: bool) | Thrown

  /** What the outside decides at a step. Deliver and Produce start an agent; Fault makes the next
      operation throw, either before it took effect or after. */
  datatype Input =
    | Deliver
    | Produce
    | Go
    | Judge(verdict: Verdict)
    | Work(result: WorkResult)
    | Sent(ok: bool)
    | Fault(applied: bool)
    | Crash
    | Wait(ms: nat)

  const NoChange: JobChanges := JobChanges(None, None, None, None)

  function ResolveError(proof: ProofState): ErrorKind {
    if proof == FailedPermanent then TerminalError else RetryableError
  }

  /** The lane whose completion a stage needs before it can be left. */
  function GuardLane(stage: Stage): Option<Lane> {
    if stage == GovernanceAnalysis then Some(SecurityLane) else LaneOf(stage)
  }

  function AfterUpdate(store: Store, updated: Option<Store>, next: Job -> Local, refused: Local): (Store, Local) {
    if updated.Some? && updated.value.job.Some? then (updated.value, next(updated.value.job.value))
    else (store, refused)
  }

  // ----- one step per program point

  function StepIdle(store: Store, input: Input): (Store, Local) {
    match input
    case Deliver =>
      (store, if store.job.Some? then Holding(store.job.value, Validate) else Done(Ack))
    case Produce =>
      if store.job.None? then
        var job := Job(Queued, Pending, Enqueue, 0, 1, store.now);
        (store.(job := Some(job)), Producing(job, None))
      else if store.job.value.queueStatus == Enqueued then (store, Idle)
      else (store, Producing(store.job.value, None))
    case _ => (store, Idle)
  }

  function MarkFailed(store: Store, job: Job): Option<Store> {
    UpdateJob(store, job.version, NoChange.(status := Some(Failed), stage := Some(job.stage)))
  }

  function StepValidate(job: Job, input: Input): Local {
    match input
    case Judge(Accepted) => Holding(job, Claim)
    case Judge(RefusedScopeOrAccount) => Holding(job, Reject)
    case Judge(LookupFailed) => Done(Ack)
    case _ => Holding(job, Validate)
  }

  /** A queued job is taken to RUNNING and DISCOVERY; after a lost race the job is loaded again. */
  function StepClaim(store: Store, job: Job): (Store, Local) {
    if job.status != Queued then (store, Holding(job, Refresh))
    else AfterUpdate(
      store,
      UpdateJob(store, job.version, NoChange.(status := Some(Running), stage := Some(Discovery))),
      (j: Job) => Holding(j, Refresh),
      Holding(job, Reload))
  }

  function StepReload(store: Store, job: Job): Local {
    if store.job.Some? then Holding(store.job.value, Refresh) else Handling(job, RetryableError)
  }

  /** Where a delivery goes once it has re-read the job. */
  function Enter(latest: Job): Local {
    if latest.status == Succeeded && latest.stage == Complete then Holding(latest, Skip)
    else if latest.status == Failed then Done(Ack)
    else if latest.status != Running && latest.status != Partial then Handling(latest, TerminalError)
    else InStage(latest, latest, 0, Look)
  }

  function StepRefresh(store: Store, job: Job): Local {
    Enter(GetOr(store.job, job))
  }

  function StepHolding(store: Store, job: Job, task: Task, input: Input): (Store, Local) {
    match task
    case Validate => (store, StepValidate(job, input))
    case Reject => AfterUpdate(store, MarkFailed(store, job), j => Done(Ack), Done(Retry))
    case Claim => StepClaim(store, job)
    case Reload => (store, StepReload(store, job))
    case Refresh => (store, StepRefresh(store, job))
    case Skip => (store, Done(Ack))
  }

  /** The head of the stage loop: the guard, the exits, and the proof of the stage's row. */
  function StepLook(store: Store, base: Job, job: Job, step: nat): Local {
    if step >= MAX_STEPS then Handling(base, RetryableError)
    else if job.status == Succeeded && job.stage == Complete then Done(Ack)
    else if GuardLane(job.stage).Some? then
      var proof := Proof(store, GuardLane(job.stage).value);
      if proof == ProofComplete then InStage(base, job, step, Advance)
      else if proof in {InProgressActive, FailedPermanent, Ambiguous} then Handling(base, ResolveError(proof))
      else if LaneOf(job.stage).Some? then InStage(base, job, step, PlanClaimFor(LaneOf(job.stage).value))
      else Handling(base, RetryableError)
    else if job.stage == Finalizing then InStage(base, job, step, Project)
    else if job.stage == Complete then Done(Ack)
    else Handling(base, TerminalError)
  }

  function StepPlan(store: Store, base: Job, job: Job, step: nat, lane: Lane): Local {
    var result := PlanClaim(lane, RunOf(store, lane), store.now);
    if result.Planned? then InStage(base, job, step, WriteClaimOf(lane, result.plan))
    else Handling(base, if result.error == ActiveLease then ActiveLeaseError else OtherError)
  }

  function StepWriteClaim(store: Store, base: Job, job: Job, step: nat, lane: Lane, plan: ClaimPlan): (Store, Local) {
    var written := WriteClaim(store, lane, plan);
    if written.None? then (store, Handling(base, ConflictError))
    else (written.value.0, InStage(base, job, step, Start(lane, written.value.1)))
  }

  /** The stage's own service re-reads the claimed row before it starts. */
  function StepStart(store: Store, base: Job, job: Job, step: nat, lane: Lane, fence: nat): Local {
    var row := RunOf(store, lane);
    if row.None? || row.value.status != RunRunning || row.value.version != fence
    then Handling(base, OtherError)
    else InStage(base, job, step, RunWork(lane, fence))
  }

  function StepWork(store: Store, base: Job, job: Job, step: nat, lane: Lane, fence: nat, input: Input): (Store, Local) {
    match input
    case Work(Finished(status, throws)) =>
      var completed := CompleteRun(store, lane, fence, status);
      if completed.None? then (store, Handling(base, ConflictError))
      else (completed.value, if throws then Handling(base, OtherError) else InStage(base, job, step, Recheck(lane)))
    case Work(Thrown) => (store, Handling(base, OtherError))
    case _ => (store, InStage(base, job, step, RunWork(lane, fence)))
  }

  function StepRecheck(store: Store, base: Job, job: Job, step: nat, lane: Lane): Local {
    if Proof(store, lane) == ProofComplete then InStage(base, job, step, Advance)
    else Handling(base, RetryableError)
  }

  function StepAdvance(store: Store, base: Job, job: Job, step: nat): (Store, Local) {
    AfterUpdate(
      store,
      UpdateJob(store, job.version, NoChange.(status := Some(job.status), stage := NextStage(job.stage))),
      (j: Job) => InStage(base, j, step + 1, Look),
      Handling(base, ConflictError))
  }

  /** The report is created only if absent, so the first one stored is kept. */
  function StepSaveReport(store: Store, base: Job, job: Job, step: nat): (Store, Local) {
    if store.report.Some? then (store, InStage(base, job, step, RereadReport))
    else (store.(report := Some(job.version)), InStage(base, job, step, Succeed))
  }

  function StepSucceed(store: Store, base: Job, job: Job): (Store, Local) {
    AfterUpdate(
      store,
      UpdateJob(store, job.version, NoChange.(status := Some(Succeeded), stage := Some(Complete))),
      j => Done(Ack),
      Handling(base, ConflictError))
  }

  function StepInStage(store: Store, base: Job, job: Job, step: nat, point: Point, input: Input): (Store, Local) {
    match point
    case Look => (store, StepLook(store, base, job, step))
    case PlanClaimFor(lane) => (store, StepPlan(store, base, job, step, lane))
    case WriteClaimOf(lane, plan) => StepWriteClaim(store, base, job, step, lane, plan)
    case Start(lane, fence) => (store, StepStart(store, base, job, step, lane, fence))
    case RunWork(lane, fence) => StepWork(store, base, job, step, lane, fence, input)
    case Recheck(lane) => (store, StepRecheck(store, base, job, step, lane))
    case Advance => StepAdvance(store, base, job, step)
    case Project =>
      (store, InStage(base, job, step, if store.report.Some? then Succeed else SaveReport))
    case SaveReport => StepSaveReport(store, base, job, step)
    case RereadReport =>
      (store, if store.report.Some? then InStage(base, job, step, Succeed) else Handling(base, RetryableError))
    case Succeed => StepSucceed(store, base, job)
  }

  /** The failure handler: a terminal error fails the job, any other one counts a retry. Both write
      against `base`; a lost write leaves the message to be delivered again. */
  function StepHandling(store: Store, base: Job, error: ErrorKind): (Store, Local) {
    if error == TerminalError then
      AfterUpdate(store, MarkFailed(store, base), j => Done(Ack), Done(Retry))
    else
      AfterUpdate(
        store,
        UpdateJob(store, base.version, NoChange.(retryCount := Some(base.retryCount + 1))),
        (j: Job) => if j.retryCount >= MAX_RECEIVE_COUNT then Exhausting(j) else Done(Retry),
        Done(Retry))
  }

  function StepProducing(store: Store, job: Job, sent: Option<bool>, input: Input): (Store, Local) {
    if sent.None? then (store, Producing(job, if input.Sent? then Some(input.ok) else None))
    else AfterUpdate(
      store,
      UpdateJob(store, job.version,
                NoChange.(queueStatus := Some(if sent.value then Enqueued else EnqueueFailed))),
      j => Idle,
      Idle)
  }

  /** The step of an agent when nothing goes wrong underneath it. */
  function Proceed(store: Store, l: Local, input: Input): (Store, Local) {
    match l
    case Idle => StepIdle(store, input)
    case Holding(job, task) => StepHolding(store, job, task, input)
    case InStage(base, job, step, point) => StepInStage(store, base, job, step, point, input)
    case Handling(base, error) => StepHandling(store, base, error)
    case Exhausting(updated) => AfterUpdate(store, MarkFailed(store, updated), j => Done(Ack), Done(Retry))
    case Done(_) => (store, Idle)
    case Producing(job, sent) => StepProducing(store, job, sent, input)
  }

  /** Where an exception thrown at a program point is caught. */
  function OnThrow(l: Local): Local {
    match l
    case Idle => Done(Retry)
    case Holding(job, task) =>
      if task == Validate || task == Reject then Done(Retry) else Handling(job, OtherError)
    case InStage(base, _, _, _) => Handling(base, OtherError)
    case Handling(_, _) => Done(Retry)
    case Exhausting(_) => Done(Retry)
    case Done(_) => l
    case Producing(_, _) => Idle
  }

  function Step(store: Store, l: Local, input: Input): (Store, Local) {
    match input
    case Crash => (store, Idle)
    case Wait(ms) => (store.(now := store.now + ms), l)
    case Fault(false) => (store, OnThrow(l))
    case Fault(true) => (Proceed(store, l, Go).0, OnThrow(l))
    case _ => Proceed(store, l, input)
  }

  // ----- the whole system

  datatype System = System(store: Store, agents: seq<Local>)

  datatype Event = Event(agent: nat, input: Input)

  function Apply(s: System, e: Event): System {
    if e.agent >= |s.agents| then s
    else
      var (store, l) := Step(s.store, s.agents[e.agent], e.input);
      System(store, s.agents[e.agent := l])
  }

  function Exec(s: System, events: seq<Event>): System
    decreases |events|
  {
    if events == [] then s else Exec(Apply(s, events[0]), events[1..])
  }

  predicate Initial(s: System) {
    && s.store.job.None? && s.store.runs == map[] && s.store.report.None? && s.store.claims == map[]
    && forall i :: 0 <= i < |s.agents| ==> s.agents[i] == Idle
  }

  ghost predicate Reachable(s: System) {
    exists start, events :: Initial(start) && Exec(start, events) == s
  }
}
