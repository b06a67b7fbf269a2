/** That deliveries come to an end: one delivery by a lone consumer, on storage without faults, with
    each stage's service doing as it is told. */
module DeliveryProgress {
  import opened JobModels
  import opened StageLease
  import opened ConsumerProtocol
  import opened ProtocolSafety
  import opened DeliveryBound

  type Services = Lane -> WorkResult

  /** What a delivery is answered: the scope is accepted, and the services do as `work` says. */
  function Answer(l: Local, work: Services): Input {
    match l
    case Idle => Deliver
    case Holding(_, Validate) => Judge(Accepted)
    case InStage(_, _, _, RunWork(lane, _)) => Work(work(lane))
    case _ => Go
  }

  /** At most n steps of it; a delivery stops at its outcome. */
  function Undisturbed(store: Store, l: Local, work: Services, n: nat): (Store, Local)
    decreases n
  {
    if n == 0 || l.Done? then (store, l)
    else var (after, l') := Step(store, l, Answer(l, work)); Undisturbed(after, l', work, n - 1)
  }

  predicate Succeeds(result: WorkResult) {
    result.Finished? && !result.status.WorkFailed? && !result.throws
  }

  /** The stage is done, or it can be claimed and its service succeeds, in full or in part. */
  predicate LaneReady(store: Store, lane: Lane, work: Services) {
    Proof(store, lane) == ProofComplete || (RequiresClaim(Proof(store, lane)) && Succeeds(work(lane)))
  }

  /** So it is for every stage the job has yet to leave. */
  predicate Ready(store: Store, job: Job, work: Services) {
    forall lane :: Rank(StageOf(lane)) >= Rank(job.stage) ==> LaneReady(store, lane, work)
  }

  predicate IsFinished(store: Store) {
    store.job.Some? && store.job.value.status == Succeeded && store.job.value.stage == Complete
  }

  // ----- chaining steps

  ghost predicate Reaches(a: (Store, Local), work: Services, n: nat, b: (Store, Local)) {
    Undisturbed(a.0, a.1, work, n) == b
  }

  lemma Stays(a: (Store, Local), work: Services)
    ensures Reaches(a, work, 0, a)
  {
  }

  lemma {:induction false} ReachesFurther(a: (Store, Local), work: Services, n: nat, b: (Store, Local), m: nat, c: (Store, Local))
    requires Reaches(a, work, n, b) && Reaches(b, work, m, c)
    ensures Reaches(a, work, n + m, c)
    decreases n
  {
    if n > 0 && !a.1.Done? {
      ReachesFurther(Step(a.0, a.1, Answer(a.1, work)), work, n - 1, b, m, c);
    }
  }

  lemma ReachesOn(a: (Store, Local), work: Services, n: nat, b: (Store, Local))
    requires Reaches(a, work, n, b) && !b.1.Done?
    ensures Reaches(a, work, n + 1, Step(b.0, b.1, Answer(b.1, work)))
  {
    var c := Step(b.0, b.1, Answer(b.1, work));
    assert Undisturbed(c.0, c.1, work, 0) == c;
    assert Reaches(b, work, 1, c);
    ReachesFurther(a, work, n, b, 1, c);
  }

  /** An outcome does not change. */
  lemma OutcomeStays(a: (Store, Local), work: Services, n: nat, b: (Store, Local), more: nat)
    requires Reaches(a, work, n, b) && b.1.Done?
    ensures Reaches(a, work, n + more, b)
  {
    ReachesFurther(a, work, n, b, more, b);
  }

  // ----- what holds along the way

  ghost predicate Sound(a: (Store, Local)) {
    StoreOk(a.0) && LocalOk(a.0, a.1) && Alone(a.0, a.1)
    && (a.1 == Done(Ack) ==> a.0.job.None? || Terminal(a.0))
  }

  lemma AnswerIsFaultFree(l: Local, work: Services)
    ensures !Answer(l, work).Fault? && Answer(l, work) != Judge(LookupFailed)
  {
  }

  lemma SoundStep(a: (Store, Local), work: Services)
    requires Sound(a) && !a.1.Done?
    ensures Sound(Step(a.0, a.1, Answer(a.1, work)))
  {
    AnswerIsFaultFree(a.1, work);
    hide Answer, StoreOk, LocalOk, Alone, Terminal;
    StepPays(a.0, a.1, Answer(a.1, work));
    AgentStepOk(a.0, a.1, Answer(a.1, work));
  }

  lemma {:induction false} SoundRun(a: (Store, Local), work: Services, n: nat)
    requires Sound(a)
    ensures Sound(Undisturbed(a.0, a.1, work, n))
    decreases n
  {
    hide Sound;
    if n > 0 && !a.1.Done? {
      SoundStep(a, work);
      SoundRun(Step(a.0, a.1, Answer(a.1, work)), work, n - 1);
    }
  }

  // ----- one stage

  predicate AtStage(store: Store, job: Job, step: nat) {
    store.job == Some(job) && job.status == Running && 1 <= Rank(job.stage) <= 5 && step < MAX_STEPS
  }

  /** The job has moved on by one stage and every other row is as it was. */
  predicate Moved(store: Store, job: Job, after: Store, job': Job) {
    && after.job == Some(job') && job'.status == Running && job'.retryCount == job.retryCount
    && NextStage(job.stage) == Some(job'.stage)
    && after.now == store.now
    && forall lane :: Some(lane) != LaneOf(job.stage) ==> RunOf(after, lane) == RunOf(store, lane)
  }

  lemma AdvanceMoves(store: Store, base: Job, job: Job, step: nat) returns (after: Store, job': Job)
    requires AtStage(store, job, step) && job.stage != Finalizing
    ensures Step(store, InStage(base, job, step, Advance), Go) == (after, InStage(base, job', step + 1, Look))
    ensures Moved(store, job, after, job') && after.runs == store.runs
  {
    after := UpdateJob(store, job.version, NoChange.(status := Some(job.status), stage := NextStage(job.stage))).value;
    job' := after.job.value;
  }

  lemma CompleteMoves(store: Store, base: Job, job: Job, step: nat, work: Services) returns (after: Store, job': Job)
    requires AtStage(store, job, step) && GuardLane(job.stage).Some? && Proof(store, GuardLane(job.stage).value) == ProofComplete
    ensures Reaches((store, InStage(base, job, step, Look)), work, 2, (after, InStage(base, job', step + 1, Look)))
    ensures Moved(store, job, after, job')
  {
    var start := (store, InStage(base, job, step, Look));
    Stays(start, work);
    ReachesOn(start, work, 0, start);
    ReachesOn(start, work, 1, (store, InStage(base, job, step, Advance)));
    after, job' := AdvanceMoves(store, base, job, step);
  }

  lemma ClaimedInFour(store: Store, base: Job, job: Job, step: nat, lane: Lane, work: Services)
    returns (after: Store, fence: nat)
    requires AtStage(store, job, step) && LaneOf(job.stage) == Some(lane) && RequiresClaim(Proof(store, lane))
    ensures Reaches((store, InStage(base, job, step, Look)), work, 4, (after, InStage(base, job, step, RunWork(lane, fence))))
    ensures after.job == store.job && after.now == store.now
    ensures lane in after.runs && after.runs[lane].version == fence
    ensures forall other :: other != lane ==> RunOf(after, other) == RunOf(store, other)
  {
    var start := (store, InStage(base, job, step, Look));
    var plan := PlanClaim(lane, RunOf(store, lane), store.now).plan;
    Stays(start, work);
    ReachesOn(start, work, 0, start);
    ReachesOn(start, work, 1, (store, InStage(base, job, step, PlanClaimFor(lane))));
    ReachesOn(start, work, 2, (store, InStage(base, job, step, WriteClaimOf(lane, plan))));
    after, fence := WriteClaim(store, lane, plan).value.0, WriteClaim(store, lane, plan).value.1;
    ReachesOn(start, work, 3, (after, InStage(base, job, step, Start(lane, fence))));
  }

  lemma WorkMoves(store: Store, base: Job, job: Job, step: nat, lane: Lane, fence: nat, work: Services)
    returns (after: Store, job': Job)
    requires AtStage(store, job, step) && LaneOf(job.stage) == Some(lane) && Succeeds(work(lane))
    requires lane in store.runs && store.runs[lane].version == fence
    ensures Reaches((store, InStage(base, job, step, RunWork(lane, fence))), work, 3, (after, InStage(base, job', step + 1, Look)))
    ensures Moved(store, job, after, job')
  {
    var start := (store, InStage(base, job, step, RunWork(lane, fence)));
    var completed := CompleteRun(store, lane, fence, work(lane).status).value;
    Stays(start, work);
    ReachesOn(start, work, 0, start);
    ReachesOn(start, work, 1, (completed, InStage(base, job, step, Recheck(lane))));
    ReachesOn(start, work, 2, (completed, InStage(base, job, step, Advance)));
    after, job' := AdvanceMoves(completed, base, job, step);
  }

  lemma WorkFails(store: Store, base: Job, job: Job, step: nat, lane: Lane, fence: nat, work: Services)
    returns (n: nat, after: Store, error: ErrorKind)
    requires AtStage(store, job, step) && !Succeeds(work(lane))
    requires lane in store.runs && store.runs[lane].version == fence
    ensures n <= 2 && Reaches((store, InStage(base, job, step, RunWork(lane, fence))), work, n, (after, Handling(base, error)))
    ensures after.job == store.job
  {
    var start := (store, InStage(base, job, step, RunWork(lane, fence)));
    Stays(start, work);
    ReachesOn(start, work, 0, start);
    if work(lane).Thrown? {
      n, after, error := 1, store, OtherError;
    } else {
      after := CompleteRun(store, lane, fence, work(lane).status).value;
      if work(lane).throws {
        n, error := 1, OtherError;
      } else {
        n, error := 2, RetryableError;
        ReachesOn(start, work, 1, (after, InStage(base, job, step, Recheck(lane))));
      }
    }
  }

  /** A stage that is ready is left within seven steps. */
  lemma StageMoves(store: Store, base: Job, job: Job, step: nat, lane: Lane, work: Services)
    returns (n: nat, after: Store, job': Job)
    requires AtStage(store, job, step) && LaneOf(job.stage) == Some(lane) && LaneReady(store, lane, work)
    ensures n <= 7 && Reaches((store, InStage(base, job, step, Look)), work, n, (after, InStage(base, job', step + 1, Look)))
    ensures Moved(store, job, after, job')
  {
    hide Reaches;
    if Proof(store, lane) == ProofComplete {
      n := 2;
      after, job' := CompleteMoves(store, base, job, step, work);
    } else {
      n := 7;
      var claimed, fence := ClaimedInFour(store, base, job, step, lane, work);
      after, job' := WorkMoves(claimed, base, job, step, lane, fence, work);
      ReachesFurther((store, InStage(base, job, step, Look)), work, 4,
                     (claimed, InStage(base, job, step, RunWork(lane, fence))), 3,
                     (after, InStage(base, job', step + 1, Look)));
    }
  }

  /** And one that is not ready ends in the failure handler within six. */
  lemma StageFails(store: Store, base: Job, job: Job, step: nat, lane: Lane, work: Services)
    returns (n: nat, after: Store, error: ErrorKind)
    requires AtStage(store, job, step) && LaneOf(job.stage) == Some(lane) && !LaneReady(store, lane, work)
    ensures n <= 6 && Reaches((store, InStage(base, job, step, Look)), work, n, (after, Handling(base, error)))
    ensures after.job == store.job
  {
    hide Reaches;
    var start := (store, InStage(base, job, step, Look));
    if RequiresClaim(Proof(store, lane)) {
      var claimed, fence := ClaimedInFour(store, base, job, step, lane, work);
      n, after, error := WorkFails(claimed, base, job, step, lane, fence, work);
      ReachesFurther(start, work, 4, (claimed, InStage(base, job, step, RunWork(lane, fence))), n, (after, Handling(base, error)));
      n := 4 + n;
    } else {
      n, after, error := 1, store, ResolveError(Proof(store, lane));
      Stays(start, work);
      ReachesOn(start, work, 0, start);
    }
  }

  /** The handler ends within two steps and never finishes the job. */
  lemma HandlerEnds(store: Store, base: Job, error: ErrorKind, work: Services) returns (n: nat, end: (Store, Local))
    requires store.job.Some? && store.job.value.status == Running
    ensures n <= 2 && Reaches((store, Handling(base, error)), work, n, end) && end.1.Done?
    ensures end.0.job.Some? && !IsFinished(end.0)
  {
    var start := (store, Handling(base, error));
    Stays(start, work);
    ReachesOn(start, work, 0, start);
    n, end := 1, Step(store, Handling(base, error), Go);
    if end.1.Exhausting? {
      ReachesOn(start, work, 1, end);
      n, end := 2, Step(end.0, end.1, Go);
    }
  }

  lemma FinalizingEnds(store: Store, base: Job, job: Job, step: nat, work: Services) returns (n: nat, end: (Store, Local))
    requires AtStage(store, job, step) && job.stage == Finalizing
    ensures n <= 4 && Reaches((store, InStage(base, job, step, Look)), work, n, end) && end.1.Done?
    ensures IsFinished(end.0) && end.0.job.value.retryCount == job.retryCount
  {
    var start := (store, InStage(base, job, step, Look));
    Stays(start, work);
    ReachesOn(start, work, 0, start);
    ReachesOn(start, work, 1, (store, InStage(base, job, step, Project)));
    var reported := store;
    n := 3;
    if store.report.None? {
      ReachesOn(start, work, 2, (store, InStage(base, job, step, SaveReport)));
      reported := store.(report := Some(job.version));
      n := 4;
    }
    var last := (reported, InStage(base, job, step, Succeed));
    end := Step(last.0, last.1, Go);
    ReachesOn(start, work, n - 1, last);
  }

  // ----- the whole delivery

  /** The steps from the head of the stage loop to the outcome. */
  function LoopSteps(stage: Stage): nat {
    match stage
    case Discovery => 27
    case CostAnalysis => 20
    case SecurityAnalysis => 13
    case GovernanceAnalysis => 6
    case _ => 4
  }

  /** The delivery has its outcome, and the job is finished, with its retries as they were, exactly if it
      was ready to be. */
  predicate EndsAs(end: (Store, Local), job: Job, ready: bool) {
    && end.1.Done?
    && end.0.job.Some?
    && (IsFinished(end.0) <==> ready)
    && (ready ==> end.0.job.value.retryCount == job.retryCount)
  }

  lemma ReadyMoves(store: Store, job: Job, after: Store, job': Job, work: Services)
    requires Moved(store, job, after, job')
    requires LaneOf(job.stage).Some? ==> LaneReady(store, LaneOf(job.stage).value, work)
    ensures Ready(store, job, work) <==> Ready(after, job', work)
  {
    assert Rank(job'.stage) == Rank(job.stage) + 1;
    forall lane | Rank(StageOf(lane)) >= Rank(job'.stage)
      ensures LaneReady(store, lane, work) <==> LaneReady(after, lane, work)
    {
    }
    forall lane | Rank(StageOf(lane)) == Rank(job.stage) ensures LaneOf(job.stage) == Some(lane) {
    }
  }

  lemma NotReady(store: Store, job: Job, lane: Lane, work: Services)
    requires LaneOf(job.stage) == Some(lane) && !LaneReady(store, lane, work)
    ensures !Ready(store, job, work)
  {
    assert StageOf(lane) == job.stage;
  }

  lemma LoopFails(store: Store, base: Job, job: Job, step: nat, lane: Lane, work: Services) returns (end: (Store, Local))
    requires AtStage(store, job, step) && LaneOf(job.stage) == Some(lane) && !LaneReady(store, lane, work)
    ensures Reaches((store, InStage(base, job, step, Look)), work, LoopSteps(job.stage), end)
    ensures EndsAs(end, job, Ready(store, job, work))
  {
    NotReady(store, job, lane, work);
    hide Reaches, Ready, LaneReady;
    var n, after, error := StageFails(store, base, job, step, lane, work);
    var m;
    m, end := HandlerEnds(after, base, error, work);
    EndsWithin((store, InStage(base, job, step, Look)), work, n, (after, Handling(base, error)), m, end, LoopSteps(job.stage));
  }

  lemma LoopMoves(store: Store, base: Job, job: Job, step: nat, work: Services)
    returns (n: nat, after: Store, job': Job)
    requires AtStage(store, job, step) && job.stage != Finalizing
    requires job.stage == GovernanceAnalysis ==> Proof(store, SecurityLane) == ProofComplete
    requires LaneOf(job.stage).Some? ==> LaneReady(store, LaneOf(job.stage).value, work)
    ensures Reaches((store, InStage(base, job, step, Look)), work, n, (after, InStage(base, job', step + 1, Look)))
    ensures n + LoopSteps(job'.stage) <= LoopSteps(job.stage) && Moved(store, job, after, job')
    ensures job'.retryCount == job.retryCount && Rank(job'.stage) == Rank(job.stage) + 1
    ensures Ready(store, job, work) <==> Ready(after, job', work)
  {
    hide Reaches, LaneReady;
    var lane := LaneOf(job.stage);
    if lane.Some? {
      n, after, job' := StageMoves(store, base, job, step, lane.value, work);
    } else {
      n := 2;
      after, job' := CompleteMoves(store, base, job, step, work);
    }
    ReadyMoves(store, job, after, job', work);
  }

  lemma {:induction false} LoopEnds(store: Store, base: Job, job: Job, step: nat, work: Services)
    returns (end: (Store, Local))
    requires Sound((store, InStage(base, job, step, Look)))
    ensures Reaches((store, InStage(base, job, step, Look)), work, LoopSteps(job.stage), end)
    ensures EndsAs(end, job, Ready(store, job, work))
    decreases 6 - Rank(job.stage)
  {
    var start := (store, InStage(base, job, step, Look));
    var lane := LaneOf(job.stage);
    InLoop(store, base, job, step);
    hide Reaches, Sound, Ready, LaneReady, Proof, IsFinished, LoopSteps;
    if job.stage == Finalizing {
      end := LoopFinishes(store, base, job, step, work);
    } else if lane.Some? && !LaneReady(store, lane.value, work) {
      end := LoopFails(store, base, job, step, lane.value, work);
    } else {
      var n, after, job' := LoopMoves(store, base, job, step, work);
      var next := (after, InStage(base, job', step + 1, Look));
      SoundReached(start, work, n, next);
      end := LoopEnds(after, base, job', step + 1, work);
      EndsWithin(start, work, n, next, LoopSteps(job'.stage), end, LoopSteps(job.stage));
    }
  }

  lemma LoopFinishes(store: Store, base: Job, job: Job, step: nat, work: Services) returns (end: (Store, Local))
    requires AtStage(store, job, step) && job.stage == Finalizing
    ensures Reaches((store, InStage(base, job, step, Look)), work, LoopSteps(job.stage), end)
    ensures EndsAs(end, job, Ready(store, job, work))
  {
    AllStagesLeft(store, job, work);
    hide Reaches, Ready;
    var n;
    n, end := FinalizingEnds(store, base, job, step, work);
    OutcomeStays((store, InStage(base, job, step, Look)), work, n, end, 4 - n);
  }

  lemma EndsWithin(a: (Store, Local), work: Services, n: nat, b: (Store, Local), m: nat, end: (Store, Local), total: nat)
    requires Reaches(a, work, n, b) && Reaches(b, work, m, end) && end.1.Done? && n + m <= total
    ensures Reaches(a, work, total, end)
  {
    hide Reaches;
    ReachesFurther(a, work, n, b, m, end);
    OutcomeStays(a, work, n + m, end, total - n - m);
  }

  lemma InLoop(store: Store, base: Job, job: Job, step: nat)
    requires Sound((store, InStage(base, job, step, Look)))
    ensures AtStage(store, job, step) && (base.version == job.version ==> base == job)
    ensures job.stage == GovernanceAnalysis ==> Proof(store, SecurityLane) == ProofComplete
  {
  }

  lemma AllStagesLeft(store: Store, job: Job, work: Services)
    requires Rank(job.stage) >= Rank(Finalizing)
    ensures Ready(store, job, work)
  {
  }

  lemma SoundReached(a: (Store, Local), work: Services, n: nat, b: (Store, Local))
    requires Sound(a) && Reaches(a, work, n, b)
    ensures Sound(b)
  {
    SoundRun(a, work, n);
  }

  const DELIVERY_STEPS: nat := 31

  /** A delivery without faults or crashes comes to its outcome within 31 steps. It leaves the job finished,
      with its retries as they were, exactly if the job was not FAILED and each stage it had yet to leave was
      done or could be claimed and done; and it is acknowledged exactly if the job is then terminal. */
  lemma DeliveryFinishesIff(store: Store, job: Job, work: Services)
    requires StoreOk(store) && store.job == Some(job)
    ensures var end := Undisturbed(store, Idle, work, DELIVERY_STEPS);
            && EndsAs(end, job, job.status != Failed && Ready(store, job, work))
            && (end.1 == Done(Ack) <==> Terminal(end.0))
  {
    var start, end := (store, Idle), (store, Idle);
    assert Sound(start);
    hide Reaches, Sound, Ready, IsFinished;
    if job.status in {Queued, Running} {
      end := LiveDelivery(store, job, work);
    } else {
      var n;
      n, end := Skipped(store, job, work);
      EndsWithin(start, work, 0, start, n, end, DELIVERY_STEPS) by { Stays(start, work); }
    }
    SoundReached(start, work, DELIVERY_STEPS, end);
    AcknowledgedIff(end);
    assert Undisturbed(store, Idle, work, DELIVERY_STEPS) == end by { ReachedIs(start, work, DELIVERY_STEPS, end); }
  }

  lemma ReachedIs(a: (Store, Local), work: Services, n: nat, b: (Store, Local))
    requires Reaches(a, work, n, b)
    ensures Undisturbed(a.0, a.1, work, n) == b
  {
  }

  lemma AcknowledgedIff(end: (Store, Local))
    requires Sound(end) && end.1.Done? && end.0.job.Some?
    ensures end.1 == Done(Ack) <==> Terminal(end.0)
  {
  }

  lemma LiveDelivery(store: Store, job: Job, work: Services) returns (end: (Store, Local))
    requires StoreOk(store) && store.job == Some(job) && job.status in {Queued, Running}
    ensures Reaches((store, Idle), work, DELIVERY_STEPS, end)
    ensures EndsAs(end, job, Ready(store, job, work))
  {
    var start := (store, Idle);
    assert Sound(start);
    var entered, job' := Enters(store, job, work);
    var looking := (entered, InStage(job', job', 0, Look));
    SoundReached(start, work, 4, looking);
    hide Reaches, Sound, StoreOk, Ready, LoopSteps;
    end := LoopEnds(entered, job', job', 0, work);
    EndsWithin(start, work, 4, looking, LoopSteps(job'.stage), end, DELIVERY_STEPS);
  }

  lemma Enters(store: Store, job: Job, work: Services) returns (after: Store, job': Job)
    requires StoreOk(store) && store.job == Some(job) && job.status in {Queued, Running}
    ensures Reaches((store, Idle), work, 4, (after, InStage(job', job', 0, Look)))
    ensures after.job == Some(job') && job'.status == Running && job'.retryCount == job.retryCount
    ensures after.runs == store.runs && after.now == store.now
    ensures job'.stage == if job.status == Queued then Discovery else job.stage
    ensures Ready(store, job, work) <==> Ready(after, job', work)
    ensures LoopSteps(job'.stage) <= 27
  {
    var start := (store, Idle);
    Stays(start, work);
    ReachesOn(start, work, 0, start);
    ReachesOn(start, work, 1, (store, Holding(job, Validate)));
    var claimed := Step(store, Holding(job, Claim), Go);
    ReachesOn(start, work, 2, (store, Holding(job, Claim)));
    ReachesOn(start, work, 3, claimed);
    after, job' := claimed.0, claimed.0.job.value;
    forall lane ensures LaneReady(store, lane, work) <==> LaneReady(after, lane, work) {
    }
  }

  lemma Skipped(store: Store, job: Job, work: Services) returns (n: nat, end: (Store, Local))
    requires StoreOk(store) && store.job == Some(job) && job.status !in {Queued, Running}
    ensures n <= 5 && Reaches((store, Idle), work, n, end) && end.0 == store && end.1 == Done(Ack)
    ensures IsFinished(store) <==> job.status != Failed
    ensures job.status != Failed ==> Ready(store, job, work)
  {
    var start := (store, Idle);
    Stays(start, work);
    ReachesOn(start, work, 0, start);
    ReachesOn(start, work, 1, (store, Holding(job, Validate)));
    ReachesOn(start, work, 2, (store, Holding(job, Claim)));
    ReachesOn(start, work, 3, (store, Holding(job, Refresh)));
    n, end := 4, (store, Done(Ack));
    if job.status == Succeeded {
      n := 5;
      ReachesOn(start, work, 4, (store, Holding(job, Skip)));
    }
  }

  // ----- a failed stage, and the delivery after it

  /** The service of this stage ends in a recorded failure. */
  predicate Fails(result: WorkResult) { result.Finished? && result.status.WorkFailed? && !result.throws }

  /** Every stage before that of the lane is ready; that of the lane is claimed, and its service fails. */
  predicate FailsAt(store: Store, job: Job, lane: Lane, work: Services) {
    && Rank(StageOf(lane)) >= Rank(job.stage)
    && RequiresClaim(Proof(store, lane)) && Fails(work(lane))
    && forall earlier :: Rank(job.stage) <= Rank(StageOf(earlier)) < Rank(StageOf(lane)) ==> LaneReady(store, earlier, work)
  }

  /** The delivery ends in a retry at the stage of the lane; its row says how the work ended, and the rows of
      later stages are as they were. */
  predicate StoppedAt(store: Store, end: (Store, Local), lane: Lane, work: Services)
    requires work(lane).Finished?
  {
    && end.1 == Done(Retry)
    && end.0.job.Some? && end.0.job.value.status == Running && end.0.job.value.stage == StageOf(lane)
    && Ended(end.0, lane, work(lane).status)
    && end.0.now == store.now
    && forall later :: Rank(StageOf(later)) > Rank(StageOf(lane)) ==> RunOf(end.0, later) == RunOf(store, later)
  }

  lemma WorkEndsIn(store: Store, base: Job, job: Job, step: nat, lane: Lane, work: Services) returns (after: Store)
    requires AtStage(store, job, step) && LaneOf(job.stage) == Some(lane)
    requires RequiresClaim(Proof(store, lane)) && Fails(work(lane))
    ensures Reaches((store, InStage(base, job, step, Look)), work, 6, (after, Handling(base, RetryableError)))
    ensures after.job == store.job && after.now == store.now && Ended(after, lane, work(lane).status)
    ensures forall other :: other != lane ==> RunOf(after, other) == RunOf(store, other)
  {
    hide Reaches;
    var start := (store, InStage(base, job, step, Look));
    var claimed, fence := ClaimedInFour(store, base, job, step, lane, work);
    ReachesOn(start, work, 4, (claimed, InStage(base, job, step, RunWork(lane, fence))));
    CompletionTold(claimed, lane, fence, work(lane).status);
    after := CompleteRun(claimed, lane, fence, work(lane).status).value;
    ReachesOn(start, work, 5, (after, InStage(base, job, step, Recheck(lane))));
  }

  /** A retryable error ends the delivery in a retry while retries are left to count. */
  lemma RetriedOnce(store: Store, base: Job, job: Job, work: Services) returns (after: Store)
    requires store.job == Some(job) && job.status == Running && job.retryCount + 1 < MAX_RECEIVE_COUNT
    requires base.version == job.version ==> base == job
    ensures Reaches((store, Handling(base, RetryableError)), work, 1, (after, Done(Retry)))
    ensures after.job.Some? && after.job.value.status == Running && after.job.value.stage == job.stage
    ensures after.runs == store.runs && after.now == store.now
  {
    var start := (store, Handling(base, RetryableError));
    Stays(start, work);
    ReachesOn(start, work, 0, start);
    after := Step(store, Handling(base, RetryableError), Go).0;
  }

  lemma StopsHere(store: Store, base: Job, job: Job, step: nat, lane: Lane, work: Services) returns (end: (Store, Local))
    requires AtStage(store, job, step) && LaneOf(job.stage) == Some(lane) && job.retryCount + 1 < MAX_RECEIVE_COUNT
    requires base.version == job.version ==> base == job
    requires FailsAt(store, job, lane, work)
    ensures Reaches((store, InStage(base, job, step, Look)), work, LoopSteps(job.stage), end)
    ensures StoppedAt(store, end, lane, work)
  {
    hide Reaches, Proof;
    var failed := WorkEndsIn(store, base, job, step, lane, work);
    var after := RetriedOnce(failed, base, job, work);
    end := (after, Done(Retry));
    EndsWithin((store, InStage(base, job, step, Look)), work, 6, (failed, Handling(base, RetryableError)), 1, end, LoopSteps(job.stage));
    RowsDecide(failed, after, lane);
    assert Ended(after, lane, work(lane).status);
    forall later | Rank(StageOf(later)) > Rank(StageOf(lane)) ensures RunOf(after, later) == RunOf(store, later) {
      assert later != lane;
    }
  }

  lemma RowsDecide(a: Store, b: Store, lane: Lane)
    requires a.runs == b.runs && a.now == b.now
    ensures Proof(a, lane) == Proof(b, lane)
  {
  }

  lemma {:induction false} LoopStops(store: Store, base: Job, job: Job, step: nat, lane: Lane, work: Services)
    returns (end: (Store, Local))
    requires Sound((store, InStage(base, job, step, Look))) && FailsAt(store, job, lane, work)
    requires job.retryCount + 1 < MAX_RECEIVE_COUNT
    ensures Reaches((store, InStage(base, job, step, Look)), work, LoopSteps(job.stage), end)
    ensures StoppedAt(store, end, lane, work)
    decreases 6 - Rank(job.stage)
  {
    var start := (store, InStage(base, job, step, Look));
    InLoop(store, base, job, step);
    hide Reaches, Sound, FailsAt, LaneReady, Proof, StoppedAt, Moved, LoopSteps, Ready;
    if LaneOf(job.stage) == Some(lane) {
      end := StopsHere(store, base, job, step, lane, work);
    } else {
      StageIsReady(store, job, lane, work);
      var n, after, job' := LoopMoves(store, base, job, step, work);
      var next := (after, InStage(base, job', step + 1, Look));
      FailsLater(store, job, after, job', lane, work);
      SoundReached(start, work, n, next);
      end := LoopStops(after, base, job', step + 1, lane, work);
      EndsWithin(start, work, n, next, LoopSteps(job'.stage), end, LoopSteps(job.stage));
      StoppedBefore(store, job, after, job', end, lane, work);
    }
  }

  lemma StageIsReady(store: Store, job: Job, lane: Lane, work: Services)
    requires FailsAt(store, job, lane, work) && LaneOf(job.stage) != Some(lane) && Rank(job.stage) >= 1
    ensures LaneOf(job.stage).Some? && LaneReady(store, LaneOf(job.stage).value, work)
    ensures Rank(job.stage) < Rank(StageOf(lane))
  {
    assert Rank(job.stage) != Rank(StageOf(lane));
    hide LaneReady;
  }

  lemma FailsLater(store: Store, job: Job, after: Store, job': Job, lane: Lane, work: Services)
    requires Moved(store, job, after, job') && FailsAt(store, job, lane, work) && Rank(job.stage) < Rank(StageOf(lane))
    ensures FailsAt(after, job', lane, work)
  {
    assert Rank(job'.stage) == Rank(job.stage) + 1;
    assert RunOf(after, lane) == RunOf(store, lane);
    forall earlier | Rank(job'.stage) <= Rank(StageOf(earlier)) < Rank(StageOf(lane)) ensures LaneReady(after, earlier, work) {
      assert RunOf(after, earlier) == RunOf(store, earlier) && LaneReady(store, earlier, work);
    }
  }

  lemma StoppedBefore(store: Store, job: Job, after: Store, job': Job, end: (Store, Local), lane: Lane, work: Services)
    requires Moved(store, job, after, job') && Rank(job.stage) < Rank(StageOf(lane))
    requires work(lane).Finished? && StoppedAt(after, end, lane, work)
    ensures StoppedAt(store, end, lane, work)
  {
    hide Ended;
    forall later | Rank(StageOf(later)) > Rank(StageOf(lane)) ensures RunOf(end.0, later) == RunOf(store, later) {
      assert RunOf(after, later) == RunOf(store, later);
    }
  }

  /** A delivery whose service fails at a stage, with a retry left to count, ends in a retry at that stage. */
  lemma DeliveryStops(store: Store, job: Job, lane: Lane, work: Services)
    requires StoreOk(store) && store.job == Some(job) && job.status in {Queued, Running}
    requires job.retryCount + 1 < MAX_RECEIVE_COUNT && FailsAt(store, job, lane, work)
    ensures StoppedAt(store, Undisturbed(store, Idle, work, DELIVERY_STEPS), lane, work)
  {
    var start := (store, Idle);
    assert Sound(start);
    var entered, job' := Enters(store, job, work);
    var looking := (entered, InStage(job', job', 0, Look));
    FailsStill(store, job, entered, job', lane, work);
    hide Sound, StoreOk, LoopSteps, FailsAt, Undisturbed;
    SoundReached(start, work, 4, looking);
    var end := LoopStops(entered, job', job', 0, lane, work);
    EndsWithin(start, work, 4, looking, LoopSteps(job'.stage), end, DELIVERY_STEPS);
    assert Undisturbed(store, Idle, work, DELIVERY_STEPS) == end;
  }

  lemma FailsStill(store: Store, job: Job, entered: Store, job': Job, lane: Lane, work: Services)
    requires FailsAt(store, job, lane, work)
    requires entered.runs == store.runs && entered.now == store.now
    requires job'.stage == if job.status == Queued then Discovery else job.stage
    requires job.status == Queued ==> job.stage == Enqueue
    ensures FailsAt(entered, job', lane, work)
  {
    forall other ensures LaneReady(entered, other, work) <==> LaneReady(store, other, work) {
    }
  }

  /** What the next delivery makes of it. After a failure that may be tried again it finishes the job exactly
      if the services of this stage and of the later ones now do their part; after any other failure it fails
      the job for good. */
  lemma DeliveryAfterFailure(store: Store, job: Job, lane: Lane, first: Services, second: Services)
    requires StoreOk(store) && store.job == Some(job) && job.status in {Queued, Running}
    requires job.retryCount + 1 < MAX_RECEIVE_COUNT && FailsAt(store, job, lane, first)
    ensures var failed := Undisturbed(store, Idle, first, DELIVERY_STEPS);
            var next := Undisturbed(failed.0, Idle, second, DELIVERY_STEPS);
            && failed.1 == Done(Retry) && failed.0.job.Some? && failed.0.job.value.status == Running
            && if first(lane).status.retryable == Some(false) then
                 next.1 == Done(Ack) && next.0.job.Some? && next.0.job.value.status == Failed
               else
                 IsFinished(next.0) <==>
                   Succeeds(second(lane))
                   && forall later :: Rank(StageOf(later)) > Rank(StageOf(lane)) ==> LaneReady(store, later, second)
  {
    var failed := Undisturbed(store, Idle, first, DELIVERY_STEPS);
    DeliveryStops(store, job, lane, first);
    FailedDelivery(store, job, first);
    var job' := failed.0.job.value;
    DeliveryFinishesIff(failed.0, job', second);
    if first(lane).status.retryable == Some(false) {
      FailsForGood(failed.0, job', lane, second);
    } else {
      ReadyAgain(store, failed, lane, first, second);
    }
  }

  lemma FailedDelivery(store: Store, job: Job, work: Services)
    requires StoreOk(store)
    ensures StoreOk(Undisturbed(store, Idle, work, DELIVERY_STEPS).0)
  {
    assert Sound((store, Idle));
    SoundRun((store, Idle), work, DELIVERY_STEPS);
  }

  lemma ReadyAgain(store: Store, failed: (Store, Local), lane: Lane, first: Services, second: Services)
    requires first(lane).Finished? && first(lane).status.WorkFailed? && first(lane).status.retryable != Some(false)
    requires StoppedAt(store, failed, lane, first)
    ensures Ready(failed.0, failed.0.job.value, second) <==>
              Succeeds(second(lane))
              && forall later :: Rank(StageOf(later)) > Rank(StageOf(lane)) ==> LaneReady(store, later, second)
  {
    var status := first(lane).status;
    if status.retryable.Some? {
      var retryable := status.retryable.value;
      assert retryable && status == WorkFailed(Some(true));
    } else {
      assert status == WorkFailed(None);
    }
    assert Proof(failed.0, lane) == FailedRetryable;
    assert LaneReady(failed.0, lane, second) <==> Succeeds(second(lane));
    forall later | Rank(StageOf(later)) > Rank(StageOf(lane)) ensures LaneReady(failed.0, later, second) <==> LaneReady(store, later, second) {
      assert RunOf(failed.0, later) == RunOf(store, later);
    }
    hide LaneReady, Succeeds;
    forall other | Rank(StageOf(other)) == Rank(StageOf(lane)) ensures other == lane {
    }
  }

  lemma PermanentSteps(store: Store, job: Job, lane: Lane)
    requires store.job == Some(job) && LaneOf(job.stage) == Some(lane) && Proof(store, lane) == FailedPermanent
    requires job.status == Running
    ensures Step(store, InStage(job, job, 0, Look), Go) == (store, Handling(job, TerminalError))
    ensures var (after, l) := Step(store, Handling(job, TerminalError), Go);
            l == Done(Ack) && after.job.Some? && after.job.value.status == Failed
  {
  }

  lemma PermanentEnd(store: Store, job: Job, lane: Lane, work: Services) returns (end: (Store, Local))
    requires store.job == Some(job) && LaneOf(job.stage) == Some(lane) && Proof(store, lane) == FailedPermanent
    requires job.status == Running
    ensures Reaches((store, InStage(job, job, 0, Look)), work, 2, end)
    ensures end.1 == Done(Ack) && end.0.job.Some? && end.0.job.value.status == Failed
  {
    var start := (store, InStage(job, job, 0, Look));
    PermanentSteps(store, job, lane);
    hide Reaches, Step, Proof;
    Stays(start, work);
    ReachesOn(start, work, 0, start);
    ReachesOn(start, work, 1, (store, Handling(job, TerminalError)));
    end := Step(store, Handling(job, TerminalError), Go);
  }

  lemma FailsForGood(store: Store, job: Job, lane: Lane, work: Services)
    requires StoreOk(store) && store.job == Some(job) && job.status == Running && job.stage == StageOf(lane)
    requires Proof(store, lane) == FailedPermanent
    ensures var end := Undisturbed(store, Idle, work, DELIVERY_STEPS);
            end.1 == Done(Ack) && end.0.job.Some? && end.0.job.value.status == Failed
  {
    hide Reaches, Proof, StoreOk, Ready, Undisturbed;
    var start := (store, Idle);
    var entered, job' := Enters(store, job, work);
    RowsDecide(store, entered, lane);
    var end := PermanentEnd(entered, job', lane, work);
    EndsWithin(start, work, 4, (entered, InStage(job', job', 0, Look)), 2, end, DELIVERY_STEPS);
    ReachedIs(start, work, DELIVERY_STEPS, end);
  }

  // ----- delivery after delivery

  /** The same message delivered again and again until one delivery is acknowledged; `works` says for each
      delivery what the services do. */
  function Redelivered(store: Store, works: seq<Services>): (Store, Local)
    decreases |works|
  {
    if works == [] then (store, Idle)
    else
      var end := Undisturbed(store, Idle, works[0], DELIVERY_STEPS);
      if end.1 == Done(Ack) then end else Redelivered(end.0, works[1..])
  }

  lemma {:induction false} RunSpends(a: (Store, Local), work: Services, n: nat)
    requires Sound(a) && !a.1.Done?
    ensures var end := Undisturbed(a.0, a.1, work, n);
            Potential(end.0, end.1) + (if end.1 == Done(Retry) then 1 else 0) <= Potential(a.0, a.1)
    decreases n
  {
    if n > 0 {
      var next := Step(a.0, a.1, Answer(a.1, work));
      AnswerIsFaultFree(a.1, work);
      StepPays(a.0, a.1, Answer(a.1, work));
      SoundStep(a, work);
      hide Sound, Answer, Potential, Alone, StoreOk, LocalOk;
      if !next.1.Done? { RunSpends(next, work, n - 1); }
    }
  }

  /** One delivery is acknowledged, or it costs a unit of the budget. */
  lemma DeliveryEnds(store: Store, work: Services)
    requires StoreOk(store)
    ensures var end := Undisturbed(store, Idle, work, DELIVERY_STEPS);
            && StoreOk(end.0)
            && if end.1 == Done(Ack) then end.0.job.None? || Terminal(end.0) else Budget(end.0) < Budget(store)
  {
    var start := (store, Idle);
    assert Sound(start);
    SoundRun(start, work, DELIVERY_STEPS);
    RunSpends(start, work, DELIVERY_STEPS);
    if store.job.Some? {
      DeliveryFinishesIff(store, store.job.value, work);
    } else {
      assert Undisturbed(store, Done(Ack), work, DELIVERY_STEPS - 1) == (store, Done(Ack));
    }
  }

  /** Whatever the services do, a message that is delivered more often than the budget of the job allows, and
      so one that is delivered nine times, is acknowledged, and the job is then missing or terminal. */
  lemma {:induction false} AcknowledgedAtLast(store: Store, works: seq<Services>)
    requires StoreOk(store) && (|works| > Budget(store) || |works| > 8)
    ensures var end := Redelivered(store, works);
            end.1 == Done(Ack) && (end.0.job.None? || Terminal(end.0))
    decreases |works|
  {
    hide StoreOk, Budget, Undisturbed, Terminal;
    DeliveryEnds(store, works[0]);
    var end := Undisturbed(store, Idle, works[0], DELIVERY_STEPS);
    if end.1 != Done(Ack) { AcknowledgedAtLast(end.0, works[1..]); }
  }
}
