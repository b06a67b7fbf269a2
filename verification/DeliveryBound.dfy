/** How often a message can come back. One agent working alone: deliveries one after the other, each
    run to its end or cut off by a crash, on storage without faults. */
module DeliveryBound {
  import Runs
  import opened JobModels
  import opened StageLease
  import opened ConsumerProtocol
  import opened ProtocolSafety

  function RunAgent(store: Store, l: Local, inputs: seq<Input>): (Store, Local)
    decreases |inputs|
  {
    if inputs == [] then (store, l)
    else var (after, l') := Step(store, l, inputs[0]); RunAgent(after, l', inputs[1..])
  }

  /** The number of deliveries that end in a retry. */
  function Retries(store: Store, l: Local, inputs: seq<Input>): nat
    decreases |inputs|
  {
    if inputs == [] then 0
    else
      var (after, l') := Step(store, l, inputs[0]);
      (if EndsInRetry(l, l') then 1 else 0) + Retries(after, l', inputs[1..])
  }

  predicate EndsInRetry(l: Local, l': Local) { l != l' && l' == Done(Retry) }

  predicate Terminal(store: Store) {
    store.job.Some? && store.job.value.status in {Succeeded, Failed}
  }

  function StagesLeft(job: Job): nat {
    var rank := Rank(job.stage);
    if rank >= Rank(Finalizing) then 0 else if rank == 0 then 4 else Rank(Finalizing) - rank
  }

  function RetriesLeft(job: Job): nat {
    if job.retryCount >= MAX_RECEIVE_COUNT - 1 then 0 else MAX_RECEIVE_COUNT - 1 - job.retryCount
  }

  /** What a message can still spend: one unit for each stage to leave and each retry to count. */
  function Budget(store: Store): (b: nat)
    ensures b <= 8
  {
    if store.job.None? then 8
    else if Terminal(store) then 0
    else StagesLeft(store.job.value) + RetriesLeft(store.job.value)
  }

  /** A delivery that has moved the stage has paid for its own retry in advance. */
  function Potential(store: Store, l: Local): nat {
    Budget(store) + (if (l.InStage? || l.Handling?) && store.job != Some(l.base) then 1 else 0)
  }

  /** What a lone agent knows: its copies are current, except for `base` once it moved the stage. */
  predicate Alone(store: Store, l: Local) {
    match l
    case Holding(job, task) => 
      store.job == Some(job) && task != Reload && (task == Refresh ==> job.status != Queued) && (task == Skip ==> job.status == Succeeded)
    case InStage(base, job, _, _) => store.job == Some(job) && (base == job || base.version < job.version)
    case Handling(base, _) =>
      store.job.Some? && store.job.value.status == Running
      && (store.job == Some(base) || base.version < store.job.value.version)
    case Exhausting(updated) => store.job == Some(updated)
    case Producing(job, _) => store.job == Some(job)
    case Done(outcome) => outcome == Retry ==> store.job.Some? && store.job.value.status == Running
    case Idle => true
  }

  ghost predicate Pays(store: Store, l: Local, input: Input, result: (Store, Local)) {
    && Alone(result.0, result.1)
    && Potential(result.0, result.1) + (if EndsInRetry(l, result.1) then 1 else 0) <= Potential(store, l)
    && (result.1 == Done(Ack) != l ==>
         result.0.job.None? || Terminal(result.0) || input == Judge(LookupFailed))
  }

  lemma HoldingPays(store: Store, job: Job, task: Task, input: Input)
    requires StoreOk(store) && Copy(job, store) && Alone(store, Holding(job, task))
    ensures Pays(store, Holding(job, task), input, StepHolding(store, job, task, input))
  {
    if task.Claim? { ClaimPays(store, job, input); }
  }

  lemma ClaimPays(store: Store, job: Job, input: Input)
    requires StoreOk(store) && Copy(job, store) && Alone(store, Holding(job, Claim))
    ensures Pays(store, Holding(job, Claim), input, StepClaim(store, job))
  {
  }

  lemma LookPays(store: Store, base: Job, job: Job, step: nat, input: Input)
    requires PipelineOk(store, base, job, step) && Alone(store, InStage(base, job, step, Look))
    ensures Pays(store, InStage(base, job, step, Look), input, (store, StepLook(store, base, job, step)))
  {
    LookOk(store, base, job, step);
  }

  lemma WritePays(store: Store, base: Job, job: Job, step: nat, point: Point, input: Input)
    requires PipelineOk(store, base, job, step) && PointOk(store, job, point) && (point.Advance? || point.Succeed?)
    requires Alone(store, InStage(base, job, step, point))
    ensures Pays(store, InStage(base, job, step, point), input, StepInStage(store, base, job, step, point, input))
  {
    if point.Advance? {
      assert NextStage(job.stage).Some? && Rank(NextStage(job.stage).value) == Rank(job.stage) + 1 <= 5;
    }
  }

  lemma RowPays(store: Store, base: Job, job: Job, step: nat, point: Point, input: Input)
    requires PipelineOk(store, base, job, step) && !point.Look? && !point.Advance? && !point.Succeed?
    requires Alone(store, InStage(base, job, step, point))
    ensures Pays(store, InStage(base, job, step, point), input, StepInStage(store, base, job, step, point, input))
  {
    var (after, l') := StepInStage(store, base, job, step, point, input);
    assert after.job == store.job && Budget(after) == Budget(store);
    assert l' == Handling(base, if l'.Handling? then l'.error else OtherError)
        || (l'.InStage? && l'.base == base && l'.job == job);
  }

  lemma StagePays(store: Store, base: Job, job: Job, step: nat, point: Point, input: Input)
    requires PipelineOk(store, base, job, step) && PointOk(store, job, point)
    requires Alone(store, InStage(base, job, step, point))
    ensures Pays(store, InStage(base, job, step, point), input, StepInStage(store, base, job, step, point, input))
  {
    if point.Look? { LookPays(store, base, job, step, input); }
    else if point.Advance? || point.Succeed? { WritePays(store, base, job, step, point, input); }
    else { RowPays(store, base, job, step, point, input); }
  }

  lemma HandlingPays(store: Store, base: Job, error: ErrorKind, input: Input)
    requires LocalOk(store, Handling(base, error)) && Alone(store, Handling(base, error))
    ensures Pays(store, Handling(base, error), input, StepHandling(store, base, error))
  {
  }

  lemma ExhaustingPays(store: Store, updated: Job, input: Input)
    requires LocalOk(store, Exhausting(updated)) && Alone(store, Exhausting(updated))
    ensures Pays(store, Exhausting(updated), input, Proceed(store, Exhausting(updated), input))
  {
  }

  lemma ProducingPays(store: Store, job: Job, sent: Option<bool>, input: Input)
    requires LocalOk(store, Producing(job, sent)) && Alone(store, Producing(job, sent))
    ensures Pays(store, Producing(job, sent), input, StepProducing(store, job, sent, input))
  {
  }

  lemma IdlePays(store: Store, input: Input)
    requires StoreOk(store)
    ensures Pays(store, Idle, input, StepIdle(store, input))
  {
  }

  lemma StepPays(store: Store, l: Local, input: Input)
    requires StoreOk(store) && LocalOk(store, l) && Alone(store, l) && !input.Fault?
    ensures Pays(store, l, input, Step(store, l, input))
  {
    if input.Crash? || input.Wait? {
    } else {
      match l
      case Holding(job, task) => HoldingPays(store, job, task, input);
      case InStage(base, job, step, point) => StagePays(store, base, job, step, point, input);
      case Handling(base, error) => HandlingPays(store, base, error, input);
      case Exhausting(updated) => ExhaustingPays(store, updated, input);
      case Producing(job, sent) => ProducingPays(store, job, sent, input);
      case Idle => IdlePays(store, input);
      case Done(_) =>
    }
  }

  predicate NoFaults(inputs: seq<Input>) {
    forall input :: input in inputs ==> !input.Fault?
  }

  lemma {:induction false} RunPays(store: Store, l: Local, inputs: seq<Input>)
    requires StoreOk(store) && LocalOk(store, l) && Alone(store, l) && NoFaults(inputs)
    ensures var (after, l') := RunAgent(store, l, inputs);
            && StoreOk(after) && LocalOk(after, l') && Alone(after, l')
            && Potential(after, l') + Retries(store, l, inputs) <= Potential(store, l)
    decreases |inputs|
  {
    if inputs != [] {
      var (after, l') := Step(store, l, inputs[0]);
      StepPays(store, l, inputs[0]);
      AgentStepOk(store, l, inputs[0]);
      RunPays(after, l', inputs[1..]);
    }
  }

  /** However many times the messages of one job are delivered one after the other, with crashes in
      between, at most eight deliveries end in a retry, and at most as many as the budget left in
      the stored job. */
  lemma AtMostEightRetries(store: Store, inputs: seq<Input>)
    requires StoreOk(store) && NoFaults(inputs)
    ensures Retries(store, Idle, inputs) <= Budget(store) <= 8
  {
    RunPays(store, Idle, inputs);
  }

  // ----- each retry moves the job forward

  ghost predicate Progress(before: Store, after: Store) {
    && before.job.Some? ==>
         && after.job.Some?
         && StagesLeft(after.job.value) <= StagesLeft(before.job.value)
         && before.job.value.retryCount <= after.job.value.retryCount
  }

  lemma StageKeepsCount(store: Store, base: Job, job: Job, step: nat, point: Point, input: Input)
    requires store.job == Some(job)
    ensures var after := StepInStage(store, base, job, step, point, input).0;
            after.job.Some? && after.job.value.retryCount == job.retryCount
  {
  }

  lemma HoldingKeepsCount(store: Store, job: Job, task: Task, input: Input)
    requires store.job == Some(job)
    ensures var after := StepHolding(store, job, task, input).0;
            after.job.Some? && after.job.value.retryCount == job.retryCount
  {
  }

  lemma CountGrows(store: Store, l: Local, input: Input)
    requires store.job.Some? && Alone(store, l) && !input.Fault?
    ensures var after := Step(store, l, input).0;
            after.job.Some? && store.job.value.retryCount <= after.job.value.retryCount
  {
    if !input.Crash? && !input.Wait? {
      match l
      case InStage(base, job, step, point) => StageKeepsCount(store, base, job, step, point, input);
      case Holding(job, task) => HoldingKeepsCount(store, job, task, input);
      case _ =>
    }
  }

  lemma StepProgress(store: Store, l: Local, input: Input)
    requires StoreOk(store) && LocalOk(store, l) && Alone(store, l) && !input.Fault?
    ensures Progress(store, Step(store, l, input).0)
  {
    if store.job.Some? {
      AgentStepOk(store, l, input);
      CountGrows(store, l, input);
    }
  }

  lemma {:induction false} RunProgress(store: Store, l: Local, inputs: seq<Input>)
    requires StoreOk(store) && LocalOk(store, l) && Alone(store, l) && NoFaults(inputs)
    ensures Progress(store, RunAgent(store, l, inputs).0)
    decreases |inputs|
  {
    if inputs != [] {
      var (after, l') := Step(store, l, inputs[0]);
      StepPays(store, l, inputs[0]);
      AgentStepOk(store, l, inputs[0]);
      StepProgress(store, l, inputs[0]);
      RunProgress(after, l', inputs[1..]);
    }
  }

  /** A delivery that ends in a retry leaves fewer stages, or as many stages and fewer retries: either
      its failure write was stale because a stage moved, or it counted the retry. */
  lemma RetryDescends(store: Store, inputs: seq<Input>)
    requires StoreOk(store) && store.job.Some? && NoFaults(inputs)
    requires RunAgent(store, Idle, inputs).1 == Done(Retry) && Retries(store, Idle, inputs) == 1
    ensures RunAgent(store, Idle, inputs).0.job.Some?
    ensures var (before, after) := (store.job.value, RunAgent(store, Idle, inputs).0.job.value);
            || StagesLeft(after) < StagesLeft(before)
            || (StagesLeft(after) == StagesLeft(before) && RetriesLeft(after) < RetriesLeft(before))
  {
    RunPays(store, Idle, inputs);
    RunProgress(store, Idle, inputs);
  }

  /** A delivery acknowledged by a lone agent leaves the job missing or terminal; the one exception is
      an account lookup that failed without a verdict, which acknowledges a live job. */
  lemma AckIsFinal(store: Store, l: Local, input: Input)
    requires StoreOk(store) && LocalOk(store, l) && Alone(store, l) && !input.Fault?
    requires l != Done(Ack) && Step(store, l, input).1 == Done(Ack)
    ensures var after := Step(store, l, input).0;
            after.job.None? || Terminal(after) || input == Judge(LookupFailed)
  {
    StepPays(store, l, input);
  }

  lemma LookupFailureAcksALiveJob(store: Store, job: Job)
    requires job.status in {Queued, Running}
    ensures Step(store, Holding(job, Validate), Judge(LookupFailed)) == (store, Done(Ack))
  {
  }

  /** With storage faults a finished job can be lost: one failed read during a duplicate delivery
      counts a retry against the finished job, and at the limit marks it FAILED. */
  lemma FaultFailsAFinishedJob(store: Store, job: Job)
    requires store.job == Some(job) && job.status == Succeeded && job.stage == Complete
    requires job.retryCount + 1 >= MAX_RECEIVE_COUNT
    ensures var inputs := [Deliver, Judge(Accepted), Go] + [Fault(false), Go, Go];
            var (after, l) := RunAgent(store, Idle, inputs);
            l == Done(Ack) && after.job.Some? && after.job.value.status == Failed
  {
    DuplicateReachesRefresh(store, job);
    FaultAtRefreshExhausts(store, job);
    RunJoin(store, Idle, [Deliver, Judge(Accepted), Go], [Fault(false), Go, Go]);
  }

  lemma DuplicateReachesRefresh(store: Store, job: Job)
    requires store.job == Some(job) && job.status == Succeeded
    ensures RunAgent(store, Idle, [Deliver, Judge(Accepted), Go]) == (store, Holding(job, Refresh))
  {
    RunFirst(store, Idle, Deliver, [Judge(Accepted), Go]);
    RunFirst(store, Holding(job, Validate), Judge(Accepted), [Go]);
    RunFirst(store, Holding(job, Claim), Go, []);
  }

  lemma FaultAtRefreshExhausts(store: Store, job: Job)
    requires store.job == Some(job) && job.retryCount + 1 >= MAX_RECEIVE_COUNT
    ensures var (after, l) := RunAgent(store, Holding(job, Refresh), [Fault(false), Go, Go]);
            l == Done(Ack) && after.job.Some? && after.job.value.status == Failed
  {
    var counted := Merge(job, NoChange.(retryCount := Some(job.retryCount + 1)), store.now);
    RunFirst(store, Holding(job, Refresh), Fault(false), [Go, Go]);
    RunFirst(store, Handling(job, OtherError), Go, [Go]);
    RunFirst(store.(job := Some(counted)), Exhausting(counted), Go, []);
  }

  lemma RunFirst(store: Store, l: Local, first: Input, rest: seq<Input>)
    ensures RunAgent(store, l, [first] + rest) ==
            var (after, l') := Step(store, l, first); RunAgent(after, l', rest)
  {
    assert ([first] + rest)[1..] == rest;
  }

  lemma RunJoin(store: Store, l: Local, front: seq<Input>, back: seq<Input>)
    ensures RunAgent(store, l, front + back) ==
            var (after, l') := RunAgent(store, l, front); RunAgent(after, l', back)
  {
    var step := (a: (Store, Local), input) => Step(a.0, a.1, input);
    var run := (a: (Store, Local), inputs) => RunAgent(a.0, a.1, inputs);
    forall a: (Store, Local) ensures run(a, []) == a { assert RunAgent(a.0, a.1, []) == (a.0, a.1); }
    forall a: (Store, Local), inputs: seq<Input> | inputs != []
      ensures run(a, inputs) == run(step(a, inputs[0]), inputs[1..])
    {
    }
    Runs.RunJoin(step, run, (store, l), front, back);
  }
}
