/** What storage faults can do to a finished job: exactly when a duplicate delivery can lose it. */
module FaultyDelivery {
  import opened JobModels
  import opened StageLease
  import opened ConsumerProtocol
  import opened ProtocolSafety
  import opened ProtocolTheorems
  import opened DeliveryBound
  import opened DeliveryProgress

  /** The steps of one delivery whose scope and account are not refused, with any crashes and faults. */
  predicate OneDelivery(inputs: seq<Input>) {
    && inputs != [] && inputs[0] == Deliver
    && forall i :: 1 <= i < |inputs| ==> inputs[i] !in {Deliver, Produce, Judge(RefusedScopeOrAccount)}
  }

  /** Below the limit of retries nothing that happens to the delivery takes the job out of SUCCEEDED. */
  predicate Kept(store: Store, l: Local, job: Job) {
    && IsFinished(store)
    && match l
       case Idle => true
       case Done(_) => true
       case Holding(j, task) => store.job == Some(job) && j == job && task !in {Reject, Reload}
       case Handling(base, error) => store.job == Some(job) && base == job && error != TerminalError
       case _ => false
  }

  lemma StepKept(store: Store, l: Local, job: Job, input: Input)
    requires Kept(store, l, job) && job.status == Succeeded && job.stage == Complete
    requires job.retryCount + 1 < MAX_RECEIVE_COUNT
    requires input !in {Deliver, Produce, Judge(RefusedScopeOrAccount)}
    ensures var (after, l') := Step(store, l, input); Kept(after, l', job)
  {
  }

  lemma {:induction false} RunKept(store: Store, l: Local, job: Job, inputs: seq<Input>)
    requires Kept(store, l, job) && job.status == Succeeded && job.stage == Complete
    requires job.retryCount + 1 < MAX_RECEIVE_COUNT
    requires forall i :: 0 <= i < |inputs| ==> inputs[i] !in {Deliver, Produce, Judge(RefusedScopeOrAccount)}
    ensures IsFinished(RunAgent(store, l, inputs).0)
    decreases |inputs|
  {
    if inputs != [] {
      StepKept(store, l, job, inputs[0]);
      var (after, l') := Step(store, l, inputs[0]);
      RunKept(after, l', job, inputs[1..]);
    }
  }

  /** A delivery with storage faults can lose a finished job exactly when the job has one retry left to
      count or none; below that every such delivery leaves it finished. */
  lemma FaultLosesFinishedJobIff(store: Store, job: Job)
    requires store.job == Some(job) && job.status == Succeeded && job.stage == Complete
    ensures (exists inputs :: OneDelivery(inputs) && !IsFinished(RunAgent(store, Idle, inputs).0)) <==>
            job.retryCount + 1 >= MAX_RECEIVE_COUNT
  {
    if job.retryCount + 1 >= MAX_RECEIVE_COUNT {
      var inputs := [Deliver, Judge(Accepted), Go] + [Fault(false), Go, Go];
      FaultFailsAFinishedJob(store, job);
      assert OneDelivery(inputs);
    } else {
      forall inputs | OneDelivery(inputs) ensures IsFinished(RunAgent(store, Idle, inputs).0) {
        RunKept(store, Holding(job, Validate), job, inputs[1..]);
        RunFirst(store, Idle, Deliver, inputs[1..]);
        assert [Deliver] + inputs[1..] == inputs;
      }
    }
  }

  // ----- a finished job at the limit is reachable

  const NOTHING: Store := Store(None, map[], None, map[], 0)

  function Solo(run: (Store, Local)): System { System(run.0, [run.1]) }

  lemma {:induction false} SoloRun(store: Store, l: Local, inputs: seq<Input>) returns (events: seq<Event>)
    ensures Exec(Solo((store, l)), events) == Solo(RunAgent(store, l, inputs))
    decreases |inputs|
  {
    if inputs == [] {
      events := [];
    } else {
      var (after, l') := Step(store, l, inputs[0]);
      var rest := SoloRun(after, l', inputs[1..]);
      assert [l][0 := l'] == [l'];
      events := [Event(0, inputs[0])] + rest;
      ExecFirst(Solo((store, l)), Event(0, inputs[0]), rest);
    }
  }

  /** The state after the same agent has gone on. */
  ghost predicate Leads(before: (Store, Local), after: (Store, Local)) {
    exists inputs :: RunAgent(before.0, before.1, inputs) == after
  }

  lemma LeadsBy(before: (Store, Local), inputs: seq<Input>)
    ensures Leads(before, RunAgent(before.0, before.1, inputs))
  {
  }

  lemma LeadsFurther(a: (Store, Local), b: (Store, Local), c: (Store, Local))
    requires Leads(a, b) && Leads(b, c)
    ensures Leads(a, c)
  {
    var front :| RunAgent(a.0, a.1, front) == b;
    var back :| RunAgent(b.0, b.1, back) == c;
    RunJoin(a.0, a.1, front, back);
  }

  /** One input. */
  lemma LeadsOn(a: (Store, Local), b: (Store, Local), input: Input)
    requires Leads(a, b)
    ensures Leads(a, Step(b.0, b.1, input))
  {
    RunFirst(b.0, b.1, input, []);
    LeadsBy(b, [input] + []);
    LeadsFurther(a, b, Step(b.0, b.1, input));
  }

  predicate Working(store: Store, job: Job, retries: nat) {
    store.job == Some(job) && job.status == Running && job.retryCount == retries && store.report.None?
  }

  lemma EnqueuedJob() returns (store: Store, job: Job)
    ensures Leads((NOTHING, Idle), (store, Idle))
    ensures store.job == Some(job) && job.status == Queued && job.retryCount == 0
    ensures store.report.None? && store.runs == map[]
  {
    var start := (NOTHING, Idle);
    LeadsBy(start, []);
    LeadsOn(start, start, Produce);
    var s1 := Step(start.0, start.1, Produce);
    LeadsOn(start, s1, Sent(true));
    var s2 := Step(s1.0, s1.1, Sent(true));
    LeadsOn(start, s2, Go);
    var s3 := Step(s2.0, s2.1, Go);
    store, job := s3.0, s3.0.job.value;
  }

  /** A delivery that has reached the stage loop. */
  lemma Entered(store: Store, job: Job) returns (after: Store, job': Job)
    requires store.job == Some(job) && job.status in {Queued, Running} && store.report.None?
    ensures Leads((store, Idle), (after, InStage(job', job', 0, Look)))
    ensures Working(after, job', job.retryCount) && after.runs == store.runs
    ensures job'.stage == if job.status == Queued then Discovery else job.stage
  {
    var start := (store, Idle);
    LeadsBy(start, []);
    LeadsOn(start, start, Deliver);
    LeadsOn(start, (store, Holding(job, Validate)), Judge(Accepted));
    LeadsOn(start, (store, Holding(job, Claim)), Go);
    var claimed := Step(store, Holding(job, Claim), Go);
    LeadsOn(start, claimed, Go);
    after, job' := claimed.0, claimed.0.job.value;
  }

  /** A delivery that fails at once and counts a retry. */
  lemma Retried(store: Store, job: Job) returns (after: Store, job': Job)
    requires store.job == Some(job) && job.status in {Queued, Running} && store.report.None?
    requires job.retryCount + 1 < MAX_RECEIVE_COUNT
    ensures Leads((store, Idle), (after, Idle))
    ensures Working(after, job', job.retryCount + 1) && after.runs == store.runs
    ensures job'.stage == if job.status == Queued then Discovery else job.stage
  {
    var start := (store, Idle);
    var entered, j := Entered(store, job);
    LeadsOn(start, (entered, InStage(j, j, 0, Look)), Fault(false));
    LeadsOn(start, (entered, Handling(j, OtherError)), Go);
    var counted := Step(entered, Handling(j, OtherError), Go);
    LeadsOn(start, counted, Go);
    after, job' := counted.0, counted.0.job.value;
  }

  lemma FourRetries() returns (store: Store, job: Job)
    ensures Leads((NOTHING, Idle), (store, Idle))
    ensures Working(store, job, MAX_RECEIVE_COUNT - 1) && job.stage == Discovery && store.runs == map[]
  {
    hide Leads;
    var start := (NOTHING, Idle);
    var s0, j0 := EnqueuedJob();
    var s1, j1 := Retried(s0, j0);
    LeadsFurther(start, (s0, Idle), (s1, Idle));
    var s2, j2 := Retried(s1, j1);
    LeadsFurther(start, (s1, Idle), (s2, Idle));
    var s3, j3 := Retried(s2, j2);
    LeadsFurther(start, (s2, Idle), (s3, Idle));
    store, job := Retried(s3, j3);
    LeadsFurther(start, (s3, Idle), (store, Idle));
  }

  lemma {:induction false} UndisturbedLeads(a: (Store, Local), work: Services, n: nat)
    ensures Leads(a, Undisturbed(a.0, a.1, work, n))
    decreases n
  {
    LeadsBy(a, []);
    if n > 0 && !a.1.Done? {
      var next := Step(a.0, a.1, Answer(a.1, work));
      LeadsOn(a, a, Answer(a.1, work));
      UndisturbedLeads(next, work, n - 1);
      LeadsFurther(a, next, Undisturbed(next.0, next.1, work, n - 1));
    }
  }

  lemma LeadsOk(store: Store)
    requires Leads((NOTHING, Idle), (store, Idle))
    ensures StoreOk(store)
  {
    LeadsReachable((store, Idle));
    ReachableOk(Solo((store, Idle)));
  }

  lemma FinishedAfterRetries() returns (store: Store)
    ensures Leads((NOTHING, Idle), (store, Idle))
    ensures IsFinished(store) && store.job.value.retryCount == MAX_RECEIVE_COUNT - 1
  {
    var start := (NOTHING, Idle);
    var s0, j0 := FourRetries();
    LeadsOk(s0);
    var work: Services := lane => Finished(WorkSucceeded, false);
    assert Ready(s0, j0, work);
    hide Leads, Undisturbed, Ready;
    DeliveryFinishesIff(s0, j0, work);
    UndisturbedLeads((s0, Idle), work, DELIVERY_STEPS);
    var end := Undisturbed(s0, Idle, work, DELIVERY_STEPS);
    LeadsFurther(start, (s0, Idle), end);
    LeadsOn(start, end, Go);
    store := end.0;
  }

  /** There is a reachable finished job at the limit, and a reachable continuation that fails it. */
  lemma FinishedJobIsLost()
    ensures exists s, after :: Reachable(s) && Reachable(after)
              && s.agents == [Idle] && IsFinished(s.store) && s.store.job.value.retryCount + 1 >= MAX_RECEIVE_COUNT
              && after.store.job.Some? && after.store.job.value.status == Failed
  {
    var store := FinishedAfterRetries();
    FaultFailsAFinishedJob(store, store.job.value);
    var inputs := [Deliver, Judge(Accepted), Go] + [Fault(false), Go, Go];
    var lost := RunAgent(store, Idle, inputs);
    LeadsBy((store, Idle), inputs);
    LeadsFurther((NOTHING, Idle), (store, Idle), lost);
    LeadsReachable((store, Idle));
    LeadsReachable(lost);
    assert Solo((store, Idle)).agents == [Idle] && Solo(lost).store == lost.0;
  }

  lemma LeadsReachable(after: (Store, Local))
    requires Leads((NOTHING, Idle), after)
    ensures Reachable(Solo(after))
  {
    var inputs :| RunAgent(NOTHING, Idle, inputs) == after;
    var events := SoloRun(NOTHING, Idle, inputs);
    assert Initial(Solo((NOTHING, Idle)));
  }
}
