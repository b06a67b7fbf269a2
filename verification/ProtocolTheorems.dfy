/** What holds in every reachable state of the consumer protocol and of every step out of one. */
module ProtocolTheorems {
  import Runs
  import opened JobModels
  import opened StageLease
  import opened ConsumerProtocol
  import opened ProtocolSafety

  // ----- every reachable state satisfies the invariant

  lemma InitialOk(s: System)
    requires Initial(s)
    ensures Inv(s)
  {
    forall lane ensures RowOk(lane, RunOf(s.store, lane), ClaimsOf(s.store, lane)) {
    }
  }

  // ----- what a step can touch

  /** A step that throws, crashes or waits does to the store no more than an undisturbed step does. */
  lemma StepEffect(store: Store, l: Local, input: Input)
    ensures var after := Step(store, l, input).0;
            || after == Proceed(store, l, input).0
            || after == Proceed(store, l, Go).0
            || after == store.(now := after.now)
  {
  }

  predicate Granted(store: Store, l: Local) {
    l.InStage? && l.point.WriteClaimOf? && WriteClaim(store, l.point.lane, l.point.plan).Some?
  }

  lemma ClaimsTouched(store: Store, l: Local, input: Input)
    requires !Granted(store, l)
    ensures Proceed(store, l, input).0.claims == store.claims
  {
    match l
    case InStage(base, job, step, point) => {
      assert StepInStage(store, base, job, step, point, input).0.claims == store.claims;
    }
    case Holding(job, task) => {
      assert StepHolding(store, job, task, input).0.claims == store.claims;
    }
    case _ =>
  }

  /** The record through which an agent writes the job. */
  function WriteCopy(l: Local): Option<Job> {
    match l
    case Holding(job, _) => Some(job)
    case InStage(_, job, _, _) => Some(job)
    case Handling(base, _) => Some(base)
    case Exhausting(updated) => Some(updated)
    case Producing(job, _) => Some(job)
    case _ => None
  }

  /** Optimistic locking: only an agent whose copy is the stored record changes the job, and every
      change raises the version by one. */
  lemma OnlyCurrentCopyWrites(store: Store, l: Local, input: Input)
    requires LocalOk(store, l) && store.job.Some?
    ensures var after := Proceed(store, l, input).0;
            || after.job == store.job
            || (WriteCopy(l) == store.job && after.job.Some?
                && after.job.value.version == store.job.value.version + 1)
  {
    match l
    case InStage(base, job, step, point) => StageWrites(store, base, job, step, point, input);
    case Holding(job, task) => HoldingWrites(store, job, task, input);
    case _ =>
  }

  lemma StageWrites(store: Store, base: Job, job: Job, step: nat, point: Point, input: Input)
    requires Copy(job, store)
    ensures var after := StepInStage(store, base, job, step, point, input).0;
            || after.job == store.job
            || (job == store.job.value && after.job.Some?
                && after.job.value.version == store.job.value.version + 1)
  {
  }

  lemma HoldingWrites(store: Store, job: Job, task: Task, input: Input)
    requires Copy(job, store)
    ensures var after := StepHolding(store, job, task, input).0;
            || after.job == store.job
            || (job == store.job.value && after.job.Some?
                && after.job.value.version == store.job.value.version + 1
                && (task == Reject || job.status == Queued))
  {
  }

  lemma GrantIsNew(store: Store, l: Local, input: Input)
    requires StoreOk(store) && LocalOk(store, l) && Granted(store, l)
    ensures HoldsFence(Proceed(store, l, input).1)
    ensures Proceed(store, l, input).1.point.lane == l.point.lane
    ensures Proceed(store, l, input).1.point.fence > LastFence(ClaimsOf(store, l.point.lane))
  {
    ClaimWritten(store, l.point.lane, l.point.plan);
  }

  lemma FenceInStage(store: Store, base: Job, job: Job, step: nat, point: Point, input: Input)
    requires !point.WriteClaimOf?
    ensures var l' := StepInStage(store, base, job, step, point, input).1;
            HoldsFence(l') ==> HoldsFence(InStage(base, job, step, point))
                               && l'.point.lane == point.lane && l'.point.fence == point.fence
  {
  }

  lemma FenceOutside(store: Store, l: Local, input: Input)
    requires !l.InStage?
    ensures !HoldsFence(Proceed(store, l, input).1)
  {
    match l
    case Holding(job, task) => { assert !HoldsFence(StepHolding(store, job, task, input).1); }
    case _ =>
  }

  /** A fence is taken only by a granted claim, and then it is new. */
  lemma FenceOrigin(store: Store, l: Local, input: Input)
    requires StoreOk(store) && LocalOk(store, l)
    requires HoldsFence(Step(store, l, input).1)
    ensures var l' := Step(store, l, input).1;
            || (HoldsFence(l) && l'.point.lane == l.point.lane && l'.point.fence == l.point.fence)
            || (l'.point.fence > LastFence(ClaimsOf(store, l'.point.lane)))
  {
    if Step(store, l, input).1 != l {
      assert Step(store, l, input) == Proceed(store, l, input) by { FaultsDropFences(store, l, input); }
      if Granted(store, l) {
        GrantIsNew(store, l, input);
      } else if l.InStage? {
        if !l.point.WriteClaimOf? { FenceInStage(store, l.base, l.job, l.step, l.point, input); }
      } else {
        FenceOutside(store, l, input);
      }
    }
  }

  lemma FaultsDropFences(store: Store, l: Local, input: Input)
    requires HoldsFence(Step(store, l, input).1) && Step(store, l, input).1 != l
    ensures Step(store, l, input) == Proceed(store, l, input)
  {
    assert !HoldsFence(OnThrow(l));
  }

  // ----- the invariant over a run

  /** The agent that steps and the agents that wait keep what they know. */
  lemma LocalsStayOk(s: System, e: Event)
    requires Inv(s) && e.agent < |s.agents|
    ensures var next := Apply(s, e); forall i :: 0 <= i < |next.agents| ==> LocalOk(next.store, next.agents[i])
  {
    var next := Apply(s, e);
    AgentStepOk(s.store, s.agents[e.agent], e.input);
    hide LocalOk, StoreOk, Grows, Step, OneStage;
    forall i | 0 <= i < |next.agents| ensures LocalOk(next.store, next.agents[i]) {
      if i != e.agent { LocalKept(s.agents[i], s.store, next.store); }
    }
  }

  lemma FencedApart(s: System, i: nat, j: nat)
    requires Inv(s) && i < |s.agents| && j < |s.agents| && i != j
    ensures !SameFence(s.agents[i], s.agents[j])
  {
    hide LocalOk, StoreOk;
    if i < j { assert !SameFence(s.agents[i], s.agents[j]); } else { assert !SameFence(s.agents[j], s.agents[i]); }
  }

  /** A fence is no newer than the last one granted. */
  lemma HeldFenceIsGranted(store: Store, l: Local)
    requires LocalOk(store, l) && HoldsFence(l)
    ensures l.point.fence <= LastFence(ClaimsOf(store, l.point.lane))
  {
  }

  /** The agent that steps takes no fence that another one holds. */
  lemma FenceStaysApart(s: System, e: Event, i: nat)
    requires Inv(s) && e.agent < |s.agents| && i < |s.agents| && i != e.agent
    ensures !SameFence(s.agents[i], Step(s.store, s.agents[e.agent], e.input).1)
  {
    var me, next := s.agents[e.agent], Step(s.store, s.agents[e.agent], e.input).1;
    FencedApart(s, i, e.agent);
    assert LocalOk(s.store, me) && LocalOk(s.store, s.agents[i]) && StoreOk(s.store);
    hide Inv, LocalOk, StoreOk, Step;
    if SameFence(s.agents[i], next) {
      FenceOrigin(s.store, me, e.input);
      HeldFenceIsGranted(s.store, s.agents[i]);
    }
  }

  lemma FencesStayApart(s: System, e: Event)
    requires Inv(s) && e.agent < |s.agents|
    ensures var next := Apply(s, e);
            forall i, j :: 0 <= i < j < |next.agents| ==> !SameFence(next.agents[i], next.agents[j])
  {
    var next := Apply(s, e);
    hide Inv, Step;
    forall i, j | 0 <= i < j < |next.agents| ensures !SameFence(next.agents[i], next.agents[j]) {
      if i == e.agent { FenceStaysApart(s, e, j); }
      else if j == e.agent { FenceStaysApart(s, e, i); }
      else { FencedApart(s, i, j); }
    }
  }

  lemma ApplyOk(s: System, e: Event)
    requires Inv(s)
    ensures Inv(Apply(s, e)) && Grows(s.store, Apply(s, e).store) && OneStage(s.store, Apply(s, e).store)
  {
    if e.agent >= |s.agents| {
      Unchanged(s.store);
    } else {
      assert LocalOk(s.store, s.agents[e.agent]);
      AgentStepOk(s.store, s.agents[e.agent], e.input);
      LocalsStayOk(s, e);
      FencesStayApart(s, e);
      hide LocalOk, StoreOk, Grows, Step, OneStage, SameFence;
    }
  }

  lemma {:induction false} ExecOk(s: System, events: seq<Event>)
    requires Inv(s)
    ensures Inv(Exec(s, events)) && Grows(s.store, Exec(s, events).store)
    decreases |events|
  {
    if events == [] {
      Unchanged(s.store);
    } else {
      ApplyOk(s, events[0]);
      ExecOk(Apply(s, events[0]), events[1..]);
      GrowsFurther(s.store, Apply(s, events[0]).store, Exec(s, events).store);
    }
  }

  lemma ReachableOk(s: System)
    requires Reachable(s)
    ensures Inv(s)
  {
    var start, events :| Initial(start) && Exec(start, events) == s;
    InitialOk(start);
    ExecOk(start, events);
  }

  /** What other agents, however many, may do to the store between two steps of one agent. */
  ghost predicate Interfered(before: Store, after: Store) {
    exists agents, events :: Inv(System(before, agents)) && Exec(System(before, agents), events).store == after
  }

  lemma InterferenceKeeps(before: Store, after: Store)
    requires Interfered(before, after)
    ensures StoreOk(after) && Grows(before, after)
  {
    var agents, events :| Inv(System(before, agents)) && Exec(System(before, agents), events).store == after;
    ExecOk(System(before, agents), events);
  }

  /** Whatever they do, an agent's own knowledge survives it. */
  lemma KnowledgeSurvives(l: Local, before: Store, after: Store)
    requires LocalOk(before, l) && Interfered(before, after)
    ensures StoreOk(after) && LocalOk(after, l)
  {
    InterferenceKeeps(before, after);
    LocalKept(l, before, after);
  }

  lemma NoInterference(store: Store)
    requires StoreOk(store)
    ensures Interfered(store, store)
  {
    assert Inv(System(store, []));
    assert Exec(System(store, []), []).store == store;
  }

  // ----- stage proofs

  /** In every interleaving of consumers, producers, crashes, faults and duplicate deliveries, a stage
      that the job has left has its complete run, and a succeeded job is at COMPLETE with a report. */
  lemma StagesAreBacked(s: System)
    requires Reachable(s) && s.store.job.Some?
    ensures var job := s.store.job.value;
            && (Rank(job.stage) >= Rank(CostAnalysis) ==> Proof(s.store, DiscoveryLane) == ProofComplete)
            && (Rank(job.stage) >= Rank(SecurityAnalysis) ==> Proof(s.store, CostLane) == ProofComplete)
            && (Rank(job.stage) >= Rank(GovernanceAnalysis) ==> Proof(s.store, SecurityLane) == ProofComplete)
            && (job.status == Succeeded ==> job.stage == Complete && s.store.report.Some?)
            && (job.stage == Complete ==> job.status in {Succeeded, Failed})
            && (job.status == Running ==> 1 <= Rank(job.stage) <= 5)
  {
    ReachableOk(s);
  }

  // ----- the life of the job

  /** A step of an agent moves the stage by at most one and never back, and never revives a failed
      job; the report, once stored, is never replaced. */
  lemma StageMovesOneAtATime(s: System, e: Event)
    requires Reachable(s) && s.store.job.Some?
    ensures var (job, next) := (s.store.job.value, Apply(s, e).store.job);
            && next.Some?
            && Rank(job.stage) <= Rank(next.value.stage) <= Rank(job.stage) + 1
            && (job.status == Failed ==> next.value.status == Failed)
            && (next.value != job ==> next.value.version == job.version + 1)
            && (s.store.report.Some? ==> Apply(s, e).store.report == s.store.report)
  {
    ReachableOk(s);
    ApplyOk(s, e);
    if e.agent < |s.agents| {
      var l := s.agents[e.agent];
      assert LocalOk(s.store, l);
      StepEffect(s.store, l, e.input);
      OnlyCurrentCopyWrites(s.store, l, e.input);
      OnlyCurrentCopyWrites(s.store, l, Go);
    }
  }

  /** The failure handler writes against the job read before the pipeline. Once the stored job has
      moved on, neither its retry count nor its failure mark has any effect: the delivery only ends
      in a retry. */
  lemma StaleFailureIsHarmless(s: System, i: nat)
    requires Reachable(s) && i < |s.agents| && s.agents[i].Handling?
    requires s.store.job != Some(s.agents[i].base)
    ensures Apply(s, Event(i, Go)) == System(s.store, s.agents[i := Done(Retry)])
  {
    ReachableOk(s);
    assert LocalOk(s.store, s.agents[i]);
  }

  lemma SucceededKept(store: Store, l: Local, input: Input)
    requires LocalOk(store, l) && store.job.Some? && store.job.value.status == Succeeded
    requires l != Holding(store.job.value, Reject) && l != Exhausting(store.job.value)
    ensures Proceed(store, l, input).0.job.Some?
    ensures Proceed(store, l, input).0.job.value.status == Succeeded
  {
    OnlyCurrentCopyWrites(store, l, input);
    if WriteCopy(l) == store.job && l.Holding? {
      HoldingWrites(store, l.job, l.task, input);
    }
  }

  /** A succeeded job changes its status only to FAILED, and only when an agent that holds the current
      record rejects its message, or gives up on it after exhausting its retries. */
  lemma SucceededLeftBy(s: System, e: Event)
    requires Reachable(s) && s.store.job.Some? && s.store.job.value.status == Succeeded
    requires Apply(s, e).store.job != s.store.job
    requires Apply(s, e).store.job.Some? ==> Apply(s, e).store.job.value.status != Succeeded
    ensures e.agent < |s.agents|
    ensures s.agents[e.agent] in {Holding(s.store.job.value, Reject), Exhausting(s.store.job.value)}
  {
    ReachableOk(s);
    assert LocalOk(s.store, s.agents[e.agent]);
    if s.agents[e.agent] !in {Holding(s.store.job.value, Reject), Exhausting(s.store.job.value)} {
      StepEffect(s.store, s.agents[e.agent], e.input);
      SucceededKept(s.store, s.agents[e.agent], e.input);
      SucceededKept(s.store, s.agents[e.agent], Go);
    }
  }

  predicate FaultFree(events: seq<Event>) {
    forall e :: e in events ==> !e.input.Fault?
  }

  predicate Clean(l: Local) {
    && (l.Handling? ==> l.base.status in {Queued, Running})
    && (l.Exhausting? ==> l.updated.status in {Queued, Running})
  }

  lemma CleanKept(store: Store, l: Local, input: Input)
    requires StoreOk(store) && LocalOk(store, l) && Clean(l) && !input.Fault?
    ensures Clean(Step(store, l, input).1)
  {
    if !input.Crash? && !input.Wait? {
      match l
      case Holding(job, task) => CleanHolding(store, job, task, input);
      case InStage(base, job, step, point) => CleanStage(store, base, job, step, point, input);
      case Handling(base, error) => CleanHandling(store, base, error);
      case _ =>
    }
  }

  lemma CleanHolding(store: Store, job: Job, task: Task, input: Input)
    requires StoreOk(store) && Copy(job, store)
    ensures Clean(StepHolding(store, job, task, input).1)
  {
    if task == Refresh { RefreshOk(store, job); }
  }

  lemma CleanStage(store: Store, base: Job, job: Job, step: nat, point: Point, input: Input)
    requires base.status == Running
    ensures Clean(StepInStage(store, base, job, step, point, input).1)
  {
  }

  lemma CleanHandling(store: Store, base: Job, error: ErrorKind)
    requires StoreOk(store) && Copy(base, store) && base.status in {Queued, Running}
    ensures Clean(StepHandling(store, base, error).1)
  {
    JobWritten(store, base, NoChange.(retryCount := Some(base.retryCount + 1)));
  }

  lemma {:induction false} CleanExec(s: System, events: seq<Event>)
    requires Inv(s) && FaultFree(events)
    requires forall i :: 0 <= i < |s.agents| ==> Clean(s.agents[i])
    ensures Inv(Exec(s, events))
    ensures forall i :: 0 <= i < |Exec(s, events).agents| ==> Clean(Exec(s, events).agents[i])
    decreases |events|
  {
    if events != [] {
      var e := events[0];
      if e.agent < |s.agents| {
        assert LocalOk(s.store, s.agents[e.agent]);
        CleanKept(s.store, s.agents[e.agent], e.input);
      }
      ApplyOk(s, e);
      CleanExec(Apply(s, e), events[1..]);
    }
  }

  /** Without storage faults only the scope and account rejection takes a job out of SUCCEEDED. */
  lemma SucceededLeftOnlyByRejection(start: System, events: seq<Event>, e: Event)
    requires Initial(start) && FaultFree(events)
    requires var s := Exec(start, events);
             && s.store.job.Some? && s.store.job.value.status == Succeeded
             && Apply(s, e).store.job != s.store.job
             && (Apply(s, e).store.job.Some? ==> Apply(s, e).store.job.value.status != Succeeded)
    ensures var s := Exec(start, events);
            e.agent < |s.agents| && s.agents[e.agent] == Holding(s.store.job.value, Reject)
  {
    InitialOk(start);
    CleanExec(start, events);
    var s := Exec(start, events);
    SucceededLeftBy(s, e);
  }

  // ----- leases and fences

  /** Grants on one stage run, over the whole run of the system: attempts count 1, 2, 3, ... so no owner
      id is used twice, and between two grants the first lease had expired or a retryable failure
      had been recorded. */
  lemma LeasesExclude(s: System, lane: Lane, i: nat, j: nat)
    requires Reachable(s) && i < j < |ClaimsOf(s.store, lane)|
    ensures var claims := ClaimsOf(s.store, lane);
            && claims[i].owner != claims[j].owner
            && claims[i].attempt == i + 1 && claims[j].attempt == j + 1
            && claims[i].fence < claims[j].fence
            && (claims[i + 1].afterFailure || claims[i + 1].plannedAt >= claims[i].plannedAt + LEASE_MS)
  {
    ReachableOk(s);
    assert RowOk(lane, RunOf(s.store, lane), ClaimsOf(s.store, lane));
  }

  /** At most one agent can be working under the current fence of a run, and no other agent holds
      the same fence. */
  lemma OneHolderPerFence(s: System, i: nat, j: nat)
    requires Reachable(s) && i < |s.agents| && j < |s.agents| && i != j
    ensures !SameFence(s.agents[i], s.agents[j])
  {
    ReachableOk(s);
    FencedApart(s, i, j);
  }

  predicate Superseded(store: Store, lane: Lane, fence: nat) {
    fence < LastFence(ClaimsOf(store, lane))
  }

  lemma SupersededCannotComplete(store: Store, lane: Lane, fence: nat, result: WorkStatus)
    requires StoreOk(store) && Superseded(store, lane, fence)
    ensures CompleteRun(store, lane, fence, result).None?
  {
    assert RowOk(lane, RunOf(store, lane), ClaimsOf(store, lane));
  }

  lemma {:induction false} SupersededForever(s: System, events: seq<Event>, lane: Lane, fence: nat)
    requires Inv(s) && Superseded(s.store, lane, fence)
    ensures Inv(Exec(s, events)) && Superseded(Exec(s, events).store, lane, fence)
    decreases |events|
  {
    if events != [] {
      ApplyOk(s, events[0]);
      assert RowGrows(s.store, Apply(s, events[0]).store, lane);
      SupersededForever(Apply(s, events[0]), events[1..], lane, fence);
    }
  }

  /** Fencing: a worker whose run was reclaimed by another can never complete it, however the rest of
      the system proceeds; its completion changes nothing and the delivery fails. */
  lemma FencedOut(s: System, events: seq<Event>, i: nat, lane: Lane, fence: nat, result: WorkResult)
    requires Reachable(s) && Superseded(s.store, lane, fence)
    requires var later := Exec(s, events);
             && i < |later.agents| && later.agents[i].InStage?
             && later.agents[i].point == RunWork(lane, fence)
    ensures var later := Exec(s, events);
            Apply(later, Event(i, Work(result))).store == later.store
            && Apply(later, Event(i, Work(result))).agents[i].Handling?
  {
    ReachableOk(s);
    SupersededForever(s, events, lane, fence);
    var later := Exec(s, events);
    assert StoreOk(later.store);
    hide Reachable, Inv, Exec, Superseded, StoreOk;
    WorkIsRefused(later.store, later.agents[i], lane, fence, result);
  }

  lemma WorkIsRefused(store: Store, l: Local, lane: Lane, fence: nat, result: WorkResult)
    requires StoreOk(store) && Superseded(store, lane, fence) && l.InStage? && l.point == RunWork(lane, fence)
    ensures var (after, l') := Step(store, l, Work(result)); after == store && l'.Handling?
  {
    if result.Finished? {
      SupersededCannotComplete(store, lane, fence, result.status);
    }
  }

  /** A completed run is never claimed again and never becomes incomplete. */
  lemma {:induction false} CompletionIsFinal(s: System, events: seq<Event>, lane: Lane)
    requires Inv(s) && RunDone(s.store, lane)
    ensures RunDone(Exec(s, events).store, lane)
    ensures |ClaimsOf(Exec(s, events).store, lane)| == |ClaimsOf(s.store, lane)|
    decreases |events|
  {
    if events != [] {
      ApplyOk(s, events[0]);
      assert RowGrows(s.store, Apply(s, events[0]).store, lane);
      if events[0].agent < |s.agents| {
        assert LocalOk(s.store, s.agents[events[0].agent]);
        NoClaimOnCompleted(s.store, s.agents[events[0].agent], events[0].input, lane);
      }
      CompletionIsFinal(Apply(s, events[0]), events[1..], lane);
    }
  }

  lemma NoClaimOnCompleted(store: Store, l: Local, input: Input, lane: Lane)
    requires StoreOk(store) && LocalOk(store, l) && RunDone(store, lane)
    ensures ClaimsOf(Step(store, l, input).0, lane) == ClaimsOf(store, lane)
  {
    StepEffect(store, l, input);
    NoGrantOnCompleted(store, l, input, lane);
    NoGrantOnCompleted(store, l, Go, lane);
  }

  lemma NoGrantOnCompleted(store: Store, l: Local, input: Input, lane: Lane)
    requires LocalOk(store, l) && RunDone(store, lane)
    ensures ClaimsOf(Proceed(store, l, input).0, lane) == ClaimsOf(store, lane)
  {
    if Granted(store, l) {
      GrantShape(store, l.point.lane, l.point.plan);
    } else {
      ClaimsTouched(store, l, input);
    }
  }

  // ----- the exits that are never taken

  /** The step limit of the stage loop and its exits for unknown or finished stages are unreachable:
      a reachable agent at the loop head always has a stage to run. */
  lemma LoopGuardUnreachable(s: System, i: nat)
    requires Reachable(s) && i < |s.agents| && s.agents[i].InStage?
    ensures s.agents[i].step < Rank(s.agents[i].job.stage) <= 5 < MAX_STEPS
    ensures s.agents[i].job.stage !in {Enqueue, Complete}
  {
    ReachableOk(s);
    assert LocalOk(s.store, s.agents[i]);
  }

  /** A delivery fails a job as not runnable exactly when it finds the job still queued after its own
      claim attempt, that is, when its claim lost a race against a write that left the job queued. */
  lemma NotRunnableIffStillQueued(s: System, i: nat, job: Job)
    requires Reachable(s) && i < |s.agents| && s.agents[i] == Holding(job, Refresh)
    ensures s.store.job.Some?
    ensures Apply(s, Event(i, Go)).agents[i] == Handling(s.store.job.value, TerminalError)
            <==> s.store.job.value.status == Queued
  {
    ReachableOk(s);
    assert LocalOk(s.store, s.agents[i]);
    assert JobShape(s.store.job.value);
    hide Reachable, Inv, StoreOk, LocalOk;
    FoundJobDecides(s.store, job, s.store.job.value);
  }

  /** Inside the stage loop only a stage whose run failed for good ends in the terminal error: lost races, active
      leases, failed or throwing services, missing proofs and storage faults all leave the job to be tried again. */
  lemma TerminalErrorIff(s: System, i: nat, input: Input)
    requires Reachable(s) && i < |s.agents| && s.agents[i].InStage?
    ensures var l, l' := s.agents[i], Apply(s, Event(i, input)).agents[i];
            l'.Handling? && l'.error == TerminalError <==>
              && !input.Crash? && !input.Wait? && !input.Fault?
              && l.point == Look && GuardLane(l.job.stage).Some?
              && Proof(s.store, GuardLane(l.job.stage).value) == FailedPermanent
  {
    ReachableOk(s);
    assert LocalOk(s.store, s.agents[i]);
    var l := s.agents[i];
    hide Reachable, Inv, StoreOk, Proof, LocalOk, StepLook;
    if l.point == Look {
      TerminalLookIff(s.store, l.base, l.job, l.step);
    } else {
      NoTerminalError(s.store, l, input);
    }
  }

  lemma TerminalLookIff(store: Store, base: Job, job: Job, step: nat)
    requires LocalOk(store, InStage(base, job, step, Look))
    ensures var l' := StepLook(store, base, job, step);
            l'.Handling? && l'.error == TerminalError <==>
              GuardLane(job.stage).Some? && Proof(store, GuardLane(job.stage).value) == FailedPermanent
  {
    LookOk(store, base, job, step);
    hide LocalOk, Proof;
  }

  /** What a delivery does with the job as it finds it when it re-reads it, in any store: it works on a job that is
      RUNNING or PARTIAL, leaves a finished or a failed one alone, and takes any other for not runnable. */
  lemma FoundJobDecides(store: Store, job: Job, found: Job)
    requires store.job == Some(found)
    ensures var (after, l) := Step(store, Holding(job, Refresh), Go);
            && after == store
            && (l.InStage? <==> found.status == Running || found.status == Partial)
            && (l.InStage? ==> l == InStage(found, found, 0, Look))
            && (l == Holding(found, Skip) <==> found.status == Succeeded && found.stage == Complete)
            && (l == Done(Ack) <==> found.status == Failed)
            && (l == Handling(found, TerminalError) <==>
                  found.status == Queued || (found.status == Succeeded && found.stage != Complete))
  {
  }

  /** An operation that throws, before or after it took effect, never acknowledges the message. Inside the
      pipeline the handler counts it against the job read before the pipeline; from the claim up to there,
      against the job in hand; elsewhere the message is delivered again. */
  lemma ThrownIsRetried(store: Store, l: Local, applied: bool)
    requires !l.Idle? && !l.Done? && !l.Producing?
    ensures var l' := Step(store, l, Fault(applied)).1;
            && (l' == Done(Retry) || (l'.Handling? && l'.error == OtherError))
            && (l'.Handling? <==> l.InStage? || (l.Holding? && l.task != Validate && l.task != Reject))
            && (l'.Handling? ==> l'.base == if l.InStage? then l.base else l.job)
  {
  }

  /** A delivery whose scope or account is refused works on nothing: alone, it marks the job FAILED at its stage,
      whatever its status was, and is acknowledged. */
  lemma RefusedIsFailed(store: Store, job: Job)
    requires store.job == Some(job)
    ensures var (found, holding) := Step(store, Idle, Deliver);
            var (judged, rejecting) := Step(found, holding, Judge(RefusedScopeOrAccount));
            var (after, l) := Step(judged, rejecting, Go);
            && judged == store && l == Done(Ack)
            && after == store.(job := after.job) && after.job.Some?
            && after.job.value == job.(status := Failed, version := job.version + 1, updatedAt := store.now)
  {
  }

  /** A write of a failure, a rejection or an exhausted retry through a copy that is no longer the stored version
      changes nothing, and the message is delivered again. */
  lemma LostWriteIsRetried(store: Store, l: Local)
    requires l.Handling? || l.Exhausting? || (l.Holding? && l.task == Reject)
    requires var copy := if l.Handling? then l.base else if l.Exhausting? then l.updated else l.job;
             store.job.None? || store.job.value.version != copy.version
    ensures Step(store, l, Go) == (store, Done(Retry))
  {
  }

  /** A producer creates the job if there is none, sends the message of a job whose message is not known to be in
      the queue, and leaves alone one that is enqueued. */
  lemma ProducerByQueueStatus(store: Store)
    ensures var (after, l) := Step(store, Idle, Produce);
            && (l == Idle <==> store.job.Some? && store.job.value.queueStatus == Enqueued)
            && (l != Idle ==> after.job.Some? && l == Producing(after.job.value, None))
            && after == store.(job := if store.job.Some? then store.job
                                      else Some(Job(Queued, Pending, Enqueue, 0, 1, store.now)))
  {
  }

  lemma NoTerminalError(store: Store, l: Local, input: Input)
    requires l.InStage? && l.point != Look
    ensures var l' := StepInStage(store, l.base, l.job, l.step, l.point, input).1;
            !(l'.Handling? && l'.error == TerminalError)
  {
  }

  lemma ExecFirst(s: System, first: Event, rest: seq<Event>)
    ensures Exec(s, [first] + rest) == Exec(Apply(s, first), rest)
  {
    assert ([first] + rest)[1..] == rest;
  }

  lemma RaceJoins(start: System, front: seq<Event>, back: seq<Event>, store: Store)
    requires Initial(start) && FaultFree(front) && FaultFree(back) && Exec(Exec(start, front), back).store == store
    ensures exists start, events :: Initial(start) && FaultFree(events) && Exec(start, events).store == store
  {
    hide Initial, Exec;
    ExecJoin(start, front, back);
    assert FaultFree(front + back);
  }

  lemma ExecJoin(s: System, front: seq<Event>, back: seq<Event>)
    ensures Exec(s, front + back) == Exec(Exec(s, front), back)
  {
    Runs.RunJoin(Apply, Exec, s, front, back);
  }

  const QUEUED: Job := Job(Queued, Pending, Enqueue, 0, 1, 0)
  const ENQUEUED: Job := Job(Queued, Enqueued, Enqueue, 0, 2, 0)
  const FAILED: Job := Job(Failed, Enqueued, Enqueue, 0, 3, 0)

  function RaceStore(job: Option<Job>): Store { Store(job, map[], None, map[], 0) }

  lemma RaceOpens()
    ensures Exec(System(RaceStore(None), [Idle, Idle]),
                 [Event(0, Produce), Event(0, Sent(true)), Event(1, Deliver), Event(1, Judge(Accepted))])
            == System(RaceStore(Some(QUEUED)), [Producing(QUEUED, Some(true)), Holding(QUEUED, Claim)])
  {
    var s0 := System(RaceStore(None), [Idle, Idle]);
    var s1 := System(RaceStore(Some(QUEUED)), [Producing(QUEUED, None), Idle]);
    var s2 := System(RaceStore(Some(QUEUED)), [Producing(QUEUED, Some(true)), Idle]);
    var s3 := System(RaceStore(Some(QUEUED)), [Producing(QUEUED, Some(true)), Holding(QUEUED, Validate)]);
    ExecFirst(s0, Event(0, Produce), [Event(0, Sent(true)), Event(1, Deliver), Event(1, Judge(Accepted))]);
    ExecFirst(s1, Event(0, Sent(true)), [Event(1, Deliver), Event(1, Judge(Accepted))]);
    ExecFirst(s2, Event(1, Deliver), [Event(1, Judge(Accepted))]);
    ExecFirst(s3, Event(1, Judge(Accepted)), []);
  }

  lemma RaceCloses()
    ensures Exec(System(RaceStore(Some(QUEUED)), [Producing(QUEUED, Some(true)), Holding(QUEUED, Claim)]),
                 [Event(0, Go), Event(1, Go), Event(1, Go), Event(1, Go), Event(1, Go)])
            == System(RaceStore(Some(FAILED)), [Idle, Done(Ack)])
  {
    var s0 := System(RaceStore(Some(QUEUED)), [Producing(QUEUED, Some(true)), Holding(QUEUED, Claim)]);
    var s1 := System(RaceStore(Some(ENQUEUED)), [Idle, Holding(QUEUED, Claim)]);
    var s2 := System(RaceStore(Some(ENQUEUED)), [Idle, Holding(QUEUED, Reload)]);
    var s3 := System(RaceStore(Some(ENQUEUED)), [Idle, Holding(ENQUEUED, Refresh)]);
    var s4 := System(RaceStore(Some(ENQUEUED)), [Idle, Handling(ENQUEUED, TerminalError)]);
    ExecFirst(s0, Event(0, Go), [Event(1, Go), Event(1, Go), Event(1, Go), Event(1, Go)]);
    ExecFirst(s1, Event(1, Go), [Event(1, Go), Event(1, Go), Event(1, Go)]);
    ExecFirst(s2, Event(1, Go), [Event(1, Go), Event(1, Go)]);
    ExecFirst(s3, Event(1, Go), [Event(1, Go)]);
    ExecFirst(s4, Event(1, Go), []);
  }

  /** Such a race exists without any fault: the producer records ENQUEUED between the consumer's read
      and its claim, and a healthy job that never ran is failed for good. */
  lemma EnqueueRaceFailsTheJob()
    ensures exists start, events ::
              && Initial(start) && FaultFree(events)
              && Exec(start, events).store == RaceStore(Some(FAILED))
  {
    var start := System(RaceStore(None), [Idle, Idle]);
    var front := [Event(0, Produce), Event(0, Sent(true)), Event(1, Deliver), Event(1, Judge(Accepted))];
    var back := [Event(0, Go), Event(1, Go), Event(1, Go), Event(1, Go), Event(1, Go)];
    assert Initial(start) && FaultFree(front) && FaultFree(back);
    hide Exec, Initial, FaultFree, RaceStore;
    RaceOpens();
    RaceCloses();
    RaceJoins(start, front, back, RaceStore(Some(FAILED)));
  }
}
