/** The durable records of an EC2 intelligence job: the job row, its stages and the
    three stage-run rows that back the discovery, cost and security stages. */
module JobModels {
  import Ordering

  datatype Option<+T> = None | Some(value: T)

  datatype Stage =
    | Enqueue
    | Discovery
    | CostAnalysis
    | SecurityAnalysis
    | GovernanceAnalysis
    | Finalizing
    | Complete

  datatype JobStatus = Queued | Running | Succeeded | Partial | Failed

  datatype QueueStatus = Pending | Enqueued | EnqueueFailed

  /** The stage sequence; a stage's rank is its index here. */
  const STAGE_SEQUENCE: seq<Stage> :=
    [Enqueue, Discovery, CostAnalysis, SecurityAnalysis, GovernanceAnalysis, Finalizing, Complete]

  function Rank(stage: Stage): (r: nat)
    ensures r < |STAGE_SEQUENCE| && STAGE_SEQUENCE[r] == stage
  {
    match stage
    case Enqueue => 0
    case Discovery => 1
    case CostAnalysis => 2
    case SecurityAnalysis => 3
    case GovernanceAnalysis => 4
    case Finalizing => 5
    case Complete => 6
  }

  function NextStage(stage: Stage): (next: Option<Stage>)
    ensures next.None? <==> stage == Complete
    ensures next.Some? ==> Rank(next.value) == Rank(stage) + 1
  {
    var index := Rank(stage);
    if index >= |STAGE_SEQUENCE| - 1 then None else Some(STAGE_SEQUENCE[index + 1])
  }

  /** Only the fields that some decision reads; scope, correlation and summaries are left out. */
  datatype Job = Job(
    status: JobStatus,
    queueStatus: QueueStatus,
    stage: Stage,
    retryCount: nat,
    version: nat,
    updatedAt: int)

  /** The stages that own a stage-run row. */
  datatype Lane = DiscoveryLane | CostLane | SecurityLane

  function LaneOf(stage: Stage): (lane: Option<Lane>) {
    match stage
    case Discovery => Some(DiscoveryLane)
    case CostAnalysis => Some(CostLane)
    case SecurityAnalysis => Some(SecurityLane)
    case _ => None
  }

  function StageOf(lane: Lane): (stage: Stage)
    ensures LaneOf(stage) == Some(lane)
  {
    match lane
    case DiscoveryLane => Discovery
    case CostLane => CostAnalysis
    case SecurityLane => SecurityAnalysis
  }

  datatype RunStatus = RunRunning | RunSucceeded | RunPartial | RunFailed | RunUnknown

  /** Stands for `async:<job>:<stage>:attempt:<n>`; within one job it is fixed by lane and attempt. */
  datatype Owner = Owner(lane: Lane, attempt: nat)

  /** A stage-run row. `completed` says that completedAt is set; a lease that is absent or
      does not parse is None. */
  datatype RunRow = RunRow(
    status: RunStatus,
    completed: bool,
    lease: Option<int>,
    attemptCount: Option<nat>,
    failureRetryable: Option<bool>,
    owner: Option<Owner>,
    version: nat)

  /** Scope comparison of the requested regions: sorted copies, element by element. Regions stand
      for their position in the string order. */
  predicate RegionsEqual(left: seq<int>, right: seq<int>) {
    if |left| != |right| then false
    else
      var a := Ordering.Sort(left, (x: int, y: int) => x <= y);
      var b := Ordering.Sort(right, (x: int, y: int) => x <= y);
      forall i :: 0 <= i < |a| ==> a[i] == b[i]
  }

  /** Two region lists are equal exactly when they hold the same regions equally often. */
  lemma RegionsEqualAsMultisets(left: seq<int>, right: seq<int>)
    ensures RegionsEqual(left, right) <==> multiset(left) == multiset(right)
  {
    var le := (x: int, y: int) => x <= y;
    Ordering.SortedCopiesEqual(left, right, le);
    if multiset(left) == multiset(right) {
      Ordering.SameMembers(left, right);
    }
    if RegionsEqual(left, right) {
      assert Ordering.Sort(left, le) == Ordering.Sort(right, le);
    }
  }
}
