/** The maturity class of a finding and its score. */
module EvidenceMaturity {
  import opened JobModels
  import opened Ordering
  import opened EvidenceHistory
  import opened StableEpoch

  datatype Maturity = Immature | PartiallyMature | Mature

  datatype Applicability = Required | NotApplicable

  datatype Completeness = NoData | Insufficient | PartialData | CompleteData

  datatype Telemetry = Telemetry(applicability: Applicability, completeness: Completeness)

  datatype Config = Config(partialMinCount: int, matureMinCount: int, matureMinHours: real)

  const DEFAULT_CONFIG: Config := Config(2, 3, 24.0)

  datatype Reason =
    | FirstObservation
    | PriorHistoryMissing
    | FingerprintChangedReset
    | TelemetryNoData
    | TelemetryInsufficient
    | TelemetryNotApplicable
    | TelemetryPartial
    | TelemetryComplete
    | InsufficientObservationCount
    | SufficientObservationCount
    | InsufficientStableEpochDuration
    | SufficientStableEpochDuration
    | StableHistorySupportsMature
    | StableHistorySupportsPartial

  predicate TelemetryBlocks(telemetry: Telemetry) {
    telemetry.applicability == Required && telemetry.completeness in {NoData, Insufficient}
  }

  predicate QualifiesForMature(count: int, hours: real, telemetry: Telemetry, config: Config) {
    && count >= config.matureMinCount
    && hours >= config.matureMinHours
    && (telemetry.applicability == NotApplicable || telemetry.completeness == CompleteData)
  }

  predicate QualifiesForPartial(count: int, hours: real, config: Config) {
    count >= config.partialMinCount && hours > 0.0
  }

  /** The class as a function of the state, the epoch and the telemetry. */
  function MaturityClass(state: PersistenceState, count: int, hours: real, telemetry: Telemetry, config: Config): Maturity {
    if state != Stable || TelemetryBlocks(telemetry) || count < config.partialMinCount then Immature
    else if QualifiesForMature(count, hours, telemetry, config) then Mature
    else if QualifiesForPartial(count, hours, config) then PartiallyMature
    else Immature
  }

  /** By the numbers: the class in terms of the state, the thresholds and the telemetry. */
  lemma ClassByFields(state: PersistenceState, count: int, hours: real, telemetry: Telemetry, config: Config)
    ensures var maturity := MaturityClass(state, count, hours, telemetry, config);
            var usable := telemetry.applicability == NotApplicable
                          || (telemetry.completeness != NoData && telemetry.completeness != Insufficient);
            var complete := telemetry.applicability == NotApplicable || telemetry.completeness == CompleteData;
            var mature := state == Stable && complete && count >= config.partialMinCount
                          && count >= config.matureMinCount && hours >= config.matureMinHours;
            && (maturity == Mature <==> mature)
            && (maturity == PartiallyMature <==>
                  !mature && state == Stable && usable && count >= config.partialMinCount && hours > 0.0)
  {
  }

  /** Under the default thresholds: MATURE from three observations and 24 hours on, PARTIALLY MATURE from two
      observations and more than no time on. */
  lemma DefaultClass(state: PersistenceState, count: int, hours: real, telemetry: Telemetry)
    requires telemetry.applicability == NotApplicable || telemetry.completeness == CompleteData
    ensures var maturity := MaturityClass(state, count, hours, telemetry, DEFAULT_CONFIG);
            && (maturity == Mature <==> state == Stable && count >= 3 && hours >= 24.0)
            && (maturity != Immature <==> state == Stable && count >= 2 && hours > 0.0)
  {
  }

  function MaturityOf(source: Observation, history: seq<Observation>, telemetry: Telemetry, config: Config): Maturity {
    var epoch := StableEpochOf(source, history);
    MaturityClass(source.assessment.state, |epoch.observations|, epoch.stableEpochHours, telemetry, config)
  }

  predicate Blocked(reasonCodes: seq<Reason>) {
    || FirstObservation in reasonCodes || PriorHistoryMissing in reasonCodes || FingerprintChangedReset in reasonCodes
    || TelemetryNoData in reasonCodes || TelemetryInsufficient in reasonCodes
  }

  /** The first reason: what blocks the class, or that telemetry does not apply. */
  method Screen(state: PersistenceState, telemetry: Telemetry) returns (reasonCodes: seq<Reason>)
    ensures Blocked(reasonCodes) <==> state != Stable || TelemetryBlocks(telemetry)
    ensures !Blocked(reasonCodes) ==> reasonCodes == if telemetry.applicability == NotApplicable then [TelemetryNotApplicable] else []
    ensures Blocked(reasonCodes) ==>
              |reasonCodes| == 1 && StableHistorySupportsMature !in reasonCodes && StableHistorySupportsPartial !in reasonCodes
              && TelemetryComplete !in reasonCodes
    ensures TelemetryNoData in reasonCodes || TelemetryInsufficient in reasonCodes <==>
            state == Stable && TelemetryBlocks(telemetry)
    ensures reasonCodes == match state
                           case New => [FirstObservation]
                           case MissingPrevious => [PriorHistoryMissing]
                           case Changed => [FingerprintChangedReset]
                           case Stable =>
                             if telemetry.applicability == NotApplicable then [TelemetryNotApplicable]
                             else match telemetry.completeness
                                  case NoData => [TelemetryNoData]
                                  case Insufficient => [TelemetryInsufficient]
                                  case PartialData => []
                                  case CompleteData => []
  {
    reasonCodes := [];
    if state == New {
      reasonCodes := reasonCodes + [FirstObservation];
    } else if state == MissingPrevious {
      reasonCodes := reasonCodes + [PriorHistoryMissing];
    } else if state == Changed {
      reasonCodes := reasonCodes + [FingerprintChangedReset];
    } else if telemetry.applicability == Required {
      if telemetry.completeness == NoData {
        reasonCodes := reasonCodes + [TelemetryNoData];
      } else if telemetry.completeness == Insufficient {
        reasonCodes := reasonCodes + [TelemetryInsufficient];
      }
    } else {
      reasonCodes := reasonCodes + [TelemetryNotApplicable];
    }
  }

  /** Which reason codes are given, one by one: why the class was blocked, how the telemetry stands, and whether
      count and hours suffice for what was decided. */
  predicate ReasonsGiven(reasonCodes: seq<Reason>, state: PersistenceState, count: int, hours: real, telemetry: Telemetry, config: Config) {
    var maturity := MaturityClass(state, count, hours, telemetry, config);
    var required := state == Stable && telemetry.applicability == Required;
    var open := state == Stable && (telemetry.applicability == NotApplicable || telemetry.completeness in {PartialData, CompleteData});
    && (FirstObservation in reasonCodes <==> state == New)
    && (PriorHistoryMissing in reasonCodes <==> state == MissingPrevious)
    && (FingerprintChangedReset in reasonCodes <==> state == Changed)
    && (TelemetryNoData in reasonCodes <==> required && telemetry.completeness == NoData)
    && (TelemetryInsufficient in reasonCodes <==> required && telemetry.completeness == Insufficient)
    && (TelemetryNotApplicable in reasonCodes <==> state == Stable && telemetry.applicability == NotApplicable)
    && (TelemetryPartial in reasonCodes <==> maturity == PartiallyMature && required && telemetry.completeness == PartialData)
    && (TelemetryComplete in reasonCodes <==> maturity == Mature && required)
    && (StableHistorySupportsMature in reasonCodes <==> maturity == Mature)
    && (StableHistorySupportsPartial in reasonCodes <==> maturity == PartiallyMature)
    && (SufficientObservationCount in reasonCodes <==> maturity != Immature && count >= config.matureMinCount)
    && (InsufficientObservationCount in reasonCodes <==>
          open && (count < config.partialMinCount || (maturity == PartiallyMature && count < config.matureMinCount)))
    && (SufficientStableEpochDuration in reasonCodes <==> maturity != Immature && hours >= config.matureMinHours)
    && (InsufficientStableEpochDuration in reasonCodes <==>
          open && count >= config.partialMinCount && maturity != Mature && (hours <= 0.0 || hours < config.matureMinHours))
  }

  /** The reason codes in the order in which they are collected. */
  function Reasons(state: PersistenceState, count: int, hours: real, telemetry: Telemetry, config: Config): seq<Reason> {
    match state
    case New => [FirstObservation]
    case MissingPrevious => [PriorHistoryMissing]
    case Changed => [FingerprintChangedReset]
    case Stable =>
      if telemetry.applicability == Required && telemetry.completeness == NoData then [TelemetryNoData]
      else if telemetry.applicability == Required && telemetry.completeness == Insufficient then [TelemetryInsufficient]
      else (if telemetry.applicability == NotApplicable then [TelemetryNotApplicable] else [])
           + StableReasons(count, hours, telemetry, config)
  }

  function StableReasons(count: int, hours: real, telemetry: Telemetry, config: Config): seq<Reason> {
    if count < config.partialMinCount then [InsufficientObservationCount]
    else if QualifiesForMature(count, hours, telemetry, config) then
      [SufficientObservationCount, SufficientStableEpochDuration, StableHistorySupportsMature]
        + if telemetry.applicability == Required then [TelemetryComplete] else []
    else if QualifiesForPartial(count, hours, config) then
      [StableHistorySupportsPartial,
       if count >= config.matureMinCount then SufficientObservationCount else InsufficientObservationCount,
       if hours >= config.matureMinHours then SufficientStableEpochDuration else InsufficientStableEpochDuration]
        + if telemetry.applicability == Required && telemetry.completeness == PartialData then [TelemetryPartial] else []
    else [InsufficientStableEpochDuration]
  }

  lemma ReasonsAreGiven(state: PersistenceState, count: int, hours: real, telemetry: Telemetry, config: Config)
    ensures var codes := Reasons(state, count, hours, telemetry, config);
            ReasonsGiven(codes, state, count, hours, telemetry, config) && Distinct(codes)
  {
    StableCodes(count, hours, telemetry, config);
    hide StableReasons;
    if state == Stable && telemetry.applicability == NotApplicable {
      FirstDistinct(TelemetryNotApplicable, StableReasons(count, hours, telemetry, config));
    }
  }

  lemma FirstDistinct(first: Reason, rest: seq<Reason>)
    requires Distinct(rest) && first !in rest
    ensures Distinct([first] + rest)
  {
  }

  lemma StableCodes(count: int, hours: real, telemetry: Telemetry, config: Config)
    ensures var codes := StableReasons(count, hours, telemetry, config);
            var enough := count >= config.partialMinCount;
            var mature := enough && QualifiesForMature(count, hours, telemetry, config);
            var partial := enough && !mature && hours > 0.0;
            var required := telemetry.applicability == Required;
            && Distinct(codes)
            && FirstObservation !in codes && PriorHistoryMissing !in codes && FingerprintChangedReset !in codes
            && TelemetryNoData !in codes && TelemetryInsufficient !in codes && TelemetryNotApplicable !in codes
            && (TelemetryPartial in codes <==> partial && required && telemetry.completeness == PartialData)
            && (TelemetryComplete in codes <==> mature && required)
            && (StableHistorySupportsMature in codes <==> mature)
            && (StableHistorySupportsPartial in codes <==> partial)
            && (SufficientObservationCount in codes <==> mature || (partial && count >= config.matureMinCount))
            && (InsufficientObservationCount in codes <==> !enough || (partial && count < config.matureMinCount))
            && (SufficientStableEpochDuration in codes <==> mature || (partial && hours >= config.matureMinHours))
            && (InsufficientStableEpochDuration in codes <==>
                  enough && !mature && (!partial || hours < config.matureMinHours))
  {
  }

  /** The decision of the evaluator, which collects reason codes on its way. The codes name the class
      that was given, and a class other than IMMATURE is given only where no blocking code stands. */
  method Decide(state: PersistenceState, count: int, hours: real, telemetry: Telemetry, config: Config)
    returns (maturity: Maturity, reasonCodes: seq<Reason>)
    ensures maturity == MaturityClass(state, count, hours, telemetry, config)
    ensures reasonCodes == Reasons(state, count, hours, telemetry, config)
    ensures ReasonsGiven(reasonCodes, state, count, hours, telemetry, config) && Distinct(reasonCodes)
    ensures maturity != Immature ==> !Blocked(reasonCodes)
    ensures state != Stable || TelemetryBlocks(telemetry) ==> Blocked(reasonCodes)
  {
    ReasonsAreGiven(state, count, hours, telemetry, config);
    hide ReasonsGiven, Distinct;
    reasonCodes := Screen(state, telemetry);
    maturity := Immature;
    var telemetryBlocksMature := telemetry.applicability == Required && telemetry.completeness != CompleteData;
    if state == Stable && TelemetryNoData !in reasonCodes && TelemetryInsufficient !in reasonCodes {
      if count < config.partialMinCount {
        reasonCodes := reasonCodes + [InsufficientObservationCount];
      } else if QualifiesForMature(count, hours, telemetry, config) {
        maturity := Mature;
        reasonCodes := reasonCodes + [SufficientObservationCount, SufficientStableEpochDuration, StableHistorySupportsMature];
        if telemetry.applicability == Required {
          reasonCodes := reasonCodes + [TelemetryComplete];
        }
      } else if QualifiesForPartial(count, hours, config) {
        maturity := PartiallyMature;
        reasonCodes := reasonCodes + [
          StableHistorySupportsPartial,
          if count >= config.matureMinCount then SufficientObservationCount else InsufficientObservationCount,
          if hours >= config.matureMinHours then SufficientStableEpochDuration else InsufficientStableEpochDuration];
        if telemetryBlocksMature && telemetry.completeness == PartialData {
          reasonCodes := reasonCodes + [TelemetryPartial];
        }
      } else if hours <= 0.0 {
        reasonCodes := reasonCodes + [InsufficientStableEpochDuration];
      }
    }
  }

  // ----- the class over a history

  function Level(maturity: Maturity): nat {
    match maturity case Immature => 0 case PartiallyMature => 1 case Mature => 2
  }

  function Quality(telemetry: Telemetry): nat {
    if telemetry.applicability == NotApplicable then 3
    else match telemetry.completeness case NoData => 0 case Insufficient => 0 case PartialData => 1 case CompleteData => 2
  }

  lemma ClassMonotone(count: int, count': int, hours: real, hours': real, state: PersistenceState,
                      telemetry: Telemetry, telemetry': Telemetry, config: Config)
    requires count <= count' && hours <= hours' && Quality(telemetry) <= Quality(telemetry')
    ensures Level(MaturityClass(state, count, hours, telemetry, config)) <=
            Level(MaturityClass(Stable, count', hours', telemetry', config))
  {
  }

  lemma SameStart(history: seq<Observation>, n: nat)
    requires 0 < n < |history| && history[n].fingerprint == history[n - 1].fingerprint
    ensures EpochStart(history, n) == EpochStart(history[..n], n - 1)
  {
    var a, b := EpochStart(history, n), EpochStart(history[..n], n - 1);
    assert history[..n][n - 1] == history[n - 1];
  }

  lemma ChainedPrefix(history: seq<Observation>, scope: Scope, digest: LogicalKey -> int, n: nat)
    requires Chained(history, scope, digest) && n <= |history|
    ensures Chained(history[..n], scope, digest)
  {
    forall i | 0 <= i < n ensures LinkAt(history[..n], i, scope, digest) {
      assert LinkAt(history, i, scope, digest);
    }
  }

  /** The class of observation k, in terms of where its epoch starts. */
  lemma ClassFromStart(history: seq<Observation>, scope: Scope, digest: LogicalKey -> int, k: nat, telemetry: Telemetry, config: Config)
    requires Chained(history, scope, digest) && k < |history|
    ensures var start := EpochStart(history, k);
            MaturityOf(history[k], history, telemetry, config) ==
            MaturityClass(history[k].assessment.state, k + 1 - start,
                          Hours(history[k].timestamp - history[start].timestamp), telemetry, config)
  {
    hide StableEpochOf, Chained;
    EpochMembers(history, scope, digest, k);
    EpochHours(history[k], history);
    EpochLinks(history, scope, digest, k, EpochStart(history, k));
    HoursOfMembers(history, k, EpochStart(history, k));
  }

  lemma HoursOrdered(a: int, b: int)
    requires a <= b
    ensures Hours(a) <= Hours(b)
  {
  }

  /** The class before and after one more observation with the same fingerprint: both count from the
      same start. */
  lemma ClassStep(history: seq<Observation>, scope: Scope, digest: LogicalKey -> int,
                  telemetry: Telemetry, telemetry': Telemetry, config: Config)
    returns (state: PersistenceState, count: int, before: int, after: int)
    requires Chained(history, scope, digest) && |history| >= 2
    requires history[|history| - 1].fingerprint == history[|history| - 2].fingerprint
    ensures before <= after
    ensures var n := |history| - 1;
            && MaturityOf(history[n - 1], history[..n], telemetry, config) ==
               MaturityClass(state, count, Hours(before), telemetry, config)
            && MaturityOf(history[n], history, telemetry', config) ==
               MaturityClass(Stable, count + 1, Hours(after), telemetry', config)
  {
    hide StableEpochOf, MaturityOf, MaturityClass, Hours;
    var n := |history| - 1;
    var start := EpochStart(history, n);
    var front := history[..n];
    ChainedPrefix(history, scope, digest, n);
    assert LinkAt(history, n, scope, digest);
    SameStart(history, n);
    ClassFromStart(front, scope, digest, n - 1, telemetry, config);
    ClassFromStart(history, scope, digest, n, telemetry', config);
    assert front[start] == history[start] && front[n - 1] == history[n - 1];
    state, count := history[n - 1].assessment.state, n - start;
    before, after := history[n - 1].timestamp - history[start].timestamp, history[n].timestamp - history[start].timestamp;
  }

  lemma ChainedNeverLowers(history: seq<Observation>, scope: Scope, digest: LogicalKey -> int,
                           telemetry: Telemetry, telemetry': Telemetry, config: Config)
    requires Chained(history, scope, digest) && |history| >= 2
    requires history[|history| - 1].fingerprint == history[|history| - 2].fingerprint
    requires Quality(telemetry) <= Quality(telemetry')
    ensures var n := |history| - 1;
            Level(MaturityOf(history[n - 1], history[..n], telemetry, config)) <=
            Level(MaturityOf(history[n], history, telemetry', config))
  {
    hide StableEpochOf, Chained, MaturityOf, MaturityClass, Hours, Level, Quality;
    var state, count, before, after := ClassStep(history, scope, digest, telemetry, telemetry', config);
    HoursOrdered(before, after);
    ClassMonotone(count, count + 1, Hours(before), Hours(after), state, telemetry, telemetry', config);
  }

  /** A changed fingerprint resets the class and the epoch. */
  lemma ChainedChangeResets(history: seq<Observation>, scope: Scope, digest: LogicalKey -> int, telemetry: Telemetry, config: Config)
    requires Chained(history, scope, digest) && |history| >= 2
    requires history[|history| - 1].fingerprint != history[|history| - 2].fingerprint
    ensures var last := history[|history| - 1];
            && MaturityOf(last, history, telemetry, config) == Immature
            && |StableEpochOf(last, history).observations| == 1
            && last.assessment.state == Changed
  {
    var n := |history| - 1;
    assert LinkAt(history, n, scope, digest);
    EpochIsMaximalRun(history, scope, digest, n);
  }

  /** What the last observation of a history does to the class: with the fingerprint of the one before it
      and telemetry that is no worse, it does not lower it; with another fingerprint it resets it. */
  ghost predicate KeepsOrResets(history: seq<Observation>, telemetry: Telemetry, telemetry': Telemetry, config: Config)
    requires |history| >= 2
  {
    var n := |history| - 1;
    if history[n].fingerprint == history[n - 1].fingerprint then
      Quality(telemetry) <= Quality(telemetry') ==>
        Level(MaturityOf(history[n - 1], history[..n], telemetry, config)) <=
        Level(MaturityOf(history[n], history, telemetry', config))
    else
      && MaturityOf(history[n], history, telemetry', config) == Immature
      && |StableEpochOf(history[n], history).observations| == 1
  }

  lemma ChainedKeepsOrResets(history: seq<Observation>, scope: Scope, digest: LogicalKey -> int,
                             telemetry: Telemetry, telemetry': Telemetry, config: Config)
    requires Chained(history, scope, digest) && |history| >= 2
    ensures KeepsOrResets(history, telemetry, telemetry', config)
  {
    hide Chained, StableEpochOf, MaturityOf, Level, Quality;
    var n := |history| - 1;
    if history[n].fingerprint != history[n - 1].fingerprint {
      ChainedChangeResets(history, scope, digest, telemetry', config);
    } else if Quality(telemetry) <= Quality(telemetry') {
      ChainedNeverLowers(history, scope, digest, telemetry, telemetry', config);
    }
  }

  /** So it is with every recorded request, whatever was recorded before and whatever the thresholds. */
  lemma RecordingKeepsOrResets(requests: seq<Request>, scope: Scope, digest: LogicalKey -> int,
                               telemetry: Telemetry, telemetry': Telemetry, config: Config)
    requires InOrder(requests, scope) && |RecordAll(requests, digest)| >= 2
    ensures KeepsOrResets(RecordAll(requests, digest), telemetry, telemetry', config)
  {
    RecordedIsChained(requests, scope, digest);
    hide RecordAll, InOrder, Chained, KeepsOrResets;
    ChainedKeepsOrResets(RecordAll(requests, digest), scope, digest, telemetry, telemetry', config);
  }

  /** MATURE under the default thresholds: at least three observations in a row with one fingerprint,
      spanning at least 24 hours. */
  lemma MatureMeansThreeOverADay(requests: seq<Request>, scope: Scope, digest: LogicalKey -> int, k: nat, telemetry: Telemetry)
    requires InOrder(requests, scope) && k < |RecordAll(requests, digest)|
    ensures var history := RecordAll(requests, digest);
            MaturityOf(history[k], history, telemetry, DEFAULT_CONFIG) == Mature ==>
            exists start :: 0 <= start && start + 2 <= k
              && history[k].timestamp - history[start].timestamp >= 24 * 3600000
              && forall i :: start <= i <= k ==> history[i].fingerprint == history[k].fingerprint
  {
    var history := RecordAll(requests, digest);
    RecordedIsChained(requests, scope, digest);
    hide RecordAll, InOrder, Chained;
    EpochIsMaximalRun(history, scope, digest, k);
    EpochHoursAreSummed(history, scope, digest, k);
    MatureEpoch(history[k], history, telemetry);
    hide MaturityOf, StableEpochOf, EpochStart;
    var start := EpochStart(history, k);
    if MaturityOf(history[k], history, telemetry, DEFAULT_CONFIG) == Mature {
      assert Hours(history[k].timestamp - history[start].timestamp) >= 24.0;
      assert start + 2 <= k;
    }
  }

  lemma MatureEpoch(o: Observation, history: seq<Observation>, telemetry: Telemetry)
    ensures MaturityOf(o, history, telemetry, DEFAULT_CONFIG) == Mature ==>
              |StableEpochOf(o, history).observations| >= 3 && StableEpochOf(o, history).stableEpochHours >= 24.0
  {
    hide StableEpochOf;
  }

  // ----- the score

  const WEIGHT: real := 25.0

  /** Rounding half up, as Math.round does. */
  function Round(x: real): int { (x + 0.5).Floor }

  function Ratio(value: real, least: real): real
    requires least > 0.0
  {
    if value / least < 1.0 then value / least else 1.0
  }

  function StateFactor(state: PersistenceState): int { if state == Stable then 25 else 0 }

  function CountFactor(count: int, least: int): int
    requires least > 0
  {
    Round(Ratio(count as real, least as real) * WEIGHT)
  }

  function DurationFactor(hours: real, least: real): int
    requires least > 0.0
  {
    Round(Ratio(hours, least) * WEIGHT)
  }

  function TelemetryFactor(telemetry: Telemetry): int {
    if telemetry.applicability == NotApplicable then 25
    else match telemetry.completeness
         case CompleteData => 25
         case PartialData => 15
         case Insufficient => 5
         case NoData => 0
  }

  function FactorSum(state: PersistenceState, count: int, hours: real, telemetry: Telemetry, config: Config): int
    requires config.matureMinCount > 0 && config.matureMinHours > 0.0
  {
    StateFactor(state) + CountFactor(count, config.matureMinCount)
      + DurationFactor(hours, config.matureMinHours) + TelemetryFactor(telemetry)
  }

  function Score(state: PersistenceState, count: int, hours: real, telemetry: Telemetry, config: Config): int
    requires config.matureMinCount > 0 && config.matureMinHours > 0.0
  {
    var sum := FactorSum(state, count, hours, telemetry, config);
    if sum < 0 then 0 else if sum > 100 then 100 else sum
  }

  lemma RatioScaled(value: real, least: real)
    requires least > 0.0 && value >= 0.0
    ensures 0.0 <= Ratio(value, least) <= 1.0
    ensures Ratio(value, least) == 1.0 <==> value >= least
    ensures Ratio(value, least) >= 0.98 <==> value >= 0.98 * least
  {
    var q := value / least;
    Scale(q, value, least, 0.0);
    Scale(q, value, least, 1.0);
    Scale(q, value, least, 0.98);
  }

  lemma Scale(q: real, value: real, least: real, bound: real)
    requires least > 0.0 && q * least == value
    ensures q >= bound <==> value >= bound * least
  {
    assert (q - bound) * least == value - bound * least;
  }

  lemma RoundsToFull(ratio: real)
    requires 0.0 <= ratio <= 1.0
    ensures 0 <= Round(ratio * WEIGHT) <= 25
    ensures Round(ratio * WEIGHT) == 25 <==> ratio >= 0.98
  {
  }

  lemma FactorRange(value: real, least: real)
    requires least > 0.0 && value >= 0.0
    ensures 0 <= Round(Ratio(value, least) * WEIGHT) <= 25
    ensures Round(Ratio(value, least) * WEIGHT) == 25 <==> value >= 0.98 * least
  {
    RatioScaled(value, least);
    RoundsToFull(Ratio(value, least));
  }

  /** The clamp to 0..100 is never needed, for any thresholds. */
  lemma ScoreNeedsNoClamp(state: PersistenceState, count: nat, hours: real, telemetry: Telemetry, config: Config)
    requires hours >= 0.0 && config.matureMinCount > 0 && config.matureMinHours > 0.0
    ensures 0 <= FactorSum(state, count, hours, telemetry, config) <= 100
    ensures Score(state, count, hours, telemetry, config) == FactorSum(state, count, hours, telemetry, config)
  {
    FactorRange(count as real, config.matureMinCount as real);
    FactorRange(hours, config.matureMinHours);
  }

  /** `part` is the nearest whole number to 25 times value / least, the quotient being capped at one; a half
      counts up. */
  predicate IsShare(part: int, value: real, least: real)
    requires least > 0.0
  {
    (2 * part - 1) as real <= 50.0 * (if value < least then value / least else 1.0) < (2 * part + 1) as real
  }

  predicate IsCountShare(part: int, count: int, least: int)
    requires least > 0
  {
    IsShare(part, count as real, least as real)
  }

  lemma ShareOf(value: real, least: real)
    requires least > 0.0 && value >= 0.0
    ensures IsShare(Round(Ratio(value, least) * WEIGHT), value, least)
  {
    Quotient(value, least);
  }

  lemma Quotient(value: real, least: real)
    requires least > 0.0
    ensures value / least < 1.0 <==> value < least
    ensures value / least * least == value
  {
    Scale(value / least, value, least, 1.0);
  }

  lemma Scaled(a: real, b: real, least: real)
    requires least > 0.0
    ensures a <= b <==> a * least <= b * least
  {
    assert (b - a) * least == b * least - a * least;
  }

  /** The score by its four parts: 25 for STABLE and for complete or needless telemetry, and the shares of the
      two thresholds for MATURE. */
  ghost predicate ScoredAs(score: int, state: PersistenceState, count: nat, hours: real, telemetry: Telemetry, config: Config)
    requires config.matureMinCount > 0 && config.matureMinHours > 0.0
  {
    exists byCount, byHours ::
      && IsCountShare(byCount, count, config.matureMinCount)
      && IsShare(byHours, hours, config.matureMinHours)
      && score == byCount + byHours
                  + (match state case Stable => 25 case New => 0 case Changed => 0 case MissingPrevious => 0)
                  + (if telemetry.applicability == NotApplicable then 25
                     else match telemetry.completeness
                          case CompleteData => 25 case PartialData => 15 case Insufficient => 5 case NoData => 0)
  }

  lemma ScoreByParts(state: PersistenceState, count: nat, hours: real, telemetry: Telemetry, config: Config)
    requires hours >= 0.0 && config.matureMinCount > 0 && config.matureMinHours > 0.0
    ensures ScoredAs(Score(state, count, hours, telemetry, config), state, count, hours, telemetry, config)
  {
    ShareOf(count as real, config.matureMinCount as real);
    ShareOf(hours, config.matureMinHours);
    ScoreNeedsNoClamp(state, count, hours, telemetry, config);
    var byCount, byHours := CountFactor(count, config.matureMinCount), DurationFactor(hours, config.matureMinHours);
    assert IsCountShare(byCount, count, config.matureMinCount) && IsShare(byHours, hours, config.matureMinHours);
  }

  /** The parts determine it. */
  lemma ScoreIsDetermined(score: int, score': int, state: PersistenceState, count: nat, hours: real, telemetry: Telemetry, config: Config)
    requires config.matureMinCount > 0 && config.matureMinHours > 0.0
    requires ScoredAs(score, state, count, hours, telemetry, config) && ScoredAs(score', state, count, hours, telemetry, config)
    ensures score == score'
  {
    SharesAreUnique(count as real, config.matureMinCount as real);
    SharesAreUnique(hours, config.matureMinHours);
    hide IsShare;
  }

  lemma SharesAreUnique(value: real, least: real)
    requires least > 0.0
    ensures forall part, part' :: IsShare(part, value, least) && IsShare(part', value, least) ==> part == part'
  {
    forall part, part' | IsShare(part, value, least) && IsShare(part', value, least) ensures part == part' {
      var q := if value < least then value / least else 1.0;
      OneShare(part, part', q);
    }
  }

  lemma OneShare(part: int, part': int, q: real)
    requires (2 * part - 1) as real <= 50.0 * q < (2 * part + 1) as real
    requires (2 * part' - 1) as real <= 50.0 * q < (2 * part' + 1) as real
    ensures part == part'
  {
    assert 2 * part - 1 < 2 * part' + 1 && 2 * part' - 1 < 2 * part + 1;
  }

  /** More observations or hours never lower the score. */
  lemma ScoreMonotone(state: PersistenceState, count: nat, count': nat, hours: real, hours': real, telemetry: Telemetry, config: Config)
    requires count <= count' && 0.0 <= hours <= hours' && config.matureMinCount > 0 && config.matureMinHours > 0.0
    ensures Score(state, count, hours, telemetry, config) <= Score(state, count', hours', telemetry, config)
  {
    ShareMonotone(count as real, count' as real, config.matureMinCount as real);
    ShareMonotone(hours, hours', config.matureMinHours);
    hide Round, Ratio;
  }

  lemma ShareMonotone(value: real, value': real, least: real)
    requires least > 0.0 && 0.0 <= value <= value'
    ensures Round(Ratio(value, least) * WEIGHT) <= Round(Ratio(value', least) * WEIGHT)
  {
    var q, q' := value / least, value' / least;
    Quotient(value, least);
    Quotient(value', least);
    assert q * least == value && q' * least == value';
    Scale(q', value', least, q);
    CappedMonotone(q, q');
    assert Ratio(value, least) == (if q < 1.0 then q else 1.0) && Ratio(value', least) == (if q' < 1.0 then q' else 1.0);
  }

  lemma CappedMonotone(q: real, q': real)
    requires q <= q'
    ensures Round((if q < 1.0 then q else 1.0) * WEIGHT) <= Round((if q' < 1.0 then q' else 1.0) * WEIGHT)
  {
  }

  /** A MATURE class always scores 100. */
  lemma MatureScoresFull(state: PersistenceState, count: nat, hours: real, telemetry: Telemetry, config: Config)
    requires hours >= 0.0 && config.matureMinCount > 0 && config.matureMinHours > 0.0
    requires MaturityClass(state, count, hours, telemetry, config) == Mature
    ensures Score(state, count, hours, telemetry, config) == 100
  {
    RatioScaled(count as real, config.matureMinCount as real);
    RatioScaled(hours, config.matureMinHours);
    RoundsToFull(1.0);
  }

  /** The most that an observation with this telemetry can score. */
  function Cap(telemetry: Telemetry): int {
    if telemetry.applicability == NotApplicable || telemetry.completeness == CompleteData then 100
    else if telemetry.completeness == PartialData then 90
    else if telemetry.completeness == Insufficient then 80
    else 75
  }

  /** The telemetry caps the score, and the cap is reached exactly by a STABLE observation whose epoch has
      98 hundredths of the thresholds for MATURE, in count and in hours. */
  lemma ScoreCapIff(state: PersistenceState, count: nat, hours: real, telemetry: Telemetry, config: Config)
    requires hours >= 0.0 && config.matureMinCount > 0 && config.matureMinHours > 0.0
    ensures Score(state, count, hours, telemetry, config) <= Cap(telemetry)
    ensures Score(state, count, hours, telemetry, config) == Cap(telemetry) <==>
              && state == Stable
              && count as real >= 0.98 * config.matureMinCount as real
              && hours >= 0.98 * config.matureMinHours
  {
    FactorRange(count as real, config.matureMinCount as real);
    FactorRange(hours, config.matureMinHours);
    ScoreNeedsNoClamp(state, count, hours, telemetry, config);
    hide Ratio, Round;
  }

  /** Exactly when the score is 100 under the default thresholds: rounding lets 23.52 hours through. */
  lemma FullScoreIff(state: PersistenceState, count: nat, hours: real, telemetry: Telemetry)
    requires hours >= 0.0
    ensures Score(state, count, hours, telemetry, DEFAULT_CONFIG) == 100 <==>
              && state == Stable
              && count >= 3
              && hours >= 23.52
              && (telemetry.applicability == NotApplicable || telemetry.completeness == CompleteData)
  {
    FactorRange(count as real, 3.0);
    FactorRange(hours, 24.0);
    ScoreNeedsNoClamp(state, count, hours, telemetry, DEFAULT_CONFIG);
    assert count as real >= 0.98 * 3.0 <==> count >= 3;
  }

  /** So a full score does not mean MATURE: exactly the epochs from 23.52 up to 24 hours score 100
      and are only PARTIAL. */
  lemma FullScoreNotMatureIff(state: PersistenceState, count: nat, hours: real, telemetry: Telemetry)
    requires hours >= 0.0
    requires Score(state, count, hours, telemetry, DEFAULT_CONFIG) == 100
    ensures MaturityClass(state, count, hours, telemetry, DEFAULT_CONFIG) == Mature <==> hours >= 24.0
    ensures MaturityClass(state, count, hours, telemetry, DEFAULT_CONFIG) == PartiallyMature <==> hours < 24.0
  {
    FullScoreIff(state, count, hours, telemetry);
  }

  // ----- the whole evaluation

  /** A score needs positive thresholds; otherwise the division leaves the numbers, and there is None. */
  datatype Evaluation = Evaluation(
    maturity: Maturity,
    score: Option<int>,
    reasonCodes: seq<Reason>,
    observationCount: nat,
    persistenceHours: Option<real>,
    stableEpochHours: real,
    sourceState: PersistenceState)

  method EvaluateEvidenceMaturity(source: Observation, history: seq<Observation>, telemetry: Telemetry, config: Config)
    returns (r: Evaluation)
    ensures r.maturity == MaturityOf(source, history, telemetry, config)
    ensures r.maturity == Mature <==> StableHistorySupportsMature in r.reasonCodes
    ensures r.maturity == PartiallyMature <==> StableHistorySupportsPartial in r.reasonCodes
    ensures Distinct(r.reasonCodes)
    ensures ReasonsGiven(r.reasonCodes, r.sourceState, r.observationCount, r.stableEpochHours, telemetry, config)
    ensures r.score.Some? <==> config.matureMinCount > 0 && config.matureMinHours > 0.0
    ensures r.score.Some? ==>
              && r.score.value == Score(r.sourceState, r.observationCount, r.stableEpochHours, telemetry, config)
              && ScoredAs(r.score.value, r.sourceState, r.observationCount, r.stableEpochHours, telemetry, config)
              && 0 <= r.score.value <= Cap(telemetry)
              && (r.maturity == Mature ==> r.score.value == 100)
    ensures var epoch := StableEpochOf(source, history);
            r.observationCount == |epoch.observations| >= 1 && r.stableEpochHours == epoch.stableEpochHours >= 0.0
    ensures r.sourceState == source.assessment.state && r.persistenceHours == source.assessment.persistenceHours
  {
    var epoch := ComputeCurrentStableEpoch(source, history);
    EpochHours(source, history);
    var state, count, hours := source.assessment.state, |epoch.observations|, epoch.stableEpochHours;
    var maturity, reasonCodes := Decide(state, count, hours, telemetry, config);
    var score: Option<int> := None;
    if config.matureMinCount > 0 && config.matureMinHours > 0.0 {
      score := Some(Score(state, count, hours, telemetry, config));
      ScoreNeedsNoClamp(state, count, hours, telemetry, config);
      ScoreCapIff(state, count, hours, telemetry, config);
      ScoreByParts(state, count, hours, telemetry, config);
      if maturity == Mature { MatureScoresFull(state, count, hours, telemetry, config); }
    }
    r := Evaluation(maturity, score, reasonCodes, count, source.assessment.persistenceHours, hours, state);
  }
}
