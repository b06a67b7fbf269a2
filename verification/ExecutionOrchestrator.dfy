/** The execution orchestrator: snapshot, execute, verify and roll back against a versioned run record. */
module ExecutionOrchestrator {
  import opened JobModels

  datatype Mode = Validation | DryRun | Production

  datatype Status = InProgress | Success | Failure | RolledBack | RollbackPending | RollbackFailed

  /** A captured configuration can be the empty object too. */
  datatype Configuration = Empty | Settings(id: int)

  datatype Record = Record(
    status: Status,
    eligible: bool,
    previous: Option<Configuration>,
    rollbackConfiguration: Option<Configuration>,
    version: nat)

  datatype Change = Snapshot(configuration: Configuration) | Result | SetStatus(status: Status)

  function Apply(r: Record, change: Change): Record {
    match change
    case Snapshot(c) => r.(previous := Some(c), rollbackConfiguration := Some(c), version := r.version + 1)
    case Result => r.(version := r.version + 1)
    case SetStatus(s) => r.(status := s, version := r.version + 1)
  }

  /** What an adapter will do with a request. `capture` is None when capturing throws. */
  datatype Step = Does | Refuses | Throws

  datatype Adapter = Adapter(
    supported: bool,
    valid: bool,
    eligible: bool,
    capture: Option<Configuration>,
    execute: Step,
    verify: Step,
    rollback: Step)

  /** Around one store operation: statuses that other writers set before and after it, and whether the
      write is applied, lost, or applied and reported as an error. */
  datatype Put = Works | Lost | Unreported

  datatype Weather = Weather(before: seq<Status>, put: Put, after: seq<Status>)

  const CALM: Weather := Weather([], Works, [])

  function Rivals(r: Record, statuses: seq<Status>): (r': Record)
    ensures r'.version == r.version + |statuses|
    ensures (r'.eligible, r'.previous, r'.rollbackConfiguration) == (r.eligible, r.previous, r.rollbackConfiguration)
    ensures statuses == [] ==> r' == r
    decreases |statuses|
  {
    if statuses == [] then r else Rivals(Apply(r, SetStatus(statuses[0])), statuses[1..])
  }

  datatype Outcome = ValidationFailed | Validated | Planned | Reported(status: Status) | Refused | Threw

  datatype Reply = Updated(record: Record) | Conflict | Error

  /** What happened to the resource and to the stored record, in order. */
  datatype Effect =
    | SnapshotStored(run: int, configuration: Configuration)
    | ResultStored(run: int)
    | StatusStored(run: int, status: Status)
    | Executed(run: int, configuration: Configuration)
    | RollbackCalled(run: int, configuration: Configuration)

  function EffectOf(run: int, change: Change): seq<Effect> {
    match change
    case Snapshot(c) => [SnapshotStored(run, c)]
    case Result => [ResultStored(run)]
    case SetStatus(s) => [StatusStored(run, s)]
  }

  /** A run is executed under a snapshot that is stored, and rolled back to that same snapshot; only a run
      without one is rolled back to the empty configuration. */
  ghost predicate LawfulAt(log: seq<Effect>, i: nat)
    requires i < |log|
  {
    match log[i]
    case Executed(run, c) => SnapshotStored(run, c) in log[..i]
    case RollbackCalled(run, c) =>
      SnapshotStored(run, c) in log[..i] || (c == Empty && forall q :: SnapshotStored(run, q) !in log[..i])
    case _ => true
  }

  ghost predicate Lawful(log: seq<Effect>) { forall i :: 0 <= i < |log| ==> LawfulAt(log, i) }

  /** The record of a run holds the one snapshot that was stored for it. */
  ghost predicate Truthful(r: Record, run: int, log: seq<Effect>) {
    && r.previous == r.rollbackConfiguration
    && forall c :: SnapshotStored(run, c) in log <==> r.rollbackConfiguration == Some(c)
  }

  ghost predicate Consistent(runs: map<int, Record>, log: seq<Effect>) {
    && Lawful(log)
    && (forall run :: run in runs ==> Truthful(runs[run], run, log))
    && (forall run, c :: SnapshotStored(run, c) in log ==> run in runs)
  }

  ghost predicate Allowed(log: seq<Effect>, e: Effect) {
    match e
    case Executed(run, c) => SnapshotStored(run, c) in log
    case RollbackCalled(run, c) => SnapshotStored(run, c) in log || (c == Empty && forall q :: SnapshotStored(run, q) !in log)
    case _ => true
  }

  lemma LawfulNext(log: seq<Effect>, e: Effect)
    requires Lawful(log) && Allowed(log, e)
    ensures Lawful(log + [e])
  {
    var next := log + [e];
    forall i | 0 <= i < |next| ensures LawfulAt(next, i) {
      if i < |log| {
        assert next[..i] == log[..i] && LawfulAt(log, i);
      } else {
        assert next[..i] == log;
      }
    }
  }

  /** An effect that is no snapshot leaves the records truthful. */
  lemma TruthfulNext(runs: map<int, Record>, log: seq<Effect>, e: Effect)
    requires Consistent(runs, log) && !e.SnapshotStored? && Lawful(log + [e])
    ensures Consistent(runs, log + [e])
  {
    forall run, c ensures SnapshotStored(run, c) in log + [e] <==> SnapshotStored(run, c) in log {
    }
  }

  lemma SnapshotNext(runs: map<int, Record>, log: seq<Effect>, run: int, c: Configuration, r: Record)
    requires Consistent(runs, log) && run in runs && runs[run].rollbackConfiguration.None?
    requires r.previous == r.rollbackConfiguration == Some(c)
    ensures Consistent(runs[run := r], log + [SnapshotStored(run, c)])
  {
    LawfulNext(log, SnapshotStored(run, c));
    var next := log + [SnapshotStored(run, c)];
    forall other, q ensures SnapshotStored(other, q) in next <==> SnapshotStored(other, q) in log || (other, q) == (run, c) {
    }
  }

  lemma RecordNext(runs: map<int, Record>, log: seq<Effect>, run: int, r: Record)
    requires Consistent(runs, log)
    requires r.previous == r.rollbackConfiguration
    requires if run in runs then r.rollbackConfiguration == runs[run].rollbackConfiguration else r.rollbackConfiguration.None?
    ensures Consistent(runs[run := r], log)
  {
    if run in runs { assert Truthful(runs[run], run, log); }
  }

  /** A change that is applied, whatever others then write over it. */
  lemma ChangeNext(runs: map<int, Record>, log: seq<Effect>, run: int, change: Change, written: Record)
    requires Consistent(runs, log) && run in runs
    requires change.Snapshot? ==> runs[run].rollbackConfiguration.None?
    requires written.previous == written.rollbackConfiguration == Apply(runs[run], change).rollbackConfiguration
    ensures Consistent(runs[run := written], log + EffectOf(run, change))
  {
    assert Truthful(runs[run], run, log);
    hide Lawful, Consistent, Truthful;
    match change {
      case Snapshot(c) =>
        SnapshotNext(runs, log, run, c, written);
      case Result =>
        RecordNext(runs, log, run, written);
        StoredNext(runs[run := written], log, ResultStored(run));
      case SetStatus(s) =>
        RecordNext(runs, log, run, written);
        StoredNext(runs[run := written], log, StatusStored(run, s));
    }
  }

  lemma StoredNext(runs: map<int, Record>, log: seq<Effect>, e: Effect)
    requires Consistent(runs, log) && (e.ResultStored? || e.StatusStored?)
    ensures Consistent(runs, log + [e])
  {
    LawfulNext(log, e);
    TruthfulNext(runs, log, e);
  }

  /** The stored status after an undisturbed production run, beside what the run reports. */
  function Undisturbed(a: Adapter): (Outcome, Status) {
    if a.capture.None? then (Reported(Failure), Failure)
    else if a.execute == Throws then (Threw, InProgress)
    else if a.execute == Refuses then UndisturbedFailure(a)
    else if a.verify == Throws then (Threw, InProgress)
    else if a.verify == Refuses then UndisturbedFailure(a)
    else (Reported(Success), Success)
  }

  function UndisturbedFailure(a: Adapter): (Outcome, Status) {
    if !a.eligible then (Reported(Failure), Failure)
    else match a.rollback
         case Throws => (Threw, Failure)
         case Does => (Reported(RolledBack), RolledBack)
         case Refuses => (Reported(RollbackFailed), Failure)
  }

  /** The effects of an undisturbed production run, in order. */
  function Story(run: int, a: Adapter): seq<Effect> {
    if a.capture.None? then [StatusStored(run, Failure)]
    else [SnapshotStored(run, a.capture.value)] + ExecutedStory(run, a, a.capture.value)
  }

  function ExecutedStory(run: int, a: Adapter, c: Configuration): seq<Effect> {
    [Executed(run, c)] + match a.execute
                         case Throws => []
                         case Refuses => FailureStory(run, a, c)
                         case Does => SettledStory(run, a, c)
  }

  function SettledStory(run: int, a: Adapter, c: Configuration): seq<Effect> {
    [ResultStored(run)] + match a.verify
                          case Throws => []
                          case Refuses => FailureStory(run, a, c)
                          case Does => [StatusStored(run, Success)]
  }

  function FailureStory(run: int, a: Adapter, c: Configuration): seq<Effect> {
    [StatusStored(run, Failure)] + if a.eligible then RollbackStory(run, a, c) else []
  }

  function RollbackStory(run: int, a: Adapter, c: Configuration): seq<Effect> {
    [RollbackCalled(run, c)] + if a.rollback == Does then [StatusStored(run, RolledBack)] else []
  }

  /** Something went wrong after the snapshot: the execution was refused, or done and its verification was. */
  predicate WentWrong(a: Adapter) {
    a.capture.Some? && (a.execute == Refuses || (a.execute == Does && a.verify == Refuses))
  }

  /** What an undisturbed production run reports, stores and asks of its adapter, by the adapter's answers. */
  ghost predicate Deserved(run: int, a: Adapter, outcome: Outcome, status: Status, effects: seq<Effect>) {
    var succeeded := a.capture.Some? && a.execute == Does && a.verify == Does;
    var rolledBack := WentWrong(a) && a.eligible && a.rollback == Does;
    && (outcome == Reported(Success) <==> succeeded)
    && (StatusStored(run, Success) in effects <==> succeeded)
    && (status == Success <==> succeeded)
    && (outcome == Reported(RolledBack) <==> rolledBack)
    && (StatusStored(run, RolledBack) in effects <==> rolledBack)
    && (status == RolledBack <==> rolledBack)
    && (outcome == Reported(RollbackFailed) <==> WentWrong(a) && a.eligible && a.rollback == Refuses)
    && (outcome == Reported(Failure) <==> a.capture.None? || (WentWrong(a) && !a.eligible))
    && (StatusStored(run, Failure) in effects <==> a.capture.None? || WentWrong(a))
    && (status == Failure <==> (a.capture.None? || WentWrong(a)) && !rolledBack)
    && (outcome == Threw <==> a.capture.Some? && (a.execute == Throws || (a.execute == Does && a.verify == Throws)
                                                  || (WentWrong(a) && a.eligible && a.rollback == Throws)))
    && (forall c :: SnapshotStored(run, c) in effects <==> a.capture == Some(c))
    && (forall c :: Executed(run, c) in effects <==> a.capture == Some(c))
    && (ResultStored(run) in effects <==> a.capture.Some? && a.execute == Does)
    && (forall c :: RollbackCalled(run, c) in effects <==> a.capture == Some(c) && WentWrong(a) && a.eligible)
    && FailureComesFirst(run, effects)
  }

  lemma StoryIsDeserved(run: int, a: Adapter)
    ensures Deserved(run, a, Undisturbed(a).0, Undisturbed(a).1, Story(run, a))
  {
    StoryOrder(run, a);
    hide Undisturbed;
    UndisturbedByAnswers(a);
    StoryMembers(run, a);
  }

  lemma UndisturbedByAnswers(a: Adapter)
    ensures var (outcome, status) := Undisturbed(a);
            var succeeded := a.capture.Some? && a.execute == Does && a.verify == Does;
            var rolledBack := WentWrong(a) && a.eligible && a.rollback == Does;
            && (outcome == Reported(Success) <==> succeeded) && (status == Success <==> succeeded)
            && (outcome == Reported(RolledBack) <==> rolledBack) && (status == RolledBack <==> rolledBack)
            && (outcome == Reported(RollbackFailed) <==> WentWrong(a) && a.eligible && a.rollback == Refuses)
            && (outcome == Reported(Failure) <==> a.capture.None? || (WentWrong(a) && !a.eligible))
            && (status == Failure <==> (a.capture.None? || WentWrong(a)) && !rolledBack)
            && (outcome == Threw <==> a.capture.Some? && (a.execute == Throws || (a.execute == Does && a.verify == Throws)
                                                          || (WentWrong(a) && a.eligible && a.rollback == Throws)))
  {
  }

  lemma StoryMembers(run: int, a: Adapter)
    ensures var effects := Story(run, a);
            && (StatusStored(run, Success) in effects <==> a.capture.Some? && a.execute == Does && a.verify == Does)
            && (StatusStored(run, RolledBack) in effects <==> WentWrong(a) && a.eligible && a.rollback == Does)
            && (StatusStored(run, Failure) in effects <==> a.capture.None? || WentWrong(a))
            && (forall c :: SnapshotStored(run, c) in effects <==> a.capture == Some(c))
            && (forall c :: Executed(run, c) in effects <==> a.capture == Some(c))
            && (ResultStored(run) in effects <==> a.capture.Some? && a.execute == Does)
            && (forall c :: RollbackCalled(run, c) in effects <==> a.capture == Some(c) && WentWrong(a) && a.eligible)
  {
    hide FailureStory, SettledStory, ExecutedStory;
    if a.capture.Some? {
      var c := a.capture.value;
      FailureMembers(run, a, c);
      SettledMembers(run, a, c);
      ExecutedMembers(run, a, c);
      assert forall e :: e in Story(run, a) <==> e == SnapshotStored(run, c) || e in ExecutedStory(run, a, c);
    }
  }

  lemma SettledMembers(run: int, a: Adapter, c: Configuration)
    ensures forall e :: e in SettledStory(run, a, c) <==>
              || e == ResultStored(run)
              || (a.verify == Refuses && e in FailureStory(run, a, c))
              || (a.verify == Does && e == StatusStored(run, Success))
  {
    hide FailureStory;
  }

  lemma ExecutedMembers(run: int, a: Adapter, c: Configuration)
    ensures forall e :: e in ExecutedStory(run, a, c) <==>
              || e == Executed(run, c)
              || (a.execute == Refuses && e in FailureStory(run, a, c))
              || (a.execute == Does && e in SettledStory(run, a, c))
  {
    hide FailureStory, SettledStory;
  }

  lemma FailureMembers(run: int, a: Adapter, c: Configuration)
    ensures forall e :: e in FailureStory(run, a, c) <==>
              || e == StatusStored(run, Failure)
              || (a.eligible && e == RollbackCalled(run, c))
              || (a.eligible && a.rollback == Does && e == StatusStored(run, RolledBack))
  {
  }

  lemma StoryOrder(run: int, a: Adapter)
    ensures FailureComesFirst(run, Story(run, a))
  {
    if a.capture.Some? {
      var c := a.capture.value;
      FailureOrder(run, a, c);
      hide FailureStory, FailureComesFirst;
      NoneIsFirst(run, []);
      NoneIsFirst(run, [StatusStored(run, Success)]);
      if a.execute == Does {
        OneMore(run, ResultStored(run), SettledStory(run, a, c)[1..]);
        assert [ResultStored(run)] + SettledStory(run, a, c)[1..] == SettledStory(run, a, c);
      }
      OneMore(run, Executed(run, c), ExecutedStory(run, a, c)[1..]);
      assert [Executed(run, c)] + ExecutedStory(run, a, c)[1..] == ExecutedStory(run, a, c);
      OneMore(run, SnapshotStored(run, c), ExecutedStory(run, a, c));
    }
  }

  /** A rollback is called only after FAILED was stored. */
  ghost predicate FailureComesFirst(run: int, effects: seq<Effect>) {
    forall i :: 0 <= i < |effects| && effects[i].RollbackCalled? ==> StatusStored(run, Failure) in effects[..i]
  }

  lemma NoneIsFirst(run: int, effects: seq<Effect>)
    requires forall e :: e in effects ==> !e.RollbackCalled?
    ensures FailureComesFirst(run, effects)
  {
  }

  lemma OneMore(run: int, e: Effect, effects: seq<Effect>)
    requires !e.RollbackCalled? && FailureComesFirst(run, effects)
    ensures FailureComesFirst(run, [e] + effects)
  {
    forall i | 0 < i <= |effects| && effects[i - 1].RollbackCalled? ensures StatusStored(run, Failure) in ([e] + effects)[..i] {
      assert ([e] + effects)[..i] == [e] + effects[..i - 1];
    }
  }

  lemma FailureOrder(run: int, a: Adapter, c: Configuration)
    ensures FailureComesFirst(run, FailureStory(run, a, c))
  {
    var effects := FailureStory(run, a, c);
    assert forall i :: 0 <= i < |effects| && effects[i].RollbackCalled? ==> i == 1;
    assert |effects| > 1 ==> effects[..1][0] == StatusStored(run, Failure);
  }

  /** What holds whatever other writers and faults do: SUCCEEDED is reported or stored only after an execution
      and a verification that did their part, with the result stored before; the adapter is asked to roll back
      only what went wrong, only an eligible run, only to the captured configuration and only after FAILED is
      stored; and ROLLED_BACK is reported or stored only if it then did. */
  ghost predicate Earned(run: int, a: Adapter, outcome: Outcome, before: seq<Effect>, after: seq<Effect>) {
    && before <= after
    && var effects := after[|before|..];
    && (outcome == Reported(Success) || StatusStored(run, Success) in effects ==>
          a.capture.Some? && a.execute == Does && a.verify == Does)
    && (forall c :: RollbackCalled(run, c) in effects ==> a.capture == Some(c) && WentWrong(a) && a.eligible)
    && (outcome == Reported(RolledBack) || StatusStored(run, RolledBack) in effects ==>
          WentWrong(a) && a.eligible && a.rollback == Does)
    && (forall i :: 0 <= i < |effects| && effects[i].RollbackCalled? ==> StatusStored(run, Failure) in effects[..i])
    && (forall i :: 0 <= i < |effects| && effects[i] == StatusStored(run, Success) ==> ResultStored(run) in effects[..i])
  }

  predicate Plain(e: Effect) { !e.RollbackCalled? && (e.StatusStored? ==> e.status !in {Success, RolledBack}) }

  lemma EarnedFrom(run: int, a: Adapter, outcome: Outcome, before: seq<Effect>, e: Effect, after: seq<Effect>)
    requires Earned(run, a, outcome, before + [e], after) && Plain(e)
    ensures Earned(run, a, outcome, before, after)
  {
    var rest, effects := after[|before| + 1..], after[|before|..];
    assert effects == [e] + rest;
    forall i | 0 < i < |effects| ensures effects[i] == rest[i - 1] && forall x :: x in rest[..i - 1] ==> x in effects[..i] {
      assert effects[..i] == [e] + rest[..i - 1];
    }
  }

  /** Nothing to earn. */
  lemma PlainIsEarned(run: int, a: Adapter, outcome: Outcome, before: seq<Effect>, e: Effect, after: seq<Effect>)
    requires outcome != Reported(Success) && outcome != Reported(RolledBack)
    requires after == before || (after == before + [e] && Plain(e))
    ensures Earned(run, a, outcome, before, after)
  {
    assert after == before ==> after[|before|..] == [];
    assert after != before ==> after[|before|..] == [e];
  }

  lemma SuccessIsEarned(run: int, a: Adapter, outcome: Outcome, before: seq<Effect>, after: seq<Effect>)
    requires a.capture.Some? && a.execute == Does && a.verify == Does
    requires outcome == Threw || outcome == Reported(Success)
    requires after == before + [ResultStored(run)] || after == before + [ResultStored(run)] + [StatusStored(run, Success)]
    ensures Earned(run, a, outcome, before, after)
  {
    var effects := after[|before|..];
    assert effects == [ResultStored(run)] || effects == [ResultStored(run), StatusStored(run, Success)];
    if |effects| == 2 { assert effects[..1][0] == ResultStored(run); }
  }

  lemma RolledBackIsEarned(run: int, a: Adapter, outcome: Outcome, c: Configuration, before: seq<Effect>, after: seq<Effect>)
    requires WentWrong(a) && a.eligible && a.capture == Some(c)
    requires var start := before + [StatusStored(run, Failure)] + [RollbackCalled(run, c)];
             || after == start
             || (a.rollback == Does && after == start + [StatusStored(run, RolledBack)])
             || (a.rollback == Refuses && after == start + [StatusStored(run, RollbackFailed)])
    requires outcome == Threw || outcome == Reported(if a.rollback == Does then RolledBack else RollbackFailed)
    ensures Earned(run, a, outcome, before, after)
  {
    var effects := after[|before|..];
    assert effects[0] == StatusStored(run, Failure) && effects[1] == RollbackCalled(run, c);
    assert forall i :: 0 <= i < |effects| && effects[i].RollbackCalled? ==> i == 1;
    assert effects[..1][0] == StatusStored(run, Failure);
  }

  /** What a production run says is true of the store and of what it did, whatever others do. */
  ghost predicate Reports(run: int, a: Adapter, outcome: Outcome, before: seq<Effect>, after: seq<Effect>, last: Weather) {
    Told(run, outcome, before, after, last) && Earned(run, a, outcome, before, after)
  }

  lemma ReportsFrom(run: int, a: Adapter, outcome: Outcome, before: seq<Effect>, e: Effect, after: seq<Effect>, last: Weather)
    requires Reports(run, a, outcome, before + [e], after, last) && Plain(e) && e != StatusStored(run, RollbackFailed)
    ensures Reports(run, a, outcome, before, after, last)
  {
    ToldFrom(run, outcome, before, e, after, last);
    EarnedFrom(run, a, outcome, before, e, after);
  }

  lemma ReportsError(run: int, a: Adapter, before: seq<Effect>, e: Effect, after: seq<Effect>, last: Weather)
    requires after == before || (after == before + [e] && Plain(e))
    ensures Reports(run, a, Threw, before, after, last)
  {
    PlainIsEarned(run, a, Threw, before, e, after);
  }

  lemma ReportsFailure(run: int, a: Adapter, before: seq<Effect>, after: seq<Effect>, last: Weather)
    requires after == before + [StatusStored(run, Failure)]
    ensures Reports(run, a, Reported(Failure), before, after, last)
  {
    PlainIsEarned(run, a, Reported(Failure), before, StatusStored(run, Failure), after);
    assert after[|before|..] == [StatusStored(run, Failure)];
  }

  lemma ReportsSuccess(run: int, a: Adapter, outcome: Outcome, before: seq<Effect>, after: seq<Effect>, last: Weather)
    requires a.capture.Some? && a.execute == Does && a.verify == Does
    requires after == before + [ResultStored(run)] || after == before + [ResultStored(run)] + [StatusStored(run, Success)]
    requires outcome == Threw || (outcome == Reported(Success) && after != before + [ResultStored(run)])
    ensures Reports(run, a, outcome, before, after, last)
  {
    SuccessIsEarned(run, a, outcome, before, after);
    if outcome.Reported? { assert after[|before|..][1] == StatusStored(run, Success); }
  }

  lemma ReportsBoth(run: int, a: Adapter, outcome: Outcome, before: seq<Effect>, after: seq<Effect>, last: Weather)
    requires Told(run, outcome, before, after, last) && Earned(run, a, outcome, before, after)
    ensures Reports(run, a, outcome, before, after, last)
  {
  }

  lemma Onward(before: seq<Effect>, e: Effect, rest: seq<Effect>)
    ensures before + [e] + rest == before + ([e] + rest)
  {
  }

  class Orchestrator {
    var runs: map<int, Record>
    const weather: nat -> Weather
    var tick: nat
    ghost var log: seq<Effect>

    constructor (weather: nat -> Weather)
      ensures Valid() && runs == map[] && log == [] && this.weather == weather && tick == 0
    {
      this.weather := weather;
      runs, tick, log := map[], 0, [];
    }

    ghost predicate Valid()
      reads this
    {
      Consistent(runs, log)
    }

    /** The surroundings of the latest store operation. */
    ghost function LastWeather(): Weather
      reads this`tick
    {
      if tick == 0 then CALM else weather(tick - 1)
    }

    /** No other writer and no fault. */
    ghost predicate Quiet() { forall n: nat :: weather(n) == CALM }

    /** The versioned update: conditional write, then the refreshed record. */
    method Update(run: int, change: Change, expectedVersion: nat) returns (reply: Reply)
      requires Valid() && run in runs
      requires change.Snapshot? ==> runs[run].rollbackConfiguration.None?
      modifies this`runs, this`tick, this`log
      ensures Valid() && tick == old(tick) + 1
      ensures var w, before := weather(old(tick)), Rivals(old(runs[run]), weather(old(tick)).before);
              var written := Rivals(Apply(before, change), w.after);
              var applied := w.put != Lost && before.version == expectedVersion;
              && runs == old(runs)[run := if applied then written else before]
              && log == old(log) + (if applied then EffectOf(run, change) else [])
              && reply == if w.put == Lost then Error
                          else if before.version != expectedVersion then Conflict
                          else if w.put == Unreported then Error
                          else Updated(written)
    {
      var w := weather(tick);
      var before := Rivals(runs[run], w.before);
      tick := tick + 1;
      RecordNext(runs, log, run, before);
      runs := runs[run := before];
      if w.put == Lost { return Error; }
      if before.version != expectedVersion { return Conflict; }
      var written := Rivals(Apply(before, change), w.after);
      ChangeNext(runs, log, run, change, written);
      runs := runs[run := written];
      log := log + EffectOf(run, change);
      reply := if w.put == Unreported then Error else Updated(written);
    }

    /** The call of the adapter that changes the resource, or changes it back. */
    ghost method Called(e: Effect)
      requires Valid() && Allowed(log, e) && !e.SnapshotStored?
      modifies this`log
      ensures Valid() && log == old(log) + [e]
    {
      LawfulNext(log, e);
      TruthfulNext(runs, log, e);
      log := log + [e];
    }

    /** The first write expects the version one ahead, so it meets a conflict unless another write came
        between; then the record is read again. */
    method StoreRolledBack(run: int, current: Record) returns (stored: bool)
      requires Valid() && run in runs
      modifies this`runs, this`tick, this`log
      ensures Valid() && runs.Keys == old(runs.Keys) && OthersKept(old(runs), runs, run) && tick > old(tick)
      ensures SameTerms(old(runs[run]), runs[run])
      ensures (!stored && log == old(log)) || log == old(log) + [StatusStored(run, RolledBack)]
      ensures Quiet() && current == old(runs[run]) ==> stored && runs[run].status == RolledBack
    {
      hide Consistent;
      var reply := Update(run, SetStatus(RolledBack), current.version + 1);
      if reply == Conflict {
        var latest := runs[run];
        reply := Update(run, SetStatus(RolledBack), latest.version);
      }
      stored := reply.Updated?;
    }

    /** An error of this write is dropped. */
    method StoreRollbackFailed(run: int, current: Record)
      requires Valid() && run in runs && current.version == runs[run].version
      modifies this`runs, this`tick, this`log
      ensures Valid() && runs.Keys == old(runs.Keys) && OthersKept(old(runs), runs, run) && tick == old(tick) + 1
      ensures SameTerms(old(runs[run]), runs[run])
      ensures var w := weather(old(tick));
              log == old(log) + if |w.before| == 1 && w.put != Lost then [StatusStored(run, RollbackFailed)] else []
      ensures Quiet() ==> runs == old(runs)
    {
      hide Consistent;
      var _ := Update(run, SetStatus(RollbackFailed), current.version + 1);
    }

    /** The run ends as FAILED and, if it may be, is rolled back. The status of a failed rollback is written
        under a version one ahead of the record's, and an error of that write is dropped. */
    method HandleFailureWithRollback(run: int, record: Record, a: Adapter, previous: Configuration) returns (outcome: Outcome)
      requires Valid() && run in runs && SnapshotStored(run, previous) in log
      requires record.eligible == runs[run].eligible == a.eligible && WentWrong(a) && a.capture == Some(previous)
      modifies this`runs, this`tick, this`log
      ensures Valid() && runs.Keys == old(runs.Keys) && OthersKept(old(runs), runs, run)
      ensures SameTerms(old(runs[run]), runs[run])
      ensures outcome.Reported? || outcome.Threw?
      ensures Reports(run, a, outcome, old(log), log, LastWeather())
      ensures Quiet() && record == old(runs[run]) ==>
                (outcome, runs[run].status) == UndisturbedFailure(a) && log == old(log) + FailureStory(run, a, previous)
    {
      hide Consistent;
      hide Reports;
      var reply := Update(run, SetStatus(Failure), record.version);
      if !reply.Updated? {
        ReportsError(run, a, old(log), StatusStored(run, Failure), log, LastWeather());
        return Threw;
      }
      var current := reply.record;
      if !current.eligible {
        ReportsFailure(run, a, old(log), log, LastWeather());
        return Reported(Failure);
      }
      outcome := RollBack(run, current, a, previous);
      ToldFrom(run, outcome, old(log), StatusStored(run, Failure), log, LastWeather());
      RolledBackIsEarned(run, a, outcome, previous, old(log), log);
      ReportsBoth(run, a, outcome, old(log), log, LastWeather());
    }

    /** The automatic rollback of a run stored as FAILED. */
    method RollBack(run: int, current: Record, a: Adapter, previous: Configuration) returns (outcome: Outcome)
      requires Valid() && run in runs && SnapshotStored(run, previous) in log
      requires current.version == runs[run].version && a.eligible
      modifies this`runs, this`tick, this`log
      ensures Valid() && runs.Keys == old(runs.Keys) && OthersKept(old(runs), runs, run)
      ensures SameTerms(old(runs[run]), runs[run])
      ensures outcome.Threw? || outcome == Reported(if a.rollback == Does then RolledBack else RollbackFailed)
      ensures var start := old(log) + [RollbackCalled(run, previous)];
              || log == start
              || (a.rollback == Does && log == start + [StatusStored(run, RolledBack)])
              || (a.rollback == Refuses && log == start + [StatusStored(run, RollbackFailed)])
      ensures Told(run, outcome, old(log), log, LastWeather())
      ensures Quiet() && current == old(runs[run]) && current.status == Failure ==>
                (outcome, runs[run].status) == UndisturbedFailure(a) && log == old(log) + RollbackStory(run, a, previous)
    {
      hide Consistent;
      Called(RollbackCalled(run, previous));
      ghost var called := log;
      match a.rollback {
        case Throws =>
          return Threw;
        case Does =>
          var stored := StoreRolledBack(run, current);
          assert stored ==> log[|old(log)|..] == [RollbackCalled(run, previous), StatusStored(run, RolledBack)];
          return if stored then Reported(RolledBack) else Threw;
        case Refuses =>
          StoreRollbackFailed(run, current);
          assert log[|old(log)|..] == [RollbackCalled(run, previous)] + log[|called|..];
          return Reported(RollbackFailed);
      }
    }

    method PersistFailure(run: int, record: Record) returns (outcome: Outcome)
      requires Valid() && run in runs
      modifies this`runs, this`tick, this`log
      ensures Valid() && runs.Keys == old(runs.Keys) && OthersKept(old(runs), runs, run)
      ensures SameTerms(old(runs[run]), runs[run])
      ensures outcome.Reported? || outcome.Threw?
      ensures forall a :: Reports(run, a, outcome, old(log), log, LastWeather())
      ensures Quiet() && record == old(runs[run]) ==>
                outcome == Reported(Failure) && runs[run].status == Failure && log == old(log) + [StatusStored(run, Failure)]
    {
      hide Consistent, Reports;
      var reply := Update(run, SetStatus(Failure), record.version);
      outcome := if reply.Updated? then Reported(Failure) else Threw;
      forall a ensures Reports(run, a, outcome, old(log), log, LastWeather()) {
        if reply.Updated? {
          ReportsFailure(run, a, old(log), log, LastWeather());
        } else {
          ReportsError(run, a, old(log), StatusStored(run, Failure), log, LastWeather());
        }
      }
    }

    /** A new run. `run` is the generated id; `a` says what the adapter will answer. */
    method Run(run: int, mode: Option<Mode>, a: Adapter) returns (outcome: Outcome)
      requires Valid() && run !in runs
      modifies this`runs, this`tick, this`log
      ensures Valid() && old(runs.Keys) <= runs.Keys <= old(runs.Keys) + {run} && OthersKept(old(runs), runs, run)
      ensures mode.None? || !a.supported <==> outcome == Refused
      ensures outcome == ValidationFailed <==> outcome != Refused && !a.valid
      ensures outcome == Validated <==> outcome != Refused && a.valid && mode == Some(Validation)
      ensures outcome == Planned <==> outcome != Refused && a.valid && mode == Some(DryRun)
      ensures !(outcome.Reported? || outcome.Threw?) ==> runs == old(runs) && log == old(log)
      ensures Reports(run, a, outcome, old(log), log, LastWeather())
      ensures Quiet() && (outcome.Reported? || outcome.Threw?) ==>
                run in runs && (outcome, runs[run].status) == Undisturbed(a)
                && runs[run].eligible == a.eligible && runs[run].rollbackConfiguration == a.capture
                && Deserved(run, a, outcome, runs[run].status, log[|old(log)|..])
    {
      hide Consistent, Undisturbed, Story, Deserved;
      StoryIsDeserved(run, a);
      if mode.None? || !a.supported { return Refused; }
      if !a.valid { return ValidationFailed; }
      if mode == Some(Validation) { return Validated; }
      if mode == Some(DryRun) { return Planned; }
      outcome := Produce(run, a);
    }

    /** Create the record and store the snapshot before anything is executed. */
    method Produce(run: int, a: Adapter) returns (outcome: Outcome)
      requires Valid() && run !in runs
      modifies this`runs, this`tick, this`log
      ensures Valid() && old(runs.Keys) <= runs.Keys <= old(runs.Keys) + {run} && OthersKept(old(runs), runs, run)
      ensures outcome.Reported? || outcome.Threw?
      ensures Reports(run, a, outcome, old(log), log, LastWeather())
      ensures Quiet() ==>
                run in runs && (outcome, runs[run].status) == Undisturbed(a)
                && runs[run].eligible == a.eligible && runs[run].rollbackConfiguration == a.capture
                && log == old(log) + Story(run, a)
    {
      hide Consistent, UndisturbedFailure, ExecutedStory, Reports;
      var reply := Create(run, a.eligible);
      if !reply.Updated? {
        ReportsError(run, a, old(log), Executed(run, Empty), log, LastWeather());
        return Threw;
      }
      var record := reply.record;
      if a.capture.None? {
        outcome := PersistFailure(run, record);
        return;
      }
      var previous := a.capture.value;
      reply := Update(run, Snapshot(previous), record.version);
      ghost var captured := log;
      if !reply.Updated? {
        outcome := PersistFailure(run, record);
      } else {
        record := reply.record;
        outcome := Perform(run, record, a, previous);
        Onward(old(log), SnapshotStored(run, previous), ExecutedStory(run, a, previous));
      }
      if captured != old(log) {
        assert captured == old(log) + [SnapshotStored(run, previous)];
        ReportsFrom(run, a, outcome, old(log), SnapshotStored(run, previous), log, LastWeather());
      }
    }

    method Create(run: int, eligible: bool) returns (reply: Reply)
      requires Valid() && run !in runs
      modifies this`runs, this`tick
      ensures Valid() && tick == old(tick) + 1 && OthersKept(old(runs), runs, run)
      ensures old(runs.Keys) <= runs.Keys <= old(runs.Keys) + {run}
      ensures run in runs ==> runs[run].rollbackConfiguration.None? && runs[run].eligible == eligible
      ensures reply.Updated? <==> weather(old(tick)).put == Works
      ensures reply.Updated? ==>
                run in runs && reply.record == Record(InProgress, eligible, None, None, 1)
                && (weather(old(tick)).after == [] ==> runs[run] == reply.record)
    {
      var w := weather(tick);
      tick := tick + 1;
      if w.put == Lost { return Error; }
      var record := Record(InProgress, eligible, None, None, 1);
      RecordNext(runs, log, run, Rivals(record, w.after));
      runs := runs[run := Rivals(record, w.after)];
      reply := if w.put == Unreported then Error else Updated(record);
    }

    /** From the stored snapshot on: execute, then settle the run. */
    method Perform(run: int, record: Record, a: Adapter, previous: Configuration) returns (outcome: Outcome)
      requires Valid() && run in runs && SnapshotStored(run, previous) in log && a.capture == Some(previous)
      requires record.eligible == runs[run].eligible == a.eligible
      modifies this`runs, this`tick, this`log
      ensures Valid() && runs.Keys == old(runs.Keys) && OthersKept(old(runs), runs, run)
      ensures SameTerms(old(runs[run]), runs[run])
      ensures outcome.Reported? || outcome.Threw?
      ensures Reports(run, a, outcome, old(log), log, LastWeather())
      ensures Quiet() && record == old(runs[run]) && record.status == InProgress ==>
                (outcome, runs[run].status) == Undisturbed(a) && log == old(log) + ExecutedStory(run, a, previous)
    {
      hide Consistent, UndisturbedFailure, FailureStory, SettledStory, Reports;
      Called(Executed(run, previous));
      if a.execute == Throws {
        ReportsError(run, a, old(log), Executed(run, previous), log, LastWeather());
        return Threw;
      }
      if a.execute == Refuses {
        outcome := HandleFailureWithRollback(run, record, a, previous);
        Onward(old(log), Executed(run, previous), FailureStory(run, a, previous));
      } else {
        outcome := Settle(run, record, a, previous);
        Onward(old(log), Executed(run, previous), SettledStory(run, a, previous));
      }
      ReportsFrom(run, a, outcome, old(log), Executed(run, previous), log, LastWeather());
    }

    /** After the execution: store its result, verify, store the success. */
    method Settle(run: int, executed: Record, a: Adapter, previous: Configuration) returns (outcome: Outcome)
      requires Valid() && run in runs && SnapshotStored(run, previous) in log
      requires a.capture == Some(previous) && a.execute == Does
      requires executed.eligible == runs[run].eligible == a.eligible
      modifies this`runs, this`tick, this`log
      ensures Valid() && runs.Keys == old(runs.Keys) && OthersKept(old(runs), runs, run)
      ensures SameTerms(old(runs[run]), runs[run])
      ensures outcome.Reported? || outcome.Threw?
      ensures Reports(run, a, outcome, old(log), log, LastWeather())
      ensures Quiet() && executed == old(runs[run]) && executed.status == InProgress ==>
                (outcome, runs[run].status) == Undisturbed(a) && log == old(log) + SettledStory(run, a, previous)
    {
      hide Consistent, UndisturbedFailure, FailureStory, Reports;
      var reply := Update(run, Result, executed.version);
      if !reply.Updated? || a.verify == Throws {
        ReportsError(run, a, old(log), ResultStored(run), log, LastWeather());
        return Threw;
      }
      var record := reply.record;
      if a.verify == Refuses {
        outcome := HandleFailureWithRollback(run, record, a, previous);
        Onward(old(log), ResultStored(run), FailureStory(run, a, previous));
        ReportsFrom(run, a, outcome, old(log), ResultStored(run), log, LastWeather());
        return;
      }
      reply := Update(run, SetStatus(Success), record.version);
      outcome := if reply.Updated? then Reported(Success) else Threw;
      Onward(old(log), ResultStored(run), [StatusStored(run, Success)]);
      ReportsSuccess(run, a, outcome, old(log), log, LastWeather());
    }

    /** Rolling back a stored run: the configuration is the stored snapshot, or empty if there is none. */
    method RollbackRun(run: int, a: Adapter) returns (outcome: Outcome)
      requires Valid()
      modifies this`runs, this`tick, this`log
      ensures Valid() && runs.Keys == old(runs.Keys) && OthersKept(old(runs), runs, run)
      ensures run in runs ==> SameTerms(old(runs[run]), runs[run])
      ensures outcome == Refused <==>
                || run !in old(runs)
                || !(|| old(runs[run]).status == RollbackPending
                     || (old(runs[run]).eligible && old(runs[run]).status in {Success, Failure, RollbackFailed}))
      ensures outcome == Refused ==> runs == old(runs) && log == old(log)
      ensures outcome != Refused ==>
                |log| > |old(log)|
                && log[|old(log)|] == RollbackCalled(run, match old(runs[run]).rollbackConfiguration
                                                          case Some(captured) => captured
                                                          case None => Empty)
      ensures outcome != Refused ==>
                (SnapshotStored(run, log[|old(log)|].configuration) !in old(log) <==>
                 forall q :: SnapshotStored(run, q) !in old(log))
      ensures old(log) <= log && (outcome.Reported? ==> log[|log| - 1] == StatusStored(run, outcome.status))
      ensures outcome.Reported? ==> a.rollback != Throws && outcome.status == (if a.rollback == Does then RolledBack else RollbackFailed)
      ensures Quiet() && outcome != Refused && a.rollback != Throws ==>
                outcome.Reported? && runs[run].status == outcome.status
    {
      if run !in runs || !MayRollBack(runs[run]) { return Refused; }
      var record := runs[run];
      var previous := SnapshotOrEmpty(record);
      NeverCapturedIff(runs, log, run);
      assert Truthful(record, run, log);
      hide Consistent;
      Called(RollbackCalled(run, previous));
      if a.rollback == Throws { return Threw; }
      var status := if a.rollback == Does then RolledBack else RollbackFailed;
      var reply := Update(run, SetStatus(status), record.version);
      outcome := if reply.Updated? then Reported(status) else Threw;
    }
  }

  predicate MayRollBack(r: Record) {
    && (r.status == RollbackPending || r.eligible)
    && r.status in {RollbackPending, Success, Failure, RollbackFailed}
  }

  function SnapshotOrEmpty(r: Record): Configuration {
    if r.rollbackConfiguration.Some? then r.rollbackConfiguration.value
    else if r.previous.Some? then r.previous.value
    else Empty
  }

  /** What no update but the snapshot changes. */
  predicate SameTerms(before: Record, after: Record) {
    after.eligible == before.eligible && after.rollbackConfiguration == before.rollbackConfiguration
  }

  ghost predicate OthersKept(before: map<int, Record>, after: map<int, Record>, run: int) {
    forall other :: other in before && other != run ==> other in after && after[other] == before[other]
  }

  /** What a reported status says about the store, whatever other writers do: every status but
      ROLLBACK_FAILED was stored on the way, and that one exactly when a single other write came between. */
  ghost predicate Told(run: int, outcome: Outcome, before: seq<Effect>, after: seq<Effect>, last: Weather) {
    && before <= after
    && (outcome.Reported? && outcome.status != RollbackFailed ==> StatusStored(run, outcome.status) in after[|before|..])
    && (outcome == Reported(RollbackFailed) ==>
          (StatusStored(run, RollbackFailed) in after[|before|..] <==> |last.before| == 1 && last.put != Lost))
  }

  lemma ToldFrom(run: int, outcome: Outcome, before: seq<Effect>, e: Effect, after: seq<Effect>, last: Weather)
    requires Told(run, outcome, before + [e], after, last) && e != StatusStored(run, RollbackFailed)
    ensures Told(run, outcome, before, after, last)
  {
    assert after[|before|..] == [e] + after[|before| + 1..];
  }

  /** An undisturbed run that reports a status has stored it, except for a failed automatic rollback, which
      leaves FAILED behind. */
  lemma StoredUnlessRollbackFailed(a: Adapter, status: Status)
    requires Undisturbed(a).0 == Reported(status)
    ensures Undisturbed(a).1 == status <==> status != RollbackFailed
    ensures status == RollbackFailed ==> Undisturbed(a).1 == Failure
  {
  }

  /** Over any history of runs and rollbacks: a run is rolled back to the configuration it was executed
      under. */
  lemma RestoresWhatWasCaptured(runs: map<int, Record>, log: seq<Effect>, run: int, i: nat, j: nat)
    requires Consistent(runs, log) && i < j < |log|
    requires log[i].Executed? && log[j].RollbackCalled? && log[i].run == log[j].run == run
    ensures log[i].configuration == log[j].configuration
    ensures run in runs && runs[run].rollbackConfiguration == Some(log[i].configuration)
  {
    assert LawfulAt(log, i) && LawfulAt(log, j);
    assert SnapshotStored(run, log[i].configuration) in log[..j] by {
      var k :| 0 <= k < i && log[..i][k] == SnapshotStored(run, log[i].configuration);
      assert log[..j][k] == log[..i][k];
    }
    assert Truthful(runs[run], run, log);
  }

  // ----- rolling back a run without a snapshot

  /** The adapter is given a configuration that was never captured exactly when the record has none, and
      then it is the empty one. */
  lemma NeverCapturedIff(runs: map<int, Record>, log: seq<Effect>, run: int)
    requires Consistent(runs, log) && run in runs
    ensures var given := SnapshotOrEmpty(runs[run]);
            && (SnapshotStored(run, given) !in log <==> runs[run].rollbackConfiguration.None?)
            && (SnapshotStored(run, given) !in log <==> forall q :: SnapshotStored(run, q) !in log)
            && (SnapshotStored(run, given) !in log ==> given == Empty)
            && Allowed(log, RollbackCalled(run, given))
  {
    assert Truthful(runs[run], run, log);
  }

  /** The record that an undisturbed run leaves may be rolled back without a snapshot exactly when the run
      was eligible and its capture failed. */
  lemma RolledBackWithoutSnapshotIff(a: Adapter, r: Record)
    requires r.status == Undisturbed(a).1 && r.eligible == a.eligible
    requires r.rollbackConfiguration == r.previous == a.capture
    ensures MayRollBack(r) && r.rollbackConfiguration.None? <==> a.eligible && a.capture.None?
  {
  }

  /** Such a run: its capture throws, and the rollback on request hands the empty configuration over. */
  method RollBackWithoutSnapshot() returns (o: Orchestrator, ended: Outcome, rolledBack: Outcome)
    ensures fresh(o)
    ensures ended == Reported(Failure) && rolledBack == Reported(RolledBack)
    ensures RollbackCalled(1, Empty) in o.log && forall q :: SnapshotStored(1, q) !in o.log
  {
    var a := Adapter(true, true, true, None, Does, Does, Does);
    o := new Orchestrator(_ => CALM);
    ended := o.Run(1, Some(Production), a);
    assert o.runs[1].status == Failure && o.runs[1].eligible && o.runs[1].rollbackConfiguration.None?;
    assert Truthful(o.runs[1], 1, o.log);
    ghost var before := o.log;
    rolledBack := o.RollbackRun(1, a);
    assert o.log[|before|] == RollbackCalled(1, Empty);
    assert Truthful(o.runs[1], 1, o.log);
  }
}
