/** The current stable epoch of a finding: the uninterrupted run of observations with the source's
    fingerprint that ends at the source. */
module StableEpoch {
  import opened JobModels
  import opened Ordering
  import opened EvidenceHistory

  datatype Epoch = Epoch(observations: seq<Observation>, stableEpochHours: real)

  function IndexOfId(s: seq<Observation>, id: int): (k: nat)
    ensures k <= |s|
    ensures forall i :: 0 <= i < k ==> s[i].logicalId != id
    ensures k < |s| ==> s[k].logicalId == id
  {
    if s == [] || s[0].logicalId == id then 0 else 1 + IndexOfId(s[1..], id)
  }

  predicate InScopeUpTo(o: Observation, source: Observation) {
    o.scope == source.scope && o.timestamp <= source.timestamp
  }

  /** The scoped history in order, cut after the source; the source is appended if it is not there. */
  function ThroughSource(source: Observation, history: seq<Observation>): (s: seq<Observation>)
    ensures s != []
  {
    var sorted := Sort(Filter(history, o => InScopeUpTo(o, source)), ObsLe);
    var index := IndexOfId(sorted, source.logicalId);
    if index < |sorted| then sorted[..index + 1] else sorted + [source]
  }

  /** `start` begins the longest suffix of one fingerprint. */
  predicate MaximalSuffix(s: seq<Observation>, fingerprint: int, start: nat) {
    && start <= |s|
    && (forall i :: start <= i < |s| ==> s[i].fingerprint == fingerprint)
    && (start == 0 || s[start - 1].fingerprint != fingerprint)
  }

  function SuffixStart(s: seq<Observation>, fingerprint: int): (start: nat)
    ensures start <= |s|
  {
    if s == [] || s[|s| - 1].fingerprint != fingerprint then |s|
    else SuffixStart(s[..|s| - 1], fingerprint)
  }

  lemma {:induction false} SuffixStartMaximal(s: seq<Observation>, fingerprint: int)
    ensures MaximalSuffix(s, fingerprint, SuffixStart(s, fingerprint))
  {
    if s != [] && s[|s| - 1].fingerprint == fingerprint {
      SuffixStartMaximal(s[..|s| - 1], fingerprint);
    }
  }

  function HoursBetween(observations: seq<Observation>): real
    requires observations != []
  {
    var hours := Hours(observations[|observations| - 1].timestamp - observations[0].timestamp);
    if hours < 0.0 then 0.0 else hours
  }

  /** An empty suffix is replaced by the source alone. */
  function StableEpochOf(source: Observation, history: seq<Observation>): Epoch {
    var through := ThroughSource(source, history);
    var suffix := through[SuffixStart(through, source.fingerprint)..];
    var observations := if suffix == [] then [source] else suffix;
    Epoch(observations, HoursBetween(observations))
  }

  /** One step back through a list. */
  lemma SuffixStep(s: seq<Observation>, fingerprint: int, n: nat)
    requires n < |s|
    ensures SuffixStart(s[..n + 1], fingerprint) ==
            if s[n].fingerprint == fingerprint then SuffixStart(s[..n], fingerprint) else n + 1
    ensures SuffixStart([], fingerprint) == 0
  {
    assert s[..n + 1][..n] == s[..n];
  }

  /** A source that is not stored itself counts as the last of its finding up to its time: the epoch is the
      longest run of its fingerprint at the end of those rows, in order, and the source. */
  lemma EpochOfAbsent(source: Observation, history: seq<Observation>)
    requires forall o :: o in history ==> o.logicalId != source.logicalId
    ensures var rows := Sort(Filter(history, o => InScopeUpTo(o, source)), ObsLe);
            && ThroughSource(source, history) == rows + [source]
            && StableEpochOf(source, history).observations == rows[SuffixStart(rows, source.fingerprint)..] + [source]
  {
    var kept := Filter(history, o => InScopeUpTo(o, source));
    var rows := Sort(kept, ObsLe);
    SameMembers(rows, kept);
    assert forall o :: o in rows ==> o.logicalId != source.logicalId;
    hide Sort, Filter;
    NotThere(rows, source.logicalId);
    var through, start := rows + [source], SuffixStart(rows, source.fingerprint);
    assert through[..|rows|] == rows;
    SuffixStep(through, source.fingerprint, |rows|);
    assert through[..|rows| + 1] == through;
    hide SuffixStart, IndexOfId;
    assert through[start..] == rows[start..] + [source];
  }

  lemma NotThere(s: seq<Observation>, id: int)
    requires forall o :: o in s ==> o.logicalId != id
    ensures IndexOfId(s, id) == |s|
  {
    assert forall i :: 0 <= i < |s| ==> s[i] in s;
  }

  method ComputeCurrentStableEpoch(source: Observation, history: seq<Observation>) returns (epoch: Epoch)
    ensures epoch == StableEpochOf(source, history)
  {
    hide ThroughSource, SuffixStart, HoursBetween;
    var throughSource := ThroughSource(source, history);
    var observations: seq<Observation> := [];
    var index := |throughSource| - 1;
    assert throughSource[..index + 1] == throughSource;
    while index >= 0
      invariant -1 <= index < |throughSource|
      invariant observations == throughSource[index + 1..]
      invariant SuffixStart(throughSource[..index + 1], source.fingerprint) ==
                SuffixStart(throughSource, source.fingerprint)
    {
      var candidate := throughSource[index];
      SuffixStep(throughSource, source.fingerprint, index);
      if candidate.fingerprint != source.fingerprint {
        break;
      }
      assert throughSource[index..] == [candidate] + throughSource[index + 1..];
      observations := [candidate] + observations;
      index := index - 1;
    }
    if |observations| == 0 {
      observations := observations + [source];
    }
    epoch := Epoch(observations, HoursBetween(observations));
  }

  // ----- the epoch of a recorded history

  lemma SplitByTime(history: seq<Observation>, k: nat)
    requires Rising(history) && k < |history|
    requires forall o :: o in history ==> o.scope == history[k].scope
    ensures forall o :: o in history[..k + 1] ==> InScopeUpTo(o, history[k])
    ensures forall o :: o in history[k + 1..] ==> !InScopeUpTo(o, history[k])
  {
  }

  lemma FilterSplit(front: seq<Observation>, back: seq<Observation>, keep: Observation -> bool)
    requires forall o :: o in front ==> keep(o)
    requires forall o :: o in back ==> !keep(o)
    ensures Filter(front + back, keep) == front
  {
    FilterAll(front, keep);
    FilterNone(back, keep);
    FilterJoin(front, back, keep);
  }

  lemma IndexOfLast(s: seq<Observation>)
    requires DistinctIds(s) && s != []
    ensures IndexOfId(s, s[|s| - 1].logicalId) == |s| - 1
  {
  }

  lemma SortedAsRecorded(s: seq<Observation>)
    requires Rising(s) && DistinctIds(s)
    ensures Sort(s, ObsLe) == s
  {
    DistinctIdsNoTies(s);
    SortOfSorted(s, ObsLe);
  }

  lemma PrefixInOrder(history: seq<Observation>, k: nat)
    requires Rising(history) && DistinctIds(history) && k < |history|
    ensures Rising(history[..k + 1]) && DistinctIds(history[..k + 1])
  {
  }

  /** For a member of a history in time order, the sorted and filtered history up to it is a prefix. */
  lemma ThroughRising(history: seq<Observation>, k: nat)
    requires Rising(history) && DistinctIds(history) && k < |history|
    requires forall o :: o in history ==> o.scope == history[k].scope
    ensures ThroughSource(history[k], history) == history[..k + 1]
  {
    var source, prefix, rest := history[k], history[..k + 1], history[k + 1..];
    SplitByTime(history, k);
    FilterSplit(prefix, rest, o => InScopeUpTo(o, source));
    assert history == prefix + rest;
    PrefixInOrder(history, k);
    ThroughInOrder(prefix, source, history);
  }

  lemma ThroughRecorded(history: seq<Observation>, scope: Scope, digest: LogicalKey -> int, k: nat)
    requires Chained(history, scope, digest) && k < |history|
    ensures ThroughSource(history[k], history) == history[..k + 1]
  {
    forall o | o in history ensures o.scope == history[k].scope {
      OneScope(history, scope, digest, o);
      OneScope(history, scope, digest, history[k]);
    }
    ThroughRising(history, k);
  }

  lemma ThroughInOrder(prefix: seq<Observation>, source: Observation, history: seq<Observation>)
    requires Rising(prefix) && DistinctIds(prefix) && prefix != [] && prefix[|prefix| - 1] == source
    requires Filter(history, o => InScopeUpTo(o, source)) == prefix
    ensures ThroughSource(source, history) == prefix
  {
    SortedAsRecorded(prefix);
    IndexOfLast(prefix);
  }

  function SumHours(history: seq<Observation>, lo: nat, hi: nat): real
    requires lo <= hi <= |history|
  {
    if lo == hi then 0.0
    else SumHours(history, lo, hi - 1) + HoursOf(history[hi - 1])
  }

  function HoursOf(o: Observation): real {
    if o.assessment.persistenceHours.Some? then o.assessment.persistenceHours.value else 0.0
  }

  lemma HoursAdd(a: int, b: int)
    ensures Hours(a) + Hours(b) == Hours(a + b)
  {
  }

  lemma {:induction false} HoursTelescope(history: seq<Observation>, scope: Scope, digest: LogicalKey -> int, lo: nat, hi: nat)
    requires Chained(history, scope, digest) && lo < hi <= |history|
    ensures SumHours(history, lo + 1, hi) == Hours(history[hi - 1].timestamp - history[lo].timestamp)
    decreases hi
  {
    if lo + 1 < hi {
      HoursTelescope(history, scope, digest, lo, hi - 1);
      assert LinkAt(history, hi - 1, scope, digest);
      HoursAdd(history[hi - 2].timestamp - history[lo].timestamp, history[hi - 1].timestamp - history[hi - 2].timestamp);
    }
  }

  /** Where the epoch of observation k starts in its history. */
  function EpochStart(history: seq<Observation>, k: nat): (start: nat)
    requires k < |history|
    ensures start <= k
    ensures forall i :: start <= i <= k ==> history[i].fingerprint == history[k].fingerprint
    ensures start == 0 || history[start - 1].fingerprint != history[k].fingerprint
  {
    var start := SuffixStart(history[..k + 1], history[k].fingerprint);
    assert history[..k + 1][k] == history[k];
    SuffixStartMaximal(history[..k + 1], history[k].fingerprint);
    assert forall i :: start <= i <= k ==> history[..k + 1][i] == history[i];
    assert start <= k;
    start
  }

  lemma EpochMembers(history: seq<Observation>, scope: Scope, digest: LogicalKey -> int, k: nat)
    requires Chained(history, scope, digest) && k < |history|
    ensures StableEpochOf(history[k], history).observations == history[EpochStart(history, k)..k + 1]
  {
    ThroughRecorded(history, scope, digest, k);
    var start := EpochStart(history, k);
    assert history[..k + 1][start..] == history[start..k + 1];
  }

  lemma EpochLinks(history: seq<Observation>, scope: Scope, digest: LogicalKey -> int, k: nat, start: nat)
    requires Chained(history, scope, digest) && k < |history| && start <= k
    requires forall i :: start <= i <= k ==> history[i].fingerprint == history[k].fingerprint
    requires start == 0 || history[start - 1].fingerprint != history[k].fingerprint
    ensures start < k <==> history[k].assessment.state == Stable
    ensures start < k <==> history[start].timestamp < history[k].timestamp
  {
    assert LinkAt(history, k, scope, digest);
  }

  lemma HoursOfMembers(history: seq<Observation>, k: nat, start: nat)
    requires start <= k < |history| && history[start].timestamp <= history[k].timestamp
    ensures HoursBetween(history[start..k + 1]) == Hours(history[k].timestamp - history[start].timestamp)
    ensures HoursBetween(history[start..k + 1]) > 0.0 <==> history[start].timestamp < history[k].timestamp
  {
    var members := history[start..k + 1];
    assert members[0] == history[start] && members[|members| - 1] == history[k];
  }

  lemma EpochHours(source: Observation, history: seq<Observation>)
    ensures var epoch := StableEpochOf(source, history);
            epoch.observations != [] && epoch.stableEpochHours == HoursBetween(epoch.observations)
  {
  }

  // The three theorems about a chained history, and then about any recorded one.

  /** The epoch of observation k is the maximal run of its fingerprint that ends at k. */
  lemma EpochIsMaximalRun(history: seq<Observation>, scope: Scope, digest: LogicalKey -> int, k: nat)
    requires Chained(history, scope, digest) && k < |history|
    ensures var start := EpochStart(history, k);
            && StableEpochOf(history[k], history).observations == history[start..k + 1]
            && (forall i :: start <= i <= k ==> history[i].fingerprint == history[k].fingerprint)
            && (start == 0 || history[start - 1].fingerprint != history[k].fingerprint)
  {
    EpochMembers(history, scope, digest, k);
  }

  /** It has at least two members exactly when k was assessed STABLE. */
  lemma StableIffEpochGrew(history: seq<Observation>, scope: Scope, digest: LogicalKey -> int, k: nat)
    requires Chained(history, scope, digest) && k < |history|
    ensures |StableEpochOf(history[k], history).observations| >= 2 <==> history[k].assessment.state == Stable
  {
    EpochIsMaximalRun(history, scope, digest, k);
    EpochLinks(history, scope, digest, k, EpochStart(history, k));
  }

  /** Its length in hours is the sum of the persistence hours of its members after the first. */
  lemma EpochHoursAreSummed(history: seq<Observation>, scope: Scope, digest: LogicalKey -> int, k: nat)
    requires Chained(history, scope, digest) && k < |history|
    ensures var start := EpochStart(history, k);
            && StableEpochOf(history[k], history).stableEpochHours == SumHours(history, start + 1, k + 1)
            && StableEpochOf(history[k], history).stableEpochHours ==
               Hours(history[k].timestamp - history[start].timestamp)
            && (StableEpochOf(history[k], history).stableEpochHours > 0.0 <==>
                history[k].assessment.state == Stable)
  {
    var start := EpochStart(history, k);
    EpochIsMaximalRun(history, scope, digest, k);
    EpochHours(history[k], history);
    StartNotLater(history, scope, digest, k);
    HoursOfMembers(history, k, start);
    SumOfChained(history, scope, digest, k);
  }

  lemma StartNotLater(history: seq<Observation>, scope: Scope, digest: LogicalKey -> int, k: nat)
    requires Chained(history, scope, digest) && k < |history|
    ensures history[EpochStart(history, k)].timestamp <= history[k].timestamp
    ensures history[EpochStart(history, k)].timestamp < history[k].timestamp <==> history[k].assessment.state == Stable
  {
    EpochLinks(history, scope, digest, k, EpochStart(history, k));
  }

  lemma SumOfChained(history: seq<Observation>, scope: Scope, digest: LogicalKey -> int, k: nat)
    requires Chained(history, scope, digest) && k < |history|
    ensures SumHours(history, EpochStart(history, k) + 1, k + 1) ==
            Hours(history[k].timestamp - history[EpochStart(history, k)].timestamp)
  {
    HoursTelescope(history, scope, digest, EpochStart(history, k), k + 1);
  }

  /** The epoch of observation k is the maximal same-fingerprint run that ends at k, it has two members or
      more exactly when k was assessed STABLE, and its hours are the sum of the persistence hours of its
      members after the first. */
  ghost predicate EpochAgrees(history: seq<Observation>, k: nat)
    requires k < |history|
  {
    var start, epoch := EpochStart(history, k), StableEpochOf(history[k], history);
    && epoch.observations == history[start..k + 1]
    && (forall i :: start <= i <= k ==> history[i].fingerprint == history[k].fingerprint)
    && (start == 0 || history[start - 1].fingerprint != history[k].fingerprint)
    && (|epoch.observations| >= 2 <==> history[k].assessment.state == Stable)
    && epoch.stableEpochHours == SumHours(history, start + 1, k + 1)
  }

  lemma ChainedEpochAgrees(history: seq<Observation>, scope: Scope, digest: LogicalKey -> int, k: nat)
    requires Chained(history, scope, digest) && k < |history|
    ensures EpochAgrees(history, k)
  {
    hide Chained, StableEpochOf, SumHours, EpochStart;
    EpochIsMaximalRun(history, scope, digest, k);
    StableIffEpochGrew(history, scope, digest, k);
    EpochHoursAreSummed(history, scope, digest, k);
  }

  /** So it is for every history recorded request by request, in increasing time order with any replays. */
  lemma RecordedEpoch(requests: seq<Request>, scope: Scope, digest: LogicalKey -> int, k: nat)
    requires InOrder(requests, scope) && k < |RecordAll(requests, digest)|
    ensures EpochAgrees(RecordAll(requests, digest), k)
  {
    RecordedIsChained(requests, scope, digest);
    hide RecordAll, InOrder, Chained, EpochAgrees;
    ChainedEpochAgrees(RecordAll(requests, digest), scope, digest, k);
  }

  lemma LateSort(a: Observation, b: Observation, c: Observation)
    requires a.timestamp < c.timestamp < b.timestamp
    requires a.logicalId != b.logicalId && b.logicalId != c.logicalId && a.logicalId != c.logicalId
    ensures Sort([a, b, c], ObsLe) == [a, c, b]
  {
    hide Sort;
    assert multiset([a, b, c]) == multiset([a, c, b]);
    DistinctIdsNoTies([a, b, c]);
    SortOfPermutation([a, b, c], [a, c, b], ObsLe);
    SortedAsRecorded([a, c, b]);
  }

  lemma LateEpoch(a: Observation, b: Observation, c: Observation)
    requires a.scope == b.scope == c.scope && a.timestamp < c.timestamp < b.timestamp
    requires a.logicalId != b.logicalId && b.logicalId != c.logicalId && a.logicalId != c.logicalId
    requires c.fingerprint != b.fingerprint
    ensures StableEpochOf(b, [a, b, c]).observations == [b]
  {
    LateThrough(a, b, c);
    LateSuffix([a, c], b);
    hide ThroughSource, SuffixStart;
    assert [a, c] + [b] == [a, c, b] && [a, c, b][2..] == [b];
  }

  lemma LateThrough(a: Observation, b: Observation, c: Observation)
    requires a.scope == b.scope == c.scope && a.timestamp < c.timestamp < b.timestamp
    requires a.logicalId != b.logicalId && b.logicalId != c.logicalId && a.logicalId != c.logicalId
    ensures ThroughSource(b, [a, b, c]) == [a, c, b]
  {
    hide Sort, Filter, IndexOfId, ThroughSource;
    assert forall o :: o in [a, b, c] ==> InScopeUpTo(o, b);
    assert DistinctIds([a, c, b]);
    var history, sorted := [a, b, c], [a, c, b];
    assert sorted != [] && sorted[|sorted| - 1] == b;
    LateSort(a, b, c);
    hide InScopeUpTo, DistinctIds, ObsLe;
    FilterAll(history, o => InScopeUpTo(o, b));
    IndexOfLast(sorted);
    ThroughSorted(history, sorted, b);
  }

  lemma ThroughSorted(history: seq<Observation>, sorted: seq<Observation>, source: Observation)
    requires Filter(history, o => InScopeUpTo(o, source)) == history && Sort(history, ObsLe) == sorted
    requires sorted != [] && IndexOfId(sorted, source.logicalId) == |sorted| - 1
    ensures ThroughSource(source, history) == sorted
  {
    hide Sort, Filter, IndexOfId;
    assert sorted[..|sorted|] == sorted;
  }

  lemma LateSuffix(front: seq<Observation>, b: Observation)
    requires front != [] && front[|front| - 1].fingerprint != b.fingerprint
    ensures SuffixStart(front + [b], b.fingerprint) == |front|
  {
    assert (front + [b])[..|front|] == front;
  }

  /** Order matters: an observation that arrives late, with another fingerprint and a time in between,
      leaves an observation that was assessed STABLE alone in its epoch. */
  lemma LateArrivalSplitsEpoch(scope: Scope, digest: LogicalKey -> int)
    requires forall key, key' :: digest(key) == digest(key') ==> key == key'
    ensures var requests := [Request(scope, 1, 10, 7, 1, false), Request(scope, 2, 30, 7, 2, false), Request(scope, 3, 20, 8, 3, false)];
            var history := RecordAll(requests, digest);
            && |history| == 3 && history[1].assessment.state == Stable
            && StableEpochOf(history[1], history).observations == [history[1]]
  {
    var first, second, late := Request(scope, 1, 10, 7, 1, false), Request(scope, 2, 30, 7, 2, false), Request(scope, 3, 20, 8, 3, false);
    hide RecordObservation, StableEpochOf, RecordAll, Compared, IsLatestBefore, PreviousOf, OfFinding, Stored;
    NotStored([], first, digest);
    var a := Appended([], first, digest);
    NotStored([a], second, digest);
    var b := Appended([a], second, digest);
    NotStored([a, b], late, digest);
    var c := Appended([a, b], late, digest);
    SecondIsStable(a, b, second, digest);
    Recorded3(first, second, late, digest);
    assert [] + [a] == [a] && [a] + [b] == [a, b] && [a, b] + [c] == [a, b, c];
    LateEpoch(a, b, c);
  }

  lemma NotStored(history: seq<Observation>, request: Request, digest: LogicalKey -> int)
    requires forall o :: o in history ==> o.logicalId != digest(KeyOf(request))
    ensures !Stored(history, request, digest)
  {
  }

  lemma SecondIsStable(a: Observation, b: Observation, second: Request, digest: LogicalKey -> int)
    requires a.timestamp < second.timestamp && a.logicalId != digest(KeyOf(second)) && a.fingerprint == second.fingerprint
    requires a.scope == second.scope && RecordObservation([a], second, digest) == [a] + [b] && b.fingerprint == second.fingerprint
    ensures b.assessment.state == Stable
  {
    RecordedLast([a], second, digest);
    assert ([a] + [b])[1] == b;
  }

  lemma Recorded3(first: Request, second: Request, third: Request, digest: LogicalKey -> int)
    ensures RecordAll([first, second, third], digest) ==
            RecordObservation(RecordObservation(RecordObservation([], first, digest), second, digest), third, digest)
  {
    LastRecorded([first, second, third], digest);
    LastRecorded([first, second], digest);
    LastRecorded([first], digest);
    hide RecordObservation;
    assert [first, second, third][..2] == [first, second] && [first, second][..1] == [first] && [first][..0] == [];
  }
}
