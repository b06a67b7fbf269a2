/** Observations that arrive out of time order: exactly when the epochs still agree with the states that
    were assessed on arrival. */
module LateArrival {
  import opened JobModels
  import opened Ordering
  import opened EvidenceHistory
  import opened StableEpoch

  /** The epoch of observation k has two members or more exactly when k was assessed STABLE. */
  ghost predicate Agrees(history: seq<Observation>, k: nat)
    requires k < |history|
  {
    |StableEpochOf(history[k], history).observations| >= 2 <==> history[k].assessment.state == Stable
  }

  /** The observation that comes just before `o` in the whole history. */
  ghost predicate IsJustBefore(p: Observation, o: Observation, history: seq<Observation>) {
    && p in history && p != o && p.scope == o.scope && ObsLe(p, o)
    && forall x :: x in history && x != o && x.scope == o.scope && ObsLe(x, o) ==> ObsLe(x, p)
  }

  /** Just before `o` there is one with its fingerprint, as the history is now. */
  ghost predicate ContinuesNow(history: seq<Observation>, o: Observation) {
    exists p :: IsJustBefore(p, o, history) && p.fingerprint == o.fingerprint
  }

  /** The latest earlier observation of its finding when observation k arrived. */
  ghost predicate IsLatestOnArrival(p: Observation, history: seq<Observation>, k: nat)
    requires k < |history|
  {
    var o := history[k];
    IsGreatest(p, OfFinding(history[..k], o.scope), o.timestamp, Some(o.logicalId))
  }

  /** It had the fingerprint of observation k. */
  ghost predicate ContinuedOnArrival(history: seq<Observation>, k: nat)
    requires k < |history|
  {
    exists p :: IsLatestOnArrival(p, history, k) && p.fingerprint == history[k].fingerprint
  }

  /** The time from which the hours of observation k were counted on arrival: that of the latest earlier
      one, or its own if there was none. */
  ghost predicate CountedFrom(history: seq<Observation>, k: nat, time: int)
    requires k < |history|
  {
    || (exists p :: IsLatestOnArrival(p, history, k) && p.timestamp == time)
    || ((forall p :: !IsLatestOnArrival(p, history, k)) && history[k].timestamp == time)
  }

  // ----- the epoch looks at the history as it is now

  /** In the sorted history up to `o`, `o` is last. */
  lemma ThroughEndsAt(history: seq<Observation>, o: Observation)
    requires DistinctIds(history) && o in history
    ensures var through := ThroughSource(o, history);
            && through[|through| - 1] == o
            && Sorted(through, ObsLe)
            && (forall x :: x in through <==> x in history && x.scope == o.scope && ObsLe(x, o))
            && DistinctIds(through)
  {
    hide Sort, Filter, IndexOfId;
    var sorted := SortedScope(history, o);
    CutAfter(sorted, o);
    hide DistinctIds, ObsLe;
    var index := IndexOfId(sorted, o.logicalId);
    assert ThroughSource(o, history) == sorted[..index + 1];
    assert Sorted(sorted[..index + 1], ObsLe);
    PrefixIds(sorted, index + 1);
  }

  lemma PrefixIds(s: seq<Observation>, n: nat)
    requires DistinctIds(s) && n <= |s|
    ensures DistinctIds(s[..n])
  {
  }

  lemma SortedScope(history: seq<Observation>, o: Observation) returns (sorted: seq<Observation>)
    requires DistinctIds(history) && o in history
    ensures sorted == Sort(Filter(history, x => InScopeUpTo(x, o)), ObsLe)
    ensures DistinctIds(sorted) && Sorted(sorted, ObsLe) && o in sorted
    ensures forall x :: x in sorted <==> x in history && InScopeUpTo(x, o)
  {
    hide Sort;
    var keep := (x: Observation) => InScopeUpTo(x, o);
    var kept := Filter(history, keep);
    sorted := Sort(kept, ObsLe);
    FilteredIds(history, keep);
    SortSorted(kept, ObsLe);
    SameMembers(sorted, kept);
    SortedIds(kept, sorted);
  }

  lemma {:induction false} FilteredIds(s: seq<Observation>, keep: Observation -> bool)
    requires DistinctIds(s)
    ensures DistinctIds(Filter(s, keep))
  {
    if s != [] {
      FilteredIds(s[1..], keep);
      var rest := Filter(s[1..], keep);
      forall j | 0 <= j < |rest| ensures s[0].logicalId != rest[j].logicalId {
        assert rest[j] in s[1..];
      }
    }
  }

  lemma SortedIds(kept: seq<Observation>, sorted: seq<Observation>)
    requires DistinctIds(kept) && multiset(sorted) == multiset(kept)
    ensures DistinctIds(sorted)
  {
    assert Distinct(kept);
    MultisetDistinct(kept, sorted);
    SameMembers(sorted, kept);
    forall i, j | 0 <= i < j < |sorted| ensures sorted[i].logicalId != sorted[j].logicalId {
      assert sorted[i] in kept && sorted[j] in kept;
    }
  }

  lemma CutAfter(sorted: seq<Observation>, o: Observation)
    requires Sorted(sorted, ObsLe) && DistinctIds(sorted) && o in sorted
    ensures var index := IndexOfId(sorted, o.logicalId);
            && index < |sorted| && sorted[index] == o
            && forall x :: x in sorted[..index + 1] <==> x in sorted && ObsLe(x, o)
  {
    var index := IndexOfId(sorted, o.logicalId);
    var k :| 0 <= k < |sorted| && sorted[k] == o;
    assert k == index;
    forall x | x in sorted && ObsLe(x, o) ensures x in sorted[..index + 1] {
      var j :| 0 <= j < |sorted| && sorted[j] == x;
      assert j <= index by { assert sorted[index].logicalId == o.logicalId; }
      assert sorted[..index + 1][j] == x;
    }
  }

  lemma EpochGrewIffLastTwo(history: seq<Observation>, o: Observation)
    requires DistinctIds(history) && o in history
    ensures var through := ThroughSource(o, history);
            |StableEpochOf(o, history).observations| >= 2 <==>
            |through| >= 2 && through[|through| - 2].fingerprint == o.fingerprint
  {
    ThroughEndsAt(history, o);
    var through := ThroughSource(o, history);
    SuffixStartMaximal(through, o.fingerprint);
    hide ThroughSource, SuffixStart, DistinctIds;
  }

  lemma NothingBefore(history: seq<Observation>, o: Observation)
    requires DistinctIds(history) && o in history && |ThroughSource(o, history)| < 2
    ensures !ContinuesNow(history, o)
  {
    ThroughEndsAt(history, o);
    hide ThroughSource;
    var through := ThroughSource(o, history);
    assert forall x :: x in through ==> x == o;
  }

  /** The epoch of an observation has two members or more exactly when the one just before it, as the
      history is now, has its fingerprint. */
  lemma EpochGrewIffContinues(history: seq<Observation>, o: Observation)
    requires DistinctIds(history) && o in history
    ensures |StableEpochOf(o, history).observations| >= 2 <==> ContinuesNow(history, o)
  {
    EpochGrewIffLastTwo(history, o);
    hide ThroughSource, StableEpochOf, DistinctIds;
    var through := ThroughSource(o, history);
    if |through| < 2 {
      NothingBefore(history, o);
    } else {
      var p := through[|through| - 2];
      ThroughEndsAt(history, o);
      PredecessorIsJustBefore(history, o, through);
      forall q | IsJustBefore(q, o, history) ensures q == p { JustBeforeUnique(history, o, p, q); }
    }
  }

  lemma PredecessorIsJustBefore(history: seq<Observation>, o: Observation, through: seq<Observation>)
    requires |through| >= 2 && through[|through| - 1] == o && Sorted(through, ObsLe) && DistinctIds(through)
    requires forall x :: x in through <==> x in history && x.scope == o.scope && ObsLe(x, o)
    ensures IsJustBefore(through[|through| - 2], o, history)
  {
    var p := through[|through| - 2];
    assert p in through;
    forall x | x in history && x != o && x.scope == o.scope && ObsLe(x, o) ensures ObsLe(x, p) {
      var i :| 0 <= i < |through| && through[i] == x;
    }
  }

  lemma JustBeforeUnique(history: seq<Observation>, o: Observation, p: Observation, q: Observation)
    requires DistinctIds(history) && IsJustBefore(p, o, history) && IsJustBefore(q, o, history)
    ensures p == q
  {
    DistinctIdsNoTies(history);
  }

  // ----- the state was assessed on the history as it was

  ghost predicate Remembers(history: seq<Observation>, k: nat)
    requires k < |history|
  {
    && (history[k].assessment.state == Stable <==> ContinuedOnArrival(history, k))
    && (forall time :: HoursOf(history[k]) == Hours(history[k].timestamp - time) <==> CountedFrom(history, k, time))
  }

  lemma LatestIsChosen(history: seq<Observation>, scope: Scope, before: int, id: int, chosen: Option<Observation>)
    requires DistinctIds(history) && IsLatestBefore(chosen, OfFinding(history, scope), before, Some(id))
    ensures forall p :: IsGreatest(p, OfFinding(history, scope), before, Some(id)) <==> chosen == Some(p)
  {
    var rows := OfFinding(history, scope);
    FilteredIds(history, (o: Observation) => o.scope == scope);
    DistinctIdsNoTies(rows);
    hide OfFinding, DistinctIds;
    if chosen.Some? { assert IsGreatest(chosen.value, rows, before, Some(id)); }
  }

  lemma HoursApart(time: int, a: int, b: int)
    ensures Hours(time - a) == Hours(time - b) <==> a == b
    ensures Hours(time - a) == 0.0 <==> a == time
  {
  }

  lemma NewestRemembers(front: seq<Observation>, request: Request, digest: LogicalKey -> int)
    requires DistinctIds(front) && !Stored(front, request, digest)
    ensures var after := RecordObservation(front, request, digest);
            |after| == |front| + 1 && after[..|front|] == front && Remembers(after, |front|)
  {
    var o := Appended(front, request, digest);
    var after, n := front + [o], |front|;
    assert after[..n] == front && after[n] == o;
    var chosen := PreviousOf(front, request, o.logicalId);
    LatestIsChosen(front, o.scope, o.timestamp, o.logicalId, chosen);
    ComparedRemembers(after, n, chosen);
  }

  lemma ComparedRemembers(history: seq<Observation>, k: nat, chosen: Option<Observation>)
    requires k < |history| && Compared(history[k], chosen)
    requires forall p :: IsLatestOnArrival(p, history, k) <==> chosen == Some(p)
    ensures Remembers(history, k)
  {
    var o := history[k];
    hide IsLatestOnArrival, Hours;
    forall time ensures HoursOf(o) == Hours(o.timestamp - time) <==> CountedFrom(history, k, time) {
      HoursApart(o.timestamp, if chosen.Some? then chosen.value.timestamp else o.timestamp, time);
    }
  }

  /** Every recorded observation is STABLE exactly if it continued on arrival, and its hours are counted
      from the latest earlier one of its finding, in whatever order the requests come. */
  lemma {:induction false} RecordedRemembers(requests: seq<Request>, digest: LogicalKey -> int, k: nat)
    requires k < |RecordAll(requests, digest)|
    ensures Remembers(RecordAll(requests, digest), k)
    decreases |requests|
  {
    var n := |requests| - 1;
    var front := RecordAll(requests[..n], digest);
    var history := RecordAll(requests, digest);
    hide Remembers, RecordAll, DistinctIds;
    LastRecorded(requests, digest);
    RecordedIdsDistinct(requests[..n], digest);
    if Stored(front, requests[n], digest) {
      assert history == front;
      RecordedRemembers(requests[..n], digest, k);
    } else {
      NewestRemembers(front, requests[n], digest);
      if k < |front| {
        RecordedRemembers(requests[..n], digest, k);
        RemembersStill(front, history, k);
      }
    }
  }

  lemma RemembersStill(front: seq<Observation>, history: seq<Observation>, k: nat)
    requires k < |front| <= |history| && history[..|front|] == front && Remembers(front, k)
    ensures Remembers(history, k)
  {
    assert history[k] == history[..|front|][k] && history[..k] == front[..k];
    hide OfFinding, IsGreatest, Hours, HoursOf;
    assert forall p :: IsLatestOnArrival(p, history, k) == IsLatestOnArrival(p, front, k);
    hide IsLatestOnArrival;
    assert ContinuedOnArrival(history, k) == ContinuedOnArrival(front, k);
    forall time ensures CountedFrom(history, k, time) == CountedFrom(front, k, time) {
    }
  }

  /** Exactly when the epoch of a recorded observation agrees with its state, whatever the order of the
      requests: it continues now as it did when it arrived. */
  lemma AgreesIff(requests: seq<Request>, digest: LogicalKey -> int, k: nat)
    requires k < |RecordAll(requests, digest)|
    ensures var history := RecordAll(requests, digest);
            Agrees(history, k) <==> (ContinuedOnArrival(history, k) <==> ContinuesNow(history, history[k]))
  {
    var history := RecordAll(requests, digest);
    RecordedRemembers(requests, digest, k);
    RecordedIdsDistinct(requests, digest);
    hide RecordAll, ContinuedOnArrival, ContinuesNow, StableEpochOf;
    EpochGrewIffContinues(history, history[k]);
  }

  // ----- the hours

  /** The hours of the epoch are the sum of the persistence hours of its members after the first. */
  ghost predicate HoursAgree(history: seq<Observation>, o: Observation) {
    SumsUp(StableEpochOf(o, history).observations, StableEpochOf(o, history).stableEpochHours)
  }

  predicate SumsUp(observations: seq<Observation>, hours: real) {
    observations != [] && hours == SumHours(observations, 1, |observations|)
  }

  lemma JoinedInOrder(front: seq<Observation>, p: Observation, o: Observation)
    requires Sorted(front, ObsLe) && ObsLe(p, o) && forall x :: x in front ==> ObsLe(x, p)
    ensures Sorted(front + [o], ObsLe)
  {
    forall i, j | 0 <= i < j < |front| + 1 ensures ObsLe((front + [o])[i], (front + [o])[j]) {
      if j == |front| { assert front[i] in front; }
    }
  }

  lemma IdsAreDistinct(s: seq<Observation>)
    requires DistinctIds(s)
    ensures Distinct(s)
  {
  }

  lemma JoinedDistinct(front: seq<Observation>, o: Observation)
    requires Distinct(front) && o !in front
    ensures Distinct(front + [o])
  {
  }

  /** The history up to `o` is the history up to the one just before it, and `o`. */
  lemma ThroughExtends(history: seq<Observation>, p: Observation, o: Observation)
    requires DistinctIds(history) && o in history && IsJustBefore(p, o, history)
    ensures ThroughSource(o, history) == ThroughSource(p, history) + [o]
  {
    ThroughEndsAt(history, p);
    ThroughEndsAt(history, o);
    DistinctIdsNoTies(history);
    hide ThroughSource, DistinctIds;
    var a, front := ThroughSource(o, history), ThroughSource(p, history);
    IdsAreDistinct(a);
    IdsAreDistinct(front);
    hide Distinct;
    JoinedInOrder(front, p, o);
    JoinedDistinct(front, o);
    forall x ensures x in a <==> x in front + [o] {
      assert x in front + [o] <==> x in front || x == o;
    }
    DistinctMultisets(a, front + [o]);
    hide Sorted;
    SortedUnique(a, front + [o], ObsLe);
  }

  lemma SuffixExtends(front: seq<Observation>, o: Observation)
    requires front != [] && front[|front| - 1].fingerprint == o.fingerprint
    ensures SuffixStart(front + [o], o.fingerprint) == SuffixStart(front, o.fingerprint) < |front|
  {
    hide SuffixStart;
    LastInSuffix(front);
    LastInSuffix(front + [o]);
    assert (front + [o])[..|front|] == front;
  }

  lemma LastInSuffix(s: seq<Observation>)
    requires s != []
    ensures var fingerprint := s[|s| - 1].fingerprint;
            SuffixStart(s, fingerprint) == SuffixStart(s[..|s| - 1], fingerprint) < |s|
  {
  }

  lemma EpochOfThrough(history: seq<Observation>, o: Observation, through: seq<Observation>, start: nat)
    requires through == ThroughSource(o, history) && start == SuffixStart(through, o.fingerprint) < |through|
    ensures StableEpochOf(o, history).observations == through[start..]
  {
    hide ThroughSource, SuffixStart;
  }

  /** An observation that continues the one just before it joins its epoch. */
  lemma EpochExtends(history: seq<Observation>, p: Observation, o: Observation)
    requires DistinctIds(history) && o in history && IsJustBefore(p, o, history) && p.fingerprint == o.fingerprint
    ensures StableEpochOf(o, history).observations == StableEpochOf(p, history).observations + [o]
    ensures var members := StableEpochOf(p, history).observations; members[|members| - 1] == p
  {
    ThroughExtends(history, p, o);
    ThroughEndsAt(history, p);
    hide ThroughSource, StableEpochOf, SuffixStart, DistinctIds, IsJustBefore, Sorted;
    var front := ThroughSource(p, history);
    var start := SuffixStart(front, p.fingerprint);
    SuffixExtends(front, o);
    EpochOfThrough(history, p, front, start);
    EpochOfThrough(history, o, front + [o], start);
    SuffixOfJoin(front, o, start);
  }

  lemma SuffixOfJoin(front: seq<Observation>, o: Observation, start: nat)
    requires start < |front|
    ensures (front + [o])[start..] == front[start..] + [o]
    ensures front[start..][|front| - start - 1] == front[|front| - 1]
  {
  }

  lemma EpochStartsEarly(history: seq<Observation>, o: Observation)
    requires DistinctIds(history) && o in history
    ensures StableEpochOf(o, history).observations[0].timestamp <= o.timestamp
  {
    ThroughEndsAt(history, o);
    SuffixStartMaximal(ThroughSource(o, history), o.fingerprint);
    hide ThroughSource, SuffixStart, DistinctIds;
    var through := ThroughSource(o, history);
    var start := SuffixStart(through, o.fingerprint);
    assert through[start..][0] == through[start] && through[start] in through;
  }

  lemma {:induction false} SumOfPrefix(s: seq<Observation>, o: Observation, m: nat)
    requires 1 <= m <= |s|
    ensures SumHours(s + [o], 1, m) == SumHours(s, 1, m)
    decreases m
  {
    if m > 1 { SumOfPrefix(s, o, m - 1); }
  }

  /** If the hours of an epoch add up, they still do with one more member exactly if that one counts from
      the last. */
  lemma SumsUpStep(members: seq<Observation>, o: Observation)
    requires members != [] && members[0].timestamp <= members[|members| - 1].timestamp <= o.timestamp
    requires SumsUp(members, HoursBetween(members))
    ensures SumsUp(members + [o], HoursBetween(members + [o])) <==>
            HoursOf(o) == Hours(o.timestamp - members[|members| - 1].timestamp)
  {
    var n := |members|;
    SumOfPrefix(members, o, n);
    assert (members + [o])[n] == o && (members + [o])[0] == members[0];
    HoursAdd(members[n - 1].timestamp - members[0].timestamp, o.timestamp - members[n - 1].timestamp);
  }

  lemma HoursStep(history: seq<Observation>, p: Observation, o: Observation)
    requires DistinctIds(history) && o in history && IsJustBefore(p, o, history) && p.fingerprint == o.fingerprint
    requires HoursAgree(history, p)
    ensures HoursAgree(history, o) <==> HoursOf(o) == Hours(o.timestamp - p.timestamp)
  {
    EpochExtends(history, p, o);
    EpochStartsEarly(history, p);
    EpochHours(p, history);
    EpochHours(o, history);
    hide StableEpochOf, SumsUp, HoursBetween, Hours, DistinctIds;
    SumsUpStep(StableEpochOf(p, history).observations, o);
  }

  lemma HoursAlone(history: seq<Observation>, o: Observation)
    requires DistinctIds(history) && o in history && !ContinuesNow(history, o)
    ensures HoursAgree(history, o)
  {
    EpochGrewIffContinues(history, o);
    EpochHours(o, history);
    hide StableEpochOf, ContinuesNow;
  }

  /** Every observation counts its hours from the one just before it, if it continues that one. */
  ghost predicate CountsFromNeighbour(history: seq<Observation>, o: Observation) {
    forall p :: IsJustBefore(p, o, history) && p.fingerprint == o.fingerprint ==>
      HoursOf(o) == Hours(o.timestamp - p.timestamp)
  }

  lemma {:induction false} CountedAgrees(history: seq<Observation>, o: Observation)
    requires DistinctIds(history) && o in history
    requires forall x :: x in history ==> CountsFromNeighbour(history, x)
    ensures HoursAgree(history, o)
    decreases |ThroughSource(o, history)|
  {
    hide HoursAgree, DistinctIds, ThroughSource, IsJustBefore;
    if ContinuesNow(history, o) {
      var p :| IsJustBefore(p, o, history) && p.fingerprint == o.fingerprint;
      assert CountsFromNeighbour(history, o);
      ThroughExtends(history, p, o);
      JustBeforeIsThere(history, p, o);
      CountedAgrees(history, p);
      HoursStep(history, p, o);
    } else {
      HoursAlone(history, o);
    }
  }

  lemma JustBeforeIsThere(history: seq<Observation>, p: Observation, o: Observation)
    requires IsJustBefore(p, o, history)
    ensures p in history
  {
  }

  /** For any history with distinct ids: the hours of every epoch are the sum of the persistence hours of its
      members after the first exactly when every observation that continues the one just before it counts
      its hours from that one. */
  lemma HoursAgreeIff(history: seq<Observation>)
    requires DistinctIds(history)
    ensures (forall o :: o in history ==> HoursAgree(history, o)) <==>
            (forall o :: o in history ==> CountsFromNeighbour(history, o))
  {
    hide HoursAgree, DistinctIds, IsJustBefore;
    if forall o :: o in history ==> HoursAgree(history, o) {
      forall o, p | o in history && IsJustBefore(p, o, history) && p.fingerprint == o.fingerprint
        ensures HoursOf(o) == Hours(o.timestamp - p.timestamp)
      {
        JustBeforeIsThere(history, p, o);
        HoursStep(history, p, o);
      }
    }
    if forall o :: o in history ==> CountsFromNeighbour(history, o) {
      forall o | o in history ensures HoursAgree(history, o) { CountedAgrees(history, o); }
    }
  }

  /** If observation k now continues the one just before it, it was counted from the time of that one when
      it arrived. */
  ghost predicate CountedFromNeighbour(history: seq<Observation>, k: nat)
    requires k < |history|
  {
    forall p :: IsJustBefore(p, history[k], history) && p.fingerprint == history[k].fingerprint ==>
      CountedFrom(history, k, p.timestamp)
  }

  /** So for requests in any order: the hours of all epochs add up exactly when every observation that now
      continues the one just before it was counted from the time of that one when it arrived. */
  lemma RecordedHoursIff(requests: seq<Request>, digest: LogicalKey -> int)
    ensures var history := RecordAll(requests, digest);
            (forall o :: o in history ==> HoursAgree(history, o)) <==>
            (forall k :: 0 <= k < |history| ==> CountedFromNeighbour(history, k))
  {
    var history := RecordAll(requests, digest);
    RecordedIdsDistinct(requests, digest);
    HoursAgreeIff(history);
    forall k | 0 <= k < |history| ensures Remembers(history, k) { RecordedRemembers(requests, digest, k); }
    hide RecordAll, HoursAgree, DistinctIds, CountsFromNeighbour, CountedFromNeighbour, Remembers;
    CountedByIndex(history);
  }

  lemma CountedByIndex(history: seq<Observation>)
    requires forall k :: 0 <= k < |history| ==> Remembers(history, k)
    ensures (forall o :: o in history ==> CountsFromNeighbour(history, o)) <==>
            (forall k :: 0 <= k < |history| ==> CountedFromNeighbour(history, k))
  {
    forall k | 0 <= k < |history| ensures CountsFromNeighbour(history, history[k]) <==> CountedFromNeighbour(history, k) {
      CountedAt(history, k);
    }
    hide CountsFromNeighbour, CountedFromNeighbour;
    if forall o :: o in history ==> CountsFromNeighbour(history, o) {
      forall k | 0 <= k < |history| ensures CountedFromNeighbour(history, k) { assert history[k] in history; }
    }
  }

  lemma CountedAt(history: seq<Observation>, k: nat)
    requires k < |history| && Remembers(history, k)
    ensures CountsFromNeighbour(history, history[k]) <==> CountedFromNeighbour(history, k)
  {
    hide IsJustBefore, CountedFrom, Hours, HoursOf, ContinuedOnArrival;
  }

  // ----- one late request into a history that was recorded in order

  predicate Earlier(o: Observation, time: int, id: int) {
    o.timestamp < time || (o.timestamp == time && o.logicalId < id)
  }

  /** The time falls between observation i - 1 and observation i, ties being broken by the id. */
  predicate FallsAt(history: seq<Observation>, time: int, id: int, i: nat) {
    && i <= |history|
    && (i > 0 ==> Earlier(history[i - 1], time, id))
    && (i < |history| ==> !Earlier(history[i], time, id))
  }

  /** The one before has the very same time. */
  predicate TiesBelow(history: seq<Observation>, time: int, i: nat)
    requires i <= |history|
  {
    i > 0 && history[i - 1].timestamp == time
  }

  /** Observation k - 1 exists and has the fingerprint. */
  predicate FollowsSame(history: seq<Observation>, k: int, fingerprint: int)
    requires k <= |history|
  {
    k > 0 && history[k - 1].fingerprint == fingerprint
  }

  lemma NewcomerIn(history: seq<Observation>, late: Observation, scope: Scope, digest: LogicalKey -> int)
    requires Chained(history, scope, digest) && late.scope == scope
    requires forall o :: o in history ==> o.logicalId != late.logicalId
    ensures DistinctIds(history + [late])
    ensures forall o :: o in history + [late] ==> o.scope == scope
  {
    var after := history + [late];
    forall a, b | 0 <= a < b < |after| ensures after[a].logicalId != after[b].logicalId {
      assert history[a] in history;
    }
    forall o | o in history ensures o.scope == scope { OneScope(history, scope, digest, o); }
  }

  /** The neighbour that observation k of the history, or the late one (k being the length), has in the
      order of times and ids once the late one is there. */
  function NeighbourOf(history: seq<Observation>, late: Observation, i: nat, k: nat): Option<Observation>
    requires i <= |history| && k <= |history|
  {
    if k == |history| then (if i > 0 then Some(history[i - 1]) else None)
    else if k == i then Some(late)
    else if k > 0 then Some(history[k - 1])
    else None
  }

  /** Which of the history are earlier than the late one. */
  lemma EarlierUpTo(history: seq<Observation>, time: int, id: int, i: nat)
    requires Rising(history) && FallsAt(history, time, id, i)
    ensures forall j :: 0 <= j < |history| ==> (Earlier(history[j], time, id) <==> j < i)
  {
  }

  lemma NeighbourOfLate(history: seq<Observation>, late: Observation, i: nat)
    requires Rising(history) && FallsAt(history, late.timestamp, late.logicalId, i)
    requires DistinctIds(history + [late]) && forall o :: o in history + [late] ==> o.scope == late.scope
    ensures i > 0 ==> IsJustBefore(history[i - 1], late, history + [late])
    ensures i == 0 ==> forall p :: !IsJustBefore(p, late, history + [late])
  {
    var after := history + [late];
    EarlierUpTo(history, late.timestamp, late.logicalId, i);
    assert after[|history|] == late;
    assert forall j :: 0 <= j < |history| ==> after[j] == history[j] && after[j].logicalId != late.logicalId;
    forall x | x in after && x != late ensures ObsLe(x, late) ==> i > 0 && ObsLe(x, history[i - 1]) {
      var j :| 0 <= j < |history| && history[j] == x;
      assert j < i - 1 ==> history[j].timestamp < history[i - 1].timestamp;
    }
    if i > 0 { assert after[i - 1] == history[i - 1]; }
  }

  lemma LateIsNeighbour(history: seq<Observation>, late: Observation, i: nat)
    requires Rising(history) && FallsAt(history, late.timestamp, late.logicalId, i) && i < |history|
    requires DistinctIds(history + [late]) && forall o :: o in history + [late] ==> o.scope == late.scope
    ensures IsJustBefore(late, history[i], history + [late])
  {
    var after := history + [late];
    EarlierUpTo(history, late.timestamp, late.logicalId, i);
    assert after[|history|] == late && after[i] == history[i];
    forall x | x in after && x != history[i] && ObsLe(x, history[i]) ensures ObsLe(x, late) {
      if x in history {
        var j :| 0 <= j < |history| && history[j] == x;
        assert j < i;
      }
    }
  }

  lemma RisingAround(history: seq<Observation>, k: nat)
    requires Rising(history) && k < |history|
    ensures forall x :: x in history && x != history[k] && ObsLe(x, history[k]) ==> k > 0 && ObsLe(x, history[k - 1])
    ensures k > 0 ==> history[k - 1].timestamp < history[k].timestamp
  {
    forall x | x in history && x != history[k] && ObsLe(x, history[k]) ensures k > 0 && ObsLe(x, history[k - 1]) {
      var j :| 0 <= j < |history| && history[j] == x;
      assert j < k;
    }
  }

  lemma LateStaysOut(history: seq<Observation>, late: Observation, i: nat, k: nat)
    requires Rising(history) && FallsAt(history, late.timestamp, late.logicalId, i) && k < |history| && k != i
    requires history[k].logicalId != late.logicalId && ObsLe(late, history[k])
    ensures k > 0 && ObsLe(late, history[k - 1])
  {
    EarlierUpTo(history, late.timestamp, late.logicalId, i);
    assert !(k < i);
  }

  lemma NeighbourStays(history: seq<Observation>, late: Observation, i: nat, k: nat)
    requires Rising(history) && FallsAt(history, late.timestamp, late.logicalId, i) && k < |history| && k != i
    requires DistinctIds(history + [late]) && forall o :: o in history + [late] ==> o.scope == late.scope
    ensures k > 0 ==> IsJustBefore(history[k - 1], history[k], history + [late])
    ensures k == 0 ==> forall p :: !IsJustBefore(p, history[k], history + [late])
  {
    var after := history + [late];
    assert history[k].logicalId != late.logicalId by { assert after[k] == history[k] && after[|history|] == late; }
    assert forall o :: o in after <==> o in history || o == late;
    RisingAround(history, k);
    if ObsLe(late, history[k]) { LateStaysOut(history, late, i, k); }
    hide Rising, DistinctIds, FallsAt;
    assert history[k] in after && (k > 0 ==> history[k - 1] in after);
  }

  lemma NeighbourIsJustBefore(history: seq<Observation>, late: Observation, i: nat, k: nat)
    requires Rising(history) && FallsAt(history, late.timestamp, late.logicalId, i) && k <= |history|
    requires DistinctIds(history + [late]) && forall o :: o in history + [late] ==> o.scope == late.scope
    ensures forall p :: IsJustBefore(p, (history + [late])[k], history + [late]) <==> NeighbourOf(history, late, i, k) == Some(p)
  {
    var after, o, n := history + [late], (history + [late])[k], NeighbourOf(history, late, i, k);
    if k == |history| {
      NeighbourOfLate(history, late, i);
    } else if k == i {
      LateIsNeighbour(history, late, i);
    } else {
      NeighbourStays(history, late, i, k);
    }
    hide IsJustBefore, DistinctIds, Rising, FallsAt;
    if n.Some? {
      forall p | IsJustBefore(p, o, after) ensures p == n.value { JustBeforeUnique(after, o, n.value, p); }
    }
  }

  /** The observation that observation k of the history, or the late one, was compared with. */
  function ComparedWith(history: seq<Observation>, late: Observation, i: nat, k: nat): Option<Observation>
    requires i <= |history| && k <= |history|
  {
    var upTo := if k < |history| then k else if TiesBelow(history, late.timestamp, i) then i - 1 else i;
    if upTo > 0 then Some(history[upTo - 1]) else None
  }

  lemma PreviousAt(history: seq<Observation>, late: Observation, i: nat, chosen: Option<Observation>)
    requires Rising(history) && FallsAt(history, late.timestamp, late.logicalId, i)
    requires forall o :: o in history ==> o.logicalId != late.logicalId
    requires IsLatestBefore(chosen, history, late.timestamp, Some(late.logicalId))
    ensures chosen == ComparedWith(history, late, i, |history|)
  {
    EarlierUpTo(history, late.timestamp, late.logicalId, i);
    var upTo := if TiesBelow(history, late.timestamp, i) then i - 1 else i;
    assert forall j :: 0 <= j < |history| ==> (history[j].timestamp < late.timestamp <==> j < upTo);
    if upTo > 0 {
      assert history[upTo - 1] in history;
      var j :| 0 <= j < |history| && history[j] == chosen.value;
      assert j == upTo - 1;
    }
  }

  /** Appending the late request: what each observation was compared with, and what its neighbour is now. */
  lemma LateAppended(history: seq<Observation>, scope: Scope, digest: LogicalKey -> int, request: Request, i: nat)
    returns (late: Observation)
    requires Chained(history, scope, digest) && request.scope == scope && !Stored(history, request, digest)
    requires FallsAt(history, request.timestamp, digest(KeyOf(request)), i)
    ensures RecordObservation(history, request, digest) == history + [late]
    ensures late.timestamp == request.timestamp && late.fingerprint == request.fingerprint
    ensures DistinctIds(history + [late])
    ensures forall k :: 0 <= k <= |history| ==> Placed(history, late, i, k)
  {
    assert i <= |history|;
    ChainRises(history, scope, digest);
    late := NewcomerCompared(history, scope, digest, request, i);
    NewcomerIn(history, late, scope, digest);
    hide RecordObservation, Stored, DistinctIds, Rising, FallsAt, Compared, NeighbourOf, IsJustBefore, ComparedWith;
    assert (history + [late])[|history|] == late;
    forall k | 0 <= k <= |history| ensures Placed(history, late, i, k) {
      NeighbourIsJustBefore(history, late, i, k);
      if k < |history| { OldCompared(history, late, scope, digest, i, k); }
    }
  }

  lemma NewcomerCompared(history: seq<Observation>, scope: Scope, digest: LogicalKey -> int, request: Request, i: nat)
    returns (late: Observation)
    requires Chained(history, scope, digest) && request.scope == scope && !Stored(history, request, digest)
    requires FallsAt(history, request.timestamp, digest(KeyOf(request)), i)
    ensures RecordObservation(history, request, digest) == history + [late]
    ensures late.scope == scope && late.timestamp == request.timestamp && late.fingerprint == request.fingerprint
    ensures late.logicalId == digest(KeyOf(request)) && forall o :: o in history ==> o.logicalId != late.logicalId
    ensures Compared(late, ComparedWith(history, late, i, |history|))
  {
    assert i <= |history|;
    ChainRises(history, scope, digest);
    forall o | o in history ensures o.scope == scope { OneScope(history, scope, digest, o); }
    hide RecordObservation, Chained, Compared, FallsAt, Rising, ComparedWith, FoldPrevious;
    late := Appended(history, request, digest);
    FilterAll(history, (x: Observation) => x.scope == scope);
    PreviousAt(history, late, i, PreviousOf(history, request, late.logicalId));
  }

  lemma OldCompared(history: seq<Observation>, late: Observation, scope: Scope, digest: LogicalKey -> int, i: nat, k: nat)
    requires Chained(history, scope, digest) && i <= |history| && k < |history|
    ensures Compared((history + [late])[k], ComparedWith(history, late, i, k))
  {
    assert LinkAt(history, k, scope, digest);
  }

  ghost predicate Placed(history: seq<Observation>, late: Observation, i: nat, k: nat)
    requires i <= |history| && k <= |history|
  {
    var after := history + [late];
    && Compared(after[k], ComparedWith(history, late, i, k))
    && forall p :: IsJustBefore(p, after[k], after) <==> NeighbourOf(history, late, i, k) == Some(p)
  }

  lemma StateOf(o: Observation, previous: Option<Observation>)
    requires Compared(o, previous)
    ensures o.assessment.state == Stable <==> previous.Some? && previous.value.fingerprint == o.fingerprint
  {
  }

  lemma AgreesByNeighbours(history: seq<Observation>, k: nat, now: Option<Observation>, before: Option<Observation>)
    requires DistinctIds(history) && k < |history| && Compared(history[k], before)
    requires forall p :: IsJustBefore(p, history[k], history) <==> now == Some(p)
    ensures Agrees(history, k) <==>
            ((now.Some? && now.value.fingerprint == history[k].fingerprint) <==>
             (before.Some? && before.value.fingerprint == history[k].fingerprint))
  {
    EpochGrewIffContinues(history, history[k]);
    StateOf(history[k], before);
    hide StableEpochOf, DistinctIds, IsJustBefore, Compared;
  }

  /** Where one late observation leaves every epoch in agreement with its state: it has the fingerprint of
      the one after it exactly if the one before it has, and if it ties with the one before it, it has the
      fingerprint of that one exactly if it has the fingerprint of the one before that. */
  predicate FitsAt(history: seq<Observation>, time: int, fingerprint: int, i: nat)
    requires i <= |history|
  {
    && (i < |history| ==> (FollowsSame(history, i, history[i].fingerprint) <==> fingerprint == history[i].fingerprint))
    && (TiesBelow(history, time, i) ==> (FollowsSame(history, i - 1, fingerprint) <==> FollowsSame(history, i, fingerprint)))
  }

  /** Where it leaves the hours of every epoch in agreement: it differs from the one after it, unless it has
      the time from which that one was counted; and if it ties with the one before it and there is one before
      that, it differs from the one before it. */
  predicate HoursFitAt(history: seq<Observation>, time: int, fingerprint: int, i: nat)
    requires i <= |history|
  {
    && (i < |history| && fingerprint == history[i].fingerprint ==>
          if i > 0 then TiesBelow(history, time, i) else time == history[i].timestamp)
    && (TiesBelow(history, time, i) && i > 1 ==> !FollowsSame(history, i, fingerprint))
  }

  /** Recording one request, late or not, into a history recorded in order: every epoch still agrees with
      its state exactly when the new observation fits where it falls. */
  lemma LateRequestAgreesIff(history: seq<Observation>, scope: Scope, digest: LogicalKey -> int, request: Request, i: nat)
    requires Chained(history, scope, digest) && request.scope == scope && !Stored(history, request, digest)
    requires FallsAt(history, request.timestamp, digest(KeyOf(request)), i)
    ensures var after := RecordObservation(history, request, digest);
            (forall k :: 0 <= k < |after| ==> Agrees(after, k)) <==>
            FitsAt(history, request.timestamp, request.fingerprint, i)
  {
    assert i <= |history|;
    hide RecordObservation, Agrees, Chained, Stored, FallsAt, DistinctIds, Placed;
    var late := LateAppended(history, scope, digest, request, i);
    var after, n := history + [late], |history|;
    forall k | 0 <= k <= n ensures Agrees(after, k) <==> AgreesAt(history, late, i, k) {
      PlacedAgrees(history, late, i, k);
    }
    AgreesAtAll(history, late, i);
  }

  predicate AgreesAt(history: seq<Observation>, late: Observation, i: nat, k: nat)
    requires i <= |history| && k <= |history|
  {
    var now, before, fingerprint := NeighbourOf(history, late, i, k), ComparedWith(history, late, i, k), (history + [late])[k].fingerprint;
    (now.Some? && now.value.fingerprint == fingerprint) <==> (before.Some? && before.value.fingerprint == fingerprint)
  }

  lemma PlacedAgrees(history: seq<Observation>, late: Observation, i: nat, k: nat)
    requires i <= |history| && k <= |history| && DistinctIds(history + [late]) && Placed(history, late, i, k)
    ensures Agrees(history + [late], k) <==> AgreesAt(history, late, i, k)
  {
    hide Agrees, DistinctIds, Compared, IsJustBefore;
    AgreesByNeighbours(history + [late], k, NeighbourOf(history, late, i, k), ComparedWith(history, late, i, k));
  }

  lemma AgreesAtAll(history: seq<Observation>, late: Observation, i: nat)
    requires i <= |history|
    ensures (forall k :: 0 <= k <= |history| ==> AgreesAt(history, late, i, k)) <==>
            FitsAt(history, late.timestamp, late.fingerprint, i)
  {
    var n := |history|;
    assert forall k :: 0 <= k < n && k != i ==> AgreesAt(history, late, i, k);
    assert i < n ==> (AgreesAt(history, late, i, i) <==>
                      (FollowsSame(history, i, history[i].fingerprint) <==> late.fingerprint == history[i].fingerprint));
    assert AgreesAt(history, late, i, n) <==>
           (TiesBelow(history, late.timestamp, i) ==>
            (FollowsSame(history, i - 1, late.fingerprint) <==> FollowsSame(history, i, late.fingerprint)));
    hide AgreesAt;
  }

  /** And the hours of every epoch are still the sum of the persistence hours of its members after the first
      exactly when they fit. */
  lemma LateRequestHoursIff(history: seq<Observation>, scope: Scope, digest: LogicalKey -> int, request: Request, i: nat)
    requires Chained(history, scope, digest) && request.scope == scope && !Stored(history, request, digest)
    requires FallsAt(history, request.timestamp, digest(KeyOf(request)), i)
    ensures var after := RecordObservation(history, request, digest);
            (forall o :: o in after ==> HoursAgree(after, o)) <==>
            HoursFitAt(history, request.timestamp, request.fingerprint, i)
  {
    ChainRises(history, scope, digest);
    hide RecordObservation, HoursAgree, Chained, Stored, FallsAt, DistinctIds, Placed, Rising, CountsFromNeighbour;
    var late := LateAppended(history, scope, digest, request, i);
    var after, n := history + [late], |history|;
    HoursAgreeIff(after);
    forall k | 0 <= k <= n ensures CountsFromNeighbour(after, after[k]) <==> CountsAt(history, late, i, k) {
      PlacedCounts(history, late, i, k);
    }
    CountsByIndex(history, late, i);
    CountsAtAll(history, late, i);
  }

  predicate CountsAt(history: seq<Observation>, late: Observation, i: nat, k: nat)
    requires i <= |history| && k <= |history|
  {
    var now, before, o := NeighbourOf(history, late, i, k), ComparedWith(history, late, i, k), (history + [late])[k];
    now.Some? && now.value.fingerprint == o.fingerprint ==>
      now.value.timestamp == if before.Some? then before.value.timestamp else o.timestamp
  }

  lemma PlacedCounts(history: seq<Observation>, late: Observation, i: nat, k: nat)
    requires i <= |history| && k <= |history| && Placed(history, late, i, k)
    ensures CountsFromNeighbour(history + [late], (history + [late])[k]) <==> CountsAt(history, late, i, k)
  {
    var now, before, o := NeighbourOf(history, late, i, k), ComparedWith(history, late, i, k), (history + [late])[k];
    hide NeighbourOf, ComparedWith, IsJustBefore, Hours;
    if now.Some? {
      HoursApart(o.timestamp, now.value.timestamp, if before.Some? then before.value.timestamp else o.timestamp);
    }
  }

  lemma CountsByIndex(history: seq<Observation>, late: Observation, i: nat)
    requires i <= |history|
    requires forall k :: 0 <= k <= |history| ==>
               (CountsFromNeighbour(history + [late], (history + [late])[k]) <==> CountsAt(history, late, i, k))
    ensures (forall o :: o in history + [late] ==> CountsFromNeighbour(history + [late], o)) <==>
            (forall k :: 0 <= k <= |history| ==> CountsAt(history, late, i, k))
  {
    hide CountsFromNeighbour, CountsAt;
    var after := history + [late];
    if forall o :: o in after ==> CountsFromNeighbour(after, o) {
      forall k | 0 <= k <= |history| ensures CountsAt(history, late, i, k) { assert after[k] in after; }
    }
  }

  lemma CountsAtAll(history: seq<Observation>, late: Observation, i: nat)
    requires i <= |history| && Rising(history)
    ensures (forall k :: 0 <= k <= |history| ==> CountsAt(history, late, i, k)) <==>
            HoursFitAt(history, late.timestamp, late.fingerprint, i)
  {
    var n := |history|;
    assert forall k :: 0 <= k < n && k != i ==> CountsAt(history, late, i, k);
    assert i < n ==> (CountsAt(history, late, i, i) <==>
                      (late.fingerprint == history[i].fingerprint ==>
                       if i > 0 then TiesBelow(history, late.timestamp, i) else late.timestamp == history[i].timestamp));
    assert CountsAt(history, late, i, n) <==>
           (TiesBelow(history, late.timestamp, i) && i > 1 ==> !FollowsSame(history, i, late.fingerprint));
    hide CountsAt;
  }
}
