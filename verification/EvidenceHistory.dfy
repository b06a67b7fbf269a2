/** The append-only observation history of a finding: how the relevant previous observation is
    chosen, in its two forms, and how a new observation is assessed against the history. */
module EvidenceHistory {
  import opened JobModels
  import opened Ordering

  /** Identifiers, fingerprints and digests are numbers here: they are only compared. */
  datatype Scope = Scope(tenant: int, account: int, finding: int)

  datatype PersistenceState = New | Stable | Changed | MissingPrevious

  datatype Assessment = Assessment(
    state: PersistenceState,
    persistenceHours: Option<real>,
    comparedTo: Option<int>,
    fingerprint: int,
    logicalId: int)

  datatype Observation = Observation(
    scope: Scope,
    runId: int,
    timestamp: int,
    fingerprint: int,
    observationId: int,
    logicalId: int,
    assessment: Assessment)

  datatype Request = Request(
    scope: Scope,
    runId: int,
    timestamp: int,
    fingerprint: int,
    observationId: int,
    expectedPriorHistory: bool)

  // ----- ordering and selection

  predicate ObsLe(x: Observation, y: Observation) {
    x.timestamp < y.timestamp || (x.timestamp == y.timestamp && x.logicalId <= y.logicalId)
  }

  ghost predicate DistinctIds(observations: seq<Observation>) {
    forall i, j :: 0 <= i < j < |observations| ==> observations[i].logicalId != observations[j].logicalId
  }

  lemma DistinctIdsNoTies(observations: seq<Observation>)
    requires DistinctIds(observations)
    ensures NoTies(observations, ObsLe)
  {
    forall x, y | x in observations && y in observations && ObsLe(x, y) && ObsLe(y, x) ensures x == y {
      var i :| 0 <= i < |observations| && observations[i] == x;
      var j :| 0 <= j < |observations| && observations[j] == y;
      assert x.logicalId == y.logicalId;
    }
  }

  predicate Relevant(o: Observation, before: int, exclude: Option<int>) {
    o.timestamp < before && exclude != Some(o.logicalId)
  }

  /** Sort, filter, take the last. */
  function SelectPrevious(observations: seq<Observation>, before: int, exclude: Option<int>): Option<Observation> {
    var candidates := Filter(Sort(observations, ObsLe), o => Relevant(o, before, exclude));
    if candidates == [] then None else Some(candidates[|candidates| - 1])
  }

  function Later(latest: Observation, candidate: Observation): Observation {
    if candidate.timestamp > latest.timestamp then candidate
    else if candidate.timestamp < latest.timestamp then latest
    else if candidate.logicalId > latest.logicalId then candidate
    else latest
  }

  function Reduce(latest: Observation, rest: seq<Observation>): Observation
    decreases |rest|
  {
    if rest == [] then latest else Reduce(Later(latest, rest[0]), rest[1..])
  }

  /** Filter, then one pass that keeps the later of two. */
  function FoldPrevious(candidates: seq<Observation>, tenant: int, before: int, exclude: Option<int>): Option<Observation> {
    var filtered := Filter(candidates, (o: Observation) => o.scope.tenant == tenant && Relevant(o, before, exclude));
    if filtered == [] then None else Some(Reduce(filtered[0], filtered[1..]))
  }

  /** The greatest relevant observation, if there is one. */
  ghost predicate IsLatestBefore(chosen: Option<Observation>, observations: seq<Observation>, before: int, exclude: Option<int>) {
    match chosen
    case None => forall o :: o in observations && o.timestamp < before ==> exclude == Some(o.logicalId)
    case Some(c) =>
      && c in observations && c.timestamp < before && exclude != Some(c.logicalId)
      && forall o :: o in observations && o.timestamp < before && exclude != Some(o.logicalId) ==> ObsLe(o, c)
  }

  lemma SelectIsLatest(observations: seq<Observation>, before: int, exclude: Option<int>)
    ensures IsLatestBefore(SelectPrevious(observations, before, exclude), observations, before, exclude)
  {
    var sorted := Sort(observations, ObsLe);
    var keep := (o: Observation) => Relevant(o, before, exclude);
    SortSorted(observations, ObsLe);
    SameMembers(sorted, observations);
    FilterSorted(sorted, keep, ObsLe);
    var candidates := Filter(sorted, keep);
    assert forall o :: o in candidates <==> o in observations && Relevant(o, before, exclude);
    hide Sort, Filter, ObsLe, Relevant;
    assert SelectPrevious(observations, before, exclude) ==
           if candidates == [] then None else Some(candidates[|candidates| - 1]);
    hide SelectPrevious;
    if candidates != [] {
      assert candidates[|candidates| - 1] in candidates;
      forall o | o in candidates ensures ObsLe(o, candidates[|candidates| - 1]) { LastIsGreatest(candidates, o); }
    }
  }

  lemma LastIsGreatest(sorted: seq<Observation>, o: Observation)
    requires Sorted(sorted, ObsLe) && o in sorted
    ensures ObsLe(o, sorted[|sorted| - 1])
  {
  }

  lemma {:induction false} ReduceIsGreatest(latest: Observation, rest: seq<Observation>)
    ensures var r := Reduce(latest, rest);
            && (r == latest || r in rest)
            && ObsLe(latest, r)
            && forall o :: o in rest ==> ObsLe(o, r)
    decreases |rest|
  {
    if rest != [] {
      ReduceIsGreatest(Later(latest, rest[0]), rest[1..]);
    }
  }

  predicate RelevantTo(o: Observation, tenant: int, before: int, exclude: Option<int>) {
    o.scope.tenant == tenant && Relevant(o, before, exclude)
  }

  /** The fold gives the greatest relevant row of the tenant, if there is one. */
  lemma FoldOfTenant(candidates: seq<Observation>, tenant: int, before: int, exclude: Option<int>)
    ensures match FoldPrevious(candidates, tenant, before, exclude)
            case None => forall o :: o in candidates ==> !RelevantTo(o, tenant, before, exclude)
            case Some(c) =>
              && c in candidates && RelevantTo(c, tenant, before, exclude)
              && forall o :: o in candidates && RelevantTo(o, tenant, before, exclude) ==> ObsLe(o, c)
  {
    var filtered := Filter(candidates, (o: Observation) => o.scope.tenant == tenant && Relevant(o, before, exclude));
    forall o | o in candidates && RelevantTo(o, tenant, before, exclude) ensures o in filtered {
    }
    if filtered != [] {
      ReduceIsGreatest(filtered[0], filtered[1..]);
      assert filtered == [filtered[0]] + filtered[1..];
      assert Reduce(filtered[0], filtered[1..]) in filtered;
    }
  }

  lemma FoldIsLatest(candidates: seq<Observation>, tenant: int, before: int, exclude: Option<int>)
    requires forall o :: o in candidates ==> o.scope.tenant == tenant
    ensures IsLatestBefore(FoldPrevious(candidates, tenant, before, exclude), candidates, before, exclude)
  {
    FoldOfTenant(candidates, tenant, before, exclude);
    hide FoldPrevious;
  }

  /** The two selections agree on every list of one tenant with distinct logical ids. */
  lemma FoldEqualsSortedSelection(observations: seq<Observation>, tenant: int, before: int, exclude: Option<int>)
    requires forall o :: o in observations ==> o.scope.tenant == tenant
    requires DistinctIds(observations)
    ensures FoldPrevious(observations, tenant, before, exclude) == SelectPrevious(observations, before, exclude)
  {
    SelectIsLatest(observations, before, exclude);
    FoldIsLatest(observations, tenant, before, exclude);
    DistinctIdsNoTies(observations);
  }

  /** Without distinct ids they can disagree: of two equal keys the fold keeps the first, the sorted
      selection the last. */
  lemma SelectionsDifferOnRepeatedIds()
    ensures var a := Observation(Scope(0, 0, 0), 0, 10, 1, 1, 7, Assessment(New, None, None, 1, 7));
            FoldPrevious([a, a.(fingerprint := 2)], 0, 20, None) == Some(a)
            && SelectPrevious([a, a.(fingerprint := 2)], 20, None) == Some(a.(fingerprint := 2))
  {
    var a := Observation(Scope(0, 0, 0), 0, 10, 1, 1, 7, Assessment(New, None, None, 1, 7));
    var b := a.(fingerprint := 2);
    var keep := (o: Observation) => Relevant(o, 20, None);
    var keepTenant := (o: Observation) => o.scope.tenant == 0 && Relevant(o, 20, None);
    assert Sort([b], ObsLe) == [b];
    assert Sort([a, b], ObsLe) == [a, b];
    FilterAll([a, b], keep);
    FilterAll([a, b], keepTenant);
    assert Reduce(a, [b]) == Reduce(Later(a, b), []);
  }

  // ----- exactly when the two selections agree

  /** No relevant row is later. */
  ghost predicate IsGreatest(o: Observation, observations: seq<Observation>, before: int, exclude: Option<int>) {
    && o in observations && Relevant(o, before, exclude)
    && forall other :: other in observations && Relevant(other, before, exclude) ==> ObsLe(other, o)
  }

  /** No two different relevant rows tie for the greatest. */
  ghost predicate UniqueGreatest(observations: seq<Observation>, before: int, exclude: Option<int>) {
    forall x, y :: IsGreatest(x, observations, before, exclude) && IsGreatest(y, observations, before, exclude) ==> x == y
  }

  ghost predicate Agree(observations: seq<Observation>, tenant: int, before: int, exclude: Option<int>) {
    FoldPrevious(observations, tenant, before, exclude) == SelectPrevious(observations, before, exclude)
  }

  lemma UniqueGreatestAgrees(observations: seq<Observation>, tenant: int, before: int, exclude: Option<int>)
    requires forall o :: o in observations ==> o.scope.tenant == tenant
    requires UniqueGreatest(observations, before, exclude)
    ensures Agree(observations, tenant, before, exclude)
  {
    SelectIsLatest(observations, before, exclude);
    FoldIsLatest(observations, tenant, before, exclude);
    var x, y := SelectPrevious(observations, before, exclude), FoldPrevious(observations, tenant, before, exclude);
    assert x.Some? ==> IsGreatest(x.value, observations, before, exclude);
    assert y.Some? ==> IsGreatest(y.value, observations, before, exclude);
  }

  /** The last kept element. */
  ghost predicate LastKept<T(!new)>(s: seq<T>, keep: T -> bool, last: T) {
    var kept := Filter(s, keep);
    kept != [] && kept[|kept| - 1] == last
  }

  lemma LastKeptCons<T(!new)>(first: T, rest: seq<T>, keep: T -> bool, last: T)
    ensures LastKept([first] + rest, keep, last) <==>
            LastKept(rest, keep, last) || (Filter(rest, keep) == [] && keep(first) && first == last)
  {
    FilterCons(first, rest, keep);
    hide Filter;
  }

  /** An element that is inserted no later than the last kept one leaves it the last kept one. */
  lemma {:induction false} InsertKeepsLast<T(!new)>(z: T, s: seq<T>, keep: T -> bool, le: (T, T) -> bool, last: T)
    requires LastKept(s, keep, last) && (keep(z) ==> le(z, last))
    ensures LastKept(Insert(z, s, le), keep, last)
  {
    hide LastKept;
    if s == [] {
      NothingKept(keep, last);
    } else if le(z, s[0]) {
      LastKeptCons(z, s, keep, last);
    } else {
      assert s == [s[0]] + s[1..];
      LastKeptCons(s[0], s[1..], keep, last);
      LastKeptCons(s[0], Insert(z, s[1..], le), keep, last);
      if LastKept(s[1..], keep, last) {
        InsertKeepsLast(z, s[1..], keep, le, last);
      } else {
        InsertDropped(z, s[1..], keep, le);
      }
    }
  }

  lemma NothingKept<T(!new)>(keep: T -> bool, last: T)
    ensures !LastKept([], keep, last)
  {
  }

  lemma {:induction false} InsertDropped<T(!new)>(z: T, s: seq<T>, keep: T -> bool, le: (T, T) -> bool)
    requires !keep(z)
    ensures Filter(Insert(z, s, le), keep) == Filter(s, keep)
  {
    if s != [] && !le(z, s[0]) { InsertDropped(z, s[1..], keep, le); }
  }

  /** A stable sort leaves the last of the greatest kept elements last. */
  lemma {:induction false} SortKeepsLast<T(!new)>(front: seq<T>, last: T, keep: T -> bool, le: (T, T) -> bool)
    requires keep(last) && forall z :: z in front && keep(z) ==> le(z, last)
    ensures LastKept(Sort(front + [last], le), keep, last)
  {
    if front == [] {
      assert front + [last] == [last];
      assert Sort([last], le) == [last];
      LastKeptCons(last, [], keep, last);
    } else {
      hide LastKept;
      assert (front + [last])[1..] == front[1..] + [last] && (front + [last])[0] == front[0];
      SortKeepsLast(front[1..], last, keep, le);
      InsertKeepsLast(front[0], Sort(front[1..] + [last], le), keep, le, last);
    }
  }

  /** And the fold keeps the first of them. */
  lemma {:induction false} ReduceKeepsFirst(first: Observation, rest: seq<Observation>)
    requires forall o :: o in rest ==> ObsLe(o, first)
    ensures Reduce(first, rest) == first
    decreases |rest|
  {
    if rest != [] {
      assert Later(first, rest[0]) == first by { assert ObsLe(rest[0], first); }
      ReduceKeepsFirst(first, rest[1..]);
    }
  }

  /** With two tied rows at its ends, the fold picks the first and the sorted selection the last. */
  lemma TiedEndsDisagree(x: Observation, middle: seq<Observation>, y: Observation, tenant: int, before: int, exclude: Option<int>)
    requires x != y && x.scope.tenant == tenant
    requires IsGreatest(x, [x] + middle + [y], before, exclude) && IsGreatest(y, [x] + middle + [y], before, exclude)
    ensures !Agree([x] + middle + [y], tenant, before, exclude)
  {
    var all := [x] + middle + [y];
    var keep := (o: Observation) => Relevant(o, before, exclude);
    var keepTenant := (o: Observation) => o.scope.tenant == tenant && Relevant(o, before, exclude);
    SortKeepsLast([x] + middle, y, keep, ObsLe);
    assert SelectPrevious(all, before, exclude) == Some(y);
    assert all[0] == x;
    var filtered := Filter(all, keepTenant);
    assert filtered[0] == x;
    forall o | o in filtered[1..] ensures ObsLe(o, x) {
      assert o in filtered;
    }
    ReduceKeepsFirst(x, filtered[1..]);
    assert FoldPrevious(all, tenant, before, exclude) == Some(x);
  }

  /** The rows with two of them moved to the ends. */
  lemma MovedToEnds(observations: seq<Observation>, x: Observation, y: Observation) returns (middle: seq<Observation>)
    requires x in observations && y in observations && x != y
    ensures multiset([x] + middle + [y]) == multiset(observations)
  {
    var i :| 0 <= i < |observations| && observations[i] == x;
    var j :| 0 <= j < |observations| && observations[j] == y;
    var lo, hi := if i < j then i else j, if i < j then j else i;
    middle := observations[..lo] + observations[lo + 1..hi] + observations[hi + 1..];
    TakenOut(observations, lo, hi);
    WithEnds(x, middle, y);
  }

  lemma WithEnds(x: Observation, middle: seq<Observation>, y: Observation)
    ensures multiset([x] + middle + [y]) == multiset(middle) + multiset{x} + multiset{y}
  {
  }

  lemma TakenOut(s: seq<Observation>, lo: nat, hi: nat)
    requires lo < hi < |s|
    ensures multiset(s) == multiset(s[..lo] + s[lo + 1..hi] + s[hi + 1..]) + multiset{s[lo]} + multiset{s[hi]}
  {
    var a, b, c := s[..lo], s[lo + 1..hi], s[hi + 1..];
    assert s == a + [s[lo]] + b + [s[hi]] + c;
    assert multiset(a + [s[lo]] + b + [s[hi]] + c) == multiset(a) + multiset{s[lo]} + multiset(b) + multiset{s[hi]} + multiset(c);
    assert multiset(a + b + c) == multiset(a) + multiset(b) + multiset(c);
  }

  /** The fold and the sorted selection agree on every arrangement of the rows of one tenant exactly when no
      two different relevant rows tie for the greatest. */
  lemma SelectionsAgreeIff(observations: seq<Observation>, tenant: int, before: int, exclude: Option<int>)
    requires forall o :: o in observations ==> o.scope.tenant == tenant
    ensures (forall other :: multiset(other) == multiset(observations) ==> Agree(other, tenant, before, exclude))
            <==> UniqueGreatest(observations, before, exclude)
  {
    hide Agree;
    if UniqueGreatest(observations, before, exclude) {
      forall other | multiset(other) == multiset(observations) ensures Agree(other, tenant, before, exclude) {
        SameMembers(other, observations);
        SameGreatest(other, observations, before, exclude);
        UniqueGreatestAgrees(other, tenant, before, exclude);
      }
    } else {
      var x, y :| IsGreatest(x, observations, before, exclude) && IsGreatest(y, observations, before, exclude) && x != y;
      var middle := MovedToEnds(observations, x, y);
      SameMembers([x] + middle + [y], observations);
      SameGreatest([x] + middle + [y], observations, before, exclude);
      TiedEndsDisagree(x, middle, y, tenant, before, exclude);
    }
  }

  lemma SameGreatest(a: seq<Observation>, b: seq<Observation>, before: int, exclude: Option<int>)
    requires forall o :: o in a <==> o in b
    ensures forall o :: IsGreatest(o, a, before, exclude) <==> IsGreatest(o, b, before, exclude)
  {
  }

  // ----- the query of the table, newest row first and page by page

  /** Each row comes before the ones that are earlier. */
  ghost predicate Descending(rows: seq<Observation>) {
    forall i, j :: 0 <= i < j < |rows| ==> ObsLe(rows[j], rows[i])
  }

  function Rows(pages: seq<seq<Observation>>): seq<Observation> {
    if pages == [] then [] else pages[0] + Rows(pages[1..])
  }

  /** The row is relevant and none before it is. */
  ghost predicate IsFirst(o: Observation, i: nat, rows: seq<Observation>, tenant: int, before: int, exclude: Option<int>) {
    && i < |rows| && rows[i] == o && RelevantTo(o, tenant, before, exclude)
    && forall k :: 0 <= k < i ==> !RelevantTo(rows[k], tenant, before, exclude)
  }

  method ScanPage(items: seq<Observation>, tenant: int, before: int, exclude: Option<int>) returns (found: Option<Observation>)
    ensures found.None? ==> forall o :: o in items ==> !RelevantTo(o, tenant, before, exclude)
    ensures found.Some? ==> exists i :: IsFirst(found.value, i, items, tenant, before, exclude)
  {
    var i := 0;
    while i < |items|
      invariant 0 <= i <= |items|
      invariant forall k :: 0 <= k < i ==> !RelevantTo(items[k], tenant, before, exclude)
    {
      if items[i].scope.tenant == tenant && Relevant(items[i], before, exclude) {
        assert IsFirst(items[i], i, items, tenant, before, exclude);
        return Some(items[i]);
      }
      i := i + 1;
    }
    return None;
  }

  /** The first relevant row of the query is the one that the fold picks from all rows. */
  method FindRelevantPreviousObservation(pages: seq<seq<Observation>>, tenant: int, before: int, exclude: Option<int>)
    returns (found: Option<Observation>)
    requires Descending(Rows(pages)) && DistinctIds(Rows(pages))
    ensures found == FoldPrevious(Rows(pages), tenant, before, exclude)
  {
    hide Descending, DistinctIds, RelevantTo, FoldPrevious, IsFirst;
    var page := 0;
    ghost var seen: seq<Observation> := [];
    while page < |pages|
      invariant 0 <= page <= |pages|
      invariant seen + Rows(pages[page..]) == Rows(pages)
      invariant forall o :: o in seen ==> !RelevantTo(o, tenant, before, exclude)
    {
      found := ScanPage(pages[page], tenant, before, exclude);
      assert Rows(pages) == seen + (pages[page] + Rows(pages[page + 1..]));
      if found.Some? {
        FoundInPage(seen, pages[page], Rows(pages[page + 1..]), found.value, tenant, before, exclude);
        return;
      }
      seen := seen + pages[page];
      page := page + 1;
    }
    assert seen == Rows(pages);
    FoldOfTenant(seen, tenant, before, exclude);
    return None;
  }

  lemma FoundInPage(seen: seq<Observation>, items: seq<Observation>, rest: seq<Observation>, o: Observation,
                    tenant: int, before: int, exclude: Option<int>)
    requires Descending(seen + (items + rest)) && DistinctIds(seen + (items + rest))
    requires forall x :: x in seen ==> !RelevantTo(x, tenant, before, exclude)
    requires exists i :: IsFirst(o, i, items, tenant, before, exclude)
    ensures FoldPrevious(seen + (items + rest), tenant, before, exclude) == Some(o)
  {
    hide Descending, DistinctIds, FoldPrevious;
    var i: nat :| IsFirst(o, i, items, tenant, before, exclude);
    var front := seen + items[..i];
    assert items == items[..i] + [o] + items[i + 1..];
    assert seen + (items + rest) == front + [o] + (items[i + 1..] + rest);
    FirstIsLatest(front, o, items[i + 1..] + rest, tenant, before, exclude);
  }

  lemma FirstIsLatest(seen: seq<Observation>, o: Observation, rest: seq<Observation>, tenant: int, before: int, exclude: Option<int>)
    requires Descending(seen + [o] + rest) && DistinctIds(seen + [o] + rest)
    requires forall x :: x in seen ==> !RelevantTo(x, tenant, before, exclude)
    requires RelevantTo(o, tenant, before, exclude)
    ensures FoldPrevious(seen + [o] + rest, tenant, before, exclude) == Some(o)
  {
    var rows := seen + [o] + rest;
    assert rows[|seen|] == o;
    FollowersAreEarlier(seen, o, rest);
    DistinctIdsNoTies(rows);
    FoldOfTenant(rows, tenant, before, exclude);
    hide Descending, DistinctIds, RelevantTo, FoldPrevious;
  }

  lemma FollowersAreEarlier(seen: seq<Observation>, o: Observation, rest: seq<Observation>)
    requires Descending(seen + [o] + rest)
    ensures forall x :: x in rest ==> ObsLe(x, o)
  {
    var rows := seen + [o] + rest;
    forall x | x in rest ensures ObsLe(x, o) {
      var j :| 0 <= j < |rest| && rest[j] == x;
      assert rows[|seen|] == o && rows[|seen| + 1 + j] == x;
    }
  }

  // ----- assessment

  datatype AssessResult = Assessed(assessment: Assessment) | NegativeDuration

  function Hours(ms: int): real { ms as real / 3600000.0 }

  /** None stands for the data-quality error on a negative duration. */
  function ComputePersistenceHours(current: int, previous: int): Option<real> {
    if current - previous < 0 then None else Some(Hours(current - previous))
  }

  /** The key that is hashed to give an observation its identity. */
  datatype LogicalKey = LogicalKey(scope: Scope, runId: int, timestamp: int)

  function KeyOf(request: Request): LogicalKey { LogicalKey(request.scope, request.runId, request.timestamp) }

  function FindByLogicalId(observations: seq<Observation>, id: int): (found: Option<Observation>)
    ensures found.None? <==> forall o :: o in observations ==> o.logicalId != id
    ensures found.Some? ==> found.value in observations && found.value.logicalId == id
  {
    if observations == [] then None
    else if observations[0].logicalId == id then Some(observations[0])
    else FindByLogicalId(observations[1..], id)
  }

  function AssessPersistence(request: Request, prior: seq<Observation>, digest: LogicalKey -> int): AssessResult {
    var id := digest(KeyOf(request));
    var duplicate := FindByLogicalId(prior, id);
    if duplicate.Some? then Assessed(duplicate.value.assessment)
    else
      var previous := SelectPrevious(prior, request.timestamp, Some(id));
      if previous.None? then
        Assessed(Assessment(if request.expectedPriorHistory then MissingPrevious else New,
                            None, None, request.fingerprint, id))
      else
        var hours := ComputePersistenceHours(request.timestamp, previous.value.timestamp);
        if hours.None? then NegativeDuration
        else Assessed(Assessment(
          if previous.value.fingerprint == request.fingerprint then Stable else Changed,
          hours, Some(previous.value.observationId), request.fingerprint, id))
  }

  /** The data-quality error cannot occur: the chosen observation is strictly earlier. */
  lemma AssessmentNeverFails(request: Request, prior: seq<Observation>, digest: LogicalKey -> int)
    ensures AssessPersistence(request, prior, digest).Assessed?
  {
    var id := digest(KeyOf(request));
    SelectIsLatest(prior, request.timestamp, Some(id));
  }

  // ----- recorded histories

  /** The rows of one finding. */
  function OfFinding(history: seq<Observation>, scope: Scope): seq<Observation> {
    Filter(history, (o: Observation) => o.scope == scope)
  }

  /** The relevant previous observation of a request, among the rows of its own finding. */
  function PreviousOf(history: seq<Observation>, request: Request, id: int): Option<Observation> {
    FoldPrevious(OfFinding(history, request.scope), request.scope.tenant, request.timestamp, Some(id))
  }

  /** What a repository hands to the assessment: that observation alone, or nothing. */
  function Prior(history: seq<Observation>, request: Request, id: int): seq<Observation> {
    var previous := PreviousOf(history, request, id);
    if previous.Some? then [previous.value] else []
  }

  /** Appends the assessed observation; a replay of a recorded one changes nothing. */
  function RecordObservation(history: seq<Observation>, request: Request, digest: LogicalKey -> int): seq<Observation> {
    var id := digest(KeyOf(request));
    var result := AssessPersistence(request, Prior(history, request, id), digest);
    if FindByLogicalId(history, id).Some? || result.NegativeDuration? then history
    else history + [Observation(request.scope, request.runId, request.timestamp, request.fingerprint,
                                request.observationId, id, result.assessment)]
  }

  lemma PreviousIsLatest(history: seq<Observation>, request: Request, id: int)
    ensures IsLatestBefore(PreviousOf(history, request, id), OfFinding(history, request.scope), request.timestamp, Some(id))
  {
    FoldIsLatest(OfFinding(history, request.scope), request.scope.tenant, request.timestamp, Some(id));
  }

  lemma SelectFromOne(p: Observation, before: int, exclude: Option<int>)
    requires Relevant(p, before, exclude)
    ensures SelectPrevious([p], before, exclude) == Some(p)
  {
    SelectIsLatest([p], before, exclude);
  }

  /** Assessing a new request against the one chosen row gives what assessing it against all rows of its
      finding would give, when no two of them tie. */
  lemma ChosenRowSuffices(history: seq<Observation>, request: Request, digest: LogicalKey -> int)
    requires !Stored(history, request, digest)
    requires UniqueGreatest(OfFinding(history, request.scope), request.timestamp, Some(digest(KeyOf(request))))
    ensures AssessPersistence(request, OfFinding(history, request.scope), digest) ==
            AssessPersistence(request, Prior(history, request, digest(KeyOf(request))), digest)
  {
    var id := digest(KeyOf(request));
    var rows := OfFinding(history, request.scope);
    UniqueGreatestAgrees(rows, request.scope.tenant, request.timestamp, Some(id));
    PreviousIsLatest(history, request, id);
    var previous := PreviousOf(history, request, id);
    assert FindByLogicalId(rows, id).None?;
    if previous.Some? {
      SelectFromOne(previous.value, request.timestamp, Some(id));
    } else {
      SelectIsLatest([], request.timestamp, Some(id));
    }
  }

  /** What an assessment says about the observation it was compared with. */
  ghost predicate Compared(o: Observation, previous: Option<Observation>) {
    match previous
    case None =>
      && o.assessment.state in {New, MissingPrevious}
      && o.assessment.persistenceHours == None && o.assessment.comparedTo == None
    case Some(p) =>
      && p.timestamp < o.timestamp
      && o.assessment.persistenceHours == Some(Hours(o.timestamp - p.timestamp))
      && o.assessment.comparedTo == Some(p.observationId)
      && o.assessment.state == (if p.fingerprint == o.fingerprint then Stable else Changed)
  }

  /** A request that is not stored adds one observation, compared with the latest earlier one of its finding. */
  lemma Appended(history: seq<Observation>, request: Request, digest: LogicalKey -> int) returns (o: Observation)
    requires !Stored(history, request, digest)
    ensures RecordObservation(history, request, digest) == history + [o]
    ensures o.scope == request.scope && o.runId == request.runId && o.timestamp == request.timestamp
    ensures o.fingerprint == request.fingerprint && o.logicalId == digest(KeyOf(request))
    ensures o.observationId == request.observationId
    ensures o.assessment.fingerprint == request.fingerprint && o.assessment.logicalId == digest(KeyOf(request))
    ensures PreviousOf(history, request, o.logicalId).None? ==>
              o.assessment.state == if request.expectedPriorHistory then MissingPrevious else New
    ensures Compared(o, PreviousOf(history, request, o.logicalId))
    ensures IsLatestBefore(PreviousOf(history, request, o.logicalId), OfFinding(history, o.scope), o.timestamp, Some(o.logicalId))
  {
    var id := digest(KeyOf(request));
    var prior := Prior(history, request, id);
    PreviousIsLatest(history, request, id);
    AssessmentNeverFails(request, prior, digest);
    o := Observation(request.scope, request.runId, request.timestamp, request.fingerprint, request.observationId,
                     id, AssessPersistence(request, prior, digest).assessment);
    hide OfFinding, FoldPrevious;
    var previous := PreviousOf(history, request, id);
    if previous.Some? {
      SelectFromOne(previous.value, request.timestamp, Some(id));
    } else {
      SelectIsLatest([], request.timestamp, Some(id));
    }
  }

  predicate Stored(history: seq<Observation>, request: Request, digest: LogicalKey -> int) {
    FindByLogicalId(history, digest(KeyOf(request))).Some?
  }

  function RecordAll(requests: seq<Request>, digest: LogicalKey -> int): seq<Observation> {
    if requests == [] then []
    else
      var n := |requests| - 1;
      RecordObservation(RecordAll(requests[..n], digest), requests[n], digest)
  }

  /** A request is later than all before it, or a replay of one of them. */
  predicate LaterOrReplay(earlier: seq<Request>, request: Request) {
    || (forall e :: e in earlier ==> e.timestamp < request.timestamp)
    || (exists e :: e in earlier && KeyOf(e) == KeyOf(request))
  }

  /** Requests for one finding in strictly increasing timestamp order, with any replays in between. */
  predicate InOrder(requests: seq<Request>, scope: Scope) {
    requests != [] ==>
      var n := |requests| - 1;
      InOrder(requests[..n], scope) && requests[n].scope == scope && LaterOrReplay(requests[..n], requests[n])
  }

  /** An observation and its immediate predecessor in the history. */
  ghost predicate Link(previous: Option<Observation>, o: Observation, scope: Scope, digest: LogicalKey -> int) {
    && o.scope == scope
    && o.logicalId == digest(LogicalKey(scope, o.runId, o.timestamp))
    && Compared(o, previous)
  }

  ghost predicate LinkAt(history: seq<Observation>, i: nat, scope: Scope, digest: LogicalKey -> int)
    requires i < |history|
  {
    Link(if i == 0 then None else Some(history[i - 1]), history[i], scope, digest)
  }

  /** What recording leaves behind: distinct ids, rising timestamps, and in each observation a
      comparison with its immediate predecessor. */
  ghost predicate Chained(history: seq<Observation>, scope: Scope, digest: LogicalKey -> int) {
    && (forall i :: 0 <= i < |history| ==> LinkAt(history, i, scope, digest))
    && Rising(history)
    && DistinctIds(history)
  }

  ghost predicate Rising(history: seq<Observation>) {
    forall i, j :: 0 <= i < j < |history| ==> history[i].timestamp < history[j].timestamp
  }

  /** In a history with rising timestamps the previous observation of a later one is the last. */
  lemma PreviousIsLast(chosen: Option<Observation>, history: seq<Observation>, before: int, id: int)
    requires history != [] && Rising(history)
    requires forall o :: o in history ==> o.timestamp < before && o.logicalId != id
    requires IsLatestBefore(chosen, history, before, Some(id))
    ensures chosen == Some(history[|history| - 1])
  {
    var last := history[|history| - 1];
    assert last in history && Relevant(last, before, Some(id));
    assert chosen.Some?;
    var k :| 0 <= k < |history| && history[k] == chosen.value;
  }

  /** What a newly recorded observation says about its predecessor. */
  lemma RecordedLast(front: seq<Observation>, request: Request, digest: LogicalKey -> int)
    requires Rising(front)
    requires forall o :: o in front ==> o.timestamp < request.timestamp && o.logicalId != digest(KeyOf(request))
    requires forall o :: o in front ==> o.scope == request.scope
    ensures var after := RecordObservation(front, request, digest);
            && |after| == |front| + 1 && after[..|front|] == front
            && after[|front|].timestamp == request.timestamp
            && after[|front|].logicalId == digest(KeyOf(request))
            && Link(if front == [] then None else Some(front[|front| - 1]), after[|front|], request.scope, digest)
  {
    var o := Appended(front, request, digest);
    FilterAll(front, (x: Observation) => x.scope == request.scope);
    hide RecordObservation, FoldPrevious, Rising, Compared;
    assert OfFinding(front, request.scope) == front;
    assert (front + [o])[..|front|] == front;
    if front != [] {
      PreviousIsLast(PreviousOf(front, request, o.logicalId), front, request.timestamp, o.logicalId);
    }
  }

  lemma OneScope(history: seq<Observation>, scope: Scope, digest: LogicalKey -> int, o: Observation)
    requires Chained(history, scope, digest) && o in history
    ensures o.scope == scope
  {
    var i :| 0 <= i < |history| && history[i] == o;
    assert LinkAt(history, i, scope, digest);
  }

  predicate Timed(o: Observation, requests: seq<Request>) {
    exists r :: r in requests && r.timestamp == o.timestamp
  }

  /** The id of every request is in the history, and every observation has the time of a request. */
  ghost predicate Covers(history: seq<Observation>, requests: seq<Request>, digest: LogicalKey -> int) {
    && (forall r :: r in requests ==> Stored(history, r, digest))
    && (forall o :: o in history ==> Timed(o, requests))
  }

  lemma NothingRecorded(scope: Scope, digest: LogicalKey -> int)
    ensures RecordAll([], digest) == [] && Chained([], scope, digest) && Covers([], [], digest)
  {
  }

  lemma LastRecorded(requests: seq<Request>, digest: LogicalKey -> int)
    requires requests != []
    ensures var n := |requests| - 1;
            RecordAll(requests, digest) == RecordObservation(RecordAll(requests[..n], digest), requests[n], digest)
  {
    hide RecordObservation;
  }

  /** Recording in order leaves a chained history. */
  lemma {:induction false} RecordedIsChained(requests: seq<Request>, scope: Scope, digest: LogicalKey -> int)
    requires InOrder(requests, scope)
    ensures Chained(RecordAll(requests, digest), scope, digest)
    ensures Covers(RecordAll(requests, digest), requests, digest)
    decreases |requests|
  {
    hide Chained, Covers, RecordObservation, RecordAll, LaterOrReplay;
    if requests == [] {
      NothingRecorded(scope, digest);
    } else {
      var n := |requests| - 1;
      RecordedIsChained(requests[..n], scope, digest);
      RecordKeepsChained(RecordAll(requests[..n], digest), requests[..n], requests[n], digest);
      LastRecorded(requests, digest);
      assert requests[..n] + [requests[n]] == requests;
    }
  }

  lemma RecordKeepsChained(front: seq<Observation>, earlier: seq<Request>, request: Request, digest: LogicalKey -> int)
    requires Chained(front, request.scope, digest) && Covers(front, earlier, digest) && LaterOrReplay(earlier, request)
    ensures var after := RecordObservation(front, request, digest);
            Chained(after, request.scope, digest) && Covers(after, earlier + [request], digest)
  {
    hide Chained, AssessPersistence, Link;
    var after := RecordObservation(front, request, digest);
    if Stored(front, request, digest) {
      CoversMore(front, earlier, request, digest);
    } else {
      NewRequestIsLater(front, earlier, request, digest);
      assert Rising(front) by { ChainRises(front, request.scope, digest); }
      forall o | o in front ensures o.scope == request.scope { OneScope(front, request.scope, digest, o); }
      RecordedLast(front, request, digest);
      assert after == front + [after[|front|]];
      ChainExtends(front, after[|front|], request.scope, digest);
      CoversExtends(front, after[|front|], earlier, request, digest);
    }
  }

  lemma ChainRises(history: seq<Observation>, scope: Scope, digest: LogicalKey -> int)
    requires Chained(history, scope, digest)
    ensures Rising(history)
  {
  }

  lemma NewRequestIsLater(front: seq<Observation>, earlier: seq<Request>, request: Request, digest: LogicalKey -> int)
    requires Covers(front, earlier, digest) && LaterOrReplay(earlier, request) && !Stored(front, request, digest)
    ensures forall o :: o in front ==> o.timestamp < request.timestamp && o.logicalId != digest(KeyOf(request))
  {
    forall e | e in earlier ensures KeyOf(e) != KeyOf(request) {
      assert Stored(front, e, digest);
    }
    forall o | o in front ensures o.timestamp < request.timestamp {
      assert Timed(o, earlier);
    }
  }

  lemma CoversMore(history: seq<Observation>, earlier: seq<Request>, request: Request, digest: LogicalKey -> int)
    requires Covers(history, earlier, digest) && Stored(history, request, digest)
    ensures Covers(history, earlier + [request], digest)
  {
    hide Stored;
    forall r | r in earlier + [request] ensures Stored(history, r, digest) {
      assert r in earlier || r == request;
    }
    forall o | o in history ensures Timed(o, earlier + [request]) {
      assert Timed(o, earlier);
      var r :| r in earlier && r.timestamp == o.timestamp;
      assert r in earlier + [request];
    }
  }

  lemma CoversExtends(front: seq<Observation>, last: Observation, earlier: seq<Request>, request: Request,
                      digest: LogicalKey -> int)
    requires Covers(front, earlier, digest)
    requires last.timestamp == request.timestamp && last.logicalId == digest(KeyOf(request))
    ensures Covers(front + [last], earlier + [request], digest)
  {
    var after := front + [last];
    forall r | r in earlier + [request] ensures Stored(after, r, digest) {
      if r in earlier {
        assert Stored(front, r, digest);
        StoredStays(front, last, r, digest);
      } else {
        assert last in after;
      }
    }
    forall o | o in after ensures Timed(o, earlier + [request]) {
      if o in front {
        assert Timed(o, earlier);
        var r :| r in earlier && r.timestamp == o.timestamp;
        assert r in earlier + [request];
      } else {
        assert request in earlier + [request];
      }
    }
  }

  lemma StoredStays(front: seq<Observation>, last: Observation, request: Request, digest: LogicalKey -> int)
    requires Stored(front, request, digest)
    ensures Stored(front + [last], request, digest)
  {
    var found := FindByLogicalId(front, digest(KeyOf(request))).value;
    assert found in front + [last];
  }

  lemma ChainExtends(front: seq<Observation>, last: Observation, scope: Scope, digest: LogicalKey -> int)
    requires Chained(front, scope, digest)
    requires Link(if front == [] then None else Some(front[|front| - 1]), last, scope, digest)
    requires forall o :: o in front ==> o.timestamp < last.timestamp && o.logicalId != last.logicalId
    ensures Chained(front + [last], scope, digest)
  {
    var history := front + [last];
    OrderExtends(front, last);
    forall i | 0 <= i < |history| ensures LinkAt(history, i, scope, digest) {
      if i < |front| { assert LinkAt(front, i, scope, digest); }
    }
  }

  lemma OrderExtends(front: seq<Observation>, last: Observation)
    requires Rising(front) && DistinctIds(front)
    requires forall o :: o in front ==> o.timestamp < last.timestamp && o.logicalId != last.logicalId
    ensures Rising(front + [last]) && DistinctIds(front + [last])
  {
    forall i, j | 0 <= i < j < |front| + 1
      ensures (front + [last])[i].timestamp < (front + [last])[j].timestamp
      ensures (front + [last])[i].logicalId != (front + [last])[j].logicalId
    {
      if j == |front| { assert front[i] in front; }
    }
  }

  lemma FindAt(history: seq<Observation>, k: nat)
    requires DistinctIds(history) && k < |history|
    ensures FindByLogicalId(history, history[k].logicalId) == Some(history[k])
  {
    var found := FindByLogicalId(history, history[k].logicalId);
    assert history[k] in history;
    var j :| 0 <= j < |history| && history[j] == found.value;
  }

  /** Recording never stores two rows with one id, in whatever order the requests come, so no recorded
      history has such a tie. */
  lemma {:induction false} RecordedIdsDistinct(requests: seq<Request>, digest: LogicalKey -> int)
    ensures DistinctIds(RecordAll(requests, digest))
    decreases |requests|
  {
    if requests != [] {
      var n := |requests| - 1;
      RecordedIdsDistinct(requests[..n], digest);
      var front := RecordAll(requests[..n], digest);
      LastRecorded(requests, digest);
      IdsStayDistinct(front, requests[n], digest);
    }
  }

  lemma IdsStayDistinct(front: seq<Observation>, request: Request, digest: LogicalKey -> int)
    requires DistinctIds(front)
    ensures DistinctIds(RecordObservation(front, request, digest))
  {
    hide AssessPersistence;
    var after := RecordObservation(front, request, digest);
    forall i, j | 0 <= i < j < |after| ensures after[i].logicalId != after[j].logicalId {
      assert front[i] in front;
    }
  }

  /** With a digest that keeps keys apart, a stored row is one of the request's own finding, run and time. */
  lemma {:induction false} FoundIsOwn(requests: seq<Request>, request: Request, digest: LogicalKey -> int)
    requires forall key, key' :: digest(key) == digest(key') ==> key == key'
    ensures var found := FindByLogicalId(RecordAll(requests, digest), digest(KeyOf(request)));
            found.Some? ==> LogicalKey(found.value.scope, found.value.runId, found.value.timestamp) == KeyOf(request)
  {
    RecordedKeys(requests, digest);
  }

  lemma {:induction false} RecordedKeys(requests: seq<Request>, digest: LogicalKey -> int)
    ensures forall o :: o in RecordAll(requests, digest) ==> o.logicalId == digest(LogicalKey(o.scope, o.runId, o.timestamp))
    decreases |requests|
  {
    if requests != [] {
      hide AssessPersistence, FindByLogicalId;
      RecordedKeys(requests[..|requests| - 1], digest);
      LastRecorded(requests, digest);
    }
  }

  lemma RecordedSelectionsAgree(requests: seq<Request>, digest: LogicalKey -> int, tenant: int, before: int, exclude: Option<int>)
    requires forall r :: r in requests ==> r.scope.tenant == tenant
    ensures var history := RecordAll(requests, digest);
            UniqueGreatest(history, before, exclude) && Agree(history, tenant, before, exclude)
  {
    var history := RecordAll(requests, digest);
    RecordedIdsDistinct(requests, digest);
    RecordedTenants(requests, digest, tenant);
    DistinctIdsNoTies(history);
    UniqueGreatestAgrees(history, tenant, before, exclude);
  }

  lemma {:induction false} RecordedTenants(requests: seq<Request>, digest: LogicalKey -> int, tenant: int)
    requires forall r :: r in requests ==> r.scope.tenant == tenant
    ensures forall o :: o in RecordAll(requests, digest) ==> o.scope.tenant == tenant
    decreases |requests|
  {
    if requests != [] {
      hide AssessPersistence, FindByLogicalId;
      RecordedTenants(requests[..|requests| - 1], digest, tenant);
      LastRecorded(requests, digest);
    }
  }

  /** Recording is idempotent, in whatever order the requests come: replaying any recorded observation,
      however late and whatever else was recorded since, finds that observation, returns its first
      assessment and leaves the history alone. */
  lemma ReplayIsIdempotent(requests: seq<Request>, digest: LogicalKey -> int, k: nat, replay: Request)
    requires k < |RecordAll(requests, digest)|
    requires var o := RecordAll(requests, digest)[k]; KeyOf(replay) == LogicalKey(o.scope, o.runId, o.timestamp)
    ensures var history := RecordAll(requests, digest);
            && FindByLogicalId(history, digest(KeyOf(replay))) == Some(history[k])
            && AssessPersistence(replay, history, digest) == Assessed(history[k].assessment)
            && RecordObservation(history, replay, digest) == history
  {
    RecordedKeys(requests, digest);
    RecordedIdsDistinct(requests, digest);
    FindAt(RecordAll(requests, digest), k);
  }
}
