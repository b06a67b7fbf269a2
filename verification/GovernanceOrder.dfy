/** The order of governance observations, the choice of the previous one, and the latest-observed
    checkpoint. */
module GovernanceOrder {
  import opened JobModels
  import opened Ordering

  /** Identifiers are numbers: they are only compared. Rows from before the field was recorded have no
      start of the analysis run. `content` stands for the rest of the record. */
  datatype Record = Record(timestamp: int, runStartedAt: Option<int>, logicalId: int, content: int)

  datatype OrderKey = OrderKey(timestamp: int, runStartedAt: int, logicalId: int)

  function KeyOf(r: Record): OrderKey {
    OrderKey(r.timestamp, if r.runStartedAt.Some? then r.runStartedAt.value else r.timestamp, r.logicalId)
  }

  /** Negative, zero or positive. */
  function Compare(left: OrderKey, right: OrderKey): int {
    if left.timestamp != right.timestamp then left.timestamp - right.timestamp
    else if left.runStartedAt != right.runStartedAt then left.runStartedAt - right.runStartedAt
    else left.logicalId - right.logicalId
  }

  lemma CompareIsStrictTotalOrder(a: OrderKey, b: OrderKey, c: OrderKey)
    ensures Compare(a, b) == 0 <==> a == b
    ensures Compare(a, b) < 0 <==> Compare(b, a) > 0
    ensures Compare(a, b) < 0 && Compare(b, c) < 0 ==> Compare(a, c) < 0
  {
  }

  /** The order is that of the fields: first the time of the observation, then the start of its run, then
      its id, each ascending. */
  lemma CompareByFields(a: OrderKey, b: OrderKey)
    ensures Compare(a, b) < 0 <==>
              || a.timestamp < b.timestamp
              || (a.timestamp == b.timestamp && a.runStartedAt < b.runStartedAt)
              || (a.timestamp == b.timestamp && a.runStartedAt == b.runStartedAt && a.logicalId < b.logicalId)
  {
  }

  predicate RecordLe(x: Record, y: Record) { Compare(KeyOf(x), KeyOf(y)) <= 0 }

  lemma RecordsComparable()
    ensures Preorder(RecordLe)
  {
  }

  /** Strictly before the current key, and not the excluded row. */
  predicate Eligible(r: Record, current: OrderKey, exclude: Option<int>) {
    exclude != Some(r.logicalId) && Compare(KeyOf(r), current) < 0
  }

  function SelectPrevious(records: seq<Record>, current: OrderKey, exclude: Option<int>): Option<Record> {
    var candidates := Filter(Sort(records, RecordLe), r => Eligible(r, current, exclude));
    if candidates == [] then None else Some(candidates[|candidates| - 1])
  }

  /** The selection returns an immediate predecessor of the current key: nothing eligible lies between. */
  lemma SelectsImmediatePredecessor(records: seq<Record>, current: OrderKey, exclude: Option<int>)
    ensures match SelectPrevious(records, current, exclude)
            case None => forall r :: r in records ==> !Eligible(r, current, exclude)
            case Some(p) =>
              && p in records && Eligible(p, current, exclude)
              && forall r :: r in records && Eligible(r, current, exclude) ==> RecordLe(r, p)
  {
    var keep := (r: Record) => Eligible(r, current, exclude);
    var sorted := Sort(records, RecordLe);
    RecordsComparable();
    hide Sort, Filter, Compare;
    SortSorted(records, RecordLe);
    SameMembers(sorted, records);
    FilterSorted(sorted, keep, RecordLe);
    var candidates := Filter(sorted, keep);
    forall r | r in records && Eligible(r, current, exclude) ensures r in candidates {
      assert r in sorted;
    }
    if candidates != [] {
      assert candidates[|candidates| - 1] in candidates;
    }
  }

  /** Row r is before the place in time given by the fields; a row without the start of its run has that of
      its observation. */
  predicate Before(r: Record, timestamp: int, runStartedAt: int, logicalId: int) {
    || r.timestamp < timestamp
    || (r.timestamp == timestamp && match r.runStartedAt
                                    case Some(start) => start < runStartedAt || (start == runStartedAt && r.logicalId < logicalId)
                                    case None => timestamp < runStartedAt || (timestamp == runStartedAt && r.logicalId < logicalId))
  }

  lemma BeforeIsCompare(r: Record, key: OrderKey)
    ensures Before(r, key.timestamp, key.runStartedAt, key.logicalId) <==> Compare(KeyOf(r), key) < 0
  {
  }

  /** In terms of the fields: the selected row is not the excluded one, is before the current place, and no
      other such row comes after it; none is selected only if no such row is stored. */
  lemma SelectsLatestBefore(records: seq<Record>, current: OrderKey, exclude: Option<int>)
    ensures match SelectPrevious(records, current, exclude)
            case None =>
              forall r :: r in records && Before(r, current.timestamp, current.runStartedAt, current.logicalId) ==>
                exclude == Some(r.logicalId)
            case Some(p) =>
              && p in records && exclude != Some(p.logicalId) && p.timestamp <= current.timestamp
              && Before(p, current.timestamp, current.runStartedAt, current.logicalId)
              && forall r :: r in records && exclude != Some(r.logicalId)
                             && Before(r, current.timestamp, current.runStartedAt, current.logicalId) ==>
                   !Before(p, r.timestamp, if r.runStartedAt.Some? then r.runStartedAt.value else r.timestamp, r.logicalId)
  {
    SelectsImmediatePredecessor(records, current, exclude);
    forall r ensures Before(r, current.timestamp, current.runStartedAt, current.logicalId) <==> Compare(KeyOf(r), current) < 0 {
      BeforeIsCompare(r, current);
    }
    var chosen := SelectPrevious(records, current, exclude);
    if chosen.Some? {
      forall r | r in records && exclude != Some(r.logicalId)
                 && Before(r, current.timestamp, current.runStartedAt, current.logicalId)
        ensures !Before(chosen.value, KeyOf(r).timestamp, KeyOf(r).runStartedAt, KeyOf(r).logicalId)
      {
        BeforeIsCompare(chosen.value, KeyOf(r));
        CompareIsStrictTotalOrder(KeyOf(r), KeyOf(chosen.value), KeyOf(r));
        assert RecordLe(r, chosen.value);
      }
    }
  }

  ghost predicate DistinctKeys(records: seq<Record>) {
    forall x, y :: x in records && y in records && KeyOf(x) == KeyOf(y) ==> x == y
  }

  /** With distinct keys it depends only on which rows are stored, not on their order or repetition. */
  lemma SelectionIsOrderFree(a: seq<Record>, b: seq<Record>, current: OrderKey, exclude: Option<int>)
    requires DistinctKeys(a) && forall r :: r in a <==> r in b
    ensures SelectPrevious(a, current, exclude) == SelectPrevious(b, current, exclude)
  {
    SelectsImmediatePredecessor(a, current, exclude);
    SelectsImmediatePredecessor(b, current, exclude);
    var p, q := SelectPrevious(a, current, exclude), SelectPrevious(b, current, exclude);
    if p.Some? && q.Some? {
      CompareIsStrictTotalOrder(KeyOf(p.value), KeyOf(q.value), KeyOf(p.value));
    }
  }

  // ----- the checkpoint

  datatype Checkpoint = Checkpoint(timestamp: int, logicalId: int, content: int)

  function CompareCheckpoints(left: Checkpoint, right: Checkpoint): int {
    if left.timestamp != right.timestamp then left.timestamp - right.timestamp else left.logicalId - right.logicalId
  }

  predicate ShouldAdvance(candidate: Checkpoint, existing: Checkpoint) { CompareCheckpoints(candidate, existing) > 0 }

  function Advance(existing: Option<Checkpoint>, candidate: Checkpoint): Option<Checkpoint> {
    if existing.None? || ShouldAdvance(candidate, existing.value) then Some(candidate) else existing
  }

  function AdvanceAll(existing: Option<Checkpoint>, candidates: seq<Checkpoint>): Option<Checkpoint>
    decreases |candidates|
  {
    if candidates == [] then existing else AdvanceAll(Advance(existing, candidates[0]), candidates[1..])
  }

  predicate IsLatest(c: Checkpoint, candidates: seq<Checkpoint>) {
    c in candidates && forall other :: other in candidates ==> CompareCheckpoints(other, c) <= 0
  }

  /** The checkpoint ends at a candidate, or the incumbent, that none sorts after. */
  lemma {:induction false} EndsAtLatest(existing: Checkpoint, candidates: seq<Checkpoint>)
    ensures var final := AdvanceAll(Some(existing), candidates);
            final.Some? && IsLatest(final.value, [existing] + candidates)
    decreases |candidates|
  {
    if candidates != [] {
      var next := Advance(Some(existing), candidates[0]).value;
      EndsAtLatest(next, candidates[1..]);
      var final := AdvanceAll(Some(next), candidates[1..]).value;
      forall other | other in [existing] + candidates ensures CompareCheckpoints(other, final) <= 0 {
        assert next in [next] + candidates[1..];
        assert other == existing || other == candidates[0] || other in [next] + candidates[1..];
      }
      assert final == next || final in candidates[1..];
    }
  }

  /** By the fields: the checkpoint ends at the greatest time, and there at the greatest id; it is a candidate
      or, if no candidate has a greater time and id, the incumbent itself. */
  lemma EndsAtGreatest(existing: Checkpoint, candidates: seq<Checkpoint>)
    ensures var final := AdvanceAll(Some(existing), candidates);
            && final.Some? && (final.value == existing || final.value in candidates)
            && (forall c :: c in [existing] + candidates ==>
                  c.timestamp < final.value.timestamp
                  || (c.timestamp == final.value.timestamp && c.logicalId <= final.value.logicalId))
            && (existing.timestamp == final.value.timestamp && existing.logicalId == final.value.logicalId ==>
                  final.value == existing)
    decreases |candidates|
  {
    EndsAtLatest(existing, candidates);
    KeepsIncumbent(existing, candidates);
    var final := AdvanceAll(Some(existing), candidates).value;
    forall c | c in [existing] + candidates
      ensures c.timestamp < final.timestamp || (c.timestamp == final.timestamp && c.logicalId <= final.logicalId)
    {
      assert CompareCheckpoints(c, final) <= 0;
    }
  }

  /** Only a strictly later candidate replaces the incumbent. */
  lemma {:induction false} KeepsIncumbent(existing: Checkpoint, candidates: seq<Checkpoint>)
    ensures var final := AdvanceAll(Some(existing), candidates);
            final.Some? && (final.value == existing || CompareCheckpoints(final.value, existing) > 0)
    decreases |candidates|
  {
    if candidates != [] { KeepsIncumbent(Advance(Some(existing), candidates[0]).value, candidates[1..]); }
  }

  lemma FromNothing(candidates: seq<Checkpoint>)
    requires candidates != []
    ensures var final := AdvanceAll(None, candidates);
            final.Some? && IsLatest(final.value, candidates)
  {
    EndsAtLatest(candidates[0], candidates[1..]);
    assert [candidates[0]] + candidates[1..] == candidates;
  }

  ghost predicate SameCandidates(a: seq<Checkpoint>, b: seq<Checkpoint>) { forall c :: c in a <==> c in b }

  ghost predicate UniqueLatest(candidates: seq<Checkpoint>) {
    forall x, y :: IsLatest(x, candidates) && IsLatest(y, candidates) ==> x == y
  }

  /** A candidate that none sorts after stays once it is in. */
  lemma {:induction false} LatestStays(c: Checkpoint, candidates: seq<Checkpoint>)
    requires forall other :: other in candidates ==> CompareCheckpoints(other, c) <= 0
    ensures AdvanceAll(Some(c), candidates) == Some(c)
    decreases |candidates|
  {
    if candidates != [] { LatestStays(c, candidates[1..]); }
  }

  lemma LatestFirst(c: Checkpoint, candidates: seq<Checkpoint>)
    requires IsLatest(c, candidates)
    ensures AdvanceAll(None, [c] + candidates) == Some(c)
    ensures SameCandidates([c] + candidates, candidates)
  {
    LatestStays(c, candidates);
    assert ([c] + candidates)[1..] == candidates;
  }

  /** The checkpoint is confluent exactly when one candidate is latest: then every order of the same
      candidates, with any repetitions, ends at it; otherwise two orders end apart. */
  lemma ConfluentIffUniqueLatest(candidates: seq<Checkpoint>)
    requires candidates != []
    ensures (forall other :: SameCandidates(other, candidates) ==> AdvanceAll(None, other) == AdvanceAll(None, candidates))
            <==> UniqueLatest(candidates)
  {
    FromNothing(candidates);
    if UniqueLatest(candidates) {
      forall other | SameCandidates(other, candidates) ensures AdvanceAll(None, other) == AdvanceAll(None, candidates) {
        assert candidates[0] in other;
        FromNothing(other);
        assert IsLatest(AdvanceAll(None, other).value, candidates);
      }
    } else {
      var x, y :| IsLatest(x, candidates) && IsLatest(y, candidates) && x != y;
      LatestFirst(x, candidates);
      LatestFirst(y, candidates);
    }
  }

  /** Distinct keys are enough. */
  lemma DistinctKeysConverge(candidates: seq<Checkpoint>, other: seq<Checkpoint>)
    requires candidates != [] && SameCandidates(other, candidates)
    requires forall x, y :: x in candidates && y in candidates && CompareCheckpoints(x, y) == 0 ==> x == y
    ensures AdvanceAll(None, other) == AdvanceAll(None, candidates)
  {
    ConfluentIffUniqueLatest(candidates);
    assert UniqueLatest(candidates) by {
      forall x, y | IsLatest(x, candidates) && IsLatest(y, candidates) ensures x == y {
        assert CompareCheckpoints(x, y) <= 0 && CompareCheckpoints(y, x) <= 0;
      }
    }
  }
}
