/** The migration of exported records into tables: insert-only or upsert writes, the counts it keeps,
    and the verification at its end. */
module Migration {
  import opened JobModels
  import opened Ordering
  import opened JsonText
  import opened JsonPrinter

  datatype Section = Workflows | Ownership | Reports | Learning | Verifications

  const SECTIONS: seq<Section> := [Workflows, Ownership, Reports, Learning, Verifications]

  datatype Mode = InsertOnly | Upsert

  /** `tables` names the configured table of a section; `confirmed` is the verdict of the account, target
      and checksum confirmations. */
  datatype Config = Config(
    mode: Mode,
    failOnConflict: bool,
    dryRun: bool,
    production: bool,
    allowUpsert: bool,
    confirmed: bool,
    tables: Section -> Option<int>)

  datatype Key = Key(table: int, pk: Text, sk: Text)

  type Items = map<Key, Json>

  datatype Write = Write(key: Key, item: Json)

  datatype Outcome = Inserted | SkippedIdentical | Conflicted | WriteFailed

  datatype Counts = Counts(inserted: nat, skippedIdentical: nat, conflicted: nat, failed: nat) {
    function Total(): nat { inserted + skippedIdentical + conflicted + failed }

    function Add(delta: Counts): Counts {
      Counts(inserted + delta.inserted, skippedIdentical + delta.skippedIdentical,
             conflicted + delta.conflicted, failed + delta.failed)
    }
  }

  const NO_COUNTS: Counts := Counts(0, 0, 0, 0)

  // ----- the surroundings of a write

  /** A read sees the table, misses an item that is there, or fails. */
  datatype Read = Sees | Misses | Breaks

  /** A put is applied and reported, lost and reported as an error, or applied and reported as an error. */
  datatype Put = Applied | Lost | Unreported

  /** What happens around one write: its two reads, its put, and another writer between them. */
  datatype Weather = Weather(first: Read, racer: Option<Json>, put: Put, second: Read)

  const CLEAR: Weather := Weather(Sees, None, Applied, Sees)

  function Look(items: Items, key: Key, read: Read): Option<Json> {
    if read == Sees && key in items then Some(items[key]) else None
  }

  function Raced(items: Items, key: Key, racer: Option<Json>): Items {
    if racer.Some? && key !in items then items[key := racer.value] else items
  }

  function Compare(existing: Json, item: Json): Outcome {
    if ItemsDeepEqual(existing, item) then SkippedIdentical else Conflicted
  }

  function InsertOnce(items: Items, write: Write, w: Weather): (Items, Outcome) {
    if w.first == Breaks then (items, WriteFailed)
    else
      var existing := Look(items, write.key, w.first);
      if existing.Some? then (items, Compare(existing.value, write.item))
      else
        var raced := Raced(items, write.key, w.racer);
        if w.put == Lost then (raced, WriteFailed)
        else if write.key in raced then
          var again := Look(raced, write.key, w.second);
          (raced, if w.second == Breaks then WriteFailed
                  else if again.Some? then Compare(again.value, write.item) else Conflicted)
        else (raced[write.key := write.item], if w.put == Applied then Inserted else WriteFailed)
  }

  function UpsertOnce(items: Items, write: Write, w: Weather): (Items, Outcome) {
    (if w.put == Lost then items else items[write.key := write.item],
     if w.put == Applied then Inserted else WriteFailed)
  }

  function Once(mode: Mode, items: Items, write: Write, w: Weather): (Items, Outcome) {
    if mode == InsertOnly then InsertOnce(items, write, w) else UpsertOnce(items, write, w)
  }

  /** All the writes in turn. */
  function Run(mode: Mode, items: Items, writes: seq<Write>, weather: nat -> Weather, n: nat): (r: (Items, seq<Outcome>))
    ensures |r.1| == |writes|
  {
    if writes == [] then (items, [])
    else
      var k := |writes| - 1;
      var before := Run(mode, items, writes[..k], weather, n);
      var last := Once(mode, before.0, writes[k], weather(n + k));
      (last.0, before.1 + [last.1])
  }

  function Count(outcomes: seq<Outcome>, o: Outcome): nat {
    if outcomes == [] then 0
    else Count(outcomes[..|outcomes| - 1], o) + if outcomes[|outcomes| - 1] == o then 1 else 0
  }

  function CountsOf(outcomes: seq<Outcome>): Counts {
    Counts(Count(outcomes, Inserted), Count(outcomes, SkippedIdentical), Count(outcomes, Conflicted), Count(outcomes, WriteFailed))
  }

  predicate Reported(o: Outcome) { o == Inserted || o == SkippedIdentical }

  /** The keys to verify: those written or found identical. */
  function Tracked(writes: seq<Write>, outcomes: seq<Outcome>): seq<Key>
    requires |writes| == |outcomes|
  {
    if writes == [] then []
    else
      var k := |writes| - 1;
      Tracked(writes[..k], outcomes[..k]) + if Reported(outcomes[k]) then [writes[k].key] else []
  }

  // ----- the migration

  const PK: Text := [112, 107]

  const SK: Text := [115, 107]

  function TextField(item: Json, name: Text): Text {
    if item.Obj? && name in Keys(item.fields) && Entry(item.fields, name).value.Str? then Entry(item.fields, name).value.s
    else []
  }

  function WritesOf(table: int, items: seq<Json>): (r: seq<Write>)
    ensures |r| == |items|
  {
    seq(|items|, i requires 0 <= i < |items| =>
      Write(Key(table, TextField(items[i], PK), TextField(items[i], SK)), items[i]))
  }

  function TableOf(config: Config, section: Section): int {
    if config.tables(section).Some? then config.tables(section).value else 0
  }

  /** The writes of the first sections, in order. */
  function SectionWrites(config: Config, exports: Section -> seq<Json>, sections: seq<Section>): seq<Write> {
    if sections == [] then []
    else
      var k := |sections| - 1;
      SectionWrites(config, exports, sections[..k]) + WritesOf(TableOf(config, sections[k]), exports(sections[k]))
  }

  function Present(exports: Section -> seq<Json>): seq<Section> {
    Filter(SECTIONS, section => exports(section) != [])
  }

  function AllWrites(config: Config, exports: Section -> seq<Json>): seq<Write> {
    SectionWrites(config, exports, Present(exports))
  }

  /** An item is an object with texts that are not empty under `pk` and `sk`. */
  predicate Addressed(item: Json) { item.Obj? && TextField(item, PK) != [] && TextField(item, SK) != [] }

  /** The checks that come before any write. */
  predicate Accepted(config: Config, exports: Section -> seq<Json>) {
    && (forall section :: section in SECTIONS ==> forall i :: 0 <= i < |exports(section)| ==> Addressed(exports(section)[i]))
    && Present(exports) != []
    && (forall section :: section in Present(exports) ==> config.tables(section).Some?)
    && (config.mode == Upsert && config.production ==> config.allowUpsert)
    && (config.dryRun || config.confirmed)
  }

  /** The run met a conflict at its last write, and conflicts are fatal. */
  predicate Halted(config: Config, outcomes: seq<Outcome>) {
    && config.failOnConflict && outcomes != [] && outcomes[|outcomes| - 1] == Conflicted
    && Conflicted !in outcomes[..|outcomes| - 1]
  }

  predicate NotHalted(config: Config, outcomes: seq<Outcome>) {
    config.failOnConflict ==> Conflicted !in outcomes
  }

  // ----- what is written where

  /** The first entry of the object under the name is the text. */
  predicate FieldIs(item: Json, name: Text, text: Text) {
    item.Obj? && exists j :: 0 <= j < |item.fields| && item.fields[j] == Field(name, Str(text))
                             && forall i :: 0 <= i < j ==> item.fields[i].key != name
  }

  lemma FieldIsText(item: Json, name: Text, text: Text)
    requires text != []
    ensures FieldIs(item, name, text) <==> TextField(item, name) == text
  {
    if item.Obj? && name in Keys(item.fields) {
      FirstEntry(item.fields, name);
    } else if item.Obj? {
      assert forall j :: 0 <= j < |item.fields| ==> Keys(item.fields)[j] == item.fields[j].key;
    }
  }

  lemma FirstEntry(fields: seq<Field>, name: Text)
    requires name in Keys(fields)
    ensures exists j :: 0 <= j < |fields| && fields[j] == Entry(fields, name) && fields[j].key == name
                        && forall i :: 0 <= i < j ==> fields[i].key != name
  {
    var j := IndexOf(fields, name);
    assert fields[j] == Entry(fields, name);
  }

  /** The item has a text that is not empty under `pk` and one under `sk`. */
  ghost predicate HasKey(item: Json) {
    item.Obj? && (exists pk: Text :: pk != [] && FieldIs(item, [112, 107], pk)) && exists sk: Text :: sk != [] && FieldIs(item, [115, 107], sk)
  }

  lemma AddressedHasKey(item: Json)
    ensures HasKey(item) <==> Addressed(item)
  {
    hide FieldIs, TextField;
    var pk, sk := TextField(item, PK), TextField(item, SK);
    if Addressed(item) {
      FieldIsText(item, PK, pk);
      FieldIsText(item, SK, sk);
    }
    if HasKey(item) {
      var pk' :| pk' != [] && FieldIs(item, [112, 107], pk');
      var sk' :| sk' != [] && FieldIs(item, [115, 107], sk');
      FieldIsText(item, PK, pk');
      FieldIsText(item, SK, sk');
    }
  }

  /** Item i of the section belongs under the key: in the table of the section, by its own `pk` and `sk`. */
  predicate Names(config: Config, exports: Section -> seq<Json>, section: Section, i: nat, key: Key) {
    && i < |exports(section)|
    && config.tables(section) == Some(key.table)
    && FieldIs(exports(section)[i], [112, 107], key.pk)
    && FieldIs(exports(section)[i], [115, 107], key.sk)
  }

  /** Where the items of a section begin in the whole export. */
  function Offset(exports: Section -> seq<Json>, section: Section): nat {
    match section
    case Workflows => 0
    case Ownership => |exports(Workflows)|
    case Reports => |exports(Workflows)| + |exports(Ownership)|
    case Learning => |exports(Workflows)| + |exports(Ownership)| + |exports(Reports)|
    case Verifications => |exports(Workflows)| + |exports(Ownership)| + |exports(Reports)| + |exports(Learning)|
  }

  lemma {:induction false} AbsentSections(config: Config, exports: Section -> seq<Json>, sections: seq<Section>)
    ensures SectionWrites(config, exports, Filter(sections, section => exports(section) != [])) ==
            SectionWrites(config, exports, sections)
    decreases |sections|
  {
    var keep := (section: Section) => exports(section) != [];
    if sections != [] {
      var k := |sections| - 1;
      var front, last := sections[..k], sections[k];
      AbsentSections(config, exports, front);
      assert sections == front + [last];
      FilterJoin(front, [last], keep);
      var kept := Filter(front, keep);
      assert Filter([last], keep) == if keep(last) then [last] else [] by { assert [last][1..] == []; }
      if keep(last) {
        assert (kept + [last])[..|kept|] == kept;
      } else {
        assert kept + [] == kept;
        assert WritesOf(TableOf(config, last), exports(last)) == [];
      }
    }
  }

  /** The writes of the export are those of its five sections, in this order. */
  lemma AllWritesAre(config: Config, exports: Section -> seq<Json>)
    ensures AllWrites(config, exports) ==
            WritesOf(TableOf(config, Workflows), exports(Workflows)) + WritesOf(TableOf(config, Ownership), exports(Ownership))
              + WritesOf(TableOf(config, Reports), exports(Reports)) + WritesOf(TableOf(config, Learning), exports(Learning))
              + WritesOf(TableOf(config, Verifications), exports(Verifications))
  {
    AbsentSections(config, exports, SECTIONS);
    hide WritesOf, SectionWrites, Filter, TableOf;
    assert [] + [Workflows] == [Workflows] && [Workflows] + [Ownership] == [Workflows, Ownership];
    assert [Workflows, Ownership] + [Reports] == [Workflows, Ownership, Reports];
    assert [Workflows, Ownership, Reports] + [Learning] == [Workflows, Ownership, Reports, Learning];
    assert [Workflows, Ownership, Reports, Learning] + [Verifications] == SECTIONS;
    OneMoreSection(config, exports, [], Workflows);
    OneMoreSection(config, exports, [Workflows], Ownership);
    OneMoreSection(config, exports, [Workflows, Ownership], Reports);
    OneMoreSection(config, exports, [Workflows, Ownership, Reports], Learning);
    OneMoreSection(config, exports, [Workflows, Ownership, Reports, Learning], Verifications);
  }

  lemma OneMoreSection(config: Config, exports: Section -> seq<Json>, front: seq<Section>, last: Section)
    ensures SectionWrites(config, exports, front + [last]) ==
            SectionWrites(config, exports, front) + WritesOf(TableOf(config, last), exports(last))
    ensures SectionWrites(config, exports, []) == []
  {
    assert (front + [last])[..|front|] == front;
  }

  /** Every exported item has its place among the writes, under its own key. */
  lemma WriteAt(config: Config, exports: Section -> seq<Json>, section: Section, i: nat)
    requires i < |exports(section)|
    ensures var writes := AllWrites(config, exports);
            var item := exports(section)[i];
            && Offset(exports, section) + i < |writes|
            && writes[Offset(exports, section) + i] ==
               Write(Key(TableOf(config, section), TextField(item, PK), TextField(item, SK)), item)
  {
    AllWritesAre(config, exports);
    hide AllWrites, TextField, TableOf;
  }

  /** And every write is that of an exported item. */
  lemma ItemOf(config: Config, exports: Section -> seq<Json>, n: nat) returns (section: Section, i: nat)
    requires n < |AllWrites(config, exports)|
    ensures i < |exports(section)| && n == Offset(exports, section) + i
  {
    AllWritesAre(config, exports);
    hide AllWrites, TextField, TableOf;
    section :=
      if n < |exports(Workflows)| then Workflows
      else if n < Offset(exports, Reports) then Ownership
      else if n < Offset(exports, Learning) then Reports
      else if n < Offset(exports, Verifications) then Learning
      else Verifications;
    i := n - Offset(exports, section);
  }

  /** What the checks before a run leave to be migrated. */
  predicate Checked(config: Config, exports: Section -> seq<Json>) {
    forall section, i :: 0 <= i < |exports(section)| ==> config.tables(section).Some? && Addressed(exports(section)[i])
  }

  lemma KeyAt(config: Config, exports: Section -> seq<Json>, section: Section, i: nat, key: Key)
    requires Checked(config, exports) && i < |exports(section)|
    ensures var n := Offset(exports, section) + i;
            n < |AllWrites(config, exports)|
            && (AllWrites(config, exports)[n].key == key <==> Names(config, exports, section, i, key))
  {
    hide AllWrites, TextField;
    WriteAt(config, exports, section, i);
    var item := exports(section)[i];
    assert Addressed(item) && config.tables(section).Some?;
    var own := Key(TableOf(config, section), TextField(item, PK), TextField(item, SK));
    hide FieldIs;
    FieldIsText(item, PK, own.pk);
    FieldIsText(item, SK, own.sk);
    FieldIsUnique(item, PK, own.pk, key.pk);
    FieldIsUnique(item, SK, own.sk, key.sk);
  }

  lemma FieldIsUnique(item: Json, name: Text, text: Text, text': Text)
    requires FieldIs(item, name, text)
    ensures FieldIs(item, name, text') <==> text == text'
  {
  }

  /** What an insert-only run without faults leaves: the items that were there, and each exported item under
      its table, `pk` and `sk`, the earliest one where several have them. */
  ghost predicate Migrated(config: Config, exports: Section -> seq<Json>, before: Items, after: Items) {
    && (forall key :: key in after <==> key in before || exists section, i: nat :: Names(config, exports, section, i, key))
    && (forall key :: key in before ==> key in after && after[key] == before[key])
    && (forall section, i: nat, key :: Names(config, exports, section, i, key) && key !in before
                                       && NoneEarlier(config, exports, section, i, key) ==>
          key in after && after[key] == exports(section)[i])
  }

  /** No item that comes before has the key. */
  ghost predicate NoneEarlier(config: Config, exports: Section -> seq<Json>, section: Section, i: nat, key: Key) {
    forall other, j: nat :: Names(config, exports, other, j, key) ==>
      Offset(exports, section) + i <= Offset(exports, other) + j
  }

  lemma NamedIsMentioned(config: Config, exports: Section -> seq<Json>, key: Key)
    requires Checked(config, exports)
    ensures Mentions(AllWrites(config, exports), key) <==> exists section, i: nat :: Names(config, exports, section, i, key)
  {
    hide AllWrites, Names, Checked;
    var writes := AllWrites(config, exports);
    if Mentions(writes, key) {
      var n :| 0 <= n < |writes| && writes[n].key == key;
      var section, i := ItemOf(config, exports, n);
      KeyAt(config, exports, section, i, key);
    }
    if section, i: nat :| Names(config, exports, section, i, key) {
      NamesInRange(config, exports, section, i, key);
      WriteAt(config, exports, section, i);
      KeyAt(config, exports, section, i, key);
    }
  }

  lemma NamesInRange(config: Config, exports: Section -> seq<Json>, section: Section, i: nat, key: Key)
    requires Names(config, exports, section, i, key)
    ensures i < |exports(section)|
  {
  }

  lemma EarliestIsFirst(config: Config, exports: Section -> seq<Json>, section: Section, i: nat, key: Key)
    requires Checked(config, exports) && Names(config, exports, section, i, key) && NoneEarlier(config, exports, section, i, key)
    ensures var n := Offset(exports, section) + i;
            && n < |AllWrites(config, exports)| && AllWrites(config, exports)[n] == Write(key, exports(section)[i])
            && !Mentions(AllWrites(config, exports)[..n], key)
  {
    hide AllWrites, Names, Checked, TextField, Offset;
    NamesInRange(config, exports, section, i, key);
    WriteAt(config, exports, section, i);
    KeyAt(config, exports, section, i, key);
    var writes, n := AllWrites(config, exports), Offset(exports, section) + i;
    forall m | 0 <= m < n ensures writes[m].key != key {
      var other, j := ItemOf(config, exports, m);
      KeyAt(config, exports, other, j, key);
    }
    NotMentioned(writes, n, key);
  }

  lemma NotMentioned(writes: seq<Write>, n: nat, key: Key)
    requires n <= |writes| && forall m :: 0 <= m < n ==> writes[m].key != key
    ensures !Mentions(writes[..n], key)
  {
  }

  lemma RunIsMigrated(config: Config, exports: Section -> seq<Json>, items: Items)
    requires Checked(config, exports)
    ensures Migrated(config, exports, items, Run(InsertOnly, items, AllWrites(config, exports), Clear(), 0).0)
  {
    hide AllWrites, Names, Checked, Run, NoneEarlier;
    var writes := AllWrites(config, exports);
    var after := Run(InsertOnly, items, writes, Clear(), 0).0;
    RunKeepsExisting(items, writes, Clear(), 0);
    forall key ensures key in after <==> key in items || exists section, i: nat :: Names(config, exports, section, i, key) {
      KeysAfter(items, writes, 0, key);
      NamedIsMentioned(config, exports, key);
    }
    forall section, i: nat, key | Names(config, exports, section, i, key) && key !in items
                                  && NoneEarlier(config, exports, section, i, key)
      ensures i < |exports(section)| && key in after && after[key] == exports(section)[i]
    {
      NamesInRange(config, exports, section, i, key);
      EarliestIsFirst(config, exports, section, i, key);
      FirstItemWins(items, writes, 0, Offset(exports, section) + i);
    }
  }

  /** A conflict means that the key of an exported item was taken, or that an earlier exported item has the same
      table, `pk` and `sk`; and in either case that the item there is another one. */
  lemma ConflictMeansTaken(config: Config, exports: Section -> seq<Json>, items: Items, section: Section, i: nat, key: Key)
    requires Checked(config, exports) && Names(config, exports, section, i, key)
    ensures var run := Run(InsertOnly, items, AllWrites(config, exports), Clear(), 0);
            && Offset(exports, section) + i < |run.1|
            && (run.1[Offset(exports, section) + i] == Conflicted <==>
                  key in run.0 && !ItemsDeepEqual(run.0[key], exports(section)[i]))
            && (run.1[Offset(exports, section) + i] == Conflicted ==>
                  key in items || !NoneEarlier(config, exports, section, i, key))
  {
    NamesInRange(config, exports, section, i, key);
    WriteAt(config, exports, section, i);
    KeyAt(config, exports, section, i, key);
    hide AllWrites, Names, Checked, Run, TextField, NoneEarlier, ItemsDeepEqual;
    var writes, n := AllWrites(config, exports), Offset(exports, section) + i;
    AllSettled(items, writes, 0);
    assert Settled(Run(InsertOnly, items, writes, Clear(), 0).0, writes[n], Run(InsertOnly, items, writes, Clear(), 0).1[n]);
    if key !in items && NoneEarlier(config, exports, section, i, key) {
      EarliestIsFirst(config, exports, section, i, key);
      FirstItemWins(items, writes, 0, n);
    }
  }

  datatype Ending = Rejected | Aborted | Finished(counts: map<Section, Counts>, total: Counts, verificationFailed: bool)

  // ----- laws of one write

  /** An insert-only write changes no item that is there, whatever happens around it, and adds none but
      at its own key: its item or that of the other writer. */
  lemma InsertKeeps(items: Items, write: Write, w: Weather)
    ensures var after := InsertOnce(items, write, w).0;
            && (forall k :: k in items ==> k in after && after[k] == items[k])
            && (forall k :: k in after && k !in items ==>
                  k == write.key && (after[k] == write.item || Some(after[k]) == w.racer))
  {
  }

  /** What an insert-only write reports, by what happened around it: an insert exactly if it stored its item and
      was told so; an identical item exactly if one of its reads saw an equal one; a failure exactly if a read or
      the put failed; and a conflict otherwise. `there` is what the put finds under the key. */
  lemma OutcomeTells(items: Items, write: Write, w: Weather)
    ensures var outcome := InsertOnce(items, write, w).1;
            var seen := w.first == Sees && write.key in items;
            var there := if write.key in items then Some(items[write.key]) else w.racer;
            && (outcome == Inserted <==> w.first != Breaks && !seen && there.None? && w.put == Applied)
            && (outcome == SkippedIdentical <==>
                  || (seen && ItemsDeepEqual(items[write.key], write.item))
                  || (w.first != Breaks && !seen && w.put != Lost && w.second == Sees
                      && there.Some? && ItemsDeepEqual(there.value, write.item)))
            && (outcome == WriteFailed <==>
                  || w.first == Breaks
                  || (!seen && (|| w.put == Lost
                                || (there.Some? && w.second == Breaks)
                                || (there.None? && w.put == Unreported))))
  {
  }

  /** A write that reports an insert or an identical item has its key in the table. */
  lemma ReportedIsThere(mode: Mode, items: Items, write: Write, w: Weather)
    requires Reported(Once(mode, items, write, w).1)
    ensures var after := Once(mode, items, write, w).0;
            write.key in after && ItemsDeepEqual(after[write.key], write.item)
  {
  }

  // ----- laws of a run

  lemma {:induction false} RunJoin(mode: Mode, items: Items, a: seq<Write>, b: seq<Write>, weather: nat -> Weather, n: nat)
    ensures var first := Run(mode, items, a, weather, n);
            var second := Run(mode, first.0, b, weather, n + |a|);
            Run(mode, items, a + b, weather, n) == (second.0, first.1 + second.1)
    decreases |b|
  {
    var first := Run(mode, items, a, weather, n);
    if b == [] {
      assert a + b == a && first.1 + [] == first.1;
    } else {
      var k := |b| - 1;
      assert (a + b)[..|a + b| - 1] == a + b[..k] && (a + b)[|a| + k] == b[k];
      RunJoin(mode, items, a, b[..k], weather, n);
      var before := Run(mode, first.0, b[..k], weather, n + |a|);
      var last := Once(mode, before.0, b[k], weather(n + |a| + k));
      assert first.1 + (before.1 + [last.1]) == (first.1 + before.1) + [last.1];
    }
  }

  /** Insert-only never changes an item that was there before the run, under any interference. */
  lemma {:induction false} RunKeepsExisting(items: Items, writes: seq<Write>, weather: nat -> Weather, n: nat)
    ensures var after := Run(InsertOnly, items, writes, weather, n).0;
            forall k :: k in items ==> k in after && after[k] == items[k]
    decreases |writes|
  {
    if writes != [] {
      var k := |writes| - 1;
      RunKeepsExisting(items, writes[..k], weather, n);
      InsertKeeps(Run(InsertOnly, items, writes[..k], weather, n).0, writes[k], weather(n + k));
    }
  }

  /** Every attempted item is counted once. */
  lemma {:induction false} CountsAddUp(outcomes: seq<Outcome>)
    ensures CountsOf(outcomes).Total() == |outcomes|
  {
    if outcomes != [] { CountsAddUp(outcomes[..|outcomes| - 1]); }
  }

  lemma {:induction false} CountJoin(a: seq<Outcome>, b: seq<Outcome>, o: Outcome)
    ensures Count(a + b, o) == Count(a, o) + Count(b, o)
    decreases |b|
  {
    if b == [] {
      assert a + b == a;
    } else {
      assert (a + b)[..|a + b| - 1] == a + b[..|b| - 1];
      CountJoin(a, b[..|b| - 1], o);
    }
  }

  /** The counts of a run are the counts of its parts. */
  lemma CountsJoin(a: seq<Outcome>, b: seq<Outcome>)
    ensures CountsOf(a + b) == CountsOf(a).Add(CountsOf(b))
  {
    hide Count;
    CountJoin(a, b, Inserted);
    CountJoin(a, b, SkippedIdentical);
    CountJoin(a, b, Conflicted);
    CountJoin(a, b, WriteFailed);
  }

  /** As many keys are tracked as were inserted or skipped, so the count comparison never fails. */
  lemma {:induction false} TrackedCount(writes: seq<Write>, outcomes: seq<Outcome>)
    requires |writes| == |outcomes|
    ensures |Tracked(writes, outcomes)| == Count(outcomes, Inserted) + Count(outcomes, SkippedIdentical)
    decreases |writes|
  {
    if writes != [] {
      var k := |writes| - 1;
      TrackedCount(writes[..k], outcomes[..k]);
    }
  }

  lemma {:induction false} TrackedJoin(a: seq<Write>, b: seq<Write>, oa: seq<Outcome>, ob: seq<Outcome>)
    requires |a| == |oa| && |b| == |ob|
    ensures Tracked(a + b, oa + ob) == Tracked(a, oa) + Tracked(b, ob)
    decreases |b|
  {
    if b == [] {
      assert a + b == a && oa + ob == oa;
    } else {
      var k := |b| - 1;
      assert (a + b)[..|a + b| - 1] == a + b[..k] && (oa + ob)[..|a + b| - 1] == oa + ob[..k];
      TrackedJoin(a, b[..k], oa, ob[..k]);
    }
  }

  /** An upsert run reports inserts and failures only. */
  lemma {:induction false} UpsertOutcomes(items: Items, writes: seq<Write>, weather: nat -> Weather, n: nat)
    ensures var outcomes := Run(Upsert, items, writes, weather, n).1;
            && (forall i :: 0 <= i < |outcomes| ==> outcomes[i] in {Inserted, WriteFailed})
            && Count(outcomes, SkippedIdentical) == 0
    decreases |writes|
  {
    if writes != [] { UpsertOutcomes(items, writes[..|writes| - 1], weather, n); }
  }

  /** Nothing is ever deleted, so a tracked key is in the table at the end. */
  lemma {:induction false} TrackedIsThere(mode: Mode, items: Items, writes: seq<Write>, weather: nat -> Weather, n: nat, key: Key)
    requires key in Tracked(writes, Run(mode, items, writes, weather, n).1)
    ensures key in Run(mode, items, writes, weather, n).0
    decreases |writes|
  {
    var k := |writes| - 1;
    var before, run := Run(mode, items, writes[..k], weather, n), Run(mode, items, writes, weather, n);
    assert run.1[..k] == before.1;
    OnceKeepsKeys(mode, before.0, writes[k], weather(n + k));
    if key in Tracked(writes[..k], before.1) {
      TrackedIsThere(mode, items, writes[..k], weather, n, key);
    } else {
      ReportedIsThere(mode, before.0, writes[k], weather(n + k));
    }
  }

  lemma OnceKeepsKeys(mode: Mode, items: Items, write: Write, w: Weather)
    ensures items.Keys <= Once(mode, items, write, w).0.Keys
  {
  }

  // ----- a run without faults and without another writer

  function Clear(): nat -> Weather { _ => CLEAR }

  /** What the table says about a write after its outcome. */
  predicate Settled(items: Items, write: Write, o: Outcome) {
    && o != WriteFailed
    && write.key in items
    && (ItemsDeepEqual(items[write.key], write.item) <==> o != Conflicted)
  }

  lemma {:induction false} AllSettled(items: Items, writes: seq<Write>, n: nat)
    ensures var run := Run(InsertOnly, items, writes, Clear(), n);
            forall i :: 0 <= i < |writes| ==> Settled(run.0, writes[i], run.1[i])
    decreases |writes|
  {
    if writes != [] {
      var k := |writes| - 1;
      AllSettled(items, writes[..k], n);
      var before := Run(InsertOnly, items, writes[..k], Clear(), n);
      var run := Run(InsertOnly, items, writes, Clear(), n);
      InsertKeeps(before.0, writes[k], CLEAR);
      assert Settled(run.0, writes[k], run.1[k]);
      forall i | 0 <= i < k ensures Settled(run.0, writes[i], run.1[i]) {
        assert writes[..k][i] == writes[i];
        assert Settled(before.0, writes[i], before.1[i]);
      }
    }
  }

  function Again(o: Outcome): Outcome { if o == Inserted then SkippedIdentical else o }

  lemma {:induction false} RunSettled(items: Items, writes: seq<Write>, outcomes: seq<Outcome>, n: nat)
    requires |writes| == |outcomes|
    requires forall i :: 0 <= i < |writes| ==> Settled(items, writes[i], outcomes[i])
    ensures var run := Run(InsertOnly, items, writes, Clear(), n);
            run.0 == items && forall i :: 0 <= i < |writes| ==> run.1[i] == Again(outcomes[i])
    decreases |writes|
  {
    if writes != [] {
      var k := |writes| - 1;
      RunSettled(items, writes[..k], outcomes[..k], n);
      assert Settled(items, writes[k], outcomes[k]);
    }
  }

  /** A second run over the same export inserts nothing, leaves the tables alone and meets the same
      conflicts at the same items. */
  lemma SecondRunInsertsNothing(items: Items, writes: seq<Write>, n: nat, m: nat)
    ensures var first := Run(InsertOnly, items, writes, Clear(), n);
            var second := Run(InsertOnly, first.0, writes, Clear(), m);
            && second.0 == first.0
            && (forall i :: 0 <= i < |writes| ==> second.1[i] != Inserted && second.1[i] != WriteFailed)
            && (forall i :: 0 <= i < |writes| ==> (second.1[i] == Conflicted <==> first.1[i] == Conflicted))
  {
    AllSettled(items, writes, n);
    var first := Run(InsertOnly, items, writes, Clear(), n);
    RunSettled(first.0, writes, first.1, m);
  }

  predicate Mentions(writes: seq<Write>, key: Key) { exists i :: 0 <= i < |writes| && writes[i].key == key }

  lemma MentionsLast(writes: seq<Write>, key: Key)
    requires writes != []
    ensures var k := |writes| - 1;
            Mentions(writes, key) <==> Mentions(writes[..k], key) || writes[k].key == key
  {
    var k := |writes| - 1;
    if i :| 0 <= i < k && writes[i].key == key { assert writes[..k][i].key == key; }
    if Mentions(writes[..k], key) {
      var i :| 0 <= i < k && writes[..k][i].key == key;
      assert writes[i].key == key;
    }
  }

  /** The table at the end has the keys it had and those of the export. */
  lemma {:induction false} KeysAfter(items: Items, writes: seq<Write>, n: nat, key: Key)
    ensures key in Run(InsertOnly, items, writes, Clear(), n).0 <==> key in items || Mentions(writes, key)
    decreases |writes|
  {
    if writes != [] {
      KeysAfter(items, writes[..|writes| - 1], n, key);
      MentionsLast(writes, key);
    }
  }

  /** An item is inserted exactly when its key was free and no earlier item of the export had it, and
      then it is what the table holds at the end. */
  lemma {:induction false} FirstItemWins(items: Items, writes: seq<Write>, n: nat, i: nat)
    requires i < |writes|
    ensures var run := Run(InsertOnly, items, writes, Clear(), n);
            var free := writes[i].key !in items && !Mentions(writes[..i], writes[i].key);
            && (run.1[i] == Inserted <==> free)
            && (free ==> writes[i].key in run.0 && run.0[writes[i].key] == writes[i].item)
    decreases |writes|
  {
    var k := |writes| - 1;
    var before := Run(InsertOnly, items, writes[..k], Clear(), n);
    if i == k {
      KeysAfter(items, writes[..k], n, writes[k].key);
    } else {
      FirstItemWins(items, writes[..k], n, i);
      assert writes[..k][i] == writes[i] && writes[..k][..i] == writes[..i];
      InsertKeeps(before.0, writes[k], CLEAR);
    }
  }

  /** An upsert overwrites: the table ends with the last item of the export that has the key. */
  lemma {:induction false} LastItemWins(items: Items, writes: seq<Write>, n: nat, i: nat)
    requires i < |writes| && !Mentions(writes[i + 1..], writes[i].key)
    ensures var run := Run(Upsert, items, writes, Clear(), n);
            && run.1[i] == Inserted
            && writes[i].key in run.0 && run.0[writes[i].key] == writes[i].item
    decreases |writes|
  {
    var k := |writes| - 1;
    if i < k {
      assert writes[..k][i + 1..] == writes[i + 1..][..k - i - 1] && writes[i + 1..][k - i - 1] == writes[k];
      MentionsLast(writes[i + 1..], writes[i].key);
      LastItemWins(items, writes[..k], n, i);
    }
  }

  // ----- the script

  datatype Reply = Stored | ConditionFailed | Error

  class Migrator {
    var items: Items

    constructor (initial: Items)
      ensures items == initial
    {
      items := initial;
    }

    /** None is an error; Some(None) is an answer without an item. */
    method GetItem(key: Key, read: Read) returns (found: Option<Option<Json>>)
      ensures found == if read == Breaks then None else Some(Look(items, key, read))
    {
      if read == Breaks { return None; }
      found := Some(Look(items, key, read));
    }

    /** Another writer. */
    method Await(key: Key, racer: Option<Json>)
      modifies this`items
      ensures items == Raced(old(items), key, racer)
    {
      if racer.Some? && key !in items { items := items[key := racer.value]; }
    }

    method PutItem(write: Write, onlyIfAbsent: bool, put: Put) returns (reply: Reply)
      modifies this`items
      ensures reply == ConditionFailed <==> put != Lost && onlyIfAbsent && write.key in old(items)
      ensures reply == Stored <==> put == Applied && !(onlyIfAbsent && write.key in old(items))
      ensures items == if put == Lost || reply == ConditionFailed then old(items) else old(items)[write.key := write.item]
    {
      if put == Lost { return Error; }
      if onlyIfAbsent && write.key in items { return ConditionFailed; }
      items := items[write.key := write.item];
      reply := if put == Applied then Stored else Error;
    }

    method WriteInsertOnlyItem(write: Write, w: Weather) returns (outcome: Outcome)
      modifies this`items
      ensures (items, outcome) == InsertOnce(old(items), write, w)
    {
      var existing := GetItem(write.key, w.first);
      if existing.None? { return WriteFailed; }
      if existing.value.Some? {
        return if ItemsDeepEqual(existing.value.value, write.item) then SkippedIdentical else Conflicted;
      }
      Await(write.key, w.racer);
      var reply := PutItem(write, true, w.put);
      if reply == Stored { return Inserted; }
      if reply == Error { return WriteFailed; }
      var raced := GetItem(write.key, w.second);
      if raced.None? { return WriteFailed; }
      if raced.value.Some? && ItemsDeepEqual(raced.value.value, write.item) { return SkippedIdentical; }
      return Conflicted;
    }

    method WriteUpsertItem(write: Write, w: Weather) returns (outcome: Outcome)
      modifies this`items
      ensures (items, outcome) == UpsertOnce(old(items), write, w)
    {
      var reply := PutItem(write, false, w.put);
      outcome := if reply == Stored then Inserted else WriteFailed;
    }

    method WriteItem(mode: Mode, write: Write, w: Weather) returns (outcome: Outcome)
      modifies this`items
      ensures (items, outcome) == Once(mode, old(items), write, w)
    {
      if mode == InsertOnly {
        outcome := WriteInsertOnlyItem(write, w);
      } else {
        outcome := WriteUpsertItem(write, w);
      }
    }

    /** Writes the items of one section in order. `conflict` stands for the exception on a fatal conflict;
        `done` is how many writes were attempted. */
    method MigrateSectionItems(config: Config, writes: seq<Write>, trackedKeys: seq<Key>, weather: nat -> Weather, n: nat)
      returns (counts: Counts, tracked: seq<Key>, conflict: bool, ghost done: nat)
      modifies this`items
      ensures done <= |writes|
      ensures var run := Run(config.mode, old(items), writes[..done], weather, n);
              && items == run.0
              && counts == CountsOf(run.1)
              && tracked == trackedKeys + Tracked(writes[..done], run.1)
              && (if conflict then Halted(config, run.1) else done == |writes| && NotHalted(config, run.1))
    {
      hide Run, Once, Tracked, CountsOf;
      counts, tracked, conflict, done := NO_COUNTS, trackedKeys, false, 0;
      ghost var outcomes: seq<Outcome> := [];
      NothingRun(config.mode, items, writes, weather, n);
      for i := 0 to |writes|
        invariant done == i && !conflict
        invariant Run(config.mode, old(items), writes[..i], weather, n) == (items, outcomes)
        invariant counts == CountsOf(outcomes)
        invariant tracked == trackedKeys + Tracked(writes[..i], outcomes)
        invariant NotHalted(config, outcomes)
      {
        var outcome := WriteItem(config.mode, writes[i], weather(n + i));
        RunNext(config.mode, old(items), writes, weather, n, i);
        StepCounts(outcomes, outcome, writes[..i], writes[i]);
        done := i + 1;
        match outcome {
          case Inserted =>
            counts := counts.(inserted := counts.inserted + 1);
            tracked := tracked + [writes[i].key];
          case SkippedIdentical =>
            counts := counts.(skippedIdentical := counts.skippedIdentical + 1);
            tracked := tracked + [writes[i].key];
          case Conflicted =>
            counts := counts.(conflicted := counts.conflicted + 1);
            if config.failOnConflict {
              conflict := true;
              return;
            }
          case WriteFailed =>
            counts := counts.(failed := counts.failed + 1);
        }
        outcomes := outcomes + [outcome];
      }
      assert writes[..|writes|] == writes;
    }

    method VerifyWrittenKeys(trackedKeys: seq<Key>, checks: nat -> Read) returns (ok: bool)
      ensures ok <==> forall i :: 0 <= i < |trackedKeys| ==> checks(i) == Sees && trackedKeys[i] in items
    {
      var failures := 0;
      for i := 0 to |trackedKeys|
        invariant failures >= 0
        invariant failures == 0 <==> forall j :: 0 <= j < i ==> checks(j) == Sees && trackedKeys[j] in items
      {
        var response := GetItem(trackedKeys[i], checks(i));
        if response.None? || response.value.None? { failures := failures + 1; }
      }
      ok := failures == 0;
    }

    method DryRun(config: Config, exports: Section -> seq<Json>, sections: seq<Section>)
      returns (counts: map<Section, Counts>, total: Counts)
      requires Distinct(sections)
      ensures total == Counts(|SectionWrites(config, exports, sections)|, 0, 0, 0)
      ensures forall section :: section in sections ==>
                section in counts && counts[section] == Counts(|exports(section)|, 0, 0, 0)
      ensures forall section :: section !in sections ==> section in counts && counts[section] == NO_COUNTS
    {
      counts, total := map section | section in SECTIONS :: NO_COUNTS, NO_COUNTS;
      AllSections();
      for i := 0 to |sections|
        invariant forall section :: section !in sections ==> section in counts && counts[section] == NO_COUNTS
        invariant forall j :: 0 <= j < i ==> sections[j] in counts && counts[sections[j]] == Counts(|exports(sections[j])|, 0, 0, 0)
        invariant total == Counts(Start(config, exports, sections, i), 0, 0, 0)
      {
        var sectionCounts := NO_COUNTS.(inserted := |exports(sections[i])|);
        counts := counts[sections[i] := sectionCounts];
        total := total.Add(sectionCounts);
        NextSection(config, exports, sections, i);
      }
      assert sections[..|sections|] == sections;
    }

    method MigrateSections(config: Config, exports: Section -> seq<Json>, sections: seq<Section>, weather: nat -> Weather)
      returns (counts: map<Section, Counts>, total: Counts, tracked: seq<Key>, conflict: bool, ghost attempted: nat)
      requires Distinct(sections)
      modifies this`items
      ensures attempted <= |SectionWrites(config, exports, sections)|
      ensures var writes := SectionWrites(config, exports, sections)[..attempted];
              var run := Run(config.mode, old(items), writes, weather, 0);
              && items == run.0
              && (if conflict then Halted(config, run.1)
                  else
                    && attempted == |SectionWrites(config, exports, sections)| && NotHalted(config, run.1)
                    && total == CountsOf(run.1) && tracked == Tracked(writes, run.1)
                    && forall i :: 0 <= i < |sections| ==> CountedAt(config, exports, sections, run.1, counts, i))
      ensures forall section :: section !in sections ==> section in counts && counts[section] == NO_COUNTS
    {
      AllSections();
      hide Run, Tracked, CountsOf, WritesOf, SectionWrites, CountedAt;
      counts, total, tracked, conflict, attempted := map section | section in SECTIONS :: NO_COUNTS, NO_COUNTS, [], false, 0;
      var n := 0;
      ghost var all := SectionWrites(config, exports, sections);
      ghost var outcomes: seq<Outcome> := [];
      NothingRun(config.mode, items, all, weather, 0);
      SectionsPrefix(config, exports, sections, 0);
      for i := 0 to |sections|
        invariant !conflict && n == attempted == Start(config, exports, sections, i) <= |all|
        invariant forall section :: section !in sections ==> section in counts && counts[section] == NO_COUNTS
        invariant Run(config.mode, old(items), all[..attempted], weather, 0) == (items, outcomes)
        invariant total == CountsOf(outcomes) && NotHalted(config, outcomes)
        invariant tracked == Tracked(all[..attempted], outcomes)
        invariant forall j :: 0 <= j < i ==> CountedAt(config, exports, sections, outcomes, counts, j)
      {
        var writes := WritesOf(TableOf(config, sections[i]), exports(sections[i]));
        ghost var done: nat;
        var sectionCounts;
        ghost var before, base := items, all[..attempted];
        sectionCounts, tracked, conflict, done := MigrateSectionItems(config, writes, tracked, weather, n);
        ghost var next := Run(config.mode, before, writes[..done], weather, attempted).1;
        SectionSlice(config, exports, sections, i, done);
        RunJoin(config.mode, old(items), base, writes[..done], weather, 0);
        TrackedJoin(base, writes[..done], outcomes, next);
        attempted := attempted + done;
        if conflict {
          HaltedJoin(config, outcomes, next);
          return;
        }
        assert writes[..done] == writes;
        CountedNext(config, exports, sections, outcomes, next, counts, outcomes + next, counts[sections[i] := sectionCounts], i);
        CountsJoin(outcomes, next);
        counts := counts[sections[i] := sectionCounts];
        total := total.Add(sectionCounts);
        n, outcomes := n + |writes|, outcomes + next;
      }
      SectionsPrefix(config, exports, sections, |sections|);
    }

    method RunMigration(config: Config, exports: Section -> seq<Json>, weather: nat -> Weather, checks: nat -> Read)
      returns (ending: Ending, ghost attempted: nat)
      modifies this`items
      ensures ending == Rejected <==>
                || (forall section: Section :: exports(section) == [])
                || (exists section: Section, i: nat :: i < |exports(section)| && !HasKey(exports(section)[i]))
                || (exists section: Section :: exports(section) != [] && config.tables(section).None?)
                || (config.mode == Upsert && config.production && !config.allowUpsert)
                || (!config.dryRun && !config.confirmed)
      ensures ending == Rejected || config.dryRun ==> items == old(items) && !ending.Aborted?
      ensures ending.Finished? && config.dryRun ==>
                !ending.verificationFailed && ending.total == Counts(|AllWrites(config, exports)|, 0, 0, 0)
                && forall section :: section in ending.counts && ending.counts[section] == Counts(|exports(section)|, 0, 0, 0)
      ensures ending.Finished? && !config.dryRun ==>
                forall section :: section in ending.counts && ending.counts[section].Total() == |exports(section)|
      ensures config.mode == InsertOnly ==> forall key :: key in old(items) ==> key in items && items[key] == old(items)[key]
      ensures Clean(weather) && !config.dryRun && ending != Rejected ==>
                if config.mode == InsertOnly then InsertedAll(config, exports, old(items), items, ending)
                else ending.Finished? && Overwritten(config, exports, old(items), items)
                     && ending.total == Counts(|AllWrites(config, exports)|, 0, 0, 0)
      ensures attempted <= |AllWrites(config, exports)|
      ensures var writes := AllWrites(config, exports)[..attempted];
              var run := Run(config.mode, old(items), writes, weather, 0);
              && (ending.Aborted? ==> items == run.0 && Halted(config, run.1))
              && (ending.Finished? && !config.dryRun ==>
                    && attempted == |AllWrites(config, exports)|
                    && items == run.0 && NotHalted(config, run.1)
                    && ending.total == CountsOf(run.1)
                    && (forall i :: 0 <= i < |Present(exports)| ==>
                          CountedAt(config, exports, Present(exports), run.1, ending.counts, i))
                    && (ending.verificationFailed <==>
                        exists i :: 0 <= i < |Tracked(writes, run.1)| && checks(i) != Sees))
    {
      hide Run, Tracked, CountsOf, SectionWrites, CountedAt, Filter, Halted, NotHalted, Accepted;
      attempted := 0;
      RejectedBy(config, exports);
      if !Accepted(config, exports) {
        return Rejected, 0;
      }
      AcceptedIsChecked(config, exports);
      PresentIs(exports);
      var presentSections := Present(exports);
      FilterDistinct(SECTIONS, section => exports(section) != []);
      var counts, total, tracked, conflict;
      if config.dryRun {
        counts, total := DryRun(config, exports, presentSections);
        return Finished(counts, total, false), 0;
      }
      counts, total, tracked, conflict, attempted := MigrateSections(config, exports, presentSections, weather);
      if config.mode == InsertOnly { RunKeepsExisting(old(items), AllWrites(config, exports)[..attempted], weather, 0); }
      if conflict {
        if Clean(weather) { CleanAbort(config, exports, old(items), weather, attempted); }
        return Aborted, attempted;
      }
      var expectedVerified := if config.mode == InsertOnly then total.inserted + total.skippedIdentical else total.inserted;
      var verificationOk := VerifyWrittenKeys(tracked, checks);
      var countMismatch := |tracked| != expectedVerified;
      ending := Finished(counts, total, !verificationOk || countMismatch);
      VerificationReads(config.mode, old(items), AllWrites(config, exports)[..attempted], weather);
      assert AllWrites(config, exports)[..attempted] == AllWrites(config, exports);
      ghost var outcomes := Run(config.mode, old(items), AllWrites(config, exports), weather, 0).1;
      forall section ensures section in counts && counts[section].Total() == |exports(section)| {
        SectionTotal(config, exports, outcomes, counts, section);
      }
      if Clean(weather) { CleanFinish(config, exports, old(items), weather, ending); }
    }
  }

  lemma AllSections()
    ensures forall section: Section :: section in SECTIONS
  {
    forall section: Section ensures section in SECTIONS {
      match section
      case Workflows => assert SECTIONS[0] == section;
      case Ownership => assert SECTIONS[1] == section;
      case Reports => assert SECTIONS[2] == section;
      case Learning => assert SECTIONS[3] == section;
      case Verifications => assert SECTIONS[4] == section;
    }
  }

  lemma PresentIs(exports: Section -> seq<Json>)
    ensures forall section: Section :: section in Present(exports) <==> exports(section) != []
  {
    AllSections();
  }

  lemma RejectedBy(config: Config, exports: Section -> seq<Json>)
    ensures !Accepted(config, exports) <==>
              || (forall section: Section :: exports(section) == [])
              || (exists section: Section, i: nat :: i < |exports(section)| && !HasKey(exports(section)[i]))
              || (exists section: Section :: exports(section) != [] && config.tables(section).None?)
              || (config.mode == Upsert && config.production && !config.allowUpsert)
              || (!config.dryRun && !config.confirmed)
  {
    AllSections();
    PresentIs(exports);
    NothingPresent(exports);
    UnaddressedItem(exports);
    hide Present, HasKey, Addressed;
  }

  lemma NothingPresent(exports: Section -> seq<Json>)
    ensures Present(exports) == [] <==> forall section: Section :: exports(section) == []
  {
    PresentIs(exports);
    hide Present;
    if Present(exports) != [] { assert Present(exports)[0] in Present(exports); }
  }

  lemma UnaddressedItem(exports: Section -> seq<Json>)
    ensures (exists section: Section, i: nat :: i < |exports(section)| && !HasKey(exports(section)[i])) <==>
            !(forall section :: section in SECTIONS ==> forall i :: 0 <= i < |exports(section)| ==> Addressed(exports(section)[i]))
  {
    AllSections();
    forall item ensures HasKey(item) <==> Addressed(item) { AddressedHasKey(item); }
    hide HasKey, Addressed;
  }

  lemma AcceptedIsChecked(config: Config, exports: Section -> seq<Json>)
    requires Accepted(config, exports)
    ensures Checked(config, exports)
  {
    AllSections();
    PresentIs(exports);
    hide Filter, Addressed;
  }

  lemma SectionTotal(config: Config, exports: Section -> seq<Json>, outcomes: seq<Outcome>, counts: map<Section, Counts>, section: Section)
    requires forall i :: 0 <= i < |Present(exports)| ==> CountedAt(config, exports, Present(exports), outcomes, counts, i)
    requires forall absent :: absent !in Present(exports) ==> absent in counts && counts[absent] == NO_COUNTS
    ensures section in counts && counts[section].Total() == |exports(section)|
  {
    PresentIs(exports);
    hide CountedAt, Filter;
    if section in Present(exports) {
      var i :| 0 <= i < |Present(exports)| && Present(exports)[i] == section;
      SectionConserved(config, exports, Present(exports), outcomes, counts, i);
      CountedIsThere(config, exports, Present(exports), outcomes, counts, i);
    }
  }

  lemma CountedIsThere(config: Config, exports: Section -> seq<Json>, sections: seq<Section>, outcomes: seq<Outcome>,
                       counts: map<Section, Counts>, i: nat)
    requires i < |sections| && CountedAt(config, exports, sections, outcomes, counts, i)
    ensures sections[i] in counts
  {
  }

  // ----- a run on clean surroundings

  ghost predicate Clean(weather: nat -> Weather) { forall n: nat :: weather(n) == CLEAR }

  lemma {:induction false} CleanRun(mode: Mode, items: Items, writes: seq<Write>, weather: nat -> Weather, n: nat)
    requires Clean(weather)
    ensures Run(mode, items, writes, weather, n) == Run(mode, items, writes, Clear(), n)
    decreases |writes|
  {
    if writes != [] { CleanRun(mode, items, writes[..|writes| - 1], weather, n); }
  }

  /** The end of an insert-only run on clean surroundings: all is migrated, with one insert for each new key, or
      the run stopped at an exported item whose key holds another item. Where conflicts are fatal, a run that
      finishes has each exported item, or its equal, under its key. */
  ghost predicate InsertedAll(config: Config, exports: Section -> seq<Json>, before: Items, after: Items, ending: Ending) {
    && (ending.Finished? ==>
          && Migrated(config, exports, before, after) && |after| == |before| + ending.total.inserted
          && ending.total.failed == 0
          && (config.failOnConflict ==>
                forall section, i: nat, key :: Names(config, exports, section, i, key) ==>
                  key in after && ItemsDeepEqual(after[key], exports(section)[i])))
    && (ending.Aborted? ==>
          config.failOnConflict && exists section, i: nat, key :: Names(config, exports, section, i, key)
                                     && key in after && !ItemsDeepEqual(after[key], exports(section)[i]))
  }

  lemma {:induction false} InsertedAreNew(items: Items, writes: seq<Write>, n: nat)
    ensures var run := Run(InsertOnly, items, writes, Clear(), n);
            |run.0| == |items| + Count(run.1, Inserted) && Count(run.1, WriteFailed) == 0
    decreases |writes|
  {
    if writes != [] { InsertedAreNew(items, writes[..|writes| - 1], n); }
  }

  lemma CleanFinish(config: Config, exports: Section -> seq<Json>, items: Items, weather: nat -> Weather, ending: Ending)
    requires Clean(weather) && Checked(config, exports) && ending.Finished?
    requires var run := Run(config.mode, items, AllWrites(config, exports), weather, 0);
             ending.total == CountsOf(run.1) && NotHalted(config, run.1)
    ensures var after := Run(config.mode, items, AllWrites(config, exports), weather, 0).0;
            if config.mode == InsertOnly then InsertedAll(config, exports, items, after, ending)
            else Overwritten(config, exports, items, after) && ending.total == Counts(|AllWrites(config, exports)|, 0, 0, 0)
  {
    hide AllWrites, Names, Checked, Run, ItemsDeepEqual, Migrated, Overwritten;
    var writes := AllWrites(config, exports);
    CleanRun(config.mode, items, writes, weather, 0);
    if config.mode == InsertOnly {
      RunIsMigrated(config, exports, items);
      InsertedAreNew(items, writes, 0);
      forall section, i: nat, key | config.failOnConflict && Names(config, exports, section, i, key)
        ensures i < |exports(section)| && key in Run(InsertOnly, items, writes, Clear(), 0).0
                && ItemsDeepEqual(Run(InsertOnly, items, writes, Clear(), 0).0[key], exports(section)[i])
      {
        NamesInRange(config, exports, section, i, key);
        ConflictMeansTaken(config, exports, items, section, i, key);
        RunHolds(config, exports, items, section, i, key);
      }
    } else {
      RunOverwrites(config, exports, items);
      UpsertsAll(items, writes, 0);
    }
  }

  lemma RunHolds(config: Config, exports: Section -> seq<Json>, items: Items, section: Section, i: nat, key: Key)
    requires Checked(config, exports) && Names(config, exports, section, i, key)
    ensures key in Run(InsertOnly, items, AllWrites(config, exports), Clear(), 0).0
  {
    hide AllWrites, Names, Checked, Run;
    NamedIsMentioned(config, exports, key);
    KeysAfter(items, AllWrites(config, exports), 0, key);
  }

  lemma CleanAbort(config: Config, exports: Section -> seq<Json>, items: Items, weather: nat -> Weather, attempted: nat)
    requires Clean(weather) && Checked(config, exports) && attempted <= |AllWrites(config, exports)|
    requires Halted(config, Run(config.mode, items, AllWrites(config, exports)[..attempted], weather, 0).1)
    ensures config.mode == InsertOnly
    ensures InsertedAll(config, exports, items, Run(InsertOnly, items, AllWrites(config, exports)[..attempted], weather, 0).0, Aborted)
  {
    hide AllWrites, Names, Checked, Run, ItemsDeepEqual, Migrated;
    var writes := AllWrites(config, exports)[..attempted];
    CleanRun(config.mode, items, writes, weather, 0);
    if config.mode == Upsert {
      UpsertOutcomes(items, writes, weather, 0);
    } else {
      AllSettled(items, writes, 0);
      var run := Run(InsertOnly, items, writes, Clear(), 0);
      var n := attempted - 1;
      assert Settled(run.0, writes[n], run.1[n]);
      var section, i := ItemOf(config, exports, n);
      KeyAt(config, exports, section, i, writes[n].key);
      WriteAt(config, exports, section, i);
      assert Names(config, exports, section, i, writes[n].key);
    }
  }

  /** What an upsert run without faults leaves: the latest exported item under each key, and all else as it was. */
  ghost predicate Overwritten(config: Config, exports: Section -> seq<Json>, before: Items, after: Items) {
    && (forall key :: key in after <==> key in before || exists section, i: nat :: Names(config, exports, section, i, key))
    && (forall key :: key in before && (forall section, i: nat :: !Names(config, exports, section, i, key)) ==>
          key in after && after[key] == before[key])
    && (forall section, i: nat, key :: Names(config, exports, section, i, key) && NoneLater(config, exports, section, i, key) ==>
          key in after && after[key] == exports(section)[i])
  }

  ghost predicate NoneLater(config: Config, exports: Section -> seq<Json>, section: Section, i: nat, key: Key) {
    forall other, j: nat :: Names(config, exports, other, j, key) ==>
      Offset(exports, other) + j <= Offset(exports, section) + i
  }

  lemma {:induction false} UpsertKeys(items: Items, writes: seq<Write>, n: nat, key: Key)
    ensures var after := Run(Upsert, items, writes, Clear(), n).0;
            && (key in after <==> key in items || Mentions(writes, key))
            && (key in items && !Mentions(writes, key) ==> after[key] == items[key])
    decreases |writes|
  {
    if writes != [] {
      UpsertKeys(items, writes[..|writes| - 1], n, key);
      MentionsLast(writes, key);
    }
  }

  lemma {:induction false} UpsertsAll(items: Items, writes: seq<Write>, n: nat)
    ensures CountsOf(Run(Upsert, items, writes, Clear(), n).1) == Counts(|writes|, 0, 0, 0)
    decreases |writes|
  {
    if writes != [] { UpsertsAll(items, writes[..|writes| - 1], n); }
  }

  lemma LatestIsLast(config: Config, exports: Section -> seq<Json>, section: Section, i: nat, key: Key)
    requires Checked(config, exports) && Names(config, exports, section, i, key) && NoneLater(config, exports, section, i, key)
    ensures var n := Offset(exports, section) + i;
            && n < |AllWrites(config, exports)| && AllWrites(config, exports)[n] == Write(key, exports(section)[i])
            && !Mentions(AllWrites(config, exports)[n + 1..], key)
  {
    hide AllWrites, Names, Checked, TextField, Offset;
    NamesInRange(config, exports, section, i, key);
    WriteAt(config, exports, section, i);
    KeyAt(config, exports, section, i, key);
    var writes, n := AllWrites(config, exports), Offset(exports, section) + i;
    forall m | n < m < |writes| ensures writes[m].key != key {
      var other, j := ItemOf(config, exports, m);
      KeyAt(config, exports, other, j, key);
    }
    NotMentionedAfter(writes, n, key);
  }

  lemma NotMentionedAfter(writes: seq<Write>, n: nat, key: Key)
    requires n < |writes| && forall m :: n < m < |writes| ==> writes[m].key != key
    ensures !Mentions(writes[n + 1..], key)
  {
  }

  lemma RunOverwrites(config: Config, exports: Section -> seq<Json>, items: Items)
    requires Checked(config, exports)
    ensures Overwritten(config, exports, items, Run(Upsert, items, AllWrites(config, exports), Clear(), 0).0)
  {
    hide AllWrites, Names, Checked, Run, NoneLater;
    var writes := AllWrites(config, exports);
    var after := Run(Upsert, items, writes, Clear(), 0).0;
    forall key
      ensures key in after <==> key in items || exists section, i: nat :: Names(config, exports, section, i, key)
      ensures key in items && (forall section, i: nat :: !Names(config, exports, section, i, key)) ==> after[key] == items[key]
    {
      UpsertKeys(items, writes, 0, key);
      NamedIsMentioned(config, exports, key);
    }
    forall section, i: nat, key | Names(config, exports, section, i, key) && NoneLater(config, exports, section, i, key)
      ensures i < |exports(section)| && key in after && after[key] == exports(section)[i]
    {
      NamesInRange(config, exports, section, i, key);
      LatestIsLast(config, exports, section, i, key);
      LastItemWins(items, writes, 0, Offset(exports, section) + i);
    }
  }

  /** What the verification finds: the counts agree and every tracked key is in the table. */
  lemma VerificationReads(mode: Mode, items: Items, writes: seq<Write>, weather: nat -> Weather)
    ensures var run := Run(mode, items, writes, weather, 0);
            var total := CountsOf(run.1);
            && |Tracked(writes, run.1)| == (if mode == InsertOnly then total.inserted + total.skippedIdentical else total.inserted)
            && forall i :: 0 <= i < |Tracked(writes, run.1)| ==> Tracked(writes, run.1)[i] in run.0
  {
    var run := Run(mode, items, writes, weather, 0);
    TrackedCount(writes, run.1);
    if mode == Upsert { UpsertOutcomes(items, writes, weather, 0); }
    var tracked := Tracked(writes, run.1);
    forall i | 0 <= i < |tracked| ensures tracked[i] in run.0 {
      TrackedIsThere(mode, items, writes, weather, 0, tracked[i]);
    }
  }

  lemma HaltedJoin(config: Config, a: seq<Outcome>, b: seq<Outcome>)
    requires NotHalted(config, a) && Halted(config, b)
    ensures Halted(config, a + b)
  {
    assert (a + b)[..|a + b| - 1] == a + b[..|b| - 1];
  }

  /** Where the writes of a section begin. */
  function Start(config: Config, exports: Section -> seq<Json>, sections: seq<Section>, i: nat): nat
    requires i <= |sections|
  {
    |SectionWrites(config, exports, sections[..i])|
  }

  /** The counts of a section are those of its own items. */
  predicate CountedAt(config: Config, exports: Section -> seq<Json>, sections: seq<Section>, outcomes: seq<Outcome>,
                      counts: map<Section, Counts>, i: nat)
    requires i < |sections|
  {
    var start := Start(config, exports, sections, i);
    && sections[i] in counts
    && start + |exports(sections[i])| <= |outcomes|
    && counts[sections[i]] == CountsOf(outcomes[start..start + |exports(sections[i])|])
  }

  lemma NextSection(config: Config, exports: Section -> seq<Json>, sections: seq<Section>, i: nat)
    requires i < |sections|
    ensures SectionWrites(config, exports, sections[..i + 1]) ==
            SectionWrites(config, exports, sections[..i]) + WritesOf(TableOf(config, sections[i]), exports(sections[i]))
  {
    assert sections[..i + 1][..i] == sections[..i];
  }

  lemma {:induction false} SectionsPrefix(config: Config, exports: Section -> seq<Json>, sections: seq<Section>, i: nat)
    requires i <= |sections|
    ensures var all := SectionWrites(config, exports, sections);
            && Start(config, exports, sections, i) <= |all|
            && all[..Start(config, exports, sections, i)] == SectionWrites(config, exports, sections[..i])
            && (i == 0 ==> Start(config, exports, sections, i) == 0)
            && (i == |sections| ==> Start(config, exports, sections, i) == |all|)
    decreases |sections| - i
  {
    if i == |sections| {
      assert sections[..i] == sections;
    } else {
      NextSection(config, exports, sections, i);
      SectionsPrefix(config, exports, sections, i + 1);
      hide SectionWrites;
      var all := SectionWrites(config, exports, sections);
      var a, b := Start(config, exports, sections, i), Start(config, exports, sections, i + 1);
      assert all[..a] == all[..b][..a];
      assert i == 0 ==> SectionWrites(config, exports, sections[..i]) == [] by { NoSections(config, exports); }
    }
  }

  lemma NoSections(config: Config, exports: Section -> seq<Json>)
    ensures SectionWrites(config, exports, []) == []
  {
  }

  /** The first writes of a section follow those of the sections before it. */
  lemma SectionSlice(config: Config, exports: Section -> seq<Json>, sections: seq<Section>, i: nat, done: nat)
    requires i < |sections| && done <= |exports(sections[i])|
    ensures var all := SectionWrites(config, exports, sections);
            var start := Start(config, exports, sections, i);
            && start + |exports(sections[i])| == Start(config, exports, sections, i + 1) <= |all|
            && all[..start + done] == all[..start] + WritesOf(TableOf(config, sections[i]), exports(sections[i]))[..done]
  {
    NextSection(config, exports, sections, i);
    SectionsPrefix(config, exports, sections, i);
    SectionsPrefix(config, exports, sections, i + 1);
    hide SectionWrites, WritesOf;
    var all := SectionWrites(config, exports, sections);
    var a, b := Start(config, exports, sections, i), Start(config, exports, sections, i + 1);
    var before, writes := all[..a], all[..b][a..];
    assert all[..a + done] == all[..b][..a + done];
    assert all[..b] == before + writes;
  }

  lemma CountedNext(config: Config, exports: Section -> seq<Json>, sections: seq<Section>, outcomes: seq<Outcome>,
                    next: seq<Outcome>, counts: map<Section, Counts>, outcomes': seq<Outcome>,
                    counts': map<Section, Counts>, n: nat)
    requires n < |sections| && Distinct(sections)
    requires forall i :: 0 <= i < n ==> CountedAt(config, exports, sections, outcomes, counts, i)
    requires |outcomes| == Start(config, exports, sections, n) && |next| == |exports(sections[n])| 
    requires outcomes' == outcomes + next && counts' == counts[sections[n] := CountsOf(next)]
    ensures forall i :: 0 <= i <= n ==> CountedAt(config, exports, sections, outcomes', counts', i)
  {
    hide CountsOf, SectionWrites;
    forall i | 0 <= i <= n ensures CountedAt(config, exports, sections, outcomes', counts', i) {
      var start := Start(config, exports, sections, i);
      var end := start + |exports(sections[i])|;
      if i < n {
        assert CountedAt(config, exports, sections, outcomes, counts, i);
        assert outcomes'[start..end] == outcomes[start..end];
      } else {
        assert outcomes'[start..end] == next;
      }
    }
  }

  lemma NothingRun(mode: Mode, items: Items, writes: seq<Write>, weather: nat -> Weather, n: nat)
    ensures Run(mode, items, writes[..0], weather, n) == (items, [])
    ensures Tracked(writes[..0], []) == [] && CountsOf([]) == NO_COUNTS
  {
  }

  lemma RunNext(mode: Mode, items: Items, writes: seq<Write>, weather: nat -> Weather, n: nat, i: nat)
    requires i < |writes|
    ensures writes[..i + 1] == writes[..i] + [writes[i]]
    ensures var before := Run(mode, items, writes[..i], weather, n);
            var last := Once(mode, before.0, writes[i], weather(n + i));
            Run(mode, items, writes[..i + 1], weather, n) == (last.0, before.1 + [last.1])
  {
    assert writes[..i + 1][..i] == writes[..i];
  }

  lemma StepCounts(outcomes: seq<Outcome>, o: Outcome, writes: seq<Write>, write: Write)
    requires |outcomes| == |writes|
    ensures CountsOf(outcomes + [o]) == CountsOf(outcomes).Add(CountsOf([o]))
    ensures CountsOf([o]) == Counts(if o == Inserted then 1 else 0, if o == SkippedIdentical then 1 else 0,
                                    if o == Conflicted then 1 else 0, if o == WriteFailed then 1 else 0)
    ensures Tracked(writes + [write], outcomes + [o]) ==
            Tracked(writes, outcomes) + if Reported(o) then [write.key] else []
  {
    CountsJoin(outcomes, [o]);
    assert (outcomes + [o])[..|outcomes|] == outcomes && (writes + [write])[..|writes|] == writes;
  }

  /** Conservation, section by section: every exported item of a migrated section is inserted, skipped,
      conflicted or failed. */
  lemma SectionConserved(config: Config, exports: Section -> seq<Json>, sections: seq<Section>, outcomes: seq<Outcome>,
                         counts: map<Section, Counts>, i: nat)
    requires i < |sections| && CountedAt(config, exports, sections, outcomes, counts, i)
    ensures counts[sections[i]].Total() == |exports(sections[i])|
  {
    var start := Start(config, exports, sections, i);
    CountsAddUp(outcomes[start..start + |exports(sections[i])|]);
  }
}
