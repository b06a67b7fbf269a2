/** JSON values, the migration's printer of them, and its use as an equality test. */
module JsonPrinter {
  import opened Ordering
  import opened JsonText

  /** A number is its canonical text. An object lists its own keys in enumeration order. */
  datatype Json =
    | Null
    | Bool(b: bool)
    | Num(text: Text)
    | Str(s: Text)
    | Arr(items: seq<Json>)
    | Obj(fields: seq<Field>)

  datatype Field = Field(key: Text, value: Json)

  function Keys(fields: seq<Field>): (keys: seq<Text>)
    ensures |keys| == |fields| && forall i :: 0 <= i < |fields| ==> keys[i] == fields[i].key
  {
    seq(|fields|, i requires 0 <= i < |fields| => fields[i].key)
  }

  /** Numbers are number texts and the keys of an object are different, at any depth. */
  ghost predicate WellFormed(v: Json) {
    match v
    case Num(text) => NumberText(text)
    case Arr(items) => forall i :: 0 <= i < |items| ==> WellFormed(items[i])
    case Obj(fields) => Distinct(Keys(fields)) && forall i :: 0 <= i < |fields| ==> WellFormed(fields[i].value)
    case _ => true
  }

  function IndexOf(fields: seq<Field>, key: Text): (i: nat)
    requires key in Keys(fields)
    ensures i < |fields| && fields[i].key == key
    ensures forall j :: 0 <= j < i ==> fields[j].key != key
  {
    if fields[0].key == key then 0
    else
      assert key in Keys(fields[1..]) by {
        var i :| 0 <= i < |fields| && Keys(fields)[i] == key;
        assert fields[1..][i - 1] == fields[i] && Keys(fields[1..])[i - 1] == key;
      }
      1 + IndexOf(fields[1..], key)
  }

  function Entry(fields: seq<Field>, key: Text): (f: Field)
    requires key in Keys(fields)
    ensures f in fields && f.key == key
  {
    fields[IndexOf(fields, key)]
  }

  function Atom(v: Json): Text
    requires !v.Arr? && !v.Obj?
  {
    match v
    case Null => [110, 117, 108, 108]
    case Bool(b) => if b then [116, 114, 117, 101] else [102, 97, 108, 115, 101]
    case Num(text) => text
    case Str(s) => Quote(s)
  }

  /** The built-in printer: keys in enumeration order. */
  function Print(v: Json): Text {
    match v
    case Arr(items) =>
      [LEFT_BRACKET] + Join(seq(|items|, i requires 0 <= i < |items| => Print(items[i]))) + [RIGHT_BRACKET]
    case Obj(fields) =>
      [LEFT_BRACE]
        + Join(seq(|fields|, i requires 0 <= i < |fields| => Quote(fields[i].key) + [COLON] + Print(fields[i].value)))
        + [RIGHT_BRACE]
    case _ => Atom(v)
  }

  /** The texts of the simplest values, of a list of two, and of an object of one. */
  lemma PrintedTexts()
    ensures Print(Null) == Units("null") && Print(Bool(true)) == Units("true") && Print(Bool(false)) == Units("false")
    ensures Print(Arr([])) == Units("[]") && Print(Obj([])) == Units("{}")
    ensures Print(Arr([Null, Bool(true)])) == Units("[null,true]")
    ensures Print(Obj([Field(Units("a"), Null)])) == Units("{\"a\":null}")
  {
    PrintedLiterals();
    PrintedList();
    PrintedObject();
  }

  lemma PrintedLiterals()
    ensures Print(Null) == Units("null") && Print(Bool(true)) == Units("true") && Print(Bool(false)) == Units("false")
    ensures Print(Arr([])) == Units("[]") && Print(Obj([])) == Units("{}")
  {
  }

  lemma PrintedList()
    ensures Print(Arr([Null, Bool(true)])) == Units("[null,true]")
  {
    var items := [Null, Bool(true)];
    PrintedLiterals();
    PrintUnfolds(Arr(items));
    hide Print;
    assert Texts(items) == [Print(Null), Print(Bool(true))];
    JoinedPair(Print(Null), Print(Bool(true)));
    hide Texts, Join;
  }

  lemma PrintedObject()
    ensures Print(Obj([Field(Units("a"), Null)])) == Units("{\"a\":null}")
  {
    var fields := [Field(Units("a"), Null)];
    PrintedLiterals();
    PrintUnfolds(Obj(fields));
    assert Units("a") == [97];
    assert Quote([97]) == [34, 97, 34] by { assert Escape([97]) == EscapeUnit(97) + Escape([]); }
    hide Print, Quote, Escape, EscapeUnit;
    assert FieldText(fields[0]) == [34, 97, 34, 58] + Print(Null);
    assert FieldTexts(fields) == [FieldText(fields[0])];
    assert Join(FieldTexts(fields)) == [34, 97, 34, 58] + Print(Null);
    hide FieldTexts, Join;
  }

  lemma JoinedPair(a: Text, b: Text)
    ensures Join([a, b]) == a + [COMMA] + b
  {
    assert [a, b][1..] == [b] && [b][1..] == [];
  }

  /** The keys that are kept, sorted. */
  function KeysInOrder(fields: seq<Field>, le: (Text, Text) -> bool, keep: Text -> bool): (keys: seq<Text>)
    ensures forall k :: k in keys <==> k in Keys(fields) && keep(k)
  {
    var kept := Filter(Keys(fields), keep);
    var keys := Sort(kept, le);
    assert forall k :: k in keys <==> k in kept by { SameMembers(keys, kept); }
    keys
  }

  function Every(): Text -> bool { _ => true }

  /** The migration's printer: object keys in sorted order. */
  function StableStringify(v: Json): Text {
    match v
    case Arr(items) =>
      [LEFT_BRACKET] + Join(seq(|items|, i requires 0 <= i < |items| => StableStringify(items[i]))) + [RIGHT_BRACKET]
    case Obj(fields) =>
      var keys := KeysInOrder(fields, LexLe, Every());
      [LEFT_BRACE]
        + Join(seq(|keys|, i requires 0 <= i < |keys| =>
                 Quote(keys[i]) + [COLON] + StableStringify(Entry(fields, keys[i]).value)))
        + [RIGHT_BRACE]
    case _ => Atom(v)
  }

  predicate ItemsDeepEqual(left: Json, right: Json) { StableStringify(left) == StableStringify(right) }

  // ----- the reference: structural equality, in which the order of keys has no say

  /** Equal in structure, as far as the kept keys go. */
  ghost predicate Same(a: Json, b: Json, keep: Text -> bool) {
    match a
    case Arr(items) =>
      && b.Arr? && |items| == |b.items|
      && forall i :: 0 <= i < |items| ==> Same(items[i], b.items[i], keep)
    case Obj(fields) =>
      && b.Obj?
      && (forall k :: keep(k) ==> (k in Keys(fields) <==> k in Keys(b.fields)))
      && forall k :: keep(k) && k in Keys(fields) && k in Keys(b.fields) ==>
           Same(Entry(fields, k).value, Entry(b.fields, k).value, keep)
    case _ => a == b
  }

  // ----- printing is injective

  function Texts(items: seq<Json>): seq<Text> {
    seq(|items|, i requires 0 <= i < |items| => Print(items[i]))
  }

  function FieldText(f: Field): Text { Quote(f.key) + [COLON] + Print(f.value) }

  function FieldTexts(fields: seq<Field>): seq<Text> {
    seq(|fields|, i requires 0 <= i < |fields| => FieldText(fields[i]))
  }

  lemma PrintUnfolds(v: Json)
    ensures v.Arr? ==> Print(v) == [LEFT_BRACKET] + Join(Texts(v.items)) + [RIGHT_BRACKET]
    ensures v.Obj? ==> Print(v) == [LEFT_BRACE] + Join(FieldTexts(v.fields)) + [RIGHT_BRACE]
  {
    match v
    case Arr(items) =>
      assert Texts(items) == seq(|items|, i requires 0 <= i < |items| => Print(items[i]));
    case Obj(fields) =>
      assert FieldTexts(fields) ==
             seq(|fields|, i requires 0 <= i < |fields| => Quote(fields[i].key) + [COLON] + Print(fields[i].value));
    case _ =>
  }

  function Kind(v: Json): nat {
    match v case Null => 0 case Bool(b) => if b then 1 else 2 case Num(_) => 3 case Str(_) => 4 case Arr(_) => 5 case Obj(_) => 6
  }

  lemma FirstOfPrint(v: Json)
    requires WellFormed(v)
    ensures Print(v) != [] && !Closer(Print(v)[0])
    ensures match v
            case Null => Print(v)[0] == 110
            case Bool(b) => Print(v)[0] == (if b then 116 else 102)
            case Num(_) => 48 <= Print(v)[0] <= 57 || Print(v)[0] == 45
            case Str(_) => Print(v)[0] == QUOTE
            case Arr(_) => Print(v)[0] == LEFT_BRACKET
            case Obj(_) => Print(v)[0] == LEFT_BRACE
  {
    PrintUnfolds(v);
  }

  /** Different values print to texts that cannot be mistaken for one another, even as beginnings. */
  lemma {:induction false} PrintApart(a: Json, b: Json)
    requires WellFormed(a) && WellFormed(b)
    ensures Apart(Print(a), Print(b))
    ensures Print(a) == Print(b) ==> a == b
    decreases a
  {
    FirstOfPrint(a);
    FirstOfPrint(b);
    if Kind(a) != Kind(b) {
      ApartByFirst(Print(a), Print(b));
    } else {
      match a
      case Num(text) => NumbersApart(text, b.text);
      case Str(s) => QuotesApart(s, b.s);
      case Arr(items) =>
        forall i, j | 0 <= i < |items| && 0 <= j < |b.items|
          ensures Apart(Print(items[i]), Print(b.items[j])) && (Print(items[i]) == Print(b.items[j]) ==> items[i] == b.items[j])
        {
          PrintApart(items[i], b.items[j]);
        }
        ArraysApart(items, b.items);
      case Obj(fields) =>
        forall i, j | 0 <= i < |fields| && 0 <= j < |b.fields|
          ensures Apart(Print(fields[i].value), Print(b.fields[j].value))
          ensures Print(fields[i].value) == Print(b.fields[j].value) ==> fields[i].value == b.fields[j].value
        {
          PrintApart(fields[i].value, b.fields[j].value);
        }
        ObjectsApart(fields, b.fields);
      case _ => ApartSame(Print(a));
    }
  }

  lemma ArraysApart(xs: seq<Json>, ys: seq<Json>)
    requires WellFormed(Arr(xs)) && WellFormed(Arr(ys))
    requires forall i, j :: 0 <= i < |xs| && 0 <= j < |ys| ==>
               Apart(Print(xs[i]), Print(ys[j])) && (Print(xs[i]) == Print(ys[j]) ==> xs[i] == ys[j])
    ensures Apart(Print(Arr(xs)), Print(Arr(ys)))
    ensures Print(Arr(xs)) == Print(Arr(ys)) ==> xs == ys
  {
    var ss, ts := Texts(xs), Texts(ys);
    PrintUnfolds(Arr(xs));
    PrintUnfolds(Arr(ys));
    forall i | 0 <= i < |xs| ensures ss[i] != [] && !Closer(ss[i][0]) { FirstOfPrint(xs[i]); }
    forall i | 0 <= i < |ys| ensures ts[i] != [] && !Closer(ts[i][0]) { FirstOfPrint(ys[i]); }
    ListsApart(ss, ts, LEFT_BRACKET, RIGHT_BRACKET);
    if Print(Arr(xs)) == Print(Arr(ys)) {
      assert |xs| == |ss| == |ys|;
      forall i | 0 <= i < |xs| ensures xs[i] == ys[i] { assert ss[i] == ts[i]; }
    }
  }

  lemma ObjectsApart(xs: seq<Field>, ys: seq<Field>)
    requires forall i, j :: 0 <= i < |xs| && 0 <= j < |ys| ==>
               Apart(Print(xs[i].value), Print(ys[j].value))
               && (Print(xs[i].value) == Print(ys[j].value) ==> xs[i].value == ys[j].value)
    ensures Apart(Print(Obj(xs)), Print(Obj(ys)))
    ensures Print(Obj(xs)) == Print(Obj(ys)) ==> xs == ys
  {
    var ss, ts := FieldTexts(xs), FieldTexts(ys);
    PrintUnfolds(Obj(xs));
    PrintUnfolds(Obj(ys));
    forall i, j | 0 <= i < |xs| && 0 <= j < |ys|
      ensures Apart(ss[i], ts[j]) && (ss[i] == ts[j] ==> xs[i] == ys[j])
    {
      FieldsApart(xs[i], ys[j]);
    }
    ListsApart(ss, ts, LEFT_BRACE, RIGHT_BRACE);
    if Print(Obj(xs)) == Print(Obj(ys)) {
      assert |xs| == |ss| == |ys|;
      forall i | 0 <= i < |xs| ensures xs[i] == ys[i] { assert ss[i] == ts[i]; }
    }
  }

  lemma FieldsApart(f: Field, g: Field)
    requires Apart(Print(f.value), Print(g.value)) && (Print(f.value) == Print(g.value) ==> f.value == g.value)
    ensures Apart(FieldText(f), FieldText(g))
    ensures FieldText(f) == FieldText(g) ==> f == g
  {
    forall ra: Text, rb: Text | Follows(ra) && Follows(rb) && FieldText(f) + ra == FieldText(g) + rb
      ensures FieldText(f) == FieldText(g) && ra == rb && f == g
    {
      FieldsRead(f, g, ra, rb);
    }
    if FieldText(f) == FieldText(g) {
      assert FieldText(f) + [] == FieldText(g) + [];
    }
  }

  lemma FieldsRead(f: Field, g: Field, ra: Text, rb: Text)
    requires Apart(Print(f.value), Print(g.value)) && (Print(f.value) == Print(g.value) ==> f.value == g.value)
    requires Follows(ra) && Follows(rb) && FieldText(f) + ra == FieldText(g) + rb
    ensures f == g && ra == rb
  {
    hide Quote, Print;
    var va, vb := Print(f.value) + ra, Print(g.value) + rb;
    assert FieldText(f) + ra == Quote(f.key) + ([COLON] + va);
    assert FieldText(g) + rb == Quote(g.key) + ([COLON] + vb);
    QuotesRead(f.key, g.key, [COLON] + va, [COLON] + vb);
    assert ([COLON] + va)[1..] == va && ([COLON] + vb)[1..] == vb;
    UseApart(Print(f.value), Print(g.value), ra, rb);
  }

  lemma ListsRead(ss: seq<Text>, ts: seq<Text>, open: Unit, close: Unit, ra: Text, rb: Text)
    requires Closer(close) && Listable(ss) && Listable(ts)
    requires forall i, j :: 0 <= i < |ss| && 0 <= j < |ts| ==> Apart(ss[i], ts[j])
    requires [open] + Join(ss) + [close] + ra == [open] + Join(ts) + [close] + rb
    ensures ss == ts && ra == rb
  {
    hide Apart, Join, Listable;
    assert ([open] + Join(ss) + [close] + ra)[1..] == Join(ss) + [close] + ra;
    assert ([open] + Join(ts) + [close] + rb)[1..] == Join(ts) + [close] + rb;
    JoinApart(ss, ts, close, ra, rb);
  }

  /** Bracketed lists of texts that are pairwise apart are apart themselves. */
  lemma ListsApart(ss: seq<Text>, ts: seq<Text>, open: Unit, close: Unit)
    requires Closer(close) && Listable(ss) && Listable(ts)
    requires forall i, j :: 0 <= i < |ss| && 0 <= j < |ts| ==> Apart(ss[i], ts[j])
    ensures Apart([open] + Join(ss) + [close], [open] + Join(ts) + [close])
    ensures [open] + Join(ss) + [close] == [open] + Join(ts) + [close] ==> ss == ts
  {
    hide Apart, Join, Listable;
    var s, t := [open] + Join(ss) + [close], [open] + Join(ts) + [close];
    forall ra: Text, rb: Text | s + ra == t + rb ensures ss == ts && ra == rb {
      ListsRead(ss, ts, open, close, ra, rb);
    }
    if s == t {
      ListsRead(ss, ts, open, close, [], []);
    }
    MakeApart(s, t);
  }

  lemma MakeApart(s: Text, t: Text)
    requires forall ra: Text, rb: Text :: s + ra == t + rb ==> s == t && ra == rb
    ensures Apart(s, t)
  {
  }

  // ----- arranging the keys

  /** The value with the kept keys of every object in sorted order. */
  function Arranged(v: Json, le: (Text, Text) -> bool, keep: Text -> bool): Json {
    match v
    case Arr(items) => Arr(seq(|items|, i requires 0 <= i < |items| => Arranged(items[i], le, keep)))
    case Obj(fields) =>
      var keys := KeysInOrder(fields, le, keep);
      Obj(seq(|keys|, i requires 0 <= i < |keys| => Field(keys[i], Arranged(Entry(fields, keys[i]).value, le, keep))))
    case _ => v
  }

  lemma KeysInOrderSorted(fields: seq<Field>, le: (Text, Text) -> bool, keep: Text -> bool)
    requires TotalOrder(le) && Distinct(Keys(fields))
    ensures var keys := KeysInOrder(fields, le, keep);
            Distinct(keys) && Sorted(keys, le) && NoTies(keys, le)
  {
    var kept := Filter(Keys(fields), keep);
    FilterDistinct(Keys(fields), keep);
    SortSorted(kept, le);
    MultisetDistinct(kept, Sort(kept, le));
  }

  /** Objects with the same kept keys have them in the same order. */
  lemma SameKeysInOrder(fields: seq<Field>, others: seq<Field>, le: (Text, Text) -> bool, keep: Text -> bool)
    requires TotalOrder(le) && Distinct(Keys(fields)) && Distinct(Keys(others))
    requires forall k :: keep(k) ==> (k in Keys(fields) <==> k in Keys(others))
    ensures KeysInOrder(fields, le, keep) == KeysInOrder(others, le, keep)
  {
    var a, b := KeysInOrder(fields, le, keep), KeysInOrder(others, le, keep);
    KeysInOrderSorted(fields, le, keep);
    KeysInOrderSorted(others, le, keep);
    DistinctMultisets(a, b);
    SortedUnique(a, b, le);
  }

  lemma EntryOf(fields: seq<Field>, i: nat)
    requires Distinct(Keys(fields)) && i < |fields|
    ensures fields[i].key in Keys(fields) && Entry(fields, fields[i].key) == fields[i]
  {
    assert Keys(fields)[i] == fields[i].key;
    var j := IndexOf(fields, fields[i].key);
    assert Keys(fields)[j] == fields[j].key;
  }

  lemma {:induction false} ArrangedWellFormed(v: Json, le: (Text, Text) -> bool, keep: Text -> bool)
    requires TotalOrder(le) && WellFormed(v)
    ensures WellFormed(Arranged(v, le, keep))
    decreases v
  {
    match v
    case Arr(items) =>
      forall i | 0 <= i < |items| ensures WellFormed(Arranged(items[i], le, keep)) {
        ArrangedWellFormed(items[i], le, keep);
      }
    case Obj(fields) =>
      var keys := KeysInOrder(fields, le, keep);
      KeysInOrderSorted(fields, le, keep);
      forall i | 0 <= i < |keys| ensures WellFormed(Arranged(Entry(fields, keys[i]).value, le, keep)) {
        ArrangedWellFormed(Entry(fields, keys[i]).value, le, keep);
      }
      assert Keys(Arranged(v, le, keep).fields) == keys;
    case _ =>
  }

  lemma ObjectsArranged(fields: seq<Field>, others: seq<Field>, le: (Text, Text) -> bool, keep: Text -> bool)
    requires KeysInOrder(fields, le, keep) == KeysInOrder(others, le, keep)
    requires forall k :: keep(k) && k in Keys(fields) && k in Keys(others) ==>
               Arranged(Entry(fields, k).value, le, keep) == Arranged(Entry(others, k).value, le, keep)
    ensures Arranged(Obj(fields), le, keep) == Arranged(Obj(others), le, keep)
  {
    hide KeysInOrder, Entry;
    var keys := KeysInOrder(fields, le, keep);
    var a, b := Arranged(Obj(fields), le, keep).fields, Arranged(Obj(others), le, keep).fields;
    forall i | 0 <= i < |keys| ensures a[i] == b[i] {
      assert keys[i] in keys;
    }
  }

  /** Structurally equal values are arranged alike. */
  lemma {:induction false} SameArranged(a: Json, b: Json, le: (Text, Text) -> bool, keep: Text -> bool)
    requires TotalOrder(le) && WellFormed(a) && WellFormed(b) && Same(a, b, keep)
    ensures Arranged(a, le, keep) == Arranged(b, le, keep)
    decreases a
  {
    match a
    case Arr(items) =>
      forall i | 0 <= i < |items| ensures Arranged(items[i], le, keep) == Arranged(b.items[i], le, keep) {
        SameArranged(items[i], b.items[i], le, keep);
      }
    case Obj(fields) =>
      SameKeysInOrder(fields, b.fields, le, keep);
      forall k | keep(k) && k in Keys(fields) && k in Keys(b.fields)
        ensures Arranged(Entry(fields, k).value, le, keep) == Arranged(Entry(b.fields, k).value, le, keep)
      {
        SameArranged(Entry(fields, k).value, Entry(b.fields, k).value, le, keep);
      }
      ObjectsArranged(fields, b.fields, le, keep);
    case _ =>
  }

  /** And only those. */
  lemma {:induction false} ArrangedSame(a: Json, b: Json, le: (Text, Text) -> bool, keep: Text -> bool)
    requires Arranged(a, le, keep) == Arranged(b, le, keep)
    ensures Same(a, b, keep)
    decreases a
  {
    match a
    case Arr(items) =>
      forall i | 0 <= i < |items| ensures Same(items[i], b.items[i], keep) {
        assert Arranged(a, le, keep).items[i] == Arranged(b, le, keep).items[i];
        ArrangedSame(items[i], b.items[i], le, keep);
      }
    case Obj(fields) =>
      ArrangedKeys(fields, b.fields, le, keep);
      forall k | keep(k) && k in Keys(fields) && k in Keys(b.fields)
        ensures Same(Entry(fields, k).value, Entry(b.fields, k).value, keep)
      {
        ArrangedEntry(fields, b.fields, le, keep, k);
        ArrangedSame(Entry(fields, k).value, Entry(b.fields, k).value, le, keep);
      }
    case _ =>
  }

  lemma ArrangedKeys(fields: seq<Field>, others: seq<Field>, le: (Text, Text) -> bool, keep: Text -> bool)
    requires Arranged(Obj(fields), le, keep) == Arranged(Obj(others), le, keep)
    ensures KeysInOrder(fields, le, keep) == KeysInOrder(others, le, keep)
    ensures forall k :: keep(k) ==> (k in Keys(fields) <==> k in Keys(others))
  {
    hide KeysInOrder, Entry;
    var a, b := Arranged(Obj(fields), le, keep).fields, Arranged(Obj(others), le, keep).fields;
    assert Keys(a) == KeysInOrder(fields, le, keep) && Keys(b) == KeysInOrder(others, le, keep);
    forall k | keep(k) ensures k in Keys(fields) <==> k in Keys(others) {
      assert k in Keys(a) <==> k in Keys(b);
    }
  }

  lemma ArrangedEntry(fields: seq<Field>, others: seq<Field>, le: (Text, Text) -> bool, keep: Text -> bool, k: Text)
    requires Arranged(Obj(fields), le, keep) == Arranged(Obj(others), le, keep)
    requires keep(k) && k in Keys(fields) && k in Keys(others)
    ensures Arranged(Entry(fields, k).value, le, keep) == Arranged(Entry(others, k).value, le, keep)
  {
    ArrangedKeys(fields, others, le, keep);
    hide KeysInOrder, Entry;
    var keys := KeysInOrder(fields, le, keep);
    var i :| 0 <= i < |keys| && keys[i] == k;
    assert Arranged(Obj(fields), le, keep).fields[i] == Arranged(Obj(others), le, keep).fields[i];
  }

  /** Arranging twice is arranging once. */
  lemma {:induction false} ArrangedTwice(v: Json, le: (Text, Text) -> bool, keep: Text -> bool)
    requires TotalOrder(le) && WellFormed(v)
    ensures Arranged(Arranged(v, le, keep), le, keep) == Arranged(v, le, keep)
    decreases v
  {
    ArrangedWellFormed(v, le, keep);
    SameAsArranged(v, le, keep);
    SameArranged(v, Arranged(v, le, keep), le, keep);
  }

  /** A value is structurally equal to its arrangement. */
  lemma {:induction false} SameAsArranged(v: Json, le: (Text, Text) -> bool, keep: Text -> bool)
    requires TotalOrder(le) && WellFormed(v)
    ensures Same(v, Arranged(v, le, keep), keep)
    decreases v
  {
    match v
    case Arr(items) =>
      forall i | 0 <= i < |items| ensures Same(items[i], Arranged(items[i], le, keep), keep) {
        SameAsArranged(items[i], le, keep);
      }
    case Obj(fields) =>
      var arranged := Arranged(v, le, keep).fields;
      var keys := KeysInOrder(fields, le, keep);
      assert Keys(arranged) == keys;
      KeysInOrderSorted(fields, le, keep);
      forall k | keep(k) && k in Keys(fields) && k in Keys(arranged)
        ensures Same(Entry(fields, k).value, Entry(arranged, k).value, keep)
      {
        var i :| 0 <= i < |arranged| && Keys(arranged)[i] == k;
        EntryOf(arranged, i);
        SameAsArranged(Entry(fields, k).value, le, keep);
      }
    case _ =>
  }

  /** Printing an arrangement tells values apart exactly up to structural equality. */
  lemma PrintedArrangement(a: Json, b: Json, le: (Text, Text) -> bool, keep: Text -> bool)
    requires TotalOrder(le) && WellFormed(a) && WellFormed(b)
    ensures Print(Arranged(a, le, keep)) == Print(Arranged(b, le, keep)) <==> Same(a, b, keep)
  {
    ArrangedWellFormed(a, le, keep);
    ArrangedWellFormed(b, le, keep);
    PrintApart(Arranged(a, le, keep), Arranged(b, le, keep));
    if Same(a, b, keep) { SameArranged(a, b, le, keep); }
    if Arranged(a, le, keep) == Arranged(b, le, keep) { ArrangedSame(a, b, le, keep); }
  }

  // ----- the migration's equality test

  lemma {:induction false} StableIsPrintOfArranged(v: Json)
    ensures StableStringify(v) == Print(Arranged(v, LexLe, Every()))
    decreases v
  {
    hide Quote, KeysInOrder, Join, Atom, LexLe, IndexOf;
    match v
    case Arr(items) =>
      var arranged := Arranged(v, LexLe, Every()).items;
      forall i | 0 <= i < |items| ensures StableStringify(items[i]) == Print(arranged[i]) {
        StableIsPrintOfArranged(items[i]);
      }
      assert seq(|items|, i requires 0 <= i < |items| => StableStringify(items[i])) ==
             seq(|arranged|, i requires 0 <= i < |arranged| => Print(arranged[i]));
    case Obj(fields) =>
      var keys := KeysInOrder(fields, LexLe, Every());
      var arranged := Arranged(v, LexLe, Every()).fields;
      forall i | 0 <= i < |keys| ensures StableStringify(Entry(fields, keys[i]).value) == Print(arranged[i].value) {
        StableIsPrintOfArranged(Entry(fields, keys[i]).value);
      }
      assert seq(|keys|, i requires 0 <= i < |keys| => Quote(keys[i]) + [COLON] + StableStringify(Entry(fields, keys[i]).value)) ==
             seq(|arranged|, i requires 0 <= i < |arranged| => Quote(arranged[i].key) + [COLON] + Print(arranged[i].value));
    case _ =>
  }

  /** The text comparison of the migration is structural equality: no two different items have the
      same text, and the order of keys makes no difference at any depth. */
  lemma ItemsDeepEqualIsSame(left: Json, right: Json)
    requires WellFormed(left) && WellFormed(right)
    ensures ItemsDeepEqual(left, right) <==> Same(left, right, Every())
  {
    LexIsTotalOrder();
    StableIsPrintOfArranged(left);
    StableIsPrintOfArranged(right);
    PrintedArrangement(left, right, LexLe, Every());
  }
}
