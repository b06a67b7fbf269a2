/** The canonical form of a JSON value that is hashed for fingerprints: every object rebuilt by
    assigning its keys in sorted order, then printed in enumeration order. */
module CanonicalJson {
  import opened Ordering
  import opened JsonText
  import opened JsonPrinter

  /** `__proto__`: assigning to it sets the prototype and adds no key. */
  const PROTO: Text := [95, 95, 112, 114, 111, 116, 111, 95, 95]

  /** 4294967294, the largest array index. */
  const MAX_INDEX: Text := [52, 50, 57, 52, 57, 54, 55, 50, 57, 52]

  /** The keys that an object enumerates first, in ascending numeric order (ECMA-262,
      OrdinaryOwnPropertyKeys). */
  predicate IsIndex(key: Text) {
    && key != []
    && (forall i :: 0 <= i < |key| ==> 48 <= key[i] <= 57)
    && (key[0] != 48 || |key| == 1)
    && (|key| < |MAX_INDEX| || (|key| == |MAX_INDEX| && LexLe(key, MAX_INDEX)))
  }

  /** The numeric order of numerals without leading zeros. */
  predicate NumeralLe(a: Text, b: Text) { |a| < |b| || (|a| == |b| && LexLe(a, b)) }

  /** The enumeration order of keys that were assigned in sorted order. */
  predicate EnumLe(a: Text, b: Text) {
    if IsIndex(a) then !IsIndex(b) || NumeralLe(a, b) else !IsIndex(b) && LexLe(a, b)
  }

  // ----- the keys that are array indices

  /** The decimal numeral of a number. */
  function Numeral(n: nat): Text {
    if n < 10 then [48 + n] else Numeral(n / 10) + [48 + n % 10]
  }

  predicate Digits(t: Text) { forall i :: 0 <= i < |t| ==> 48 <= t[i] <= 57 }

  /** A numeral without a leading zero. */
  predicate IsNumeral(t: Text) { t != [] && Digits(t) && (t[0] != 48 || |t| == 1) }

  function Value(t: Text): nat
    requires Digits(t)
  {
    if t == [] then 0 else 10 * Value(t[..|t| - 1]) + (t[|t| - 1] - 48)
  }

  function Ten(n: nat): nat { if n == 0 then 1 else 10 * Ten(n - 1) }

  lemma {:induction false} NumeralReads(n: nat)
    ensures IsNumeral(Numeral(n)) && Value(Numeral(n)) == n
    ensures n > 0 ==> Numeral(n)[0] != 48
  {
    if n < 10 {
      assert Numeral(n)[..0] == [];
    } else {
      NumeralReads(n / 10);
      assert Numeral(n)[..|Numeral(n)| - 1] == Numeral(n / 10);
    }
  }

  /** A value starts with its first digit, and is below the power of ten of its length. */
  lemma {:induction false} ValueFirst(t: Text)
    requires Digits(t) && t != []
    ensures Value(t) == (t[0] - 48) * Ten(|t| - 1) + Value(t[1..])
    ensures Value(t[1..]) < Ten(|t| - 1)
  {
    if |t| == 1 {
      assert t[..0] == [] && t[1..] == [];
    } else {
      var front := t[..|t| - 1];
      ValueFirst(front);
      assert front[1..] == t[1..][..|t| - 2] && t[1..][|t| - 2] == t[|t| - 1];
      assert Ten(|t| - 1) == 10 * Ten(|t| - 2);
      Distribute(t[0] - 48, Ten(|t| - 2));
    }
  }

  lemma Distribute(d: int, p: int)
    ensures 10 * (d * p) == d * (10 * p)
  {
  }

  lemma {:induction false} ReadsBack(t: Text)
    requires IsNumeral(t)
    ensures Numeral(Value(t)) == t
  {
    if |t| == 1 {
      assert t[..0] == [];
    } else {
      var front := t[..|t| - 1];
      ReadsBack(front);
      NotZero(front);
      hide Numeral, Ten;
      NumeralAppends(Value(front), t[|t| - 1] - 48);
      assert t == front + [t[|t| - 1]];
    }
  }

  lemma NumeralAppends(n: nat, digit: nat)
    requires n >= 1 && digit < 10
    ensures Numeral(10 * n + digit) == Numeral(n) + [48 + digit]
  {
    assert (10 * n + digit) / 10 == n && (10 * n + digit) % 10 == digit;
  }

  lemma NotZero(t: Text)
    requires Digits(t) && t != [] && t[0] != 48
    ensures Value(t) >= Ten(|t| - 1) >= 1
  {
    ValueFirst(t);
    TenPositive(|t| - 1);
    AtLeastOnce(t[0] - 48, Ten(|t| - 1));
  }

  lemma AtLeastOnce(d: int, p: int)
    requires d >= 1 && p >= 0
    ensures d * p >= p
  {
  }

  lemma {:induction false} TenPositive(n: nat)
    ensures Ten(n) >= 1
  {
    if n > 0 { TenPositive(n - 1); }
  }

  lemma {:induction false} TenGrows(n: nat, m: nat)
    requires n <= m
    ensures Ten(n) <= Ten(m)
    decreases m
  {
    if n < m { TenGrows(n, m - 1); TenPositive(m - 1); }
  }

  lemma BelowTen(t: Text)
    requires Digits(t)
    ensures Value(t) < Ten(|t|)
  {
    if t != [] {
      ValueFirst(t);
      AtMost(t[0] - 48, 9, Ten(|t| - 1));
      assert Ten(|t|) == 10 * Ten(|t| - 1);
    }
  }

  lemma AtMost(d: int, e: int, p: int)
    requires d <= e && p >= 0
    ensures d * p <= e * p
  {
    assert (e - d) * p >= 0;
  }

  /** Digits of one length are in order as texts exactly as they are as numbers. */
  lemma {:induction false} SameLengthOrder(a: Text, b: Text)
    requires Digits(a) && Digits(b) && |a| == |b|
    ensures LexLe(a, b) <==> Value(a) <= Value(b)
  {
    if a != [] {
      var p := Ten(|a| - 1);
      ValueFirst(a);
      ValueFirst(b);
      if a[0] == b[0] {
        SameLengthOrder(a[1..], b[1..]);
      } else if a[0] < b[0] {
        AtMost(a[0] - 48 + 1, b[0] - 48, p);
        OneMore(a[0] - 48, p);
      } else {
        AtMost(b[0] - 48 + 1, a[0] - 48, p);
        OneMore(b[0] - 48, p);
      }
    }
  }

  lemma OneMore(d: int, p: int)
    ensures (d + 1) * p == d * p + p
  {
  }

  /** The numeral order is the order of the numbers. */
  lemma NumeralOrder(a: Text, b: Text)
    requires IsNumeral(a) && IsNumeral(b)
    ensures NumeralLe(a, b) <==> Value(a) <= Value(b)
  {
    hide LexLe, Value, Ten;
    if |a| == |b| {
      SameLengthOrder(a, b);
    } else if |a| < |b| {
      BelowTen(a);
      NotZero(b);
      TenGrows(|a|, |b| - 1);
    } else {
      BelowTen(b);
      NotZero(a);
      TenGrows(|b|, |a| - 1);
    }
  }

  lemma MaxIndex()
    ensures IsNumeral(MAX_INDEX) && Numeral(4294967294) == MAX_INDEX && Value(MAX_INDEX) == 4294967294
  {
    assert Numeral(42949) == [52, 50, 57, 52, 57];
    assert Numeral(4294967294) == MAX_INDEX;
    NumeralReads(4294967294);
  }

  /** A key is enumerated as an index exactly if it is the numeral of a number up to 4294967294, and two such keys
      are in the order of their numbers. */
  lemma IndexIff(key: Text)
    ensures IsIndex(key) <==> exists n: nat :: n <= 4294967294 && Numeral(n) == key
  {
    MaxIndex();
    hide Value, Numeral, LexLe;
    if IsNumeral(key) {
      NumeralOrder(key, MAX_INDEX);
      ReadsBack(key);
    }
    forall n: nat | Numeral(n) == key ensures IsNumeral(key) && Value(key) == n { NumeralReads(n); }
  }

  lemma IndicesInOrder(n: nat, m: nat)
    requires n <= 4294967294 && m <= 4294967294
    ensures EnumLe(Numeral(n), Numeral(m)) <==> n <= m
  {
    IndexIff(Numeral(n));
    IndexIff(Numeral(m));
    NumeralReads(n);
    NumeralReads(m);
    NumeralOrder(Numeral(n), Numeral(m));
    hide IsIndex, Numeral, Value, LexLe;
  }

  /** And every other key comes after all of them, in the order of texts. */
  lemma OthersInOrder(a: Text, b: Text)
    requires !IsIndex(a)
    ensures EnumLe(a, b) <==> !IsIndex(b) && LexLe(a, b)
  {
  }

  lemma ProtoKey()
    ensures PROTO == Units("__proto__")
  {
  }

  function OwnKey(): Text -> bool { k => k != PROTO }

  lemma EnumIsTotalOrder()
    ensures TotalOrder(EnumLe)
  {
    LexIsTotalOrder();
    hide IsIndex, LexLe;
  }

  function InsertIndex(fields: seq<Field>, f: Field): seq<Field> {
    if fields == [] || !IsIndex(fields[0].key) || NumeralLe(f.key, fields[0].key) then [f] + fields
    else [fields[0]] + InsertIndex(fields[1..], f)
  }

  /** Assigning a property of a plain object. */
  function Assign(fields: seq<Field>, key: Text, value: Json): seq<Field> {
    if key == PROTO then fields
    else if key in Keys(fields) then fields[IndexOf(fields, key) := Field(key, value)]
    else if IsIndex(key) then InsertIndex(fields, Field(key, value))
    else fields + [Field(key, value)]
  }

  /** Assigning a property of a plain object: it has the value from then on, unless it is the prototype key, and
      every other property keeps its own. */
  lemma AssignReads(fields: seq<Field>, key: Text, value: Json, other: Text)
    requires Distinct(Keys(fields))
    ensures var after := Assign(fields, key, value);
            && (other in Keys(after) <==> other in Keys(fields) || (other == key && key != Units("__proto__")))
            && (forall f :: f in after <==>
                  (f in fields && (f.key != key || key == Units("__proto__")))
                  || (f == Field(key, value) && key != Units("__proto__")))
  {
    ProtoKey();
    var after := Assign(fields, key, value);
    forall k, list: seq<Field> ensures k in Keys(list) <==> exists f :: f in list && f.key == k { KeyOfField(list, k); }
    if key != PROTO && key in Keys(fields) {
      Replaced(fields, IndexOf(fields, key), value);
    } else if key != PROTO && IsIndex(key) {
      InsertedIndex(fields, Field(key, value));
    }
  }

  lemma KeyOfField(fields: seq<Field>, key: Text)
    ensures key in Keys(fields) <==> exists f :: f in fields && f.key == key
  {
    if key in Keys(fields) {
      var i :| 0 <= i < |fields| && Keys(fields)[i] == key;
      assert fields[i] in fields;
    }
    if f :| f in fields && f.key == key {
      var i :| 0 <= i < |fields| && fields[i] == f;
      assert Keys(fields)[i] == key;
    }
  }

  lemma Replaced(fields: seq<Field>, i: nat, value: Json)
    requires i < |fields| && Distinct(Keys(fields))
    ensures forall f :: f in fields[i := Field(fields[i].key, value)] <==>
              (f in fields && f.key != fields[i].key) || f == Field(fields[i].key, value)
  {
    var after := fields[i := Field(fields[i].key, value)];
    forall f | f in after ensures (f in fields && f.key != fields[i].key) || f == Field(fields[i].key, value) {
      var j :| 0 <= j < |after| && after[j] == f;
      if j != i { assert Keys(fields)[j] != Keys(fields)[i]; }
    }
    forall f | f in fields && f.key != fields[i].key ensures f in after {
      var j :| 0 <= j < |fields| && fields[j] == f;
      assert after[j] == f;
    }
    assert after[i] == Field(fields[i].key, value);
  }

  lemma {:induction false} InsertedIndex(fields: seq<Field>, f: Field)
    ensures forall g :: g in InsertIndex(fields, f) <==> g in fields || g == f
  {
    if fields != [] && IsIndex(fields[0].key) && !NumeralLe(f.key, fields[0].key) {
      InsertedIndex(fields[1..], f);
      assert fields == [fields[0]] + fields[1..];
    }
  }

  function Canonical(v: Json): Json { Arranged(v, EnumLe, OwnKey()) }

  function FingerprintText(v: Json): Text { Print(Canonical(v)) }

  method CanonicalizeJsonValue(v: Json) returns (r: Json)
    requires WellFormed(v)
    ensures r == Canonical(v)
    decreases v
  {
    match v {
      case Arr(items) =>
        var mapped: seq<Json> := [];
        for i := 0 to |items|
          invariant |mapped| == i && forall j :: 0 <= j < i ==> mapped[j] == Canonical(items[j])
        {
          var entry := CanonicalizeJsonValue(items[i]);
          mapped := mapped + [entry];
        }
        r := Arr(mapped);
        assert mapped == Canonical(v).items;
      case Obj(fields) =>
        r := CanonicalizeObject(fields);
      case _ =>
        r := v;
    }
  }

  method CanonicalizeObject(fields: seq<Field>) returns (r: Json)
    requires WellFormed(Obj(fields))
    ensures r == Canonical(Obj(fields))
    decreases fields
  {
    hide Sort, Filter, LexLe, EnumLe, Canonical, Assign, Entry;
    var sortedKeys := Sort(Keys(fields), LexLe);
    SortedKeys(fields);
    PlacedNone();
    var canonical: seq<Field> := [];
    for i := 0 to |sortedKeys|
      invariant canonical == Rebuilt(fields, Placed(sortedKeys[..i]))
    {
      var key := sortedKeys[i];
      var entry := CanonicalizeJsonValue(Entry(fields, key).value);
      canonical := Assign(canonical, key, entry);
      AssignedNext(fields, sortedKeys, i);
    }
    assert sortedKeys[..|sortedKeys|] == sortedKeys;
    AllPlaced(fields, sortedKeys);
    r := Obj(canonical);
  }

  // ----- the loop rebuilds the arranged object

  /** The keys of an object to which these were assigned in turn. */
  function Placed(keys: seq<Text>): (r: seq<Text>) { Sort(Filter(keys, OwnKey()), EnumLe) }

  function CanonicalEntry(fields: seq<Field>, key: Text): Field {
    Field(key, if key in Keys(fields) then Canonical(Entry(fields, key).value) else Null)
  }

  /** The object with these keys and the canonical values. */
  function Rebuilt(fields: seq<Field>, keys: seq<Text>): (r: seq<Field>)
    ensures Keys(r) == keys
  {
    seq(|keys|, i requires 0 <= i < |keys| => CanonicalEntry(fields, keys[i]))
  }

  lemma PlacedNone()
    ensures Placed([]) == []
  {
  }

  lemma PlacedMembers(keys: seq<Text>)
    ensures forall k :: k in Placed(keys) <==> k in keys && k != PROTO
  {
    SameMembers(Placed(keys), Filter(keys, OwnKey()));
  }

  lemma SortedKeys(fields: seq<Field>)
    requires Distinct(Keys(fields))
    ensures var keys := Sort(Keys(fields), LexLe);
            && Distinct(keys) && Sorted(keys, LexLe)
            && (forall k :: k in keys <==> k in Keys(fields))
  {
    var keys := Sort(Keys(fields), LexLe);
    LexIsTotalOrder();
    SortSorted(Keys(fields), LexLe);
    MultisetDistinct(Keys(fields), keys);
    SameMembers(keys, Keys(fields));
  }

  lemma PlacedAll(fields: seq<Field>, keys: seq<Text>)
    requires Distinct(Keys(fields)) && Distinct(keys) && forall k :: k in keys <==> k in Keys(fields)
    ensures Placed(keys) == KeysInOrder(fields, EnumLe, OwnKey())
  {
    hide Sort, IsIndex, LexLe;
    var kept, kept' := Filter(keys, OwnKey()), Filter(Keys(fields), OwnKey());
    FilterDistinct(keys, OwnKey());
    FilterDistinct(Keys(fields), OwnKey());
    DistinctMultisets(kept, kept');
    EnumIsTotalOrder();
    SortOfPermutation(kept, kept', EnumLe);
  }

  lemma AllPlaced(fields: seq<Field>, keys: seq<Text>)
    requires Distinct(Keys(fields)) && Distinct(keys) && forall k :: k in keys <==> k in Keys(fields)
    ensures Obj(Rebuilt(fields, Placed(keys))) == Canonical(Obj(fields))
  {
    hide Placed, KeysInOrder, Entry, EnumLe;
    PlacedAll(fields, keys);
    var a, b := Rebuilt(fields, Placed(keys)), Canonical(Obj(fields)).fields;
    forall i | 0 <= i < |a| ensures a[i] == b[i] {
    }
  }

  lemma {:induction false} InsertLast(x: Text, s: seq<Text>)
    requires forall y :: y in s ==> !EnumLe(x, y)
    ensures Insert(x, s, EnumLe) == s + [x]
  {
    if s != [] { InsertLast(x, s[1..]); }
  }

  /** Sorting with one more element at the end is inserting it. */
  lemma SortWithLast(s: seq<Text>, x: Text)
    ensures Sort(s + [x], EnumLe) == Insert(x, Sort(s, EnumLe), EnumLe)
  {
    EnumIsTotalOrder();
    SortSorted(s + [x], EnumLe);
    SortSorted(s, EnumLe);
    InsertSorted(x, Sort(s, EnumLe), EnumLe);
    SortedUnique(Sort(s + [x], EnumLe), Insert(x, Sort(s, EnumLe), EnumLe), EnumLe);
  }

  lemma FilterOne(key: Text)
    ensures Filter([key], OwnKey()) == if key == PROTO then [] else [key]
  {
  }

  lemma PlacedNext(keys: seq<Text>, i: nat)
    requires i < |keys|
    ensures Placed(keys[..i + 1]) ==
            if keys[i] == PROTO then Placed(keys[..i]) else Insert(keys[i], Placed(keys[..i]), EnumLe)
  {
    var front := Filter(keys[..i], OwnKey());
    assert Filter(keys[..i + 1], OwnKey()) == if keys[i] == PROTO then front else front + [keys[i]] by {
      assert keys[..i + 1] == keys[..i] + [keys[i]];
      FilterJoin(keys[..i], [keys[i]], OwnKey());
      FilterOne(keys[i]);
    }
    SortWithLast(front, keys[i]);
  }

  lemma {:induction false} InsertIndexPlaces(fields: seq<Field>, keys: seq<Text>, key: Text)
    requires IsIndex(key)
    ensures InsertIndex(Rebuilt(fields, keys), CanonicalEntry(fields, key)) == Rebuilt(fields, Insert(key, keys, EnumLe))
  {
    hide IsIndex, LexLe, CanonicalEntry;
    assert CanonicalEntry(fields, key).key == key by { EntryKey(fields, key); }
    if keys != [] {
      EntryKey(fields, keys[0]);
      assert Rebuilt(fields, keys)[1..] == Rebuilt(fields, keys[1..]);
      InsertIndexPlaces(fields, keys[1..], key);
      RebuiltJoin(fields, [keys[0]], Insert(key, keys[1..], EnumLe));
      RebuiltJoin(fields, [key], keys);
    }
  }

  lemma EntryKey(fields: seq<Field>, key: Text)
    ensures CanonicalEntry(fields, key).key == key
  {
  }

  lemma RebuiltJoin(fields: seq<Field>, front: seq<Text>, back: seq<Text>)
    ensures Rebuilt(fields, front + back) == Rebuilt(fields, front) + Rebuilt(fields, back)
  {
  }

  /** A key that is no index enumerates after all the keys before it. */
  lemma LaterKey(keys: seq<Text>, i: nat, done: seq<Text>)
    requires Distinct(keys) && Sorted(keys, LexLe) && i < |keys| && !IsIndex(keys[i])
    requires forall k :: k in done ==> k in keys[..i]
    ensures forall y :: y in done ==> !EnumLe(keys[i], y)
  {
    hide IsIndex, LexLe;
    forall y | y in done ensures !EnumLe(keys[i], y) {
      var j :| 0 <= j < i && keys[j] == y;
      LexTotal(y, keys[i]);
    }
  }

  lemma AssignedNext(fields: seq<Field>, keys: seq<Text>, i: nat)
    requires Distinct(keys) && Sorted(keys, LexLe) && i < |keys| && keys[i] in Keys(fields)
    ensures Assign(Rebuilt(fields, Placed(keys[..i])), keys[i], Canonical(Entry(fields, keys[i]).value)) ==
            Rebuilt(fields, Placed(keys[..i + 1]))
  {
    var key, done := keys[i], Placed(keys[..i]);
    PlacedNext(keys, i);
    PlacedMembers(keys[..i]);
    hide Placed, IsIndex, LexLe, EnumLe, Entry, Canonical, InsertIndex, Insert, IndexOf;
    assert key !in keys[..i];
    hide Sorted, Distinct;
    assert key !in Keys(Rebuilt(fields, done));
    if key != PROTO {
      if IsIndex(key) {
        InsertIndexPlaces(fields, done, key);
      } else {
        LaterKey(keys, i, done);
        InsertLast(key, done);
        RebuiltJoin(fields, done, [key]);
      }
    }
  }

  // ----- what the canonical form keeps

  lemma CanonicalIdempotent(v: Json)
    requires WellFormed(v)
    ensures Canonical(Canonical(v)) == Canonical(v)
  {
    EnumIsTotalOrder();
    ArrangedTwice(v, EnumLe, OwnKey());
  }

  /** Two values have the same text exactly when they agree in structure on every key but `__proto__`. */
  lemma FingerprintTextIff(a: Json, b: Json)
    requires WellFormed(a) && WellFormed(b)
    ensures FingerprintText(a) == FingerprintText(b) <==> Same(a, b, OwnKey())
  {
    EnumIsTotalOrder();
    PrintedArrangement(a, b, EnumLe, OwnKey());
  }

  lemma {:induction false} SameKept(a: Json, b: Json, keep: Text -> bool)
    requires Same(a, b, Every())
    ensures Same(a, b, keep)
    decreases a
  {
    match a
    case Arr(items) =>
      forall i | 0 <= i < |items| ensures Same(items[i], b.items[i], keep) { SameKept(items[i], b.items[i], keep); }
    case Obj(fields) =>
      forall k | keep(k) ensures k in Keys(fields) <==> k in Keys(b.fields) { assert Every()(k); }
      forall k | keep(k) && k in Keys(fields) && k in Keys(b.fields)
        ensures Same(Entry(fields, k).value, Entry(b.fields, k).value, keep)
      {
        assert Every()(k);
        SameKept(Entry(fields, k).value, Entry(b.fields, k).value, keep);
      }
    case _ =>
  }

  /** Permuting keys at any depth leaves the text unchanged. */
  lemma KeyOrderDoesNotMatter(a: Json, b: Json)
    requires WellFormed(a) && WellFormed(b) && Same(a, b, Every())
    ensures FingerprintText(a) == FingerprintText(b)
  {
    SameKept(a, b, OwnKey());
    FingerprintTextIff(a, b);
  }

  ghost predicate NoProto(v: Json) {
    match v
    case Arr(items) => forall i :: 0 <= i < |items| ==> NoProto(items[i])
    case Obj(fields) => forall k :: k in Keys(fields) ==> k != PROTO && NoProto(Entry(fields, k).value)
    case _ => true
  }

  lemma {:induction false} CanonicalNoProto(v: Json)
    requires WellFormed(v)
    ensures NoProto(Canonical(v))
    decreases v
  {
    match v
    case Arr(items) =>
      forall i | 0 <= i < |items| ensures NoProto(Canonical(items[i])) { CanonicalNoProto(items[i]); }
    case Obj(fields) =>
      var arranged := Canonical(v).fields;
      var keys := KeysInOrder(fields, EnumLe, OwnKey());
      EnumIsTotalOrder();
      ArrangedWellFormed(v, EnumLe, OwnKey());
      forall k | k in Keys(arranged) ensures k != PROTO && NoProto(Entry(arranged, k).value) {
        var i :| 0 <= i < |arranged| && Keys(arranged)[i] == k;
        EntryOf(arranged, i);
        assert keys[i] == k && k in keys;
        CanonicalNoProto(Entry(fields, k).value);
      }
    case _ =>
  }

  lemma {:induction false} SameWithoutProto(a: Json, b: Json)
    requires NoProto(a) && NoProto(b) && Same(a, b, OwnKey())
    ensures Same(a, b, Every())
    decreases a
  {
    match a
    case Arr(items) =>
      forall i | 0 <= i < |items| ensures Same(items[i], b.items[i], Every()) { SameWithoutProto(items[i], b.items[i]); }
    case Obj(fields) =>
      forall k | k in Keys(fields) && k in Keys(b.fields)
        ensures Same(Entry(fields, k).value, Entry(b.fields, k).value, Every())
      {
        assert OwnKey()(k);
        SameWithoutProto(Entry(fields, k).value, Entry(b.fields, k).value);
      }
      forall k ensures k in Keys(fields) <==> k in Keys(b.fields) { assert k != PROTO ==> OwnKey()(k); }
    case _ =>
  }

  lemma {:induction false} SameNoProto(a: Json, b: Json)
    requires Same(a, b, Every()) && NoProto(b)
    ensures NoProto(a)
    decreases a
  {
    match a
    case Arr(items) =>
      forall i | 0 <= i < |items| ensures NoProto(items[i]) { SameNoProto(items[i], b.items[i]); }
    case Obj(fields) =>
      forall k | k in Keys(fields) ensures k != PROTO && NoProto(Entry(fields, k).value) {
        assert Every()(k) && k in Keys(b.fields);
        SameNoProto(Entry(fields, k).value, Entry(b.fields, k).value);
      }
    case _ =>
  }

  /** The canonical form is the value again, up to key order, exactly when no object in it has a key
      `__proto__`. */
  lemma CanonicalKeepsValueIff(v: Json)
    requires WellFormed(v)
    ensures Same(v, Canonical(v), Every()) <==> NoProto(v)
  {
    EnumIsTotalOrder();
    CanonicalNoProto(v);
    SameAsArranged(v, EnumLe, OwnKey());
    if NoProto(v) { SameWithoutProto(v, Canonical(v)); }
    if Same(v, Canonical(v), Every()) { SameNoProto(v, Canonical(v)); }
  }

  /** So two different values can share a text. */
  lemma ProtoKeyIsLost(value: Json)
    requires WellFormed(value)
    ensures var a, b := Obj([Field(PROTO, value)]), Obj([]);
            WellFormed(a) && !Same(a, b, Every()) && FingerprintText(a) == FingerprintText(b)
  {
    var a, b := Obj([Field(PROTO, value)]), Obj([]);
    assert Keys(a.fields) == [PROTO] && Keys(b.fields) == [];
    FingerprintTextIff(a, b);
  }
}
