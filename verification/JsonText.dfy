/** Text as UTF-16 code units, JSON string literals and their escapes, and how texts that are
    printed one after another can be told apart again. */
module JsonText {
  import opened JobModels
  import opened Ordering

  type Unit = u: int | 0 <= u < 0x1_0000
  type Text = seq<Unit>

  const QUOTE: Unit := 34
  const COMMA: Unit := 44
  const COLON: Unit := 58
  const LEFT_BRACKET: Unit := 91
  const BACKSLASH: Unit := 92
  const RIGHT_BRACKET: Unit := 93
  const LETTER_U: Unit := 117
  const LEFT_BRACE: Unit := 123
  const RIGHT_BRACE: Unit := 125

  // ----- the default string order: code units from left to right

  predicate LexLe(a: Text, b: Text) {
    a == [] || (b != [] && (a[0] < b[0] || (a[0] == b[0] && LexLe(a[1..], b[1..]))))
  }

  /** By code units: one text comes no later than another exactly if they agree up to a place where the first one
      ends or has the smaller unit. */
  lemma {:induction false} LexByUnits(a: Text, b: Text)
    ensures LexLe(a, b) <==>
              exists i: nat :: i <= |a| && i <= |b| && a[..i] == b[..i] && (i == |a| || (i < |b| && a[i] < b[i]))
  {
    if a == [] {
      assert a[..0] == b[..0];
    } else if b != [] && a[0] == b[0] {
      var x, y := a[1..], b[1..];
      LexByUnits(x, y);
      if i: nat :| i <= |x| && i <= |y| && x[..i] == y[..i] && (i == |x| || (i < |y| && x[i] < y[i])) {
        assert a[..i + 1] == [a[0]] + x[..i] && b[..i + 1] == [b[0]] + y[..i];
      }
      if i: nat :| i <= |a| && i <= |b| && a[..i] == b[..i] && (i == |a| || (i < |b| && a[i] < b[i])) {
        assert i > 0;
        assert x[..i - 1] == a[..i][1..] && y[..i - 1] == b[..i][1..];
      }
    } else {
      assert a[..0] == b[..0];
      assert forall i: nat :: 0 < i <= |a| ==> a[..i][0] == a[0];
      assert forall i: nat :: 0 < i <= |b| ==> b[..i][0] == b[0];
    }
  }

  lemma {:induction false} LexTotal(a: Text, b: Text)
    ensures LexLe(a, b) || LexLe(b, a)
    ensures LexLe(a, b) && LexLe(b, a) ==> a == b
  {
    if a != [] && b != [] {
      LexTotal(a[1..], b[1..]);
      assert a == [a[0]] + a[1..] && b == [b[0]] + b[1..];
    }
  }

  lemma {:induction false} LexTransitive(a: Text, b: Text, c: Text)
    requires LexLe(a, b) && LexLe(b, c)
    ensures LexLe(a, c)
  {
    if a != [] && a[0] == b[0] == c[0] { LexTransitive(a[1..], b[1..], c[1..]); }
  }

  /** A comparison that is total, transitive and tells different texts apart. */
  ghost predicate TotalOrder(le: (Text, Text) -> bool) {
    Preorder(le) && forall a, b :: le(a, b) && le(b, a) ==> a == b
  }

  lemma LexIsTotalOrder()
    ensures TotalOrder(LexLe)
  {
    forall a, b ensures (LexLe(a, b) || LexLe(b, a)) && (LexLe(a, b) && LexLe(b, a) ==> a == b) { LexTotal(a, b); }
    forall a, b, c | LexLe(a, b) && LexLe(b, c) ensures LexLe(a, c) { LexTransitive(a, b, c); }
  }

  // ----- string literals

  predicate High(u: Unit) { 0xD800 <= u <= 0xDBFF }

  predicate Low(u: Unit) { 0xDC00 <= u <= 0xDFFF }

  /** The letter of a two-character escape. */
  function ShortEscape(u: Unit): Option<Unit> {
    if u == 8 then Some(98)
    else if u == 9 then Some(116)
    else if u == 10 then Some(110)
    else if u == 12 then Some(102)
    else if u == 13 then Some(114)
    else if u == QUOTE || u == BACKSLASH then Some(u)
    else None
  }

  function ShortMeaning(letter: Unit): Option<Unit> {
    if letter == 98 then Some(8)
    else if letter == 116 then Some(9)
    else if letter == 110 then Some(10)
    else if letter == 102 then Some(12)
    else if letter == 114 then Some(13)
    else if letter == QUOTE || letter == BACKSLASH then Some(letter)
    else None
  }

  function HexDigit(n: nat): Unit
    requires n < 16
  {
    if n < 10 then 48 + n else 87 + n
  }

  function HexValue(u: Unit): Option<nat> {
    if 48 <= u <= 57 then Some(u - 48) else if 97 <= u <= 102 then Some(u - 87) else None
  }

  function Hex4(u: Unit): (t: Text)
    ensures |t| == 4
  {
    [HexDigit(u / 16 / 16 / 16), HexDigit(u / 16 / 16 % 16), HexDigit(u / 16 % 16), HexDigit(u % 16)]
  }

  function HexRead(t: Text): Option<Unit>
    requires |t| == 4
  {
    var a, b, c, d := HexValue(t[0]), HexValue(t[1]), HexValue(t[2]), HexValue(t[3]);
    if a.None? || b.None? || c.None? || d.None? then None
    else
      var value := a.value * 4096 + b.value * 256 + c.value * 16 + d.value;
      if value < 0x1_0000 then Some(value) else None
  }

  lemma DigitReadsBack(n: nat)
    requires n < 16
    ensures HexValue(HexDigit(n)) == Some(n)
  {
  }

  lemma HexReadsBack(u: Unit)
    ensures HexRead(Hex4(u)) == Some(u)
  {
    var c := u / 16;
    var b := c / 16;
    var a := b / 16;
    assert a < 16;
    DigitReadsBack(a);
    DigitReadsBack(b % 16);
    DigitReadsBack(c % 16);
    DigitReadsBack(u % 16);
    hide HexValue, HexDigit;
    assert u == a * 4096 + b % 16 * 256 + c % 16 * 16 + u % 16;
  }

  function EscapeUnit(u: Unit): Text {
    if ShortEscape(u).Some? then [BACKSLASH, ShortEscape(u).value]
    else if u < 0x20 || High(u) || Low(u) then [BACKSLASH, LETTER_U] + Hex4(u)
    else [u]
  }

  /** The text of a string of characters. */
  function Units(s: string): Text
    requires forall i :: 0 <= i < |s| ==> s[i] as int < 0x1_0000
  {
    seq(|s|, i requires 0 <= i < |s| => s[i] as int)
  }

  /** The escapes by their characters: five control characters, the quote and the backslash have a letter of their
      own; other control characters and lone surrogates have four hexadecimal digits in small letters; every other
      unit stands for itself. */
  lemma EscapesAre()
    ensures EscapeUnit(8) == Units("\\b") && EscapeUnit(9) == Units("\\t") && EscapeUnit(10) == Units("\\n")
    ensures EscapeUnit(12) == Units("\\f") && EscapeUnit(13) == Units("\\r")
    ensures EscapeUnit(34) == Units("\\\"") && EscapeUnit(92) == Units("\\\\")
    ensures EscapeUnit(0) == Units("\\u0000") && EscapeUnit(31) == Units("\\u001f") && EscapeUnit(0xDBEA) == Units("\\udbea")
  {
  }

  lemma EscapedUnits(u: Unit)
    ensures |EscapeUnit(u)| == 6 <==>
              (u < 32 && u != 8 && u != 9 && u != 10 && u != 12 && u != 13) || 0xD800 <= u <= 0xDFFF
    ensures |EscapeUnit(u)| == 2 <==> u in {8, 9, 10, 12, 13, 34, 92}
    ensures |EscapeUnit(u)| != 6 && |EscapeUnit(u)| != 2 ==> EscapeUnit(u) == [u]
  {
  }

  /** A surrogate pair is copied; a surrogate on its own is escaped. */
  function Escape(s: Text): Text {
    if s == [] then []
    else if High(s[0]) && |s| > 1 && Low(s[1]) then [s[0], s[1]] + Escape(s[2..])
    else EscapeUnit(s[0]) + Escape(s[1..])
  }

  function Quote(s: Text): Text { [QUOTE] + Escape(s) + [QUOTE] }

  function Prepend(u: Unit, read: Option<(Text, Text)>): Option<(Text, Text)> {
    match read
    case Some((s, rest)) => Some(([u] + s, rest))
    case None => None
  }

  /** Reads the inside of a string literal up to its closing quotation mark. */
  function ReadString(t: Text): Option<(Text, Text)> {
    if t == [] || t[0] < 0x20 then None
    else if t[0] == QUOTE then Some(([], t[1..]))
    else if t[0] != BACKSLASH then Prepend(t[0], ReadString(t[1..]))
    else if |t| >= 2 && ShortMeaning(t[1]).Some? then Prepend(ShortMeaning(t[1]).value, ReadString(t[2..]))
    else if |t| >= 6 && t[1] == LETTER_U && HexRead(t[2..6]).Some? then
      Prepend(HexRead(t[2..6]).value, ReadString(t[6..]))
    else None
  }

  lemma ReadShort(letter: Unit, rest: Text)
    requires ShortMeaning(letter).Some?
    ensures ReadString([BACKSLASH, letter] + rest) == Prepend(ShortMeaning(letter).value, ReadString(rest))
  {
    hide ShortMeaning, HexRead;
    assert ([BACKSLASH, letter] + rest)[2..] == rest;
  }

  lemma ReadHex(u: Unit, rest: Text)
    ensures ReadString([BACKSLASH, LETTER_U] + Hex4(u) + rest) == Prepend(u, ReadString(rest))
  {
    var t := [BACKSLASH, LETTER_U] + Hex4(u) + rest;
    assert ShortMeaning(LETTER_U) == None;
    HexReadsBack(u);
    hide ShortMeaning, HexRead, Hex4;
    assert t[2..6] == Hex4(u) && t[6..] == rest;
  }

  lemma ReadPlain(u: Unit, rest: Text)
    requires u >= 0x20 && u != QUOTE && u != BACKSLASH
    ensures ReadString([u] + rest) == Prepend(u, ReadString(rest))
  {
    hide ShortMeaning, HexRead;
    assert ([u] + rest)[1..] == rest;
  }

  lemma ShortReadsBack(u: Unit)
    requires ShortEscape(u).Some?
    ensures ShortMeaning(ShortEscape(u).value) == Some(u)
  {
  }

  lemma ReadUnit(u: Unit, rest: Text)
    ensures ReadString(EscapeUnit(u) + rest) == Prepend(u, ReadString(rest))
  {
    hide ReadString;
    if ShortEscape(u).Some? {
      ShortReadsBack(u);
      ReadShort(ShortEscape(u).value, rest);
    } else if u < 0x20 || High(u) || Low(u) {
      ReadHex(u, rest);
    } else {
      ReadPlain(u, rest);
    }
  }

  lemma ReadPair(high: Unit, low: Unit, rest: Text)
    requires High(high) && Low(low)
    ensures ReadString([high, low] + rest) == Prepend(high, Prepend(low, ReadString(rest)))
  {
    hide ReadString;
    assert [high, low] + rest == [high] + ([low] + rest);
    ReadPlain(high, [low] + rest);
    ReadPlain(low, rest);
  }

  lemma ReadEnd(rest: Text)
    ensures ReadString([QUOTE] + rest) == Some(([], rest))
  {
    assert ([QUOTE] + rest)[1..] == rest;
  }

  /** Reading a printed string gives the string back, whatever follows it. */
  lemma {:induction false} ReadEscaped(s: Text, rest: Text)
    ensures ReadString(Escape(s) + [QUOTE] + rest) == Some((s, rest))
    decreases |s|
  {
    hide EscapeUnit, ReadString;
    var tail := [QUOTE] + rest;
    assert Escape(s) + [QUOTE] + rest == Escape(s) + tail;
    if s == [] {
      assert Escape(s) + tail == tail;
      ReadEnd(rest);
    } else if High(s[0]) && |s| > 1 && Low(s[1]) {
      ReadEscaped(s[2..], rest);
      var inner := Escape(s[2..]) + tail;
      assert Escape(s[2..]) + [QUOTE] + rest == inner;
      assert Escape(s) + tail == [s[0], s[1]] + inner;
      ReadPair(s[0], s[1], inner);
      assert s == [s[0]] + ([s[1]] + s[2..]);
    } else {
      ReadEscaped(s[1..], rest);
      var inner := Escape(s[1..]) + tail;
      assert Escape(s[1..]) + [QUOTE] + rest == inner;
      assert Escape(s) + tail == EscapeUnit(s[0]) + inner;
      ReadUnit(s[0], inner);
      assert s == [s[0]] + s[1..];
    }
  }

  // ----- telling texts apart

  /** What can follow a printed value: nothing, a comma or a closing bracket. */
  predicate Follows(rest: Text) {
    rest == [] || rest[0] in {COMMA, RIGHT_BRACKET, RIGHT_BRACE}
  }

  /** Two texts of which neither can be mistaken for the beginning of the other. */
  ghost predicate Apart(s: Text, t: Text) {
    forall ra: Text, rb: Text :: Follows(ra) && Follows(rb) && s + ra == t + rb ==> s == t && ra == rb
  }

  lemma UseApart(s: Text, t: Text, ra: Text, rb: Text)
    requires Apart(s, t) && Follows(ra) && Follows(rb) && s + ra == t + rb
    ensures s == t && ra == rb
  {
  }

  lemma ApartByFirst(s: Text, t: Text)
    requires s != [] && t != [] && s[0] != t[0]
    ensures Apart(s, t)
  {
    forall ra: Text, rb: Text ensures s + ra != t + rb {
      assert (s + ra)[0] == s[0] && (t + rb)[0] == t[0];
    }
  }

  lemma ApartSame(s: Text)
    ensures Apart(s, s)
  {
    forall ra: Text, rb: Text | s + ra == s + rb ensures ra == rb {
      assert (s + ra)[|s|..] == ra && (s + rb)[|s|..] == rb;
    }
  }

  lemma QuotesRead(s: Text, t: Text, ra: Text, rb: Text)
    requires Quote(s) + ra == Quote(t) + rb
    ensures s == t && ra == rb
  {
    hide ReadString, Escape;
    ReadEscaped(s, ra);
    ReadEscaped(t, rb);
    assert (Quote(s) + ra)[1..] == Escape(s) + [QUOTE] + ra;
    assert (Quote(t) + rb)[1..] == Escape(t) + [QUOTE] + rb;
  }

  lemma QuotesApart(s: Text, t: Text)
    ensures Apart(Quote(s), Quote(t))
    ensures Quote(s) == Quote(t) ==> s == t
  {
    forall ra: Text, rb: Text | Quote(s) + ra == Quote(t) + rb ensures s == t && ra == rb {
      QuotesRead(s, t, ra, rb);
    }
    if Quote(s) == Quote(t) { QuotesRead(s, t, [], []); }
  }

  predicate NumberUnit(u: Unit) { 48 <= u <= 57 || u in {43, 45, 46, 101} }

  /** The text of a finite number: digits, a sign, a point and an exponent; the text is the number. */
  predicate NumberText(t: Text) {
    && t != []
    && (48 <= t[0] <= 57 || t[0] == 45)
    && forall i :: 0 <= i < |t| ==> NumberUnit(t[i])
  }

  /** The unit after the shorter of two texts that agree. */
  lemma UnitBeyond(s: Text, t: Text, ra: Text, rb: Text)
    requires s + ra == t + rb && |s| < |t|
    ensures ra != [] && ra[0] == t[|s|]
  {
    assert |s + ra| == |t + rb|;
    assert (s + ra)[|s|] == ra[0] && (t + rb)[|s|] == t[|s|];
  }

  lemma NumbersApart(s: Text, t: Text)
    requires NumberText(s) && NumberText(t)
    ensures Apart(s, t)
  {
    forall ra: Text, rb: Text | Follows(ra) && Follows(rb) && s + ra == t + rb ensures s == t && ra == rb {
      if |s| < |t| {
        UnitBeyond(s, t, ra, rb);
      } else if |t| < |s| {
        UnitBeyond(t, s, rb, ra);
      }
      assert (s + ra)[..|s|] == s && (t + rb)[..|t|] == t;
      ApartSame(s);
    }
  }

  function Join(texts: seq<Text>): Text {
    if texts == [] then []
    else if |texts| == 1 then texts[0]
    else texts[0] + [COMMA] + Join(texts[1..])
  }

  predicate Closer(u: Unit) { u == RIGHT_BRACKET || u == RIGHT_BRACE }

  /** What is left of a joined and closed list after its first text. */
  function AfterFirst(texts: seq<Text>, close: Unit, rest: Text): (r: Text)
    requires texts != []
    ensures Join(texts) + [close] + rest == texts[0] + r
  {
    if |texts| == 1 then [close] + rest else [COMMA] + (Join(texts[1..]) + [close] + rest)
  }

  ghost predicate Listable(texts: seq<Text>) {
    forall i :: 0 <= i < |texts| ==> texts[i] != [] && !Closer(texts[i][0])
  }

  lemma FirstJoined(texts: seq<Text>, close: Unit, rest: Text)
    requires Listable(texts) && Closer(close)
    ensures var whole := Join(texts) + [close] + rest;
            && (texts == [] ==> whole[0] == close && whole[1..] == rest)
            && (texts != [] ==> !Closer(whole[0]))
  {
  }

  /** Joined and closed lists of texts that are pairwise apart determine the texts. */
  lemma {:induction false} JoinApart(ss: seq<Text>, ts: seq<Text>, close: Unit, ra: Text, rb: Text)
    requires Closer(close) && Listable(ss) && Listable(ts)
    requires forall i, j :: 0 <= i < |ss| && 0 <= j < |ts| ==> Apart(ss[i], ts[j])
    requires Join(ss) + [close] + ra == Join(ts) + [close] + rb
    ensures ss == ts && ra == rb
    decreases |ss|
  {
    FirstJoined(ss, close, ra);
    FirstJoined(ts, close, rb);
    if ss != [] && ts != [] {
      var sa, tb := AfterFirst(ss, close, ra), AfterFirst(ts, close, rb);
      UseApart(ss[0], ts[0], sa, tb);
      if |ss| == 1 || |ts| == 1 {
        assert sa[0] == tb[0];
        assert sa[1..] == ra && tb[1..] == rb;
      } else {
        assert sa[1..] == Join(ss[1..]) + [close] + ra && tb[1..] == Join(ts[1..]) + [close] + rb;
        JoinApart(ss[1..], ts[1..], close, ra, rb);
        assert ss == [ss[0]] + ss[1..] && ts == [ts[0]] + ts[1..];
      }
    }
  }
}
