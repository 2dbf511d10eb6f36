/** Canonical JSON (a profile of RFC 8785): the printer, and what an accepted value means up to key order. */
module CanonicalJson {
  import opened Common
  import opened Unicode

  /**
   * A JSON value as JavaScript holds it: an object's members in insertion order, a finite number by the text
   * ECMAScript prints for it (shortest round trip, so different numbers print differently).
   */
  datatype Json = Null | Bool(b: bool) | Number(digits: Text) | Str(text: Text) | Arr(items: seq<Json>)
    | Obj(members: seq<Member>)
  datatype Member = Member(key: Text, value: Json)

  const QUOTE: Unit := 34
  const BACKSLASH: Unit := 92
  const COMMA: Unit := 44
  const COLON: Unit := 58
  const LBRACKET: Unit := 91
  const RBRACKET: Unit := 93
  const LBRACE: Unit := 123
  const RBRACE: Unit := 125
  const LETTER_U: Unit := 117
  const NULL_TEXT: Text := [110, 117, 108, 108]
  const TRUE_TEXT: Text := [116, 114, 117, 101]
  const FALSE_TEXT: Text := [102, 97, 108, 115, 101]

  predicate IsDigit(c: Unit) { 48 <= c <= 57 }

  /** Digits, `+`, `-`, `.` and `e`: all a printed number uses. */
  predicate NumberChar(c: Unit) { IsDigit(c) || c in {43, 45, 46, 101} }

  predicate IsNumberText(t: Text) {
    t != [] && (IsDigit(t[0]) || t[0] == 45) && forall i :: 0 <= i < |t| ==> NumberChar(t[i])
  }

  function Keys(ms: seq<Member>): (ks: seq<Text>)
    ensures |ks| == |ms| && forall i :: 0 <= i < |ms| ==> ks[i] == ms[i].key
    ensures forall k :: k in ks ==> exists i :: 0 <= i < |ms| && ms[i].key == k
  {
    if ms == [] then [] else [ms[0].key] + Keys(ms[1..])
  }

  predicate Distinct(ks: seq<Text>) {
    forall i, j :: 0 <= i < j < |ks| ==> ks[i] != ks[j]
  }

  predicate Valid(v: Json) {
    match v
    case Number(t) => IsNumberText(t)
    case Arr(items) => forall i :: 0 <= i < |items| ==> Valid(items[i])
    case Obj(ms) => Distinct(Keys(ms)) && forall i :: 0 <= i < |ms| ==> Valid(ms[i].value)
    case _ => true
  }

  // ----- JSON.stringify of a string -----

  function HexDigit(n: nat): Unit
    requires n < 16
  {
    if n < 10 then 48 + n else 87 + n
  }

  function Hex4(c: Unit): Text {
    [HexDigit(c / 0x1000), HexDigit(c / 0x100 % 16), HexDigit(c / 0x10 % 16), HexDigit(c % 16)]
  }

  function UnicodeEscape(c: Unit): Text {
    [BACKSLASH, LETTER_U] + Hex4(c)
  }

  /** The letter of a two-character escape, if the unit has one. */
  function ShortEscape(c: Unit): Option<Unit> {
    if c == QUOTE || c == BACKSLASH then Some(c)
    else if c == 8 then Some(98)
    else if c == 9 then Some(116)
    else if c == 10 then Some(110)
    else if c == 12 then Some(102)
    else if c == 13 then Some(114)
    else None
  }

  function Escaped(s: Text): Text {
    if s == [] then []
    else if StartsWithPair(s) then [s[0], s[1]] + Escaped(s[2..])
    else if ShortEscape(s[0]).Some? then [BACKSLASH, ShortEscape(s[0]).value] + Escaped(s[1..])
    else if s[0] < 32 || IsSurrogate(s[0]) then UnicodeEscape(s[0]) + Escaped(s[1..])
    else [s[0]] + Escaped(s[1..])
  }

  /** The text of one escaped unit. */
  function EscapedUnit(c: Unit): Text {
    if ShortEscape(c).Some? then [BACKSLASH, ShortEscape(c).value]
    else if c < 32 || IsSurrogate(c) then UnicodeEscape(c)
    else [c]
  }

  lemma EscapedHead(s: Text)
    requires s != []
    ensures StartsWithPair(s) ==> Escaped(s) == s[..2] + Escaped(s[2..])
    ensures !StartsWithPair(s) ==> Escaped(s) == EscapedUnit(s[0]) + Escaped(s[1..])
  {
    hide UnicodeEscape;
  }

  function Quoted(s: Text): Text {
    [QUOTE] + Escaped(s) + [QUOTE]
  }

  // ----- sorting keys by code units -----

  predicate Before(a: Text, b: Text) {
    b != [] && (a == [] || a[0] < b[0] || (a[0] == b[0] && Before(a[1..], b[1..])))
  }

  predicate Sorted(ks: seq<Text>) {
    forall i, j :: 0 <= i < j < |ks| ==> Before(ks[i], ks[j])
  }

  function Insert(k: Text, ks: seq<Text>): (r: seq<Text>)
    ensures |r| == |ks| + 1
    ensures forall x :: x in r <==> x == k || x in ks
  {
    if ks == [] || Before(k, ks[0]) then [k] + ks else
      var rest := Insert(k, ks[1..]);
      assert forall x :: x in ks <==> x == ks[0] || x in ks[1..];
      [ks[0]] + rest
  }

  function Sort(ks: seq<Text>): (r: seq<Text>)
    ensures |r| == |ks|
    ensures forall x :: x in r <==> x in ks
  {
    if ks == [] then [] else
      assert forall x :: x in ks <==> x == ks[0] || x in ks[1..];
      Insert(ks[0], Sort(ks[1..]))
  }

  /** The order of ECMAScript's `sort`: at the first unit where the texts differ, or where one ends. */
  ghost predicate Precedes(a: Text, b: Text) {
    exists i :: 0 <= i <= |a| && i < |b| && a[..i] == b[..i] && (i == |a| || a[i] < b[i])
  }

  ghost predicate InCodeUnitOrder(ks: seq<Text>) {
    forall i, j :: 0 <= i < j < |ks| ==> Precedes(ks[i], ks[j])
  }

  lemma {:induction false} BeforeExactlyWhenPrecedes(a: Text, b: Text)
    ensures Before(a, b) <==> Precedes(a, b)
    decreases |a|
  {
    if b != [] && a != [] && a[0] == b[0] {
      BeforeExactlyWhenPrecedes(a[1..], b[1..]);
      if Before(a, b) {
        var i :| 0 <= i <= |a[1..]| && i < |b[1..]| && a[1..][..i] == b[1..][..i]
                 && (i == |a[1..]| || a[1..][i] < b[1..][i]);
        assert a[..i + 1] == [a[0]] + a[1..][..i] == b[..i + 1];
        assert Precedes(a, b);
      }
      if Precedes(a, b) {
        var i :| 0 <= i <= |a| && i < |b| && a[..i] == b[..i] && (i == |a| || a[i] < b[i]);
        assert i > 0 && a[1..][..i - 1] == a[..i][1..] && b[1..][..i - 1] == b[..i][1..];
        assert Precedes(a[1..], b[1..]);
      }
    } else {
      if b != [] && (a == [] || a[0] < b[0]) { assert a[..0] == b[..0]; }
      if Precedes(a, b) { PrecedesAtTheHead(a, b); }
    }
  }

  lemma PrecedesAtTheHead(a: Text, b: Text)
    requires Precedes(a, b)
    ensures b != [] && (a == [] || a[0] <= b[0])
  {
    var i :| 0 <= i <= |a| && i < |b| && a[..i] == b[..i] && (i == |a| || a[i] < b[i]);
    if i > 0 { assert a[0] == a[..i][0] == b[..i][0] == b[0]; }
  }

  lemma SortedExactlyWhenInOrder(ks: seq<Text>)
    ensures Sorted(ks) <==> InCodeUnitOrder(ks)
  {
    hide Before, Precedes;
    forall i, j | 0 <= i < j < |ks| ensures Before(ks[i], ks[j]) <==> Precedes(ks[i], ks[j]) {
      BeforeExactlyWhenPrecedes(ks[i], ks[j]);
    }
  }

  lemma {:induction false} BeforeIsATotalOrder(a: Text, b: Text)
    ensures Before(a, b) || Before(b, a) || a == b
    ensures !(Before(a, b) && Before(b, a)) && (a == b ==> !Before(a, b))
    decreases |a|
  {
    if a != [] && b != [] {
      BeforeIsATotalOrder(a[1..], b[1..]);
      assert a[0] == b[0] && a[1..] == b[1..] ==> a == [b[0]] + b[1..] == b;
    }
  }

  lemma {:induction false} BeforeIsTransitive(a: Text, b: Text, c: Text)
    requires Before(a, b) && Before(b, c)
    ensures Before(a, c)
    decreases |a|
  {
    if a != [] && a[0] == b[0] == c[0] {
      BeforeIsTransitive(a[1..], b[1..], c[1..]);
    }
  }

  lemma {:induction false} InsertSorts(k: Text, ks: seq<Text>)
    requires Sorted(ks) && k !in ks
    ensures Sorted(Insert(k, ks))
    decreases |ks|
  {
    if ks != [] {
      BeforeIsATotalOrder(k, ks[0]);
      if Before(k, ks[0]) {
        forall j | 0 <= j < |ks| ensures Before(k, ks[j]) {
          if j > 0 { BeforeIsTransitive(k, ks[0], ks[j]); }
        }
      } else {
        InsertSorts(k, ks[1..]);
        var r := Insert(k, ks[1..]);
        forall x | x in r ensures Before(ks[0], x) {}
        assert Insert(k, ks) == [ks[0]] + r;
      }
    }
  }

  lemma {:induction false} SortSorts(ks: seq<Text>)
    requires Distinct(ks)
    ensures Sorted(Sort(ks)) && InCodeUnitOrder(Sort(ks))
    decreases |ks|
  {
    if ks != [] {
      SortSorts(ks[1..]);
      InsertSorts(ks[0], Sort(ks[1..]));
    }
    SortedExactlyWhenInOrder(Sort(ks));
  }

  lemma FirstIsLeast(ks: seq<Text>, k: Text)
    requires Sorted(ks) && k in ks
    ensures k == ks[0] || Before(ks[0], k)
  {}

  lemma EmptyOrNot(a: seq<Text>, b: seq<Text>)
    requires forall x :: x in a <==> x in b
    ensures a == [] <==> b == []
  {
    assert a != [] ==> a[0] in a;
    assert b != [] ==> b[0] in b;
  }

  lemma {:induction false} SortingIsUnique(a: seq<Text>, b: seq<Text>)
    requires Sorted(a) && Sorted(b) && forall x :: x in a <==> x in b
    ensures a == b
    decreases |a|
  {
    EmptyOrNot(a, b);
    if a != [] {
      assert a[0] in b;
      assert b[0] in a;
      FirstIsLeast(a, b[0]);
      FirstIsLeast(b, a[0]);
      BeforeIsATotalOrder(a[0], b[0]);
      RestOf(a);
      RestOf(b);
      SortingIsUnique(a[1..], b[1..]);
    }
  }

  lemma RestOf(a: seq<Text>)
    requires Sorted(a) && a != []
    ensures Sorted(a[1..]) && forall x :: x in a[1..] <==> x in a && x != a[0]
  {
    BeforeIsATotalOrder(a[0], a[0]);
    forall x ensures x in a[1..] <==> x in a && x != a[0] {
      if x in a[1..] {
        var i :| 0 <= i < |a| - 1 && a[1..][i] == x;
        assert a[i + 1] == x;
        BeforeIsATotalOrder(a[0], x);
      }
    }
  }

  // ----- the canonical text -----

  function KeyIndex(ms: seq<Member>, k: Text): (i: nat)
    requires k in Keys(ms)
    ensures i < |ms| && ms[i].key == k
  {
    if ms[0].key == k then 0 else 1 + KeyIndex(ms[1..], k)
  }

  function Canon(v: Json): Text
    decreases v, 0
  {
    match v
    case Null => NULL_TEXT
    case Bool(b) => if b then TRUE_TEXT else FALSE_TEXT
    case Number(t) => t
    case Str(s) => Quoted(s)
    case Arr(items) => [LBRACKET] + CanonItems(items) + [RBRACKET]
    case Obj(ms) => [LBRACE] + CanonMembers(ms, Sort(Keys(ms))) + [RBRACE]
  }

  function CanonItems(items: seq<Json>): Text
    decreases items, |items|
  {
    if items == [] then []
    else if |items| == 1 then Canon(items[0])
    else Canon(items[0]) + [COMMA] + CanonItems(items[1..])
  }

  function CanonMember(ms: seq<Member>, k: Text): Text
    requires k in Keys(ms)
    decreases ms, 0
  {
    Quoted(k) + [COLON] + Canon(ms[KeyIndex(ms, k)].value)
  }

  function CanonMembers(ms: seq<Member>, ks: seq<Text>): Text
    requires forall k :: k in ks ==> k in Keys(ms)
    decreases ms, |ks| + 1
  {
    if ks == [] then []
    else if |ks| == 1 then CanonMember(ms, ks[0])
    else CanonMember(ms, ks[0]) + [COMMA] + CanonMembers(ms, ks[1..])
  }

  // ----- what a value means: an object is a map from keys to values -----

  datatype Doc = DNull | DBool(b: bool) | DNumber(digits: Text) | DStr(text: Text) | DArr(items: seq<Doc>)
    | DObj(fields: map<Text, Doc>)

  function Meaning(v: Json): Doc
    decreases v, 0
  {
    match v
    case Null => DNull
    case Bool(b) => DBool(b)
    case Number(t) => DNumber(t)
    case Str(s) => DStr(s)
    case Arr(items) => DArr(MeaningItems(items))
    case Obj(ms) => DObj(Fields(ms, Keys(ms)))
  }

  function MeaningItems(items: seq<Json>): (r: seq<Doc>)
    ensures |r| == |items|
    decreases items, |items|
  {
    if items == [] then [] else [Meaning(items[0])] + MeaningItems(items[1..])
  }

  function Fields(ms: seq<Member>, ks: seq<Text>): map<Text, Doc>
    requires forall k :: k in ks ==> k in Keys(ms)
    decreases ms, 1
  {
    map k | k in ks :: Meaning(ms[KeyIndex(ms, k)].value)
  }

  // ----- values with one meaning have one canonical text -----

  lemma {:induction false} SameMeaningSameText(a: Json, b: Json)
    requires Valid(a) && Valid(b) && Meaning(a) == Meaning(b)
    ensures Canon(a) == Canon(b)
    decreases a, 0
  {
    if a.Arr? {
      SameItemsSameText(a.items, b.items);
    } else if a.Obj? {
      var p, q := Keys(a.members), Keys(b.members);
      var f := Fields(a.members, p);
      assert f == Fields(b.members, q);
      assert forall k :: k in p <==> k in f;
      assert forall k :: k in q <==> k in f;
      SortSorts(p);
      SortSorts(q);
      SortingIsUnique(Sort(p), Sort(q));
      SameFieldsSameText(a.members, b.members, Sort(p));
    }
  }

  lemma {:induction false} SameItemsSameText(a: seq<Json>, b: seq<Json>)
    requires (forall i :: 0 <= i < |a| ==> Valid(a[i])) && (forall i :: 0 <= i < |b| ==> Valid(b[i]))
             && MeaningItems(a) == MeaningItems(b)
    ensures CanonItems(a) == CanonItems(b)
    decreases a, |a|
  {
    if a != [] {
      assert MeaningItems(a)[0] == MeaningItems(b)[0] && MeaningItems(a)[1..] == MeaningItems(b)[1..];
      SameMeaningSameText(a[0], b[0]);
      SameItemsSameText(a[1..], b[1..]);
    }
  }

  lemma {:induction false} SameFieldsSameText(a: seq<Member>, b: seq<Member>, ks: seq<Text>)
    requires (forall i :: 0 <= i < |a| ==> Valid(a[i].value)) && (forall i :: 0 <= i < |b| ==> Valid(b[i].value))
    requires (forall k :: k in ks ==> k in Keys(a) && k in Keys(b)) && Fields(a, Keys(a)) == Fields(b, Keys(b))
    ensures CanonMembers(a, ks) == CanonMembers(b, ks)
    decreases a, |ks| + 1
  {
    if ks != [] {
      var k := ks[0];
      assert Fields(a, Keys(a))[k] == Fields(b, Keys(b))[k];
      SameMeaningSameText(a[KeyIndex(a, k)].value, b[KeyIndex(b, k)].value);
      SameFieldsSameText(a, b, ks[1..]);
    }
  }

  // ----- the text of an object, key by key -----

  /** An object's text has its members in the one order by code units that there is. */
  lemma ObjectPrintsInOrder(ms: seq<Member>, ks: seq<Text>)
    requires Distinct(Keys(ms)) && InCodeUnitOrder(ks) && forall k :: k in ks <==> k in Keys(ms)
    ensures Canon(Obj(ms)) == [LBRACE] + CanonMembers(ms, ks) + [RBRACE]
  {
    SortSorts(Keys(ms));
    SortedExactlyWhenInOrder(ks);
    SortingIsUnique(Sort(Keys(ms)), ks);
  }

  // ----- what a string is printed as, unit by unit -----

  /** Escaping goes unit by unit, except that a surrogate pair stays together. */
  lemma {:induction false} EscapingIsUnitwise(a: Text, b: Text)
    requires a != [] && b != [] ==> !(IsHigh(a[|a| - 1]) && IsLow(b[0]))
    ensures Escaped(a + b) == Escaped(a) + Escaped(b)
    decreases |a|
  {
    hide Escaped, EscapedUnit;
    if a == [] {
      assert a + b == b && Escaped([]) == [] by { NothingToEscape(); }
    } else {
      EscapedHead(a);
      EscapedHead(a + b);
      if StartsWithPair(a) {
        assert (a + b)[..2] == a[..2] && (a + b)[2..] == a[2..] + b;
        EscapingIsUnitwise(a[2..], b);
      } else {
        assert (a + b)[1..] == a[1..] + b;
        EscapingIsUnitwise(a[1..], b);
      }
    }
  }

  lemma NothingToEscape()
    ensures Escaped([]) == []
  {}

  /** A digit of lower-case hexadecimal and its value. */
  predicate IsHexDigitOf(c: Unit, n: int) {
    (48 <= c <= 57 && n == c - 48) || (97 <= c <= 102 && n == c - 87)
  }

  /**
   * As JSON.stringify and RFC 8785 have it: a unit stands for itself unless it is a quotation mark, a
   * backslash, a control character or a lone surrogate; the five control characters with a letter of
   * their own and the two marks take two characters; any other takes six, its value in lower-case hex.
   */
  lemma EscapesExactlyWhen(c: Unit)
    ensures var t := Escaped([c]);
            if c == 34 || c == 92 then t == [92, c]
            else if c == 8 then t == [92, 98]
            else if c == 9 then t == [92, 116]
            else if c == 10 then t == [92, 110]
            else if c == 12 then t == [92, 102]
            else if c == 13 then t == [92, 114]
            else if c < 32 || 0xD800 <= c < 0xE000 then
              && |t| == 6 && t[..2] == [92, 117]
              && exists p: int, q: int, r: int, s: int ::
                   && IsHexDigitOf(t[2], p) && IsHexDigitOf(t[3], q) && IsHexDigitOf(t[4], r) && IsHexDigitOf(t[5], s)
                   && p * 0x1000 + q * 0x100 + r * 0x10 + s == c
            else t == [c]
  {
    assert [c][1..] == [] && Escaped([]) == [];
    if ShortEscape(c).None? && (c < 32 || IsSurrogate(c)) {
      assert Escaped([c]) == UnicodeEscape(c);
      FourHexDigits(c);
    }
  }

  lemma FourHexDigits(c: Unit)
    ensures var t := Hex4(c);
            && IsHexDigitOf(t[0], c / 0x1000) && IsHexDigitOf(t[1], c / 0x100 % 16)
            && IsHexDigitOf(t[2], c / 0x10 % 16) && IsHexDigitOf(t[3], c % 16)
            && c / 0x1000 * 0x1000 + c / 0x100 % 16 * 0x100 + c / 0x10 % 16 * 0x10 + c % 16 == c
  {
    hide HexDigit;
    var q, r := c / 0x10, c / 0x100;
    assert c == q * 0x10 + c % 16 && q / 0x10 == r && q == r * 0x10 + q % 16;
    assert r == r / 0x10 * 0x10 + r % 16 && r / 0x10 == c / 0x1000;
    DigitOf(c / 0x1000);
    DigitOf(c / 0x100 % 16);
    DigitOf(c / 0x10 % 16);
    DigitOf(c % 16);
  }

  lemma DigitOf(n: nat)
    requires n < 16
    ensures IsHexDigitOf(HexDigit(n), n)
  {}

  lemma PairsStayTogether(high: Unit, low: Unit)
    requires 0xD800 <= high < 0xDC00 && 0xDC00 <= low < 0xE000
    ensures Escaped([high, low]) == [high, low]
  {
    assert [high, low][2..] == [] && Escaped([]) == [];
  }
}
