/** Reading canonical text back: a JSON reader that inverts the printer, so the text is uniquely readable. */
module JsonReading {
  import opened Common
  import opened Unicode
  import opened CanonicalJson

  /** What was read, and the text after it. */
  datatype Parsed<T> = Parsed(value: T, rest: Text)

  function UnhexDigit(c: Unit): Option<nat> {
    if IsDigit(c) then Some(c - 48) else if 97 <= c <= 102 then Some(c - 87) else None
  }

  function Unhex4(t: Text): (r: Option<Unit>)
    requires |t| == 4
  {
    var a, b, c, d := UnhexDigit(t[0]), UnhexDigit(t[1]), UnhexDigit(t[2]), UnhexDigit(t[3]);
    if a.Some? && b.Some? && c.Some? && d.Some? && a.value < 16 && b.value < 16 && c.value < 16 && d.value < 16
    then Some(a.value * 0x1000 + b.value * 0x100 + c.value * 0x10 + d.value) else None
  }

  /** The unit a two-character escape stands for. */
  function LongForm(c: Unit): Option<Unit> {
    if c == QUOTE || c == BACKSLASH then Some(c)
    else if c == 98 then Some(8)
    else if c == 116 then Some(9)
    else if c == 110 then Some(10)
    else if c == 102 then Some(12)
    else if c == 114 then Some(13)
    else None
  }

  /** The rest of a string, after its opening quote. */
  function ReadString(t: Text): (r: Option<Parsed<Text>>)
    ensures r.Some? ==> |r.value.rest| < |t|
  {
    if t == [] then None
    else if t[0] == QUOTE then Some(Parsed([], t[1..]))
    else if t[0] != BACKSLASH then Prepend(t[0], ReadString(t[1..]))
    else if |t| >= 6 && t[1] == LETTER_U then
      var c := Unhex4(t[2..6]);
      if c.None? then None else Prepend(c.value, ReadString(t[6..]))
    else if |t| >= 2 && LongForm(t[1]).Some? then Prepend(LongForm(t[1]).value, ReadString(t[2..]))
    else None
  }

  function Prepend(c: Unit, r: Option<Parsed<Text>>): Option<Parsed<Text>> {
    if r.None? then None else Some(Parsed([c] + r.value.value, r.value.rest))
  }

  /** How many leading units can belong to a number. */
  function NumberLength(t: Text): (n: nat)
    ensures n <= |t|
  {
    if t == [] || !NumberChar(t[0]) then 0 else 1 + NumberLength(t[1..])
  }

  function ReadValue(t: Text): (r: Option<Parsed<Doc>>)
    ensures r.Some? ==> |r.value.rest| < |t|
    decreases |t|, 0
  {
    if t == [] then None
    else if t[0] == QUOTE then
      var s := ReadString(t[1..]);
      if s.None? then None else Some(Parsed(DStr(s.value.value), s.value.rest))
    else if NULL_TEXT <= t then Some(Parsed(DNull, t[4..]))
    else if TRUE_TEXT <= t then Some(Parsed(DBool(true), t[4..]))
    else if FALSE_TEXT <= t then Some(Parsed(DBool(false), t[5..]))
    else if t[0] == LBRACKET then
      if |t| >= 2 && t[1] == RBRACKET then Some(Parsed(DArr([]), t[2..]))
      else
        var items := ReadItems(t[1..]);
        if items.None? then None else Some(Parsed(DArr(items.value.value), items.value.rest))
    else if t[0] == LBRACE then
      if |t| >= 2 && t[1] == RBRACE then Some(Parsed(DObj(map[]), t[2..]))
      else
        var fields := ReadMembers(t[1..]);
        if fields.None? then None else Some(Parsed(DObj(fields.value.value), fields.value.rest))
    else if IsDigit(t[0]) || t[0] == 45 then
      assert NumberLength(t) >= 1;
      Some(Parsed(DNumber(t[..NumberLength(t)]), t[NumberLength(t)..]))
    else None
  }

  function ReadItems(t: Text): (r: Option<Parsed<seq<Doc>>>)
    ensures r.Some? ==> |r.value.rest| < |t|
    decreases |t|, 1
  {
    var first := ReadValue(t);
    if first.None? || first.value.rest == [] then None
    else if first.value.rest[0] == RBRACKET then Some(Parsed([first.value.value], first.value.rest[1..]))
    else if first.value.rest[0] == COMMA then
      var others := ReadItems(first.value.rest[1..]);
      if others.None? then None else Some(Parsed([first.value.value] + others.value.value, others.value.rest))
    else None
  }

  /** A key, a colon and a value. */
  function ReadMember(t: Text): (r: Option<Parsed<(Text, Doc)>>)
    ensures r.Some? ==> |r.value.rest| < |t|
    decreases |t|, 0
  {
    if t == [] || t[0] != QUOTE then None
    else
      var key := ReadString(t[1..]);
      if key.None? || key.value.rest == [] || key.value.rest[0] != COLON then None
      else
        var value := ReadValue(key.value.rest[1..]);
        if value.None? then None else Some(Parsed((key.value.value, value.value.value), value.value.rest))
  }

  function ReadMembers(t: Text): (r: Option<Parsed<map<Text, Doc>>>)
    ensures r.Some? ==> |r.value.rest| < |t|
    decreases |t|, 1
  {
    var first := ReadMember(t);
    if first.None? || first.value.rest == [] then None
    else
      var (k, v) := first.value.value;
      if first.value.rest[0] == RBRACE then Some(Parsed(map[k := v], first.value.rest[1..]))
      else if first.value.rest[0] == COMMA then
        var others := ReadMembers(first.value.rest[1..]);
        if others.None? then None else Some(Parsed(others.value.value[k := v], others.value.rest))
      else None
  }

  function Read(t: Text): Option<Doc> {
    var r := ReadValue(t);
    if r.Some? && r.value.rest == [] then Some(r.value.value) else None
  }

  // ----- strings -----

  lemma FourNibbles(c: nat)
    requires c < 0x1_0000
    ensures c == c / 0x1000 * 0x1000 + c / 0x100 % 16 * 0x100 + c / 0x10 % 16 * 0x10 + c % 16
  {
    var p, q := c / 0x10, c / 0x100;
    assert p == p / 16 * 16 + p % 16 && p / 16 == q;
    assert q == q / 16 * 16 + q % 16 && q / 16 == c / 0x1000;
  }

  lemma HexReads(c: Unit)
    ensures Unhex4(Hex4(c)) == Some(c)
  {
    hide HexDigit, UnhexDigit;
    FourNibbles(c);
    DigitReads(c / 0x1000);
    DigitReads(c / 0x100 % 16);
    DigitReads(c / 0x10 % 16);
    DigitReads(c % 16);
  }

  lemma DigitReads(n: nat)
    requires n < 16
    ensures UnhexDigit(HexDigit(n)) == Some(n)
  {}

  lemma QuoteReads(rest: Text)
    ensures ReadString([QUOTE] + rest) == Some(Parsed([], rest))
  {}

  lemma PlainReads(c: Unit, u: Text)
    requires c != QUOTE && c != BACKSLASH
    ensures ReadString([c] + u) == Prepend(c, ReadString(u))
  {}

  lemma ShortReads(c: Unit, u: Text)
    requires ShortEscape(c).Some?
    ensures ReadString([BACKSLASH, ShortEscape(c).value] + u) == Prepend(c, ReadString(u))
  {}

  lemma LongReads(c: Unit, u: Text)
    ensures ReadString(UnicodeEscape(c) + u) == Prepend(c, ReadString(u))
  {
    hide Hex4, Unhex4;
    HexReads(c);
    var t := UnicodeEscape(c) + u;
    HexHasFour(c);
    assert t[2..6] == Hex4(c) && t[6..] == u;
  }

  lemma HexHasFour(c: Unit)
    ensures |Hex4(c)| == 4
  {}

  lemma PairStep(s: Text, rest: Text)
    requires StartsWithPair(s) && ReadString(Escaped(s[2..]) + [QUOTE] + rest) == Some(Parsed(s[2..], rest))
    ensures ReadString(Escaped(s) + [QUOTE] + rest) == Some(Parsed(s, rest))
  {
    hide ReadString;
    var u := Escaped(s[2..]) + [QUOTE] + rest;
    PlainReads(s[0], [s[1]] + u);
    PlainReads(s[1], u);
    assert Escaped(s) + [QUOTE] + rest == [s[0]] + ([s[1]] + u);
    assert s == [s[0]] + ([s[1]] + s[2..]);
  }

  lemma UnitReads(c: Unit, u: Text)
    ensures ReadString(EscapedUnit(c) + u) == Prepend(c, ReadString(u))
  {
    hide ReadString, ShortEscape, UnicodeEscape;
    if ShortEscape(c).Some? {
      ShortReads(c, u);
    } else if c < 32 || IsSurrogate(c) {
      LongReads(c, u);
    } else {
      NeedsEscape(c);
      PlainReads(c, u);
    }
  }

  lemma UnitStep(s: Text, rest: Text)
    requires s != [] && !StartsWithPair(s) && ReadString(Escaped(s[1..]) + [QUOTE] + rest) == Some(Parsed(s[1..], rest))
    ensures ReadString(Escaped(s) + [QUOTE] + rest) == Some(Parsed(s, rest))
  {
    hide ReadString, ShortEscape, UnicodeEscape;
    var u := Escaped(s[1..]) + [QUOTE] + rest;
    UnitReads(s[0], u);
    assert Escaped(s) == EscapedUnit(s[0]) + Escaped(s[1..]);
    assert Escaped(s) + [QUOTE] + rest == EscapedUnit(s[0]) + u;
    assert s == [s[0]] + s[1..];
  }

  /** Where a quoted string is followed by anything, its reader stops at its closing quote with the string. */
  lemma {:induction false} StringReads(s: Text, rest: Text)
    ensures ReadString(Escaped(s) + [QUOTE] + rest) == Some(Parsed(s, rest))
    decreases |s|
  {
    hide ReadString;
    if s == [] {
      QuoteReads(rest);
      assert Escaped(s) + [QUOTE] + rest == [QUOTE] + rest;
    } else if StartsWithPair(s) {
      StringReads(s[2..], rest);
      PairStep(s, rest);
    } else {
      StringReads(s[1..], rest);
      UnitStep(s, rest);
    }
  }

  lemma NeedsEscape(c: Unit)
    requires ShortEscape(c).None?
    ensures c != QUOTE && c != BACKSLASH
  {}

  // ----- values -----

  /** What may follow a printed value: nothing, or something that cannot continue a number. */
  predicate Follows(rest: Text) {
    rest == [] || !NumberChar(rest[0])
  }

  lemma {:induction false} NumberEnds(digits: Text, rest: Text)
    requires Follows(rest) && forall i :: 0 <= i < |digits| ==> NumberChar(digits[i])
    ensures NumberLength(digits + rest) == |digits|
    decreases |digits|
  {
    if digits == [] {
      assert digits + rest == rest;
    } else {
      assert (digits + rest)[1..] == digits[1..] + rest;
      NumberEnds(digits[1..], rest);
    }
  }

  lemma CanonStarts(v: Json)
    requires Valid(v)
    ensures Canon(v) != [] && Canon(v)[0] !in {RBRACKET, RBRACE, COMMA, COLON}
  {}

  lemma ArrayReads(u: Text, items: seq<Doc>, rest: Text)
    requires u != [] && u[0] != RBRACKET && ReadItems(u) == Some(Parsed(items, rest))
    ensures ReadValue([LBRACKET] + u) == Some(Parsed(DArr(items), rest))
  {
    hide ReadItems, ReadMembers, ReadString, NumberLength;
    assert ([LBRACKET] + u)[1..] == u;
  }

  lemma ObjectReads(u: Text, fields: map<Text, Doc>, rest: Text)
    requires u != [] && u[0] != RBRACE && ReadMembers(u) == Some(Parsed(fields, rest))
    ensures ReadValue([LBRACE] + u) == Some(Parsed(DObj(fields), rest))
  {
    hide ReadItems, ReadMembers, ReadString, NumberLength;
    assert ([LBRACE] + u)[1..] == u;
  }

  lemma EmptyReads(rest: Text)
    ensures ReadValue([LBRACKET, RBRACKET] + rest) == Some(Parsed(DArr([]), rest))
    ensures ReadValue([LBRACE, RBRACE] + rest) == Some(Parsed(DObj(map[]), rest))
  {}

  lemma WordReads(rest: Text)
    ensures ReadValue(NULL_TEXT + rest) == Some(Parsed(DNull, rest))
    ensures ReadValue(TRUE_TEXT + rest) == Some(Parsed(DBool(true), rest))
    ensures ReadValue(FALSE_TEXT + rest) == Some(Parsed(DBool(false), rest))
  {}

  lemma QuotedReads(s: Text, rest: Text)
    ensures ReadValue(Quoted(s) + rest) == Some(Parsed(DStr(s), rest))
  {
    hide ReadItems, ReadMembers, ReadString, NumberLength, Escaped;
    assert (Quoted(s) + rest)[1..] == Escaped(s) + [QUOTE] + rest;
    StringReads(s, rest);
  }

  lemma NumberReads(digits: Text, rest: Text)
    requires IsNumberText(digits) && Follows(rest)
    ensures ReadValue(digits + rest) == Some(Parsed(DNumber(digits), rest))
  {
    hide ReadItems, ReadMembers, ReadString, NumberLength;
    NumberEnds(digits, rest);
  }

  /** Every value that holds no other. */
  lemma LeafReads(v: Json, rest: Text)
    requires Valid(v) && Follows(rest)
             && ((v.Arr? && v.items == []) || (v.Obj? && v.members == []) || (!v.Arr? && !v.Obj?))
    ensures ReadValue(Canon(v) + rest) == Some(Parsed(Meaning(v), rest))
  {
    hide ReadValue, Quoted;
    match v
    case Null => WordReads(rest);
    case Bool(b) => WordReads(rest);
    case Number(digits) => NumberReads(digits, rest);
    case Str(s) => QuotedReads(s, rest);
    case Arr(_) =>
      assert Canon(v) + rest == [LBRACKET, RBRACKET] + rest;
      EmptyReads(rest);
    case Obj(_) =>
      assert Canon(v) + rest == [LBRACE, RBRACE] + rest;
      EmptyReads(rest);
      assert Fields([], []) == map[];
  }

  lemma ArrayStep(v: Json, rest: Text)
    requires Valid(v) && v.Arr? && v.items != []
    requires ReadItems(CanonItems(v.items) + [RBRACKET] + rest) == Some(Parsed(MeaningItems(v.items), rest))
    ensures ReadValue(Canon(v) + rest) == Some(Parsed(Meaning(v), rest))
  {
    hide ReadValue, ReadItems;
    var u := CanonItems(v.items) + [RBRACKET] + rest;
    CanonStarts(v.items[0]);
    assert u[0] == Canon(v.items[0])[0];
    ArrayReads(u, MeaningItems(v.items), rest);
    assert Canon(v) + rest == [LBRACKET] + u;
  }

  lemma ObjectStep(v: Json, rest: Text)
    requires Valid(v) && v.Obj? && v.members != []
    requires var ks := Sort(Keys(v.members));
             ReadMembers(CanonMembers(v.members, ks) + [RBRACE] + rest) == Some(Parsed(Fields(v.members, ks), rest))
    ensures ReadValue(Canon(v) + rest) == Some(Parsed(Meaning(v), rest))
  {
    hide ReadValue, ReadMembers, Sort;
    var ks := Sort(Keys(v.members));
    var u := CanonMembers(v.members, ks) + [RBRACE] + rest;
    assert u[0] == QUOTE;
    ObjectReads(u, Fields(v.members, ks), rest);
    assert Canon(v) + rest == [LBRACE] + u;
    assert Fields(v.members, ks) == Fields(v.members, Keys(v.members));
  }

  lemma {:induction false} ValueReads(v: Json, rest: Text)
    requires Valid(v) && Follows(rest)
    ensures ReadValue(Canon(v) + rest) == Some(Parsed(Meaning(v), rest))
    decreases v, 0
  {
    hide ReadValue, ReadItems, ReadMembers, Escaped, Sort, Follows;
    if v.Arr? && v.items != [] {
      ItemsRead(v.items, rest);
      ArrayStep(v, rest);
    } else if v.Obj? && v.members != [] {
      SortSorts(Keys(v.members));
      MembersRead(v.members, Sort(Keys(v.members)), rest);
      ObjectStep(v, rest);
    } else {
      LeafReads(v, rest);
    }
  }

  lemma {:induction false} ItemsRead(items: seq<Json>, rest: Text)
    requires items != [] && forall i :: 0 <= i < |items| ==> Valid(items[i])
    ensures ReadItems(CanonItems(items) + [RBRACKET] + rest) == Some(Parsed(MeaningItems(items), rest))
    decreases items, |items|
  {
    var t := CanonItems(items) + [RBRACKET] + rest;
    var first := Canon(items[0]);
    if |items| == 1 {
      assert t == first + ([RBRACKET] + rest);
      ValueReads(items[0], [RBRACKET] + rest);
      assert MeaningItems(items) == [Meaning(items[0])];
    } else {
      var u := CanonItems(items[1..]) + [RBRACKET] + rest;
      assert t == first + ([COMMA] + u);
      ValueReads(items[0], [COMMA] + u);
      ItemsRead(items[1..], rest);
      assert ([COMMA] + u)[1..] == u;
    }
  }

  lemma {:induction false} MemberReads(ms: seq<Member>, k: Text, rest: Text)
    requires (forall i :: 0 <= i < |ms| ==> Valid(ms[i].value)) && k in Keys(ms) && Follows(rest)
    ensures ReadMember(CanonMember(ms, k) + rest) == Some(Parsed((k, Meaning(ms[KeyIndex(ms, k)].value)), rest))
    decreases ms, 0
  {
    hide ReadString, ReadValue, Escaped, Meaning, Canon;
    var v := ms[KeyIndex(ms, k)].value;
    var t, after := CanonMember(ms, k) + rest, [COLON] + Canon(v) + rest;
    assert t[1..] == Escaped(k) + [QUOTE] + after;
    StringReads(k, after);
    assert after[1..] == Canon(v) + rest;
    ValueReads(v, rest);
  }

  lemma LastMemberReads(t: Text, k: Text, v: Doc, rest: Text)
    requires ReadMember(t) == Some(Parsed((k, v), [RBRACE] + rest))
    ensures ReadMembers(t) == Some(Parsed(map[k := v], rest))
  {}

  lemma NextMemberReads(t: Text, k: Text, v: Doc, u: Text, fields: map<Text, Doc>, rest: Text)
    requires ReadMember(t) == Some(Parsed((k, v), [COMMA] + u)) && ReadMembers(u) == Some(Parsed(fields, rest))
    ensures ReadMembers(t) == Some(Parsed(fields[k := v], rest))
  {}

  lemma FieldsGrow(ms: seq<Member>, ks: seq<Text>)
    requires ks != [] && forall k :: k in ks ==> k in Keys(ms)
    ensures var v := Meaning(ms[KeyIndex(ms, ks[0])].value);
            Fields(ms, ks) == if |ks| == 1 then map[ks[0] := v] else Fields(ms, ks[1..])[ks[0] := v]
  {
    assert ks == [ks[0]] + ks[1..];
  }

  lemma MembersText(ms: seq<Member>, ks: seq<Text>, rest: Text)
    requires ks != [] && forall k :: k in ks ==> k in Keys(ms)
    ensures CanonMembers(ms, ks) + [RBRACE] + rest
            == CanonMember(ms, ks[0]) + if |ks| == 1 then [RBRACE] + rest
              else [COMMA] + (CanonMembers(ms, ks[1..]) + [RBRACE] + rest)
  {}

  lemma {:induction false} MembersRead(ms: seq<Member>, ks: seq<Text>, rest: Text)
    requires (forall i :: 0 <= i < |ms| ==> Valid(ms[i].value)) && ks != [] && Sorted(ks)
             && forall k :: k in ks ==> k in Keys(ms)
    ensures ReadMembers(CanonMembers(ms, ks) + [RBRACE] + rest) == Some(Parsed(Fields(ms, ks), rest))
    decreases ms, |ks| + 1
  {
    hide ReadMembers, ReadMember, CanonMember, Before, Valid, Fields, CanonMembers;
    var v := Meaning(ms[KeyIndex(ms, ks[0])].value);
    FieldsGrow(ms, ks);
    MembersText(ms, ks, rest);
    if |ks| == 1 {
      MemberReads(ms, ks[0], [RBRACE] + rest);
      LastMemberReads(CanonMembers(ms, ks) + [RBRACE] + rest, ks[0], v, rest);
    } else {
      var u := CanonMembers(ms, ks[1..]) + [RBRACE] + rest;
      MemberReads(ms, ks[0], [COMMA] + u);
      MembersRead(ms, ks[1..], rest);
      NextMemberReads(CanonMembers(ms, ks) + [RBRACE] + rest, ks[0], v, u, Fields(ms, ks[1..]), rest);
    }
  }

  /** The reader inverts the printer, up to the order of object keys. */
  lemma CanonicalTextReadsBack(v: Json)
    requires Valid(v)
    ensures Read(Canon(v)) == Some(Meaning(v))
  {
    ValueReads(v, []);
    assert Canon(v) + [] == Canon(v);
  }

  /** Two values have the same canonical text exactly when they are equal up to the order of object keys. */
  lemma CanonicalExactlyWhenSame(a: Json, b: Json)
    requires Valid(a) && Valid(b)
    ensures Canon(a) == Canon(b) <==> Meaning(a) == Meaning(b)
  {
    CanonicalTextReadsBack(a);
    CanonicalTextReadsBack(b);
    if Meaning(a) == Meaning(b) {
      SameMeaningSameText(a, b);
    }
  }
}
