/** The canonical-hash port: what is digested for a document under a schema, and that it pins both down. */
module CanonicalHash {
  import opened Common
  import opened Unicode
  import opened CanonicalJson
  import opened JsonReading

  /** The UTF-16 units of an ASCII literal. */
  function Units(s: string): (t: Text)
    requires forall i :: 0 <= i < |s| ==> s[i] < 128 as char
    ensures |t| == |s| && forall i :: 0 <= i < |s| ==> t[i] == s[i] as int
  {
    if s == [] then [] else [s[0] as int] + Units(s[1..])
  }

  const KNOWN_SCHEMAS := ["culturago.entity.v1", "culturago.credential.v1", "culturago.fingerprint.v1"]
  const DOMAIN := "CULTURAGO"

  /** The envelope: domain, NUL, schema, NUL, canonical text; as UTF-8. */
  function Prefix(): Text {
    Units(DOMAIN) + [0]
  }

  function DigestText(schema: Text, canonical: Text): Text {
    Prefix() + (schema + [0] + canonical)
  }

  function DigestInput(schema: Text, canonical: Text): seq<Byte> {
    Utf8(DigestText(schema, canonical))
  }

  /** The bytes handed to SHA-256, or the refusal of an unknown schema. */
  function HashInput(schemaId: string, document: Json): Result<seq<Byte>, string> {
    if schemaId !in KNOWN_SCHEMAS then Err("Unknown hash schema") else
      assert forall i :: 0 <= i < |schemaId| ==> 0 < schemaId[i] as int < 128 by { KnownSchemasArePlain(schemaId); }
      Ok(DigestInput(Units(schemaId), Canon(document)))
  }

  lemma KnownSchemasArePlain(schemaId: string)
    requires schemaId in KNOWN_SCHEMAS
    ensures forall i :: 0 <= i < |schemaId| ==> 0 < schemaId[i] as int < 128
  {}

  // ----- the canonical text has no lone surrogate, so its UTF-8 loses nothing -----

  lemma {:induction false} EscapedIsWellFormed(s: Text)
    ensures WellFormed(Escaped(s))
    decreases |s|
  {
    if s != [] {
      if StartsWithPair(s) {
        EscapedIsWellFormed(s[2..]);
        assert Escaped(s)[2..] == Escaped(s[2..]);
      } else {
        EscapedIsWellFormed(s[1..]);
        NoSurrogates(EscapedUnit(s[0]));
        WellFormedConcat(EscapedUnit(s[0]), Escaped(s[1..]));
        assert Escaped(s) == EscapedUnit(s[0]) + Escaped(s[1..]);
      }
    }
  }

  lemma Wrapped(open: Text, t: Text, close: Text)
    requires WellFormed(open) && WellFormed(t) && WellFormed(close)
    ensures WellFormed(open + t + close)
  {
    WellFormedConcat(open, t);
    WellFormedConcat(open + t, close);
  }

  lemma One(c: Unit)
    requires !IsSurrogate(c)
    ensures WellFormed([c])
  {}

  lemma QuotedIsWellFormed(s: Text)
    ensures WellFormed(Quoted(s))
  {
    EscapedIsWellFormed(s);
    One(QUOTE);
    Wrapped([QUOTE], Escaped(s), [QUOTE]);
  }

  lemma {:induction false} CanonIsWellFormed(v: Json)
    requires Valid(v)
    ensures WellFormed(Canon(v))
    decreases v, 0
  {
    hide WellFormed;
    match v
    case Str(s) => QuotedIsWellFormed(s);
    case Arr(items) =>
      ItemsAreWellFormed(items);
      One(LBRACKET);
      One(RBRACKET);
      Wrapped([LBRACKET], CanonItems(items), [RBRACKET]);
    case Obj(ms) =>
      MembersAreWellFormed(ms, Sort(Keys(ms)));
      One(LBRACE);
      One(RBRACE);
      Wrapped([LBRACE], CanonMembers(ms, Sort(Keys(ms))), [RBRACE]);
    case _ => NoSurrogates(Canon(v));
  }

  lemma {:induction false} ItemsAreWellFormed(items: seq<Json>)
    requires forall i :: 0 <= i < |items| ==> Valid(items[i])
    ensures WellFormed(CanonItems(items))
    decreases items, |items|
  {
    if items == [] {
    } else {
      CanonIsWellFormed(items[0]);
      if |items| > 1 {
        ItemsAreWellFormed(items[1..]);
        One(COMMA);
        Wrapped(Canon(items[0]), [COMMA], CanonItems(items[1..]));
      }
    }
  }

  lemma {:induction false} MembersAreWellFormed(ms: seq<Member>, ks: seq<Text>)
    requires (forall i :: 0 <= i < |ms| ==> Valid(ms[i].value)) && forall k :: k in ks ==> k in Keys(ms)
    ensures WellFormed(CanonMembers(ms, ks))
    decreases ms, |ks| + 1
  {
    if ks == [] {
    } else {
      var v := ms[KeyIndex(ms, ks[0])].value;
      QuotedIsWellFormed(ks[0]);
      CanonIsWellFormed(v);
      One(COLON);
      One(COMMA);
      Wrapped(Quoted(ks[0]), [COLON], Canon(v));
      if |ks| > 1 {
        MembersAreWellFormed(ms, ks[1..]);
        Wrapped(CanonMember(ms, ks[0]), [COMMA], CanonMembers(ms, ks[1..]));
      }
    }
  }

  // ----- what the digest input pins down -----

  lemma DigestTextSplits(a: Text, b: Text, x: Text, y: Text)
    requires 0 !in a && 0 !in b && DigestText(a, x) == DigestText(b, y)
    ensures a == b && x == y
  {
    hide Prefix;
    var left, right := a + [0] + x, b + [0] + y;
    assert (Prefix() + left)[|Prefix()|..] == left;
    assert (Prefix() + right)[|Prefix()|..] == right;
    SplitAtSeparator(a, x, 0, b, y);
  }

  lemma PrefixIsWellFormed()
    ensures WellFormed(Prefix())
  {
    NoSurrogates(Prefix());
  }

  lemma DigestTextIsWellFormed(schema: Text, canonical: Text)
    requires WellFormed(schema) && WellFormed(canonical)
    ensures WellFormed(DigestText(schema, canonical))
  {
    hide Prefix, WellFormed;
    PrefixIsWellFormed();
    One(0);
    Wrapped(schema, [0], canonical);
    WellFormedConcat(Prefix(), schema + [0] + canonical);
  }

  /**
   * The bytes that are digested are the same for two documents exactly when the schemas are the same
   * and the documents are equal up to the order of object keys; for any schema ids without NUL.
   */
  lemma DigestInputExactlyWhenSame(a: Text, x: Json, b: Text, y: Json)
    requires Valid(x) && Valid(y) && WellFormed(a) && WellFormed(b) && 0 !in a && 0 !in b
    ensures DigestInput(a, Canon(x)) == DigestInput(b, Canon(y)) <==> a == b && Meaning(x) == Meaning(y)
  {
    hide Canon, Meaning, WellFormed, Valid, DigestText, Utf8;
    CanonIsWellFormed(x);
    CanonIsWellFormed(y);
    DigestTextIsWellFormed(a, Canon(x));
    DigestTextIsWellFormed(b, Canon(y));
    Utf8IsInjective(DigestText(a, Canon(x)), DigestText(b, Canon(y)));
    CanonicalExactlyWhenSame(x, y);
    if DigestText(a, Canon(x)) == DigestText(b, Canon(y)) {
      DigestTextSplits(a, b, Canon(x), Canon(y));
    }
  }

  lemma PlainUnits(s: string)
    requires forall i :: 0 <= i < |s| ==> 0 < s[i] as int < 128
    ensures WellFormed(Units(s)) && 0 !in Units(s)
  {}

  lemma UnitsAreInjective(a: string, b: string)
    requires (forall i :: 0 <= i < |a| ==> a[i] < 128 as char) && (forall i :: 0 <= i < |b| ==> b[i] < 128 as char)
    requires Units(a) == Units(b)
    ensures a == b
  {}

  /**
   * Hashing succeeds exactly under the known schemas, and there equal inputs to SHA-256 mean equal schema and document.
   */
  lemma HashInputExactlyWhenSame(a: string, x: Json, b: string, y: Json)
    requires Valid(x) && Valid(y)
    ensures HashInput(a, x).Ok? <==> a in KNOWN_SCHEMAS
    ensures a in KNOWN_SCHEMAS && b in KNOWN_SCHEMAS ==>
            (HashInput(a, x) == HashInput(b, y) <==> a == b && Meaning(x) == Meaning(y))
  {
    hide Canon, Meaning, WellFormed, Valid, DigestInput, Units;
    if a in KNOWN_SCHEMAS && b in KNOWN_SCHEMAS {
      KnownSchemasArePlain(a);
      KnownSchemasArePlain(b);
      PlainUnits(a);
      PlainUnits(b);
      DigestInputExactlyWhenSame(Units(a), x, Units(b), y);
      if Units(a) == Units(b) {
        UnitsAreInjective(a, b);
      }
    }
  }

  // ----- the bytes themselves -----

  /** The units of "CULTURAGO", NUL. */
  const DOMAIN_BYTES: seq<Byte> := [67, 85, 76, 84, 85, 82, 65, 71, 79, 0]

  predicate IsSchema(id: string) {
    id == "culturago.entity.v1" || id == "culturago.credential.v1" || id == "culturago.fingerprint.v1"
  }

  lemma SchemasAre(id: string)
    ensures id in KNOWN_SCHEMAS <==> IsSchema(id)
  {
    assert KNOWN_SCHEMAS[0] == "culturago.entity.v1" && KNOWN_SCHEMAS[1] == "culturago.credential.v1"
      && KNOWN_SCHEMAS[2] == "culturago.fingerprint.v1";
  }

  /**
   * What is digested: "CULTURAGO", NUL, the schema id, NUL and the canonical text in UTF-8, for each of
   * the three schemas; any other is refused.
   */
  lemma DigestedBytes(schemaId: string, document: Json)
    ensures HashInput(schemaId, document).Ok? <==> IsSchema(schemaId)
    ensures HashInput(schemaId, document).Ok? ==>
              && (forall i :: 0 <= i < |schemaId| ==> schemaId[i] < 128 as char)
              && HashInput(schemaId, document).value
                 == DOMAIN_BYTES + Bytes(Units(schemaId)) + [0] + Utf8(Canon(document))
  {
    hide Canon, Utf8, Units, Bytes, Prefix, DigestInput, IsSchema;
    SchemasAre(schemaId);
    if schemaId in KNOWN_SCHEMAS {
      KnownSchemasArePlain(schemaId);
      EnvelopeBytes(Units(schemaId), Canon(document));
    }
  }

  lemma EnvelopeBytes(schema: Text, canonical: Text)
    requires forall i :: 0 <= i < |schema| ==> schema[i] < 0x80
    ensures DigestInput(schema, canonical) == DOMAIN_BYTES + Bytes(schema) + [0] + Utf8(canonical)
  {
    hide Utf8, Bytes, Prefix;
    DomainUnits();
    var head := Prefix() + schema + [0];
    assert DigestText(schema, canonical) == head + canonical;
    AsciiIsItself(head, canonical);
    assert Bytes(head) == DOMAIN_BYTES + Bytes(schema) + [0] by {
      assert |Bytes(head)| == |DOMAIN_BYTES| + |schema| + 1;
    }
  }

  lemma DomainUnits()
    ensures Prefix() == DOMAIN_BYTES
  {}

  /** {"b":1,"a":"hola"} prints as {"a":"hola","b":1}. */
  lemma KnownObject()
    ensures Canon(Obj([Member([98], Number([49])), Member([97], Str([104, 111, 108, 97]))]))
            == [123, 34, 97, 34, 58, 34, 104, 111, 108, 97, 34, 44, 34, 98, 34, 58, 49, 125]
  {
    hide CanonMembers, Escaped, Sort, InCodeUnitOrder, Precedes, Canon;
    var ms := [Member([98], Number([49])), Member([97], Str([104, 111, 108, 97]))];
    var ks: seq<Text> := [[97], [98]];
    AIsBeforeB();
    assert Keys(ms) == [[98], [97]];
    ObjectPrintsInOrder(ms, ks);
    PlainText([97]);
    PlainText([98]);
    PlainText([104, 111, 108, 97]);
    TwoMembers(ms, [97], [98]);
    LeafTexts();
    assert KeyIndex(ms, [98]) == 0;
    assert ms[1..] == [ms[1]] && KeyIndex(ms, [97]) == 1;
  }

  lemma AIsBeforeB()
    ensures InCodeUnitOrder([[97], [98]])
  {
    var a: Text, b: Text := [97], [98];
    assert a[..0] == b[..0] && Precedes(a, b);
  }

  lemma LeafTexts()
    ensures Canon(Number([49])) == [49] && forall s: Text :: Canon(Str(s)) == Quoted(s)
  {}

  lemma TwoMembers(ms: seq<Member>, a: Text, b: Text)
    requires a in Keys(ms) && b in Keys(ms)
    ensures CanonMembers(ms, [a, b])
            == Quoted(a) + [58] + Canon(ms[KeyIndex(ms, a)].value) + [44] + (Quoted(b) + [58]
               + Canon(ms[KeyIndex(ms, b)].value))
  {
    hide Quoted, Canon, KeyIndex;
    assert [a, b][1..] == [b] && CanonMembers(ms, [b]) == CanonMember(ms, b);
  }

  lemma {:induction false} PlainText(s: Text)
    requires forall i :: 0 <= i < |s| ==> 93 <= s[i] < 127
    ensures Escaped(s) == s
  {
    hide UnicodeEscape;
    if s != [] {
      assert !StartsWithPair(s) && ShortEscape(s[0]).None?;
      PlainText(s[1..]);
    }
  }

  /** [null,true,false] prints as it is. */
  lemma KnownArray()
    ensures Canon(Arr([Null, Bool(true), Bool(false)]))
            == [91, 110, 117, 108, 108, 44, 116, 114, 117, 101, 44, 102, 97, 108, 115, 101, 93]
  {
    var items := [Null, Bool(true), Bool(false)];
    assert items[1..] == [Bool(true), Bool(false)] && items[1..][1..] == [Bool(false)];
    assert CanonItems(items) == NULL_TEXT + [44] + (TRUE_TEXT + [44] + FALSE_TEXT);
  }
}
