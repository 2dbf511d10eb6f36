/**
 * The three commands of the gateway, the idempotency key each is printed to, the parser that reads
 * a key back, and the contract call each command stands for.
 */
module Commands {
  import opened Common
  import S = SimulatedChain

  datatype Command =
    | RegisterEntity(idempotencyKey: string, actorAddress: Address, entityId: string, metadataHash: string,
                     hashSchema: nat)
    | IssueCredential(idempotencyKey: string, actorAddress: Address, credentialId: string, issuerId: string,
                      subjectId: string,
                      eventId: string, credentialType: nat, metadataHash: string, hashSchema: nat)
    | RevokeCredential(idempotencyKey: string, actorAddress: Address, credentialId: string, reasonHash: Option<string>)

  /** The client's own key is no part of a command's identity. */
  function WithoutClientKey(c: Command): Command {
    c.(idempotencyKey := "")
  }

  /** Two commands are the same request exactly when they agree in everything but the client's key. */
  lemma SameRequestExactlyWhen(a: Command, b: Command)
    ensures WithoutClientKey(a) == WithoutClientKey(b) <==> a == b.(idempotencyKey := a.idempotencyKey)
    ensures WithoutClientKey(a) == a.(idempotencyKey := WithoutClientKey(a).idempotencyKey)
  {}

  // ----- idempotency keys -----

  function CanonicalKey(c: Command): string {
    match c
    case RegisterEntity(_, _, id, _, _) => "register:" + id
    case IssueCredential(_, _, id, _, _, _, _, _, _) => "issue:" + id
    case RevokeCredential(_, _, id, reason) => "revoke:" + id + ":" + if reason.Some? then reason.value else ""
  }

  datatype ParsedKey =
    | Register(entityId: string)
    | Issue(credentialId: string)
    | Revoke(credentialId: string, reasonHash: Option<string>)

  /** JavaScript's `split` on one character. */
  function Split(s: string, c: char): (parts: seq<string>)
    ensures parts != []
  {
    var i := IndexOf(s, c);
    if i == |s| then [s] else [s[..i]] + Split(s[i + 1..], c)
  }

  /** JavaScript's `join` with one character. */
  function Join(parts: seq<string>, c: char): string {
    if parts == [] then "" else if |parts| == 1 then parts[0] else parts[0] + [c] + Join(parts[1..], c)
  }

  function ParseKey(key: string): Option<ParsedKey> {
    var parts := Split(key, ':');
    var prefix, rest := parts[0], parts[1..];
    if prefix == "register" && |rest| == 1 then Some(Register(rest[0]))
    else if prefix == "issue" && |rest| == 1 then Some(Issue(rest[0]))
    else if prefix == "revoke" && |rest| >= 1 then
      var reason := Join(rest[1..], ':');
      Some(Revoke(rest[0], if reason == "" then None else Some(reason)))
    else None
  }

  lemma {:induction false} JoinOfSplit(s: string, c: char)
    ensures Join(Split(s, c), c) == s
    decreases |s|
  {
    hide Join;
    JoinOfOne(s, c);
    var i := IndexOf(s, c);
    if i < |s| {
      JoinOfSplit(s[i + 1..], c);
      JoinOfTwo(s[..i], Split(s[i + 1..], c), c);
      CutAt(s, i);
    }
  }

  lemma CutAt(s: string, i: nat)
    requires i < |s|
    ensures s[..i] + [s[i]] + s[i + 1..] == s
  {}

  lemma JoinOfOne(s: string, c: char)
    ensures Join([s], c) == s
  {}

  lemma JoinOfTwo(head: string, tail: seq<string>, c: char)
    requires tail != []
    ensures Join([head] + tail, c) == head + [c] + Join(tail, c)
  {
    assert ([head] + tail)[1..] == tail;
  }

  lemma SplitAfter(head: string, tail: string, c: char)
    requires c !in head
    ensures Split(head + [c] + tail, c) == [head] + Split(tail, c)
  {
    var s := head + [c] + tail;
    assert s[|head|] == c;
    var i := IndexOf(s, c);
    forall k | 0 <= k < i ensures s[k] != c { assert s[..i][k] == s[k]; }
    assert i == |head|;
    assert s[..i] == head && s[i + 1..] == tail;
  }

  lemma SplitWhole(s: string, c: char)
    ensures |Split(s, c)| == 1 <==> c !in s
    ensures c !in s ==> Split(s, c) == [s]
    ensures c !in Split(s, c)[0]
  {}

  function Denoted(c: Command): ParsedKey {
    match c
    case RegisterEntity(_, _, id, _, _) => Register(id)
    case IssueCredential(_, _, id, _, _, _, _, _, _) => Issue(id)
    case RevokeCredential(_, _, id, reason) => Revoke(id, reason)
  }

  function SubjectId(c: Command): string {
    if c.RegisterEntity? then c.entityId else c.credentialId
  }

  /** A one-field key parses back exactly when the field is free of ':'. */
  lemma SimpleKeyParses(prefix: string, id: string)
    requires ':' !in prefix && prefix != "revoke"
    ensures ParseKey(prefix + ":" + id)
            == if ':' in id then None
               else if prefix == "register" then Some(Register(id))
               else if prefix == "issue" then Some(Issue(id))
               else None
  {
    var key := prefix + ":" + id;
    SplitAfter(prefix, id, ':');
    SplitWhole(id, ':');
    assert Split(key, ':')[1..] == Split(id, ':');
  }

  /** A revocation key keeps its id when that is free of ':', and its reason whatever it holds. */
  lemma RevokeKeyParses(id: string, text: string)
    ensures var parsed := ParseKey("revoke:" + id + ":" + text);
            if ':' in id then parsed.Some? && parsed.value.Revoke? && parsed.value.credentialId != id
            else parsed == Some(Revoke(id, if text == "" then None else Some(text)))
  {
    var rest := id + [':'] + text;
    assert "revoke:" + id + ":" + text == "revoke" + [':'] + rest;
    SplitAfter("revoke", rest, ':');
    assert Split("revoke" + [':'] + rest, ':')[1..] == Split(rest, ':');
    SplitWhole(rest, ':');
    if ':' !in id {
      SplitAfter(id, text, ':');
      assert Split(rest, ':')[1..] == Split(text, ':');
      JoinOfSplit(text, ':');
    }
  }

  /**
   * Parsing a printed key recovers the command's kind, id and reason exactly when the id is free of
   * ':' and the reason is null or non-empty.
   */
  lemma KeyRoundTripsExactlyWhen(c: Command)
    ensures ParseKey(CanonicalKey(c)) == Some(Denoted(c))
            <==> ':' !in SubjectId(c) && (c.RevokeCredential? ==> c.reasonHash != Some(""))
  {
    match c
    case RegisterEntity(_, _, id, _, _) =>
      assert CanonicalKey(c) == "register" + ":" + id;
      SimpleKeyParses("register", id);
    case IssueCredential(_, _, id, _, _, _, _, _, _) =>
      assert CanonicalKey(c) == "issue" + ":" + id;
      SimpleKeyParses("issue", id);
    case RevokeCredential(_, _, id, reason) =>
      RevokeKeyParses(id, if reason.Some? then reason.value else "");
  }

  /** Commands that differ in kind, id or reason never share a key, for ids free of ':' (reasons null or non-empty). */
  lemma DistinctCommandsHaveDistinctKeys(a: Command, b: Command)
    requires ':' !in SubjectId(a) && (a.RevokeCredential? ==> a.reasonHash != Some(""))
    requires ':' !in SubjectId(b) && (b.RevokeCredential? ==> b.reasonHash != Some(""))
    ensures CanonicalKey(a) == CanonicalKey(b) <==> Denoted(a) == Denoted(b)
  {
    KeyRoundTripsExactlyWhen(a);
    KeyRoundTripsExactlyWhen(b);
  }

  // ----- contract calls -----

  const ENTITY_SCHEMA := "culturago.entity.v1"
  const CREDENTIAL_SCHEMA := "culturago.credential.v1"

  /** A text as bytes, three to a character. */
  function Spelled(text: string): (bytes: seq<Byte>)
    ensures |bytes| == 3 * |text|
  {
    if text == "" then []
    else
      var c := text[0] as nat;
      [c / 0x1_0000, c / 0x100 % 0x100, c % 0x100] + Spelled(text[1..])
  }

  lemma {:induction false} SpelledIsInjective(a: string, b: string)
    ensures Spelled(a) == Spelled(b) <==> a == b
    decreases |a|
  {
    if Spelled(a) == Spelled(b) && a != "" {
      var x, y := Spelled(a), Spelled(b);
      assert x[..3] == y[..3] && x[3..] == Spelled(a[1..]) && y[3..] == Spelled(b[1..]);
      SpelledIsInjective(a[1..], b[1..]);
      assert x[0] == y[0] && x[1] == y[1] && x[2] == y[2];
      SameCharacter(a[0] as nat, b[0] as nat);
      assert a == [a[0]] + a[1..] && b == [b[0]] + b[1..];
    }
  }

  lemma SameCharacter(m: nat, n: nat)
    requires m / 0x1_0000 == n / 0x1_0000 && m / 0x100 % 0x100 == n / 0x100 % 0x100 && m % 0x100 == n % 0x100
    ensures m == n
  {
    assert m / 0x100 / 0x100 == m / 0x1_0000 && n / 0x100 / 0x100 == n / 0x1_0000;
  }

  /**
   * The digest of a document under a schema, a text of hex digits: sha256 is taken as collision-free, so
   * the text stands for what is digested.
   */
  function HashDocument(schema: string, document: string): (text: string)
    ensures IsHex(text)
  {
    Hex(Spelled(schema + ['\0'] + document))
  }

  lemma HashDocumentIsInjective(schema: string, schema': string, document: string, document': string)
    requires '\0' !in schema && '\0' !in schema'
    ensures HashDocument(schema, document) == HashDocument(schema', document')
            <==> schema == schema' && document == document'
  {
    hide Hex, Spelled;
    if HashDocument(schema, document) == HashDocument(schema', document') {
      HexIsInjective(Spelled(schema + ['\0'] + document), Spelled(schema' + ['\0'] + document'));
      SpelledIsInjective(schema + ['\0'] + document, schema' + ['\0'] + document');
      SplitAtSeparator(schema, document, '\0', schema', document');
    }
  }

  function SubjectKey(c: Command): string {
    HashDocument(if c.RegisterEntity? then ENTITY_SCHEMA else CREDENTIAL_SCHEMA, SubjectId(c))
  }

  /** The call a command stands for; hashes that are not 64 lower-case hex digits are refused. */
  function SpecFor(c: Command): Result<S.Call, string> {
    match c
    case RegisterEntity(_, actor, id, meta, schema) =>
      if !IsHex64(meta) then Err("metadataHash must be a 64-char lowercase hex digest")
      else Ok(S.RegisterEntity(actor, HashDocument(ENTITY_SCHEMA, id), meta, schema))
    case IssueCredential(_, actor, id, issuer, subject, event, ctype, meta, schema) =>
      if !IsHex64(meta) then Err("metadataHash must be a 64-char lowercase hex digest")
      else Ok(S.IssueCredential(actor, HashDocument(CREDENTIAL_SCHEMA, id), HashDocument(ENTITY_SCHEMA, issuer),
                                HashDocument(ENTITY_SCHEMA, subject), HashDocument(ENTITY_SCHEMA, event), ctype, meta,
                                  schema))
    case RevokeCredential(_, actor, id, reason) =>
      if reason.Some? && reason.value != "" && !IsHex64(reason.value)
        then Err("reasonHash must be a 64-char lowercase hex digest")
      else Ok(S.RevokeCredential(actor, HashDocument(CREDENTIAL_SCHEMA, id), reason))
  }

  /**
   * A command has a call exactly when its metadata hash, or its reason unless that is left out or empty, is a
   * digest; and the call says what the command says, ids by their digests.
   */
  lemma SpecExactlyWhen(c: Command)
    ensures SpecFor(c).Ok? <==>
              if c.RevokeCredential? then c.reasonHash in {None, Some("")} || IsDigestText(c.reasonHash.value)
              else IsDigestText(c.metadataHash)
    ensures SpecFor(c).Ok? ==>
              var call := SpecFor(c).value;
              && call.operator == c.actorAddress
              && match c
                 case RegisterEntity(_, _, id, meta, schema) =>
                   && call.RegisterEntity? && call.entityId == HashDocument("culturago.entity.v1", id)
                   && call.metadataHash == meta && call.hashSchema == schema
                 case IssueCredential(_, _, id, issuer, subject, event, ctype, meta, schema) =>
                   && call.IssueCredential? && call.credentialId == HashDocument("culturago.credential.v1", id)
                   && call.issuerId == HashDocument("culturago.entity.v1", issuer)
                   && call.subjectId == HashDocument("culturago.entity.v1", subject)
                   && call.eventId == HashDocument("culturago.entity.v1", event)
                   && call.credentialType == ctype && call.metadataHash == meta && call.hashSchema == schema
                 case RevokeCredential(_, _, id, reason) =>
                   && call.RevokeCredential? && call.credentialId == HashDocument("culturago.credential.v1", id)
                   && call.reasonHash == reason
  {
    hide HashDocument, IsHex64, IsDigestText;
    if c.RevokeCredential? {
      if c.reasonHash.Some? { DigestTexts(c.reasonHash.value); }
    } else {
      DigestTexts(c.metadataHash);
    }
  }
}
