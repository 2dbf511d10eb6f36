/**
 * The simulated chain mirrors the two contracts: submitting register, issue and revoke calls to it
 * and making the same calls on the registries keeps their states equal, byte strings written in hex.
 */
module ChainRefinement {
  import opened Common
  import opened Grants
  import S = SimulatedChain
  import E = EntityRegistry
  import C = CredentialRegistry

  datatype Op =
    | Register(operator: Address, entityId: Bytes32, metadataHash: Bytes32, hashSchema: U32)
    | Issue(operator: Address, credentialId: Bytes32, issuerId: Bytes32, subjectId: Bytes32, eventId: Bytes32,
            credentialType: U32, metadataHash: Bytes32, hashSchema: U32)
    | Revoke(operator: Address, credentialId: Bytes32, reasonHash: Option<Bytes32>)

  function HexOption(b: Option<Bytes32>): Option<string> {
    if b.Some? then Some(Hex(b.value)) else None
  }

  /** The call as the simulated chain receives it. */
  function Simulated(op: Op): S.Call {
    match op
    case Register(o, id, meta, schema) => S.RegisterEntity(o, Hex(id), Hex(meta), schema)
    case Issue(o, id, i, s, e, t, meta, schema) =>
      S.IssueCredential(o, Hex(id), Hex(i), Hex(s), Hex(e), t, Hex(meta), schema)
    case Revoke(o, id, reason) => S.RevokeCredential(o, Hex(id), HexOption(reason))
  }

  function CredentialCall(op: Op): C.Call
    requires !op.Register?
  {
    match op
    case Issue(o, id, i, s, e, t, meta, schema) => C.IssueCredential(o, id, i, s, e, t, meta, schema)
    case Revoke(o, id, reason) => C.RevokeCredential(o, id, reason)
  }

  datatype Contracts = Contracts(entities: E.Registry, credentials: C.Registry)

  /** The same call on the contract it belongs to. */
  function OnContracts(k: Contracts, ledger: U32, op: Op): Contracts {
    if op.Register? then
      k.(entities := E.Register(k.entities, Env(ledger, {op.operator}),
                                E.RegisterEntity(op.operator, op.entityId, op.metadataHash, op.hashSchema)).0)
    else
      k.(credentials := C.Exec(k.credentials, Env(ledger, {op.operator}), CredentialCall(op)).0)
  }

  predicate ContractAccepts(k: Contracts, ledger: U32, op: Op) {
    if op.Register? then
      E.Register(k.entities, Env(ledger, {op.operator}),
                 E.RegisterEntity(op.operator, op.entityId, op.metadataHash, op.hashSchema)).1.At?
    else
      var reply := C.Exec(k.credentials, Env(ledger, {op.operator}), CredentialCall(op)).1;
      reply.Token? || reply.Done?
  }

  // ----- the abstraction relation, point by point -----

  ghost predicate SameEntity(c: S.Chain, s: E.Registry, id: Bytes32) {
    && (Hex(id) in c.entities <==> id in s.heads)
    && (id in s.heads ==>
          var head := c.entities[Hex(id)];
          && s.heads[id] == E.Head(1, true, s.heads[id].updatedLedger) && head.ledger == s.heads[id].updatedLedger
          && head.entityId == Hex(id) && head.latestVersion == 1 && head.active
          && (id, 1) in s.versions
          && head.metadataHash == Hex(s.versions[(id, 1)].metadataHash)
          && head.hashSchema == s.versions[(id, 1)].hashSchema)
  }

  ghost predicate SameRecord(x: S.Credential, r: C.Record) {
    && x.credentialId == Hex(r.credentialId) && x.tokenId == r.tokenId
    && x.issuerId == Hex(r.issuerId) && x.subjectId == Hex(r.subjectId) && x.eventId == Hex(r.eventId)
    && x.credentialType == r.credentialType && x.metadataHash == Hex(r.metadataHash) && x.hashSchema == r.hashSchema
    && x.issuedLedger == r.issuedLedger && x.issuedBy == r.issuedBy
    && x.revoked == r.revoked && x.revokedLedger == r.revokedLedger
    && x.revokedReasonHash == HexOption(r.revokedReasonHash)
  }

  ghost predicate SameCredential(c: S.Chain, s: C.Registry, id: Bytes32) {
    && (Hex(id) in c.credentials <==> id in s.byId)
    && (id in s.byId ==> SameRecord(c.credentials[Hex(id)], s.byId[id]))
  }

  function KeyText(i: Bytes32, s: Bytes32, e: Bytes32, t: U32): string {
    S.BusinessKey(Hex(i), Hex(s), Hex(e), t)
  }

  ghost predicate SameKey(c: S.Chain, s: C.Registry, i: Bytes32, u: Bytes32, e: Bytes32, t: U32) {
    var text, key := KeyText(i, u, e, t), C.BusinessKey(i, u, e, t);
    && (text in c.businessKeys <==> key in s.byBusinessKey)
    && (key in s.byBusinessKey ==> c.businessKeys[text] == Hex(s.byBusinessKey[key]))
  }

  /** The chain holds nothing that is not the hex form of something in the contracts. */
  ghost predicate OnlyHex(c: S.Chain) {
    && (forall text :: text in c.entities ==> IsHexOf32(text))
    && (forall text :: text in c.credentials ==> IsHexOf32(text))
    && (forall text :: text in c.businessKeys ==> IsKeyText(text))
  }

  ghost predicate IsHexOf32(text: string) {
    exists id: Bytes32 :: text == Hex(id)
  }

  ghost predicate IsKeyText(text: string) {
    exists i: Bytes32, u: Bytes32, e: Bytes32, t: U32 :: 1 <= t <= 6 && text == KeyText(i, u, e, t)
  }

  /** Entities, credentials, token counter and business keys of the chain are those of the contracts. */
  ghost predicate Mirrors(c: S.Chain, k: Contracts) {
    && (forall id: Bytes32 :: SameEntity(c, k.entities, id))
    && (forall id: Bytes32 :: SameCredential(c, k.credentials, id))
    && (forall i: Bytes32, u: Bytes32, e: Bytes32, t: U32 :: 1 <= t <= 6 ==> SameKey(c, k.credentials, i, u, e, t))
    && c.tokenCounter == k.credentials.nextToken - 1
    && OnlyHex(c)
  }

  // ----- who may call -----

  /** Schema 1 is the one allowed, the operators hold every role and are linked to every issuer in play. */
  ghost predicate Open(k: Contracts, operators: set<Address>, issuers: set<Bytes32>) {
    && k.entities.schemas == {1} && k.credentials.schemas == {1}
    && operators <= k.entities.registrars && operators <= k.credentials.issuers && operators <= k.credentials.revokers
    && (forall i, o :: i in issuers && o in operators ==> (i, o) in k.credentials.links)
    && (forall id :: id in k.credentials.byId ==> k.credentials.byId[id].issuerId in issuers)
    && C.IndexesOk(k.credentials)
  }

  predicate Within(op: Op, operators: set<Address>, issuers: set<Bytes32>) {
    op.operator in operators && (op.Issue? ==> op.issuerId in issuers)
  }

  lemma OpenIsKept(k: Contracts, ledger: U32, op: Op, operators: set<Address>, issuers: set<Bytes32>)
    requires Open(k, operators, issuers) && Within(op, operators, issuers)
    ensures Open(OnContracts(k, ledger, op), operators, issuers)
  {
    hide C.IndexesOk, C.BusinessKey, Hex, E.Register;
    if op.Register? {
      assert OnContracts(k, ledger, op).credentials == k.credentials;
      RegisterKeepsRoles(k.entities, Env(ledger, {op.operator}),
                         E.RegisterEntity(op.operator, op.entityId, op.metadataHash, op.hashSchema));
    } else {
      var env, call := Env(ledger, {op.operator}), CredentialCall(op);
      C.ExecKeepsIndexes(k.credentials, env, call);
      C.ExecWritesOneRecord(k.credentials, env, call);
    }
  }

  lemma RegisterKeepsRoles(s: E.Registry, env: Env, c: E.Call)
    requires c.RegisterEntity?
    ensures E.Register(s, env, c).0.registrars == s.registrars && E.Register(s, env, c).0.schemas == s.schemas
  {}

  // ----- register -----

  /** Texts glued from pieces of 64 characters come apart again. */
  lemma SamePieces(a: string, b: string, c: string, d: string, a': string, b': string, c': string, d': string)
    requires |a| == |a'| == |b| == |b'| == |c| == |c'| == 64
    requires a + "|" + b + "|" + c + "|" + d == a' + "|" + b' + "|" + c' + "|" + d'
    ensures a == a' && b == b' && c == c' && d == d'
  {
    var x, y := a + "|" + b + "|" + c + "|" + d, a' + "|" + b' + "|" + c' + "|" + d';
    assert a == x[..64] && b == x[65..129] && c == x[130..194] && d == x[195..];
    assert a' == y[..64] && b' == y[65..129] && c' == y[130..194] && d' == y[195..];
  }

  lemma KeyTextIsInjective(i: Bytes32, s: Bytes32, e: Bytes32, t: U32, i': Bytes32, s': Bytes32, e': Bytes32, t': U32)
    requires 1 <= t <= 6 && 1 <= t' <= 6
    ensures KeyText(i, s, e, t) == KeyText(i', s', e', t') <==> (i, s, e, t) == (i', s', e', t')
  {
    if KeyText(i, s, e, t) == KeyText(i', s', e', t') {
      SamePieces(Hex(i), Hex(s), Hex(e), Decimal(t), Hex(i'), Hex(s'), Hex(e'), Decimal(t'));
      HexIsInjective(i, i');
      HexIsInjective(s, s');
      HexIsInjective(e, e');
      assert Decimal(t)[0] == "0123456789"[t] && Decimal(t')[0] == "0123456789"[t'];
    }
  }

  /** The chain after the call, before receipts: applied when it validates. */
  function Advanced(c: S.Chain, op: Op): S.Chain {
    var next := c.(ledger := c.ledger + 1);
    if S.Validate(c, Simulated(op)).None? then S.Apply(next, Simulated(op)) else next
  }

  ghost predicate MayRegister(s: E.Registry, op: Op) {
    op.Register? && op.operator in s.registrars && s.schemas == {1}
  }

  lemma RegisterAnswers(c: S.Chain, k: Contracts, op: Op)
    requires MayRegister(k.entities, op) && SameEntity(c, k.entities, op.entityId) && c.ledger < U32_MAX
    ensures S.Validate(c, Simulated(op)).None? <==> ContractAccepts(k, c.ledger + 1, op)
  {
    if op.entityId in k.entities.heads {
      HexIsInjective(op.metadataHash, k.entities.versions[(op.entityId, 1)].metadataHash);
    }
  }

  lemma RegisterMirrorsEntity(c: S.Chain, k: Contracts, op: Op, id: Bytes32)
    requires MayRegister(k.entities, op) && c.ledger < U32_MAX
    requires SameEntity(c, k.entities, op.entityId) && SameEntity(c, k.entities, id)
    ensures SameEntity(Advanced(c, op), OnContracts(k, c.ledger + 1, op).entities, id)
  {
    RegisterAnswers(c, k, op);
    HexIsInjective(id, op.entityId);
  }

  // ----- issue -----

  ghost predicate MayIssue(s: C.Registry, op: Op) {
    op.Issue? && op.operator in s.issuers && (op.issuerId, op.operator) in s.links && s.schemas == {1}
      && s.nextToken < U64_MAX
  }

  ghost predicate KeyedRecords(s: C.Registry, op: Op)
    requires op.Issue?
  {
    var key := C.BusinessKey(op.issuerId, op.subjectId, op.eventId, op.credentialType);
    && (op.credentialId in s.byId ==> C.RecordOk(s, op.credentialId))
    && (key in s.byBusinessKey ==>
          && s.byBusinessKey[key] in s.byId && C.RecordKey(s.byId[s.byBusinessKey[key]]) == key
          && C.RecordOk(s, s.byBusinessKey[key]))
  }

  /** The two sides agree on the credential and the business key that the call names, and its caller may make it. */
  ghost predicate Ready(c: S.Chain, k: Contracts, op: Op) {
    && (!op.Register? ==> SameCredential(c, k.credentials, op.credentialId))
    && (op.Issue? ==>
          && MayIssue(k.credentials, op) && KeyedRecords(k.credentials, op)
          && (1 <= op.credentialType <= 6 ==>
              SameKey(c, k.credentials, op.issuerId, op.subjectId, op.eventId, op.credentialType)))
    && (op.Revoke? ==> MayRevoke(k.credentials, op))
    && c.ledger < U32_MAX
  }

  /** What the two sides answer to an issue call, and when it writes. */
  lemma IssueAnswers(c: S.Chain, k: Contracts, op: Op)
    requires Ready(c, k, op) && op.Issue?
    ensures ContractAccepts(k, c.ledger + 1, op) <==> S.Validate(c, Simulated(op)).None? && !LooserResend(k, op)
    ensures C.Issues(k.credentials, Env(c.ledger + 1, {op.operator}), CredentialCall(op))
            <==> S.Validate(c, Simulated(op)).None? && op.credentialId !in k.credentials.byId
  {
    var s := k.credentials;
    if op.credentialId in s.byId {
      var r := s.byId[op.credentialId];
      C.BusinessKeyIsInjective(r.issuerId, r.subjectId, r.eventId, r.credentialType, op.issuerId, op.subjectId,
                               op.eventId, op.credentialType);
    }
  }

  /** When the chain takes a call that the contract refuses: a resend of an existing id with other fields. */
  predicate LooserResend(k: Contracts, op: Op) {
    op.Issue? && op.credentialId in k.credentials.byId
      && !C.Holds(k.credentials.byId[op.credentialId], CredentialCall(op))
  }

  lemma IssueMirrorsCredential(c: S.Chain, k: Contracts, op: Op, id: Bytes32)
    requires Ready(c, k, op) && op.Issue? && SameCredential(c, k.credentials, id)
    requires c.tokenCounter == k.credentials.nextToken - 1
    ensures var c', s' := Advanced(c, op), OnContracts(k, c.ledger + 1, op).credentials;
            SameCredential(c', s', id) && c'.tokenCounter == s'.nextToken - 1
  {
    hide Hex;
    IssueAnswers(c, k, op);
    HexIsInjective(id, op.credentialId);
  }

  lemma IssueMirrorsKey(c: S.Chain, k: Contracts, op: Op, i: Bytes32, u: Bytes32, e: Bytes32, t: U32)
    requires Ready(c, k, op) && op.Issue?
    requires 1 <= t <= 6 && SameKey(c, k.credentials, i, u, e, t)
    ensures SameKey(Advanced(c, op), OnContracts(k, c.ledger + 1, op).credentials, i, u, e, t)
  {
    IssueAnswers(c, k, op);
    if S.Validate(c, Simulated(op)).None? {
      KeyTextIsInjective(i, u, e, t, op.issuerId, op.subjectId, op.eventId, op.credentialType);
      C.BusinessKeyIsInjective(i, u, e, t, op.issuerId, op.subjectId, op.eventId, op.credentialType);
    }
  }

  // ----- revoke -----

  ghost predicate MayRevoke(s: C.Registry, op: Op) {
    op.Revoke? && op.operator in s.revokers
      && (op.credentialId in s.byId ==> (s.byId[op.credentialId].issuerId, op.operator) in s.links)
  }

  lemma RevokeAnswers(c: S.Chain, k: Contracts, op: Op)
    requires Ready(c, k, op) && op.Revoke?
    ensures S.Validate(c, Simulated(op)).None? <==> ContractAccepts(k, c.ledger + 1, op)
  {
    if op.credentialId in k.credentials.byId {
      var reason := k.credentials.byId[op.credentialId].revokedReasonHash;
      if reason.Some? && op.reasonHash.Some? {
        HexIsInjective(reason.value, op.reasonHash.value);
      }
    }
  }

  lemma RevokeMirrorsCredential(c: S.Chain, k: Contracts, op: Op, id: Bytes32)
    requires Ready(c, k, op) && op.Revoke? && SameCredential(c, k.credentials, id)
    ensures SameCredential(Advanced(c, op), OnContracts(k, c.ledger + 1, op).credentials, id)
  {
    hide Hex, KeyText, C.BusinessKey;
    RevokeAnswers(c, k, op);
    HexIsInjective(id, op.credentialId);
  }

  // ----- one call -----

  lemma AdvancedKeys(c: S.Chain, op: Op)
    ensures var c' := Advanced(c, op);
            && (c'.entities.Keys <= c.entities.Keys
                || (op.Register? && c'.entities.Keys == c.entities.Keys + {Hex(op.entityId)}))
            && (c'.credentials.Keys <= c.credentials.Keys
                || (!op.Register? && c'.credentials.Keys == c.credentials.Keys + {Hex(op.credentialId)}))
            && (c'.businessKeys.Keys <= c.businessKeys.Keys
                || (op.Issue? && 1 <= op.credentialType <= 6
                    && c'.businessKeys.Keys
                       == c.businessKeys.Keys + {KeyText(op.issuerId, op.subjectId, op.eventId, op.credentialType)}))
  {
    hide Hex;
  }

  lemma AdvancedOnlyHex(c: S.Chain, op: Op)
    requires OnlyHex(c)
    ensures OnlyHex(Advanced(c, op))
  {
    var c' := Advanced(c, op);
    AdvancedKeys(c, op);
    if op.Register? {
      assert IsHexOf32(Hex(op.entityId));
    } else {
      assert IsHexOf32(Hex(op.credentialId));
    }
    forall text | text in c'.businessKeys ensures IsKeyText(text) {
      assert text !in c.businessKeys ==> text == KeyText(op.issuerId, op.subjectId, op.eventId, op.credentialType);
    }
  }

  lemma AdvancedMirrorsEntities(c: S.Chain, k: Contracts, op: Op, operators: set<Address>, issuers: set<Bytes32>)
    requires Mirrors(c, k) && Open(k, operators, issuers) && Within(op, operators, issuers) && c.ledger < U32_MAX
    ensures var c', s' := Advanced(c, op), OnContracts(k, c.ledger + 1, op).entities;
            forall id: Bytes32 :: SameEntity(c', s', id)
  {
    hide Hex, Advanced, OnContracts, SameEntity, SameCredential, SameKey, OnlyHex, MayRegister;
    var c', s' := Advanced(c, op), OnContracts(k, c.ledger + 1, op).entities;
    if op.Register? { OpenMayRegister(k, op, operators, issuers); }
    forall id: Bytes32 ensures SameEntity(c', s', id) {
      assert SameEntity(c, k.entities, id);
      if op.Register? {
        assert SameEntity(c, k.entities, op.entityId);
        RegisterMirrorsEntity(c, k, op, id);
      } else {
        OthersLeaveEntities(c, k, op, id);
      }
    }
  }

  lemma OpenMayRegister(k: Contracts, op: Op, operators: set<Address>, issuers: set<Bytes32>)
    requires Open(k, operators, issuers) && Within(op, operators, issuers) && op.Register?
    ensures MayRegister(k.entities, op)
  {}

  lemma OthersLeaveEntities(c: S.Chain, k: Contracts, op: Op, id: Bytes32)
    requires !op.Register? && SameEntity(c, k.entities, id) && c.ledger < U32_MAX
    ensures SameEntity(Advanced(c, op), OnContracts(k, c.ledger + 1, op).entities, id)
  {
    hide Hex, C.Exec;
    assert OnContracts(k, c.ledger + 1, op).entities == k.entities;
    assert Advanced(c, op).entities == c.entities && Advanced(c, op).entityVersions == c.entityVersions;
  }

  lemma RegisterLeavesCredentials(c: S.Chain, k: Contracts, op: Op, id: Bytes32)
    requires op.Register? && SameCredential(c, k.credentials, id) && c.tokenCounter == k.credentials.nextToken - 1
             && c.ledger < U32_MAX
    ensures SameCredential(Advanced(c, op), OnContracts(k, c.ledger + 1, op).credentials, id)
    ensures Advanced(c, op).tokenCounter == OnContracts(k, c.ledger + 1, op).credentials.nextToken - 1
  {}

  lemma RevokeKeepsTokens(c: S.Chain, k: Contracts, op: Op)
    requires op.Revoke? && c.tokenCounter == k.credentials.nextToken - 1 && c.ledger < U32_MAX
    ensures Advanced(c, op).tokenCounter == OnContracts(k, c.ledger + 1, op).credentials.nextToken - 1
  {}

  lemma InPlay(c: S.Chain, k: Contracts, op: Op, operators: set<Address>, issuers: set<Bytes32>)
    requires Mirrors(c, k) && Open(k, operators, issuers) && Within(op, operators, issuers)
    requires c.ledger < U32_MAX && k.credentials.nextToken < U64_MAX
    ensures Ready(c, k, op)
  {
    hide Hex, SameEntity, OnlyHex, SameKey, SameCredential;
    assert !op.Register? ==> SameCredential(c, k.credentials, op.credentialId);
    if op.Issue? && 1 <= op.credentialType <= 6 {
      assert SameKey(c, k.credentials, op.issuerId, op.subjectId, op.eventId, op.credentialType);
    }
  }

  lemma AdvancedMirrorsCredential(c: S.Chain, k: Contracts, op: Op, id: Bytes32)
    requires Ready(c, k, op) && c.tokenCounter == k.credentials.nextToken - 1 && SameCredential(c, k.credentials, id)
    ensures SameCredential(Advanced(c, op), OnContracts(k, c.ledger + 1, op).credentials, id)
    ensures Advanced(c, op).tokenCounter == OnContracts(k, c.ledger + 1, op).credentials.nextToken - 1
  {
    hide Hex, Advanced, OnContracts, SameCredential, SameKey, KeyedRecords, MayIssue, MayRevoke;
    if op.Issue? {
      IssueMirrorsCredential(c, k, op, id);
    } else if op.Revoke? {
      RevokeMirrorsCredential(c, k, op, id);
      RevokeKeepsTokens(c, k, op);
    } else {
      RegisterLeavesCredentials(c, k, op, id);
    }
  }

  lemma AdvancedMirrorsCredentials(c: S.Chain, k: Contracts, op: Op)
    requires Ready(c, k, op) && c.tokenCounter == k.credentials.nextToken - 1
    requires forall id: Bytes32 :: SameCredential(c, k.credentials, id)
    ensures var c', s' := Advanced(c, op), OnContracts(k, c.ledger + 1, op).credentials;
            (forall id: Bytes32 :: SameCredential(c', s', id)) && c'.tokenCounter == s'.nextToken - 1
  {
    var c', s' := Advanced(c, op), OnContracts(k, c.ledger + 1, op).credentials;
    forall id: Bytes32 ensures SameCredential(c', s', id) {
      AdvancedMirrorsCredential(c, k, op, id);
    }
    AdvancedMirrorsCredential(c, k, op, ZERO32);
  }

  lemma OthersLeaveKeys(c: S.Chain, k: Contracts, op: Op, i: Bytes32, u: Bytes32, e: Bytes32, t: U32)
    requires !op.Issue? && SameKey(c, k.credentials, i, u, e, t) && c.ledger < U32_MAX
    ensures SameKey(Advanced(c, op), OnContracts(k, c.ledger + 1, op).credentials, i, u, e, t)
  {
    hide Hex, E.Register;
    assert OnContracts(k, c.ledger + 1, op).credentials.byBusinessKey == k.credentials.byBusinessKey;
    assert Advanced(c, op).businessKeys == c.businessKeys;
  }

  lemma AdvancedMirrorsKeys(c: S.Chain, k: Contracts, op: Op)
    requires Ready(c, k, op)
    requires forall i: Bytes32, u: Bytes32, e: Bytes32, t: U32 :: 1 <= t <= 6 ==> SameKey(c, k.credentials, i, u, e, t)
    ensures var c', s' := Advanced(c, op), OnContracts(k, c.ledger + 1, op).credentials;
            forall i: Bytes32, u: Bytes32, e: Bytes32, t: U32 :: 1 <= t <= 6 ==> SameKey(c', s', i, u, e, t)
  {
    hide Hex, Advanced, OnContracts, SameKey, SameCredential, KeyedRecords, MayIssue, MayRevoke;
    var c', s' := Advanced(c, op), OnContracts(k, c.ledger + 1, op).credentials;
    forall i: Bytes32, u: Bytes32, e: Bytes32, t: U32 | 1 <= t <= 6 ensures SameKey(c', s', i, u, e, t) {
      assert SameKey(c, k.credentials, i, u, e, t);
      if op.Issue? {
        IssueMirrorsKey(c, k, op, i, u, e, t);
      } else {
        OthersLeaveKeys(c, k, op, i, u, e, t);
      }
    }
  }

  /** Receipts are no part of the relation. */
  lemma ReceiptsDoNotMatter(c: S.Chain, c': S.Chain, k: Contracts)
    requires Mirrors(c, k) && c' == c.(pending := c'.pending)
    ensures Mirrors(c', k)
  {
    forall id: Bytes32 ensures SameEntity(c', k.entities, id) && SameCredential(c', k.credentials, id) {
      assert SameEntity(c, k.entities, id) && SameCredential(c, k.credentials, id);
    }
    forall i: Bytes32, u: Bytes32, e: Bytes32, t: U32 | 1 <= t <= 6 ensures SameKey(c', k.credentials, i, u, e, t) {
      assert SameKey(c, k.credentials, i, u, e, t);
    }
  }

  /** The two sides accept alike, except that the chain answers a looser resend as a success. */
  lemma CallAnswersAlike(c: S.Chain, k: Contracts, op: Op, operators: set<Address>, issuers: set<Bytes32>)
    requires Mirrors(c, k) && Open(k, operators, issuers) && Within(op, operators, issuers)
    requires c.ledger < U32_MAX && k.credentials.nextToken < U64_MAX
    ensures ContractAccepts(k, c.ledger + 1, op) <==> S.Validate(c, Simulated(op)).None? && !LooserResend(k, op)
  {
    if op.Register? {
      assert SameEntity(c, k.entities, op.entityId);
      RegisterAnswers(c, k, op);
    } else {
      InPlay(c, k, op, operators, issuers);
      if op.Issue? {
        IssueAnswers(c, k, op);
      } else {
        RevokeAnswers(c, k, op);
      }
    }
  }

  /** One submission and the same call on the contracts keep the two sides equal, accepted or refused. */
  lemma CallMirrors(c: S.Chain, k: Contracts, op: Op, signature: string, staysPending: bool, operators: set<Address>,
                    issuers: set<Bytes32>)
    requires Mirrors(c, k) && Open(k, operators, issuers) && Within(op, operators, issuers)
    requires c.ledger < U32_MAX && k.credentials.nextToken < U64_MAX
    ensures var c', k' := S.Submit(c, S.Envelope(Simulated(op), Some(signature)), staysPending).0,
            OnContracts(k, c.ledger + 1, op);
            Mirrors(c', k') && Open(k', operators, issuers)
  {
    hide SameEntity, SameCredential, SameKey, OnlyHex, Open, Within, Ready, OnContracts, S.Validate, S.Apply;
    OpenIsKept(k, c.ledger + 1, op, operators, issuers);
    AdvancedMirrorsEntities(c, k, op, operators, issuers);
    InPlay(c, k, op, operators, issuers);
    AdvancedMirrorsCredentials(c, k, op);
    AdvancedMirrorsKeys(c, k, op);
    AdvancedOnlyHex(c, op);
    SubmitAdvances(c, op, signature, staysPending);
    ReceiptsDoNotMatter(Advanced(c, op), S.Submit(c, S.Envelope(Simulated(op), Some(signature)), staysPending).0,
                        OnContracts(k, c.ledger + 1, op));
  }

  lemma SubmitAdvances(c: S.Chain, op: Op, signature: string, staysPending: bool)
    ensures var c', a := S.Submit(c, S.Envelope(Simulated(op), Some(signature)), staysPending).0, Advanced(c, op);
            c' == a.(pending := c'.pending)
  {
    hide S.Validate, Simulated;
    ApplyLeavesReceipts(c.(ledger := c.ledger + 1), Simulated(op));
  }

  lemma ApplyLeavesReceipts(c: S.Chain, call: S.Call)
    ensures S.Apply(c, call).pending == c.pending
  {}

  // ----- whole runs -----

  function SubmitOp(c: S.Chain, op: Op, signature: string): S.Chain {
    S.Submit(c, S.Envelope(Simulated(op), Some(signature)), false).0
  }

  // ----- reading entities back -----

  /** Each side's version table is what its own operations make of it. */
  ghost predicate VersionsOk(c: S.Chain, k: Contracts) {
    S.EntitiesOk(c) && E.Dense(k.entities)
  }

  lemma CallKeepsVersions(c: S.Chain, k: Contracts, op: Op, signature: string)
    requires VersionsOk(c, k) && c.ledger < U32_MAX
    ensures VersionsOk(SubmitOp(c, op, signature), OnContracts(k, c.ledger + 1, op))
  {
    hide Hex, S.Submit, S.EntitiesOk, E.Dense, E.Register, C.Exec;
    S.SubmitExtends(c, S.Envelope(Simulated(op), Some(signature)), false);
    if op.Register? {
      var call := E.RegisterEntity(op.operator, op.entityId, op.metadataHash, op.hashSchema);
      E.ExecKeepsDense(k.entities, Env(c.ledger + 1, {op.operator}), call);
    }
  }

  /** `verify_entity` answers alike for one entity, version and content. */
  ghost predicate ReadAlike(c: S.Chain, s: E.Registry, id: Bytes32, version: U32, metadataHash: Bytes32,
                            hashSchema: U32)
  {
    S.VerifyEntity(c, Hex(id), version, Hex(metadataHash), hashSchema)
      == E.VerifyEntity(s, id, version, metadataHash, hashSchema)
  }

  ghost predicate ReadsAlike(c: S.Chain, k: Contracts) {
    forall id: Bytes32, version: U32, metadataHash: Bytes32, hashSchema: U32 ::
      ReadAlike(c, k.entities, id, version, metadataHash, hashSchema)
  }

  lemma OneReadsAlike(c: S.Chain, s: E.Registry, id: Bytes32, version: U32, metadataHash: Bytes32, hashSchema: U32)
    requires SameEntity(c, s, id)
    requires id in s.heads ==> Hex(id) in c.entityVersions && S.EntityOk(c.entities[Hex(id)], c.entityVersions[Hex(id)])
    requires (id, version) in s.versions <==> id in s.heads && 1 <= version <= s.heads[id].latestVersion
    ensures ReadAlike(c, s, id, version, metadataHash, hashSchema)
  {
    hide Hex;
    if id in s.heads {
      HexIsInjective(metadataHash, s.versions[(id, 1)].metadataHash);
      var versions := c.entityVersions[Hex(id)];
      assert version in versions <==> version == 1;
      assert versions[1] == S.EntityContent(Hex(s.versions[(id, 1)].metadataHash), s.versions[(id, 1)].hashSchema);
    }
  }

  /** On mirrored states `verify_entity` answers alike, whatever is asked. */
  lemma ReadbackAgrees(c: S.Chain, k: Contracts)
    requires Mirrors(c, k) && VersionsOk(c, k)
    ensures ReadsAlike(c, k)
  {
    hide Hex, SameCredential, SameKey, OnlyHex, ReadAlike, S.EntityOk;
    forall id: Bytes32, version: U32, metadataHash: Bytes32, hashSchema: U32
      ensures ReadAlike(c, k.entities, id, version, metadataHash, hashSchema)
    {
      assert SameEntity(c, k.entities, id);
      OneReadsAlike(c, k.entities, id, version, metadataHash, hashSchema);
    }
  }

  // ----- from genesis -----

  /**
   * Both sides go through the same calls from `ledger` on: equal before and after each of them, and answering alike.
   */
  ghost predicate MirrorThroughout(c: S.Chain, k: Contracts, ledger: nat, ops: seq<Op>, signature: string)
    requires ledger + |ops| <= U32_MAX
    decreases |ops|
  {
    && c.ledger == ledger && Mirrors(c, k) && ReadsAlike(c, k)
    && (ops == [] ||
        (&& (ContractAccepts(k, ledger + 1, ops[0])
             <==> S.Validate(c, Simulated(ops[0])).None? && !LooserResend(k, ops[0]))
         && MirrorThroughout(SubmitOp(c, ops[0], signature), OnContracts(k, ledger + 1, ops[0]), ledger + 1, ops[1..],
                             signature)))
  }

  /** One call adds one ledger and at most one token. */
  lemma CallCounts(c: S.Chain, k: Contracts, op: Op, signature: string)
    requires c.ledger < U32_MAX
    ensures SubmitOp(c, op, signature).ledger == c.ledger + 1
    ensures OnContracts(k, c.ledger + 1, op).credentials.nextToken <= k.credentials.nextToken + 1
  {
    hide Hex;
  }

  lemma {:induction false} RunsMirror(c: S.Chain, k: Contracts, ops: seq<Op>, signature: string,
                                      operators: set<Address>, issuers: set<Bytes32>)
    requires Mirrors(c, k) && Open(k, operators, issuers) && VersionsOk(c, k)
    requires forall op :: op in ops ==> Within(op, operators, issuers)
    requires c.ledger + |ops| <= U32_MAX && k.credentials.nextToken + |ops| <= U64_MAX
    ensures MirrorThroughout(c, k, c.ledger, ops, signature)
    decreases |ops|
  {
    hide Mirrors, Open, Within, ContractAccepts, LooserResend, OnContracts, SubmitOp, S.Validate, VersionsOk,
         ReadsAlike;
    ReadbackAgrees(c, k);
    if ops != [] {
      var op, rest := ops[0], ops[1..];
      CallMirrors(c, k, op, signature, false, operators, issuers);
      assert SubmitOp(c, op, signature) == S.Submit(c, S.Envelope(Simulated(op), Some(signature)), false).0 by {
        SubmitsOp(c, op, signature);
      }
      CallCounts(c, k, op, signature);
      CallKeepsVersions(c, k, op, signature);
      CallAnswersAlike(c, k, op, operators, issuers);
      RunsMirror(SubmitOp(c, op, signature), OnContracts(k, c.ledger + 1, op), rest, signature, operators, issuers);
    }
  }

  lemma SubmitsOp(c: S.Chain, op: Op, signature: string)
    ensures SubmitOp(c, op, signature) == S.Submit(c, S.Envelope(Simulated(op), Some(signature)), false).0
  {}

  /** Freshly deployed contracts whose admin has staffed them. */
  function Staffed(admin: Address, operators: set<Address>, links: set<(Bytes32, Address)>): Contracts {
    Contracts(E.Registry(admin, operators, {1}, map[], map[], []),
              C.Registry(admin, operators, operators, {1}, links, map[], map[], map[], 1, []))
  }

  /**
   * From genesis, through any sequence of register, issue and revoke submissions, the simulated
   * chain's entities, credentials, token counter and business keys stay those of the contracts after
   * the same calls by authorised, linked operators.
   */
  lemma ChainRefinesContracts(admin: Address, operators: set<Address>, issuers: set<Bytes32>,
                              links: set<(Bytes32, Address)>, ops: seq<Op>, signature: string)
    requires forall i, o :: i in issuers && o in operators ==> (i, o) in links
    requires forall op :: op in ops ==> Within(op, operators, issuers)
    requires S.GENESIS + |ops| <= U32_MAX
    ensures MirrorThroughout(S.Genesis(), Staffed(admin, operators, links), S.GENESIS, ops, signature)
  {
    RunsMirror(S.Genesis(), Staffed(admin, operators, links), ops, signature, operators, issuers);
  }

  /**
   * The looser resend does happen: with one credential issued on both sides, the chain accepts its id
   * again under another metadata hash, and the contract refuses it.
   */
  lemma LooserResendHappens(admin: Address, operator: Address, id: Bytes32, issuer: Bytes32, subject: Bytes32,
                            event: Bytes32, meta: Bytes32, other: Bytes32, signature: string)
    requires meta != other
    ensures var first := Issue(operator, id, issuer, subject, event, 1, meta, 1);
            var resend := Issue(operator, id, issuer, subject, event, 1, other, 1);
            var c := SubmitOp(S.Genesis(), first, signature);
            var k := OnContracts(Staffed(admin, {operator}, {(issuer, operator)}), S.GENESIS + 1, first);
            S.Validate(c, Simulated(resend)).None? && !ContractAccepts(k, S.GENESIS + 2, resend)
              && LooserResend(k, resend)
  {
    hide Hex, KeyText;
  }
}
