/**
 * CulturalCredentialRegistry: revocable attestations issued by linked operators.
 *
 * `Registry` is the contract's storage together with the events it has published, `Exec` is one
 * call by value, and `Contract` is the object whose methods set storage entry by entry.
 */
module CredentialRegistry {
  import opened Common
  import opened Grants

  /** sha256, taken as collision-free: a digest is identified with what was hashed. */
  datatype Digest = Sha256(preimage: seq<Byte>)

  datatype Record = Record(
    credentialId: Bytes32, tokenId: U64, issuerId: Bytes32, issuedBy: Address, subjectId: Bytes32,
    eventId: Bytes32, credentialType: U32, metadataHash: Bytes32, hashSchema: U32, issuedLedger: U32,
    revoked: bool, revokedLedger: Option<U32>, revokedReasonHash: Option<Bytes32>)

  datatype ContractError =
    | Unauthorized | InvalidInput | AlreadyExists | NotFound | AlreadyRevoked
    | UnsupportedHashSchema | TokenIdOverflow | IssuerOperatorNotLinked | UnknownCredentialType

  datatype Event =
    | CredentialIssued(credentialId: Bytes32, tokenId: U64, issuerId: Bytes32, issuedBy: Address,
                       subjectId: Bytes32, eventId: Bytes32, credentialType: U32,
                       metadataHash: Bytes32, hashSchema: U32, issuedLedger: U32)
    | CredentialRevoked(credentialId: Bytes32, tokenId: U64, revoker: Address,
                        reasonHash: Option<Bytes32>, revokedLedger: U32)
    | IssuerOperatorLinked(issuerId: Bytes32, operator: Address)
    | IssuerOperatorUnlinked(issuerId: Bytes32, operator: Address)

  datatype Registry = Registry(
    admin: Address, issuers: set<Address>, revokers: set<Address>, schemas: set<U32>,
    links: set<(Bytes32, Address)>,
    byId: map<Bytes32, Record>, byToken: map<U64, Bytes32>, byBusinessKey: map<Digest, Bytes32>,
    nextToken: U64, events: seq<Event>)

  datatype Call =
    | IssueCredential(operator: Address, credentialId: Bytes32, issuerId: Bytes32, subjectId: Bytes32,
                      eventId: Bytes32, credentialType: U32, metadataHash: Bytes32, hashSchema: U32)
    | RevokeCredential(operator: Address, credentialId: Bytes32, reasonHash: Option<Bytes32>)
    | LinkIssuerOperator(issuerId: Bytes32, operator: Address)
    | UnlinkIssuerOperator(issuerId: Bytes32, operator: Address)
    | GrantIssuer(account: Address)
    | RevokeIssuer(account: Address)
    | GrantRevoker(account: Address)
    | RevokeRevoker(account: Address)
    | AllowHashSchema(hashSchema: U32)

  /** `Aborted` is a host trap (missing authorisation): the transaction leaves no trace. */
  datatype Reply = Token(tokenId: U64) | Done | Failed(error: ContractError) | Aborted

  // ----- business key -----

  function BigEndian(n: U32): (bytes: seq<Byte>)
    ensures |bytes| == 4
  {
    var high := n / 0x100 / 0x100;
    [high / 0x100, high % 0x100, n / 0x100 % 0x100, n % 0x100]
  }

  function BusinessPreimage(issuerId: Bytes32, subjectId: Bytes32, eventId: Bytes32, credentialType: U32): seq<Byte> {
    issuerId + subjectId + eventId + BigEndian(credentialType)
  }

  function BusinessKey(issuerId: Bytes32, subjectId: Bytes32, eventId: Bytes32, credentialType: U32): Digest {
    Sha256(BusinessPreimage(issuerId, subjectId, eventId, credentialType))
  }

  function RecordKey(r: Record): Digest {
    BusinessKey(r.issuerId, r.subjectId, r.eventId, r.credentialType)
  }

  lemma BigEndianRoundTrip(n: U32)
    ensures var b: seq<int> := BigEndian(n); n == ((b[0] * 0x100 + b[1]) * 0x100 + b[2]) * 0x100 + b[3]
  {}

  /** The fixed-width concatenation determines the four fields it was built from. */
  lemma BusinessKeyIsInjective(i: Bytes32, s: Bytes32, e: Bytes32, t: U32, i': Bytes32, s': Bytes32, e': Bytes32,
                               t': U32)
    ensures BusinessKey(i, s, e, t) == BusinessKey(i', s', e', t') <==> (i, s, e, t) == (i', s', e', t')
  {
    var p, p' := BusinessPreimage(i, s, e, t), BusinessPreimage(i', s', e', t');
    if p == p' {
      assert i == p[..32] && s == p[32..64] && e == p[64..96] && BigEndian(t) == p[96..];
      assert i' == p'[..32] && s' == p'[32..64] && e' == p'[64..96] && BigEndian(t') == p'[96..];
      BigEndianRoundTrip(t);
      BigEndianRoundTrip(t');
    }
  }

  // ----- calls by value -----

  function Deploy(admin: Address, issuer: Address, revoker: Address, hashSchema: U32): Registry {
    Registry(admin, {issuer}, {revoker}, {hashSchema}, {}, map[], map[], map[], 1, [])
  }

  function NewRecord(s: Registry, env: Env, c: Call): Record
    requires c.IssueCredential?
  {
    Record(c.credentialId, s.nextToken, c.issuerId, c.operator, c.subjectId, c.eventId, c.credentialType,
           c.metadataHash, c.hashSchema, env.ledger, false, None, None)
  }

  function IssueReply(s: Registry, env: Env, c: Call): Reply
    requires c.IssueCredential?
  {
    if c.operator !in env.auths then Aborted
    else if c.operator !in s.issuers then Failed(Unauthorized)
    else if (c.issuerId, c.operator) !in s.links then Failed(IssuerOperatorNotLinked)
    else if c.hashSchema !in s.schemas then Failed(UnsupportedHashSchema)
    else if !(1 <= c.credentialType <= 6) then Failed(UnknownCredentialType)
    else
      var key := BusinessKey(c.issuerId, c.subjectId, c.eventId, c.credentialType);
      if key in s.byBusinessKey then
        var existingId := s.byBusinessKey[key];
        if existingId !in s.byId then Failed(NotFound)
        else
          var existing := s.byId[existingId];
          if existing.credentialId == c.credentialId && existing.metadataHash == c.metadataHash
             && existing.hashSchema == c.hashSchema
          then Token(existing.tokenId) else Failed(AlreadyExists)
      else if c.credentialId in s.byId then Failed(AlreadyExists)
      else if s.nextToken == U64_MAX then Failed(TokenIdOverflow)
      else Token(s.nextToken)
  }

  /** The call is about to write: authorised, fresh business key, fresh id. */
  predicate Issues(s: Registry, env: Env, c: Call)
    requires c.IssueCredential?
  {
    IssueReply(s, env, c).Token?
      && BusinessKey(c.issuerId, c.subjectId, c.eventId, c.credentialType) !in s.byBusinessKey
  }

  function Issue(s: Registry, env: Env, c: Call): (r: (Registry, Reply))
    requires c.IssueCredential?
  {
    var reply := IssueReply(s, env, c);
    if !Issues(s, env, c) then (s, reply) else
      (s.(byId := s.byId[c.credentialId := NewRecord(s, env, c)],
          byToken := s.byToken[s.nextToken := c.credentialId],
          byBusinessKey :=
            s.byBusinessKey[BusinessKey(c.issuerId, c.subjectId, c.eventId, c.credentialType) := c.credentialId],
          nextToken := s.nextToken + 1,
          events := s.events
            + [CredentialIssued(c.credentialId, s.nextToken, c.issuerId, c.operator, c.subjectId, c.eventId,
                                                 c.credentialType, c.metadataHash, c.hashSchema, env.ledger)]),
       reply)
  }

  function Revoke(s: Registry, env: Env, c: Call): (Registry, Reply)
    requires c.RevokeCredential?
  {
    if c.operator !in env.auths then (s, Aborted)
    else if c.credentialId !in s.byId then (s, Failed(NotFound))
    else
      var r := s.byId[c.credentialId];
      if c.operator !in s.revokers then (s, Failed(Unauthorized))
      else if (r.issuerId, c.operator) !in s.links then (s, Failed(IssuerOperatorNotLinked))
      else if r.revoked then (s, if r.revokedReasonHash == c.reasonHash then Done else Failed(AlreadyRevoked))
      else
        (s.(byId := s.byId[c.credentialId :=
                           r.(revoked := true, revokedLedger := Some(env.ledger), revokedReasonHash := c.reasonHash)],
            events := s.events + [CredentialRevoked(c.credentialId, r.tokenId, c.operator, c.reasonHash, env.ledger)]),
         Done)
  }

  function Administer(s: Registry, c: Call): Registry
    requires !c.IssueCredential? && !c.RevokeCredential?
  {
    match c
    case LinkIssuerOperator(i, o) =>
      if (i, o) in s.links then s
      else s.(links := s.links + {(i, o)}, events := s.events + [IssuerOperatorLinked(i, o)])
    case UnlinkIssuerOperator(i, o) =>
      if (i, o) !in s.links then s
      else s.(links := s.links - {(i, o)}, events := s.events + [IssuerOperatorUnlinked(i, o)])
    case GrantIssuer(a) => s.(issuers := s.issuers + {a})
    case RevokeIssuer(a) => s.(issuers := s.issuers - {a})
    case GrantRevoker(a) => s.(revokers := s.revokers + {a})
    case RevokeRevoker(a) => s.(revokers := s.revokers - {a})
    case AllowHashSchema(h) => s.(schemas := s.schemas + {h})
  }

  function Exec(s: Registry, env: Env, c: Call): (Registry, Reply) {
    if c.IssueCredential? then Issue(s, env, c)
    else if c.RevokeCredential? then Revoke(s, env, c)
    else if s.admin !in env.auths then (s, Aborted)
    else (Administer(s, c), Done)
  }

  /** A history of the contract: every transaction in order. */
  function Run(s: Registry, txs: seq<(Env, Call)>): Registry
    decreases |txs|
  {
    if txs == [] then s else Run(Exec(s, txs[0].0, txs[0].1).0, txs[1..])
  }

  function Verify(s: Registry, credentialId: Bytes32, metadataHash: Bytes32, hashSchema: U32): bool {
    && credentialId in s.byId
    && !s.byId[credentialId].revoked
    && s.byId[credentialId].metadataHash == metadataHash
    && s.byId[credentialId].hashSchema == hashSchema
  }

  // ----- the storage invariant -----

  ghost predicate TokensDense(s: Registry) {
    && 1 <= s.nextToken
    && forall t: U64 :: t in s.byToken <==> 1 <= t < s.nextToken
  }

  ghost predicate RecordOk(s: Registry, id: Bytes32)
    requires id in s.byId
  {
    var r := s.byId[id];
    && r.credentialId == id
    && r.tokenId in s.byToken && s.byToken[r.tokenId] == id
    && RecordKey(r) in s.byBusinessKey && s.byBusinessKey[RecordKey(r)] == id
    && 1 <= r.credentialType <= 6
    && r.revoked == r.revokedLedger.Some?
    && (!r.revoked ==> r.revokedReasonHash.None?)
  }

  ghost predicate IndexesOk(s: Registry) {
    && TokensDense(s)
    && (forall id :: id in s.byId ==> RecordOk(s, id))
    && (forall t :: t in s.byToken ==> s.byToken[t] in s.byId && s.byId[s.byToken[t]].tokenId == t)
    && (forall k :: k in s.byBusinessKey ==> s.byBusinessKey[k] in s.byId && RecordKey(s.byId[s.byBusinessKey[k]]) == k)
  }

  lemma IssueKeepsIndexes(s: Registry, env: Env, c: Call)
    requires IndexesOk(s) && c.IssueCredential?
    ensures IndexesOk(Issue(s, env, c).0)
  {
    var s' := Issue(s, env, c).0;
    if Issues(s, env, c) {
      assert s.nextToken !in s.byToken;
      assert RecordKey(NewRecord(s, env, c)) == BusinessKey(c.issuerId, c.subjectId, c.eventId, c.credentialType);
      forall id | id in s'.byId ensures RecordOk(s', id) {
        if id != c.credentialId {
          assert RecordOk(s, id);
        }
      }
    }
  }

  lemma RevokeKeepsIndexes(s: Registry, env: Env, c: Call)
    requires IndexesOk(s) && c.RevokeCredential?
    ensures IndexesOk(Revoke(s, env, c).0)
  {
    hide BusinessKey;
    var s' := Revoke(s, env, c).0;
    forall id | id in s'.byId ensures RecordOk(s', id) {
      assert RecordOk(s, id);
    }
  }

  lemma ExecKeepsIndexes(s: Registry, env: Env, c: Call)
    requires IndexesOk(s)
    ensures IndexesOk(Exec(s, env, c).0)
  {
    if c.IssueCredential? {
      IssueKeepsIndexes(s, env, c);
    } else if c.RevokeCredential? {
      RevokeKeepsIndexes(s, env, c);
    } else {
      AdministerKeepsIndexes(s, c);
    }
  }

  lemma AdministerKeepsIndexes(s: Registry, c: Call)
    requires IndexesOk(s) && !c.IssueCredential? && !c.RevokeCredential?
    ensures IndexesOk(Administer(s, c))
  {
    hide IndexesOk;
    SameIndexes(s, Administer(s, c));
  }

  lemma SameIndexes(s: Registry, s': Registry)
    requires IndexesOk(s)
    requires s'.byId == s.byId && s'.byToken == s.byToken && s'.byBusinessKey == s.byBusinessKey
             && s'.nextToken == s.nextToken
    ensures IndexesOk(s')
  {}

  lemma {:induction false} RunKeepsIndexes(s: Registry, txs: seq<(Env, Call)>)
    requires IndexesOk(s)
    ensures IndexesOk(Run(s, txs))
    decreases |txs|
  {
    if txs != [] {
      ExecKeepsIndexes(s, txs[0].0, txs[0].1);
      RunKeepsIndexes(Exec(s, txs[0].0, txs[0].1).0, txs[1..]);
    }
  }

  lemma {:induction false} DenseTokensCount(byToken: map<U64, Bytes32>, next: U64)
    requires 1 <= next
    requires forall t: U64 :: t in byToken <==> 1 <= t < next
    ensures |byToken| == next - 1
  {
    if next == 1 {
      assert byToken.Keys == {};
    } else {
      var last: U64 := next - 1;
      var fewer := byToken - {last};
      DenseTokensCount(fewer, last);
      assert byToken.Keys == fewer.Keys + {last};
      assert |byToken.Keys| == |fewer.Keys| + 1;
    }
  }

  /** A map whose values name distinct keys of another, covering them all, is as large as it. */
  lemma {:induction false} BijectionCount<K, V>(index: map<K, V>, stored: set<V>)
    requires forall k, k' :: k in index && k' in index && index[k] == index[k'] ==> k == k'
    requires stored == index.Values
    ensures |index| == |stored|
  {
    if index.Keys == {} {
      assert stored == {};
    } else {
      var k :| k in index.Keys;
      var fewer := index - {k};
      assert fewer.Values == stored - {index[k]} by {
        forall v | v in stored - {index[k]} ensures v in fewer.Values {
          var k' :| k' in index && index[k'] == v;
          assert k' in fewer;
        }
      }
      BijectionCount(fewer, stored - {index[k]});
      assert index.Keys == fewer.Keys + {k};
      assert |index.Keys| == |fewer.Keys| + 1;
      assert index[k] in stored;
    }
  }

  /**
   * Every reachable state: issued tokens are exactly 1..next-1, both indexes are bijections onto
   * the stored records, and there are next-1 records.
   */
  lemma ReachableIndexesInStep(admin: Address, issuer: Address, revoker: Address, schema: U32, txs: seq<(Env, Call)>)
    ensures var s := Run(Deploy(admin, issuer, revoker, schema), txs);
            && IndexesOk(s)
            && s.byToken.Values == s.byId.Keys && s.byBusinessKey.Values == s.byId.Keys
            && |s.byToken| == |s.byBusinessKey| == |s.byId| == s.nextToken - 1
  {
    var s := Run(Deploy(admin, issuer, revoker, schema), txs);
    RunKeepsIndexes(Deploy(admin, issuer, revoker, schema), txs);
    assert s.byToken.Values == s.byId.Keys by {
      forall id | id in s.byId ensures id in s.byToken.Values { assert RecordOk(s, id); }
    }
    assert s.byBusinessKey.Values == s.byId.Keys by {
      forall id | id in s.byId ensures id in s.byBusinessKey.Values { assert RecordOk(s, id); }
    }
    DenseTokensCount(s.byToken, s.nextToken);
    BijectionCount(s.byToken, s.byId.Keys);
    BijectionCount(s.byBusinessKey, s.byId.Keys);
  }

  /** The dangling-index branch of the replay path never fires, and a business key names one credential. */
  lemma ReplayNeverDangles(s: Registry, env: Env, c: Call)
    requires IndexesOk(s) && c.IssueCredential?
    ensures IssueReply(s, env, c) != Failed(NotFound)
    ensures forall a, b :: a in s.byId && b in s.byId && RecordKey(s.byId[a]) == RecordKey(s.byId[b]) ==> a == b
  {}

  /**
   * When an issue call answers with a token: exactly when it is authorised and linked, with an
   * allowed schema and a known type, and either nothing holds its business key or its id (and a
   * token is left), or the record under that business key has its id, metadata and schema.
   */
  lemma IssueSucceedsExactlyWhen(s: Registry, env: Env, c: Call)
    requires IndexesOk(s) && c.IssueCredential?
    ensures IssueReply(s, env, c).Token? <==>
              && c.operator in env.auths && c.operator in s.issuers && (c.issuerId, c.operator) in s.links
              && c.hashSchema in s.schemas && 1 <= c.credentialType <= 6
              && if exists id :: id in s.byId && SameBusiness(s.byId[id], c)
                 then c.credentialId in s.byId && SameBusiness(s.byId[c.credentialId], c)
                      && s.byId[c.credentialId].metadataHash == c.metadataHash
                      && s.byId[c.credentialId].hashSchema == c.hashSchema
                 else c.credentialId !in s.byId && s.nextToken < U64_MAX
  {
    var key := BusinessKey(c.issuerId, c.subjectId, c.eventId, c.credentialType);
    forall id | id in s.byId
      ensures SameBusiness(s.byId[id], c) <==> key in s.byBusinessKey && s.byBusinessKey[key] == id
    {
      assert RecordOk(s, id);
      var r := s.byId[id];
      BusinessKeyIsInjective(r.issuerId, r.subjectId, r.eventId, r.credentialType, c.issuerId, c.subjectId, c.eventId,
                             c.credentialType);
    }
    assert key in s.byBusinessKey ==> RecordOk(s, s.byBusinessKey[key]);
  }

  /**
   * A revocation is done exactly when it is authorised for a stored record and linked to its issuer, and the
   * record is not revoked yet, or was for the same reason; then the record is revoked for that reason, since
   * this ledger or, if it was before, since the one it had.
   */
  lemma RevokeSucceedsExactlyWhen(s: Registry, env: Env, c: Call)
    requires c.RevokeCredential?
    ensures var (s', reply), id := Exec(s, env, c), c.credentialId;
            && (reply.Done? <==>
                && c.operator in env.auths && c.operator in s.revokers && id in s.byId
                && (s.byId[id].issuerId, c.operator) in s.links
                && (s.byId[id].revoked ==> s.byId[id].revokedReasonHash == c.reasonHash))
            && (reply.Done? ==>
                && id in s'.byId && s'.byId[id].revoked && s'.byId[id].revokedReasonHash == c.reasonHash
                && s'.byId[id].revokedLedger
                   == if s.byId[id].revoked then s.byId[id].revokedLedger else Some(env.ledger))
  {}

  predicate SameBusiness(r: Record, c: Call)
    requires c.IssueCredential?
  {
    (r.issuerId, r.subjectId, r.eventId, r.credentialType) == (c.issuerId, c.subjectId, c.eventId, c.credentialType)
  }

  // ----- permanence -----

  /** What a record keeps for ever: its issue fields and, once revoked, its revocation. */
  ghost predicate Keeps(before: Record, after: Record) {
    && after.(revoked := before.revoked, revokedLedger := before.revokedLedger,
              revokedReasonHash := before.revokedReasonHash) == before
    && (before.revoked ==> after == before)
  }

  ghost predicate History(s: Registry, s': Registry) {
    && s.nextToken <= s'.nextToken
    && (forall id :: id in s.byId ==> id in s'.byId && Keeps(s.byId[id], s'.byId[id]))
  }

  /** A refused or aborted transaction leaves no trace. */
  lemma FailureLeavesNoTrace(s: Registry, env: Env, c: Call)
    requires Exec(s, env, c).1.Failed? || Exec(s, env, c).1.Aborted?
    ensures Exec(s, env, c).0 == s
  {}

  /** One transaction writes at most one record, of the credential it names. */
  ghost predicate WritesOnly(s: Registry, s': Registry, c: Call) {
    s'.byId == s.byId
    || ((c.IssueCredential? || c.RevokeCredential?) && c.credentialId in s'.byId
        && s'.byId == s.byId[c.credentialId := s'.byId[c.credentialId]]
        && (c.credentialId in s.byId ==> Keeps(s.byId[c.credentialId], s'.byId[c.credentialId])))
  }

  lemma ExecWritesOneRecord(s: Registry, env: Env, c: Call)
    requires IndexesOk(s)
    ensures WritesOnly(s, Exec(s, env, c).0, c)
  {
    hide BusinessKey;
    if c.IssueCredential? {
      assert Issues(s, env, c) ==> c.credentialId !in s.byId;
    } else if c.RevokeCredential? && c.credentialId in s.byId {
      assert RecordOk(s, c.credentialId);
    }
  }

  /** One transaction keeps every record and never takes a token back. */
  lemma ExecKeepsRecords(s: Registry, env: Env, c: Call)
    requires IndexesOk(s)
    ensures History(s, Exec(s, env, c).0)
  {
    hide BusinessKey, RecordOk;
    var s' := Exec(s, env, c).0;
    ExecWritesOneRecord(s, env, c);
    forall id | id in s.byId ensures id in s'.byId && Keeps(s.byId[id], s'.byId[id]) {
      if s'.byId != s.byId && id != c.credentialId {
        assert s'.byId[id] == s.byId[id];
      }
    }
  }

  lemma {:induction false} RunKeepsRecords(s: Registry, txs: seq<(Env, Call)>)
    requires IndexesOk(s)
    ensures History(s, Run(s, txs))
    decreases |txs|
  {
    if txs != [] {
      var s1 := Exec(s, txs[0].0, txs[0].1).0;
      ExecKeepsIndexes(s, txs[0].0, txs[0].1);
      ExecKeepsRecords(s, txs[0].0, txs[0].1);
      RunKeepsRecords(s1, txs[1..]);
      var s' := Run(s1, txs[1..]);
      forall id | id in s.byId ensures id in s'.byId && Keeps(s.byId[id], s'.byId[id]) {
        assert Keeps(s.byId[id], s1.byId[id]) && Keeps(s1.byId[id], s'.byId[id]);
      }
    }
  }

  /** Revocation is for ever: a revoked credential never verifies again, whatever is asked of it. */
  lemma RevokedNeverVerifies(s: Registry, txs: seq<(Env, Call)>, id: Bytes32, metadataHash: Bytes32, schema: U32)
    requires IndexesOk(s) && id in s.byId && s.byId[id].revoked
    ensures var t := Run(s, txs);
            !Verify(t, id, metadataHash, schema) && id in t.byId && t.byId[id] == s.byId[id]
  {
    RunKeepsRecords(s, txs);
  }

  /**
   * Re-issuing the fields of a successful issue, at any later time and while the operator is still
   * authorised, answers with the original token and writes nothing at all.
   */
  lemma ReissueIsIdempotent(s: Registry, env: Env, c: Call, txs: seq<(Env, Call)>, env': Env)
    requires IndexesOk(s) && c.IssueCredential? && Issue(s, env, c).1.Token?
    requires var t := Run(Issue(s, env, c).0, txs);
             c.operator in env'.auths && c.operator in t.issuers && (c.issuerId, c.operator) in t.links
               && c.hashSchema in t.schemas
    ensures var t := Run(Issue(s, env, c).0, txs);
            Exec(t, env', c) == (t, Issue(s, env, c).1)
  {
    var s1 := Issue(s, env, c).0;
    var t := Run(s1, txs);
    IssueKeepsIndexes(s, env, c);
    RunKeepsIndexes(s1, txs);
    RunKeepsRecords(s1, txs);
    IssuedRecord(s, env, c);
    assert Keeps(s1.byId[c.credentialId], t.byId[c.credentialId]);
    HeldRecordAnswers(t, env', c);
  }

  /**
   * Of a revocation, for ever: whatever is done in between, revoking the credential again writes nothing,
   * and is done exactly when the caller may revoke it and gives the first reason.
   */
  lemma FirstRevocationStands(s: Registry, env: Env, c: Call, txs: seq<(Env, Call)>, env': Env, again: Call)
    requires IndexesOk(s) && c.RevokeCredential? && Exec(s, env, c).1.Done?
    requires again.RevokeCredential? && again.credentialId == c.credentialId
    ensures var t := Run(Exec(s, env, c).0, txs);
            && c.credentialId in t.byId && Exec(t, env', again).0 == t
            && (Exec(t, env', again).1.Done? <==>
                && again.operator in env'.auths && again.operator in t.revokers
                && (t.byId[c.credentialId].issuerId, again.operator) in t.links
                && again.reasonHash == c.reasonHash)
  {
    hide IndexesOk;
    var s' := Exec(s, env, c).0;
    var t, id := Run(s', txs), c.credentialId;
    ExecKeepsIndexes(s, env, c);
    RevokeSucceedsExactlyWhen(s, env, c);
    RunKeepsRecords(s', txs);
    assert Keeps(s'.byId[id], t.byId[id]);
    RevokeSucceedsExactlyWhen(t, env', again);
  }

  /** After a successful issue the record under its id has the call's business key, metadata and schema. */
  lemma IssuedRecord(s: Registry, env: Env, c: Call)
    requires IndexesOk(s) && c.IssueCredential? && Issue(s, env, c).1.Token?
    ensures var s' := Issue(s, env, c).0;
            c.credentialId in s'.byId && Holds(s'.byId[c.credentialId], c)
              && s'.byId[c.credentialId].tokenId == Issue(s, env, c).1.tokenId
            && 1 <= c.credentialType <= 6
  {
    if !Issues(s, env, c) {
      var key := BusinessKey(c.issuerId, c.subjectId, c.eventId, c.credentialType);
      var r := s.byId[s.byBusinessKey[key]];
      assert RecordOk(s, s.byBusinessKey[key]);
      BusinessKeyIsInjective(r.issuerId, r.subjectId, r.eventId, r.credentialType, c.issuerId, c.subjectId, c.eventId,
                             c.credentialType);
    }
  }

  predicate Holds(r: Record, c: Call)
    requires c.IssueCredential?
  {
    SameBusiness(r, c) && r.credentialId == c.credentialId && r.metadataHash == c.metadataHash
      && r.hashSchema == c.hashSchema
  }

  lemma HeldRecordAnswers(s: Registry, env: Env, c: Call)
    requires IndexesOk(s) && c.IssueCredential? && c.credentialId in s.byId && Holds(s.byId[c.credentialId], c)
    requires c.operator in env.auths && c.operator in s.issuers && (c.issuerId, c.operator) in s.links
             && c.hashSchema in s.schemas
    ensures Issue(s, env, c) == (s, Token(s.byId[c.credentialId].tokenId))
  {}

  // ----- event sourcing -----

  /** What an indexer can know: records, token index, next token and issuer links. */
  datatype View = View(byId: map<Bytes32, Record>, byToken: map<U64, Bytes32>, nextToken: nat,
                       links: set<(Bytes32, Address)>)

  function ViewOf(s: Registry): View {
    View(s.byId, s.byToken, s.nextToken, s.links)
  }

  function Absorb(v: View, e: Event): View {
    match e
    case CredentialIssued(id, token, issuer, operator, subject, event, ctype, meta, schema, ledger) =>
      v.(byId := v.byId[id := Record(id, token, issuer, operator, subject, event, ctype, meta, schema, ledger, false,
                                     None, None)],
         byToken := v.byToken[token := id], nextToken := token + 1)
    case CredentialRevoked(id, _, _, reason, ledger) =>
      if id !in v.byId then v
      else v.(byId := v.byId[id :=
                             v.byId[id].(revoked := true, revokedLedger := Some(ledger), revokedReasonHash := reason)])
    case IssuerOperatorLinked(i, o) => v.(links := v.links + {(i, o)})
    case IssuerOperatorUnlinked(i, o) => v.(links := v.links - {(i, o)})
  }

  function Fold(events: seq<Event>): View {
    if events == [] then View(map[], map[], 1, {}) else Absorb(Fold(events[..|events| - 1]), events[|events| - 1])
  }

  /**
   * One transaction publishes at most one event, which absorbed turns the old view into the new
   * one; it publishes nothing exactly when the view does not change, and never when it fails.
   */
  lemma ExecPublishesItsEffect(s: Registry, env: Env, c: Call)
    requires IndexesOk(s)
    ensures var s' := Exec(s, env, c).0;
            || (s'.events == s.events && ViewOf(s') == ViewOf(s))
            || (exists e :: s'.events == s.events + [e] && ViewOf(s') == Absorb(ViewOf(s), e) != ViewOf(s))
    ensures Exec(s, env, c).1.Failed? || Exec(s, env, c).1.Aborted? ==> Exec(s, env, c).0 == s
  {
    var s' := Exec(s, env, c).0;
    if Exec(s, env, c).1.Failed? || Exec(s, env, c).1.Aborted? {
      FailureLeavesNoTrace(s, env, c);
    } else if s'.events != s.events {
      var e := s'.events[|s.events|];
      assert s'.events == s.events + [e];
      if c.IssueCredential? {
        assert s'.nextToken == s.nextToken + 1;
      } else if c.RevokeCredential? {
        assert !s.byId[c.credentialId].revoked && s'.byId[c.credentialId].revoked;
      } else {
        assert c.LinkIssuerOperator? || c.UnlinkIssuerOperator?;
        assert (c.issuerId, c.operator) in s.links <==> (c.issuerId, c.operator) !in s'.links;
      }
      assert ViewOf(s') == Absorb(ViewOf(s), e) != ViewOf(s);
    }
  }

  lemma {:induction false} RunIsEventSourced(s: Registry, txs: seq<(Env, Call)>)
    requires IndexesOk(s) && Fold(s.events) == ViewOf(s)
    ensures Fold(Run(s, txs).events) == ViewOf(Run(s, txs))
    decreases |txs|
  {
    if txs != [] {
      var s1 := Exec(s, txs[0].0, txs[0].1).0;
      ExecKeepsIndexes(s, txs[0].0, txs[0].1);
      ExecPublishesItsEffect(s, txs[0].0, txs[0].1);
      if s1.events != s.events {
        assert s1.events[..|s1.events| - 1] == s.events;
      }
      RunIsEventSourced(s1, txs[1..]);
    }
  }

  /** In every history, folding the published events from nothing rebuilds the registry's view. */
  lemma EventsRebuildTheRegistry(admin: Address, issuer: Address, revoker: Address, schema: U32, txs: seq<(Env, Call)>)
    ensures var s := Run(Deploy(admin, issuer, revoker, schema), txs); Fold(s.events) == ViewOf(s)
  {
    RunIsEventSourced(Deploy(admin, issuer, revoker, schema), txs);
  }

  // ----- what the published events say -----

  /** An event tells that the credential was issued with this metadata and schema. */
  ghost predicate IssuedIn(events: seq<Event>, id: Bytes32, metadataHash: Bytes32, hashSchema: U32) {
    exists i :: 0 <= i < |events| && events[i].CredentialIssued? && events[i].credentialId == id
                && events[i].metadataHash == metadataHash && events[i].hashSchema == hashSchema
  }

  ghost predicate RevokedIn(events: seq<Event>, id: Bytes32) {
    exists i :: 0 <= i < |events| && events[i].CredentialRevoked? && events[i].credentialId == id
  }

  ghost predicate Told(s: Registry, e: Event) {
    && (e.CredentialIssued? ==>
          && e.credentialId in s.byId && s.byId[e.credentialId].metadataHash == e.metadataHash
          && s.byId[e.credentialId].hashSchema == e.hashSchema)
    && (e.CredentialRevoked? ==> e.credentialId in s.byId && s.byId[e.credentialId].revoked)
  }

  /** The events tell of every record and every revocation, and of no others. */
  ghost predicate EventsTell(s: Registry) {
    && (forall i :: 0 <= i < |s.events| ==> Told(s, s.events[i]))
    && (forall id :: id in s.byId ==>
          && IssuedIn(s.events, id, s.byId[id].metadataHash, s.byId[id].hashSchema)
          && (s.byId[id].revoked ==> RevokedIn(s.events, id)))
  }

  lemma MoreEventsTellMore(events: seq<Event>, e: Event, id: Bytes32, metadataHash: Bytes32, hashSchema: U32)
    ensures IssuedIn(events, id, metadataHash, hashSchema) ==> IssuedIn(events + [e], id, metadataHash, hashSchema)
    ensures RevokedIn(events, id) ==> RevokedIn(events + [e], id)
    ensures e.CredentialIssued? ==> IssuedIn(events + [e], e.credentialId, e.metadataHash, e.hashSchema)
    ensures e.CredentialRevoked? ==> RevokedIn(events + [e], e.credentialId)
  {
    var more := events + [e];
    assert more[|events|] == e && forall i :: 0 <= i < |events| ==> more[i] == events[i];
  }

  /** One more event, with the record it is about; the others are as they were. */
  lemma OneMoreTold(s: Registry, s': Registry, e: Event)
    requires EventsTell(s) && s'.events == s.events + [e] && Told(s', e)
    requires forall id :: id in s.byId ==>
               && id in s'.byId && Keeps(s.byId[id], s'.byId[id])
               && (s'.byId[id].revoked ==> s.byId[id].revoked || (e.CredentialRevoked? && e.credentialId == id))
    requires forall id :: id in s'.byId && id !in s.byId ==>
               e.CredentialIssued? && e.credentialId == id && !s'.byId[id].revoked
    ensures EventsTell(s')
  {
    hide IssuedIn, RevokedIn;
    forall i | 0 <= i < |s'.events| ensures Told(s', s'.events[i]) {
      if i < |s.events| { assert Told(s, s.events[i]); }
    }
    forall id | id in s'.byId
      ensures IssuedIn(s'.events, id, s'.byId[id].metadataHash, s'.byId[id].hashSchema)
      ensures s'.byId[id].revoked ==> RevokedIn(s'.events, id)
    {
      MoreEventsTellMore(s.events, e, id, s'.byId[id].metadataHash, s'.byId[id].hashSchema);
    }
  }

  lemma SameTold(s: Registry, s': Registry)
    requires EventsTell(s) && s'.byId == s.byId && s'.events == s.events
    ensures EventsTell(s')
  {
    hide IssuedIn, RevokedIn;
    forall i | 0 <= i < |s'.events| ensures Told(s', s'.events[i]) { assert Told(s, s.events[i]); }
  }

  lemma ExecKeepsTelling(s: Registry, env: Env, c: Call)
    requires EventsTell(s)
    ensures EventsTell(Exec(s, env, c).0)
  {
    hide EventsTell, BusinessKey;
    var s' := Exec(s, env, c).0;
    if s'.events == s.events {
      SameTold(s, s');
    } else {
      OneMoreTold(s, s', s'.events[|s.events|]);
    }
  }

  lemma {:induction false} RunKeepsTelling(s: Registry, txs: seq<(Env, Call)>)
    requires EventsTell(s)
    ensures EventsTell(Run(s, txs))
    decreases |txs|
  {
    hide EventsTell, Exec;
    if txs != [] {
      ExecKeepsTelling(s, txs[0].0, txs[0].1);
      RunKeepsTelling(Exec(s, txs[0].0, txs[0].1).0, txs[1..]);
    }
  }

  lemma VerifiesWhenTold(s: Registry, id: Bytes32, metadataHash: Bytes32, hashSchema: U32)
    requires EventsTell(s)
    ensures Verify(s, id, metadataHash, hashSchema)
            <==> IssuedIn(s.events, id, metadataHash, hashSchema) && !RevokedIn(s.events, id)
  {}

  /**
   * In every history a credential verifies against a hash and a schema exactly when it was published
   * as issued with just these and never as revoked.
   */
  lemma VerifiesExactlyWhen(admin: Address, issuer: Address, revoker: Address, schema: U32, txs: seq<(Env, Call)>,
                            id: Bytes32, metadataHash: Bytes32, hashSchema: U32)
    ensures var s := Run(Deploy(admin, issuer, revoker, schema), txs);
            Verify(s, id, metadataHash, hashSchema)
            <==> IssuedIn(s.events, id, metadataHash, hashSchema) && !RevokedIn(s.events, id)
  {
    hide IssuedIn, RevokedIn, Verify;
    RunKeepsTelling(Deploy(admin, issuer, revoker, schema), txs);
    VerifiesWhenTold(Run(Deploy(admin, issuer, revoker, schema), txs), id, metadataHash, hashSchema);
  }

  /** An issue that writes publishes the call's own fields, the next token and the ledger it closed in. */
  lemma IssuePublishesTheCall(s: Registry, env: Env, c: Call)
    requires IndexesOk(s) && c.IssueCredential? && c.credentialId !in s.byId
    requires Exec(s, env, c).1.Token?
    ensures var (s', reply) := Exec(s, env, c);
            && reply == Token(s.nextToken) && s'.nextToken == s.nextToken + 1
            && s'.events == s.events
               + [CredentialIssued(c.credentialId, s.nextToken, c.issuerId, c.operator, c.subjectId, c.eventId,
                                   c.credentialType, c.metadataHash, c.hashSchema, env.ledger)]
  {
    IssueSucceedsExactlyWhen(s, env, c);
  }

  /** A revocation that writes publishes the credential's token, its revoker, the reason and the ledger. */
  lemma RevokePublishesTheCall(s: Registry, env: Env, c: Call)
    requires c.RevokeCredential? && c.credentialId in s.byId && !s.byId[c.credentialId].revoked
    requires Exec(s, env, c).1.Done?
    ensures var s' := Exec(s, env, c).0;
            s'.events == s.events + [CredentialRevoked(c.credentialId, s.byId[c.credentialId].tokenId, c.operator,
                                                       c.reasonHash, env.ledger)]
  {}

  /** A refusal names a check that failed. */
  lemma RefusalsNameTheirCause(s: Registry, env: Env, c: Call)
    requires IndexesOk(s) && Exec(s, env, c).1.Failed? && (c.IssueCredential? || c.RevokeCredential?)
    ensures c.operator in env.auths
    ensures match Exec(s, env, c).1.error
            case Unauthorized => c.operator !in if c.IssueCredential? then s.issuers else s.revokers
            case NotFound => c.RevokeCredential? && c.credentialId !in s.byId
            case IssuerOperatorNotLinked =>
              if c.IssueCredential? then (c.issuerId, c.operator) !in s.links
              else c.credentialId in s.byId && (s.byId[c.credentialId].issuerId, c.operator) !in s.links
            case UnsupportedHashSchema => c.IssueCredential? && c.hashSchema !in s.schemas
            case UnknownCredentialType => c.IssueCredential? && !(1 <= c.credentialType <= 6)
            case TokenIdOverflow => c.IssueCredential? && s.nextToken == U64_MAX
            case AlreadyRevoked =>
              && c.RevokeCredential? && c.credentialId in s.byId && s.byId[c.credentialId].revoked
              && s.byId[c.credentialId].revokedReasonHash != c.reasonHash
            case AlreadyExists =>
              && c.IssueCredential?
              && exists id :: id in s.byId && (id == c.credentialId || SameBusiness(s.byId[id], c))
                              && !Holds(s.byId[id], c)
            case InvalidInput => false
  {
    if c.IssueCredential? {
      ReplayNeverDangles(s, env, c);
      if Exec(s, env, c).1 == Failed(AlreadyExists) { AnotherHolds(s, env, c); }
    }
  }

  lemma AnotherHolds(s: Registry, env: Env, c: Call)
    requires IndexesOk(s) && c.IssueCredential? && IssueReply(s, env, c) == Failed(AlreadyExists)
    ensures exists id :: id in s.byId && (id == c.credentialId || SameBusiness(s.byId[id], c)) && !Holds(s.byId[id], c)
  {
    var key := BusinessKey(c.issuerId, c.subjectId, c.eventId, c.credentialType);
    if key in s.byBusinessKey {
      var r := s.byId[s.byBusinessKey[key]];
      BusinessKeyIsInjective(r.issuerId, r.subjectId, r.eventId, r.credentialType, c.issuerId, c.subjectId, c.eventId,
                             c.credentialType);
    } else {
      assert RecordOk(s, c.credentialId);
      assert c.credentialId in s.byId && !Holds(s.byId[c.credentialId], c);
    }
  }

  // ----- roles, schemas and links -----

  lemma {:induction false} RunSnoc(s: Registry, txs: seq<(Env, Call)>, tx: (Env, Call))
    ensures Run(s, txs + [tx]) == Exec(Run(s, txs), tx.0, tx.1).0
    decreases |txs|
  {
    hide Exec;
    if txs == [] {
      assert txs + [tx] == [tx] && [tx][1..] == [];
    } else {
      assert (txs + [tx])[1..] == txs[1..] + [tx];
      RunSnoc(Exec(s, txs[0].0, txs[0].1).0, txs[1..], tx);
    }
  }

  /** Each right is what the admin's transactions have made of it. */
  ghost predicate AsGranted(s: Registry, start: Registry, txs: seq<(Env, Call)>, account: Address, issuerId: Bytes32,
                            schema: U32)
  {
    var a := start.admin;
    && s.admin == a
    && (account in s.issuers
        <==> Stands(txs, a, account in start.issuers, GrantIssuer(account), Some(RevokeIssuer(account))))
    && (account in s.revokers
        <==> Stands(txs, a, account in start.revokers, GrantRevoker(account), Some(RevokeRevoker(account))))
    && (schema in s.schemas <==> Stands(txs, a, schema in start.schemas, AllowHashSchema(schema), None))
    && ((issuerId, account) in s.links
        <==> Stands(txs, a, (issuerId, account) in start.links, LinkIssuerOperator(issuerId, account),
                    Some(UnlinkIssuerOperator(issuerId, account))))
  }

  /** What one transaction makes of each right. */
  lemma ExecRights(s: Registry, tx: (Env, Call), account: Address, issuerId: Bytes32, schema: U32)
    ensures var s' := Exec(s, tx.0, tx.1).0;
            && s'.admin == s.admin
            && (account in s'.issuers
                <==> Does(tx, s.admin, GrantIssuer(account))
                     || (account in s.issuers && !Does(tx, s.admin, RevokeIssuer(account))))
            && (account in s'.revokers
                <==> Does(tx, s.admin, GrantRevoker(account))
                     || (account in s.revokers && !Does(tx, s.admin, RevokeRevoker(account))))
            && (schema in s'.schemas <==> Does(tx, s.admin, AllowHashSchema(schema)) || schema in s.schemas)
            && ((issuerId, account) in s'.links
                <==> Does(tx, s.admin, LinkIssuerOperator(issuerId, account))
                     || ((issuerId, account) in s.links && !Does(tx, s.admin, UnlinkIssuerOperator(issuerId, account))))
  {
    hide BusinessKey;
  }

  lemma OneMoreGrant(s: Registry, start: Registry, txs: seq<(Env, Call)>, tx: (Env, Call), account: Address,
                     issuerId: Bytes32, schema: U32)
    requires AsGranted(s, start, txs, account, issuerId, schema)
    ensures AsGranted(Exec(s, tx.0, tx.1).0, start, txs + [tx], account, issuerId, schema)
  {
    hide Stands, Does, Exec;
    ExecRights(s, tx, account, issuerId, schema);
    var a := start.admin;
    StandsOn(txs, tx, a, account in start.issuers, GrantIssuer(account), Some(RevokeIssuer(account)));
    StandsOn(txs, tx, a, account in start.revokers, GrantRevoker(account), Some(RevokeRevoker(account)));
    StandsOn(txs, tx, a, schema in start.schemas, AllowHashSchema(schema), None);
    StandsOn(txs, tx, a, (issuerId, account) in start.links, LinkIssuerOperator(issuerId, account),
             Some(UnlinkIssuerOperator(issuerId, account)));
  }

  /**
   * In every history who may issue and revoke, which schemas are allowed and who is linked to whom is
   * what the admin's own transactions last made of it, from what the deployment set.
   */
  lemma {:induction false} RightsAreWhatWasGranted(start: Registry, txs: seq<(Env, Call)>, account: Address,
                                                   issuerId: Bytes32, schema: U32)
    ensures AsGranted(Run(start, txs), start, txs, account, issuerId, schema)
    decreases |txs|
  {
    hide AsGranted, Exec;
    if txs == [] {
      NothingGranted(start, account, issuerId, schema);
    } else {
      var before, tx := txs[..|txs| - 1], txs[|txs| - 1];
      assert txs == before + [tx];
      RightsAreWhatWasGranted(start, before, account, issuerId, schema);
      RunSnoc(start, before, tx);
      OneMoreGrant(Run(start, before), start, before, tx, account, issuerId, schema);
    }
  }

  /** From the deployment on: its issuer, its revoker, its schema, and nobody linked. */
  lemma RightsSinceDeployment(admin: Address, issuer: Address, revoker: Address, schema: U32, txs: seq<(Env, Call)>,
                              account: Address, issuerId: Bytes32, h: U32)
    ensures var s := Run(Deploy(admin, issuer, revoker, schema), txs);
            && (account in s.issuers
                <==> Stands(txs, admin, account == issuer, GrantIssuer(account), Some(RevokeIssuer(account))))
            && (account in s.revokers
                <==> Stands(txs, admin, account == revoker, GrantRevoker(account), Some(RevokeRevoker(account))))
            && (h in s.schemas <==> Stands(txs, admin, h == schema, AllowHashSchema(h), None))
            && ((issuerId, account) in s.links
                <==> Stands(txs, admin, false, LinkIssuerOperator(issuerId, account),
                            Some(UnlinkIssuerOperator(issuerId, account))))
  {
    hide Stands, Run;
    RightsAreWhatWasGranted(Deploy(admin, issuer, revoker, schema), txs, account, issuerId, h);
  }

  lemma NothingGranted(start: Registry, account: Address, issuerId: Bytes32, schema: U32)
    ensures AsGranted(start, start, [], account, issuerId, schema)
  {}

  // ----- the contract object -----

  /** What every transaction of the object keeps. */
  ghost predicate Sound(s: Registry) {
    IndexesOk(s) && EventsTell(s)
  }

  lemma ExecKeepsSound(s: Registry, env: Env, c: Call)
    requires Sound(s)
    ensures Sound(Exec(s, env, c).0)
  {
    hide IndexesOk, EventsTell, Exec;
    ExecKeepsIndexes(s, env, c);
    ExecKeepsTelling(s, env, c);
  }

  /** The deployed contract: every method reads and sets storage entries, and publishes events, one by one. */
  class Contract {
    var admin: Address
    var issuers: set<Address>
    var revokers: set<Address>
    var schemas: set<U32>
    var links: set<(Bytes32, Address)>
    var byId: map<Bytes32, Record>
    var byToken: map<U64, Bytes32>
    var byBusinessKey: map<Digest, Bytes32>
    var nextToken: U64
    var events: seq<Event>

    ghost function Storage(): Registry
      reads this
    {
      Registry(admin, issuers, revokers, schemas, links, byId, byToken, byBusinessKey, nextToken, events)
    }

    constructor (admin: Address, issuer: Address, revoker: Address, hashSchema: U32)
      ensures Storage() == Deploy(admin, issuer, revoker, hashSchema) && Sound(Storage())
    {
      this.admin := admin;
      issuers, revokers, schemas := {issuer}, {revoker}, {hashSchema};
      links, byId, byToken, byBusinessKey := {}, map[], map[], map[];
      nextToken := 1;
      events := [];
    }

    method IssueCredential(env: Env, operator: Address, credentialId: Bytes32, issuerId: Bytes32, subjectId: Bytes32,
                           eventId: Bytes32, credentialType: U32, metadataHash: Bytes32, hashSchema: U32)
      returns (reply: Reply)
      modifies this
      ensures var c :=
              Call.IssueCredential(operator, credentialId, issuerId, subjectId, eventId, credentialType, metadataHash,
                                   hashSchema);
              (Storage(), reply) == Exec(old(Storage()), env, c)
      ensures old(Sound(Storage())) ==> Sound(Storage())
    {
      ghost var c :=
        Call.IssueCredential(operator, credentialId, issuerId, subjectId, eventId, credentialType, metadataHash,
                             hashSchema);
      if Sound(Storage()) { ExecKeepsSound(Storage(), env, c); }
      if operator !in env.auths { return Aborted; }
      if operator !in issuers { return Failed(Unauthorized); }
      if (issuerId, operator) !in links { return Failed(IssuerOperatorNotLinked); }
      if hashSchema !in schemas { return Failed(UnsupportedHashSchema); }
      if credentialType < 1 || 6 < credentialType { return Failed(UnknownCredentialType); }

      var key := BusinessKey(issuerId, subjectId, eventId, credentialType);
      if key in byBusinessKey {
        if byBusinessKey[key] !in byId { return Failed(NotFound); }
        var existing := byId[byBusinessKey[key]];
        if existing.credentialId == credentialId && existing.metadataHash == metadataHash
          && existing.hashSchema == hashSchema {
          return Token(existing.tokenId);
        }
        return Failed(AlreadyExists);
      }
      if credentialId in byId { return Failed(AlreadyExists); }
      var next := nextToken;
      if next == U64_MAX { return Failed(TokenIdOverflow); }

      byId := byId[credentialId := Record(credentialId, next, issuerId, operator, subjectId, eventId, credentialType,
                                          metadataHash, hashSchema, env.ledger, false, None, None)];
      byToken := byToken[next := credentialId];
      byBusinessKey := byBusinessKey[key := credentialId];
      nextToken := next + 1;
      events := events + [CredentialIssued(credentialId, next, issuerId, operator, subjectId, eventId, credentialType,
                                           metadataHash, hashSchema, env.ledger)];
      return Token(next);
    }

    method RevokeCredential(env: Env, operator: Address, credentialId: Bytes32,
                            reasonHash: Option<Bytes32>)
      returns (reply: Reply)
      modifies this`byId, this`events
      ensures (Storage(), reply) == Exec(old(Storage()), env, Call.RevokeCredential(operator, credentialId, reasonHash))
      ensures old(Sound(Storage())) ==> Sound(Storage())
    {
      if Sound(Storage()) {
        ExecKeepsSound(Storage(), env, Call.RevokeCredential(operator, credentialId, reasonHash));
      }
      if operator !in env.auths { return Aborted; }
      if credentialId !in byId { return Failed(NotFound); }
      var record := byId[credentialId];
      if operator !in revokers { return Failed(Unauthorized); }
      if (record.issuerId, operator) !in links { return Failed(IssuerOperatorNotLinked); }
      if record.revoked {
        return if record.revokedReasonHash == reasonHash then Done else Failed(AlreadyRevoked);
      }
      byId := byId[credentialId :=
                   record.(revoked := true, revokedLedger := Some(env.ledger), revokedReasonHash := reasonHash)];
      events := events + [CredentialRevoked(credentialId, record.tokenId, operator, reasonHash, env.ledger)];
      return Done;
    }

    method LinkIssuerOperator(env: Env, issuerId: Bytes32, operator: Address) returns (reply: Reply)
      modifies this`links, this`events
      ensures (Storage(), reply) == Exec(old(Storage()), env, Call.LinkIssuerOperator(issuerId, operator))
      ensures old(Sound(Storage())) ==> Sound(Storage())
    {
      if Sound(Storage()) { ExecKeepsSound(Storage(), env, Call.LinkIssuerOperator(issuerId, operator)); }
      if admin !in env.auths { return Aborted; }
      if (issuerId, operator) !in links {
        links := links + {(issuerId, operator)};
        events := events + [IssuerOperatorLinked(issuerId, operator)];
      }
      return Done;
    }

    method UnlinkIssuerOperator(env: Env, issuerId: Bytes32, operator: Address) returns (reply: Reply)
      modifies this`links, this`events
      ensures (Storage(), reply) == Exec(old(Storage()), env, Call.UnlinkIssuerOperator(issuerId, operator))
      ensures old(Sound(Storage())) ==> Sound(Storage())
    {
      if Sound(Storage()) { ExecKeepsSound(Storage(), env, Call.UnlinkIssuerOperator(issuerId, operator)); }
      if admin !in env.auths { return Aborted; }
      if (issuerId, operator) in links {
        links := links - {(issuerId, operator)};
        events := events + [IssuerOperatorUnlinked(issuerId, operator)];
      }
      return Done;
    }

    /** Public verification, over a storage whose events tell of its records. */
    method VerifyCredential(credentialId: Bytes32, metadataHash: Bytes32, hashSchema: U32) returns (ok: bool)
      requires Sound(Storage())
      ensures ok == Verify(Storage(), credentialId, metadataHash, hashSchema)
      ensures ok <==> IssuedIn(events, credentialId, metadataHash, hashSchema) && !RevokedIn(events, credentialId)
    {
      VerifiesWhenTold(Storage(), credentialId, metadataHash, hashSchema);
      if credentialId !in byId { return false; }
      var record := byId[credentialId];
      return !record.revoked && record.metadataHash == metadataHash && record.hashSchema == hashSchema;
    }
  }
}
